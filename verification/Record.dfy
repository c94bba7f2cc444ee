/** Record framing (broker/log/record.go): length, checksum, payload. */
module Record {
  import opened Bytes
  import Crc

  const RECORD_HEADER := 8
  const MAX_RECORD := 0x80_0000

  type Payload = seq<byte>

  /** The bytes of one record on disk. */
  function Frame(p: Payload): (f: seq<byte>)
    ensures |f| == RECORD_HEADER + |p|
  {
    var length := BE32(|p|);
    length + BE32(Crc.Sum32(length + p)) + p
  }

  /** Four bytes of length, four of checksum over length and payload, both most significant first, then the payload. */
  lemma FrameLayout(p: Payload)
    ensures var f, sum := Frame(p), Crc.Sum32(Frame(p)[..4] + p);
            && f[..4] == [|p| / 0x100_0000 % 256, |p| / 0x1_0000 % 256, |p| / 0x100 % 256, |p| % 256]
            && f[4..8] == [sum / 0x100_0000 % 256, sum / 0x1_0000 % 256, sum / 0x100 % 256, sum % 256]
            && f[8..] == p
  {
    hide Crc.Sum32, BE32;
    BigEndian32(|p|);
    assert Frame(p)[..4] == BE32(|p|);
    BigEndian32(Crc.Sum32(BE32(|p|) + p));
  }

  datatype ReadResult = Whole(payload: Payload, n: nat) | Eof | Torn | Corrupt

  /** readRecord on a reader that has exactly the bytes `f` left. */
  function ReadRecord(f: seq<byte>): (r: ReadResult) {
    if |f| == 0 then Eof
    else if |f| < RECORD_HEADER then Torn
    else
      var length := FromBE32(f[..4]);
      if length > MAX_RECORD then Corrupt
      else if |f| - RECORD_HEADER < length then Torn
      else
        var payload := f[RECORD_HEADER..RECORD_HEADER + length];
        if Crc.Sum32(f[..4] + payload) != FromBE32(f[4..8]) then Corrupt
        else Whole(payload, RECORD_HEADER + length)
  }

  /**
   * Every other reading: the end of the file, a record cut short, or damage. A
   * length above the maximum is damage, however few bytes follow.
   */
  lemma ReadingKinds(f: seq<byte>)
    ensures ReadRecord(f).Eof? <==> f == []
    ensures ReadRecord(f).Torn? <==>
              0 < |f| < 8 || (|f| >= 8 && Declared(f) <= 0x80_0000 && |f| < 8 + Declared(f))
    ensures |f| >= 8 && Declared(f) > 0x80_0000 ==> ReadRecord(f).Corrupt?
  {
    hide Crc.Sum32;
    if |f| >= 8 {
      assert f[..4] == [f[0], f[1], f[2], f[3]];
    }
  }

  /** The length a header declares, most significant byte first. */
  function Declared(f: seq<byte>): nat
    requires |f| >= 4
  {
    0x100_0000 * f[0] as int + 0x1_0000 * f[1] as int + 0x100 * f[2] as int + f[3] as int
  }

  datatype EncodeResult = Encoded(buf: array<byte>) | TooLarge

  /** encodeRecord: the frame, written field by field into one buffer. */
  method EncodeRecord(payload: Payload) returns (r: EncodeResult)
    ensures r.TooLarge? <==> |payload| > MAX_RECORD
    ensures r.Encoded? ==> fresh(r.buf) && r.buf[..] == Frame(payload)
  {
    if |payload| > MAX_RECORD {
      return TooLarge;
    }
    var buf := new byte[RECORD_HEADER + |payload|];
    var length := BE32(|payload|);
    forall i | 0 <= i < 4 { buf[i] := length[i]; }
    var sum := BE32(Crc.Sum32(length + payload));
    forall i | 4 <= i < 8 { buf[i] := sum[i - 4]; }
    forall i | 8 <= i < buf.Length { buf[i] := payload[i - 8]; }
    assert buf[..4] == length && buf[4..8] == sum && buf[8..] == payload;
    assert buf[..] == buf[..4] + buf[4..8] + buf[8..];
    return Encoded(buf);
  }

  /** Whatever follows a record, reading returns its payload and consumes its frame. */
  lemma ReadFrame(p: Payload, rest: seq<byte>)
    requires |p| <= MAX_RECORD
    ensures ReadRecord(Frame(p) + rest) == Whole(p, RECORD_HEADER + |p|)
  {
    var f := Frame(p) + rest;
    var length := BE32(|p|);
    var sum := Crc.Sum32(length + p);
    assert f[..4] == length && f[4..8] == BE32(sum) && f[8..8 + |p|] == p;
    RoundTrip32(|p|);
    RoundTrip32(sum);
  }

  /** The converse: a record is read only where its exact frame stands. */
  lemma WholeIsFrame(f: seq<byte>)
    requires ReadRecord(f).Whole?
    ensures var r := ReadRecord(f);
            && |r.payload| <= MAX_RECORD && r.n == RECORD_HEADER + |r.payload| <= |f|
            && f[..r.n] == Frame(r.payload)
  {
    var r := ReadRecord(f);
    Onto32(f[..4]);
    Onto32(f[4..8]);
    assert f[..r.n] == f[..4] + f[4..8] + r.payload;
  }

  /** A record cut anywhere short of its end, but not at its start, reads as torn. */
  lemma StrictPrefixIsTorn(p: Payload, k: nat)
    requires |p| <= MAX_RECORD && 0 < k < RECORD_HEADER + |p|
    ensures ReadRecord(Frame(p)[..k]) == Torn
  {
    if k >= RECORD_HEADER {
      assert Frame(p)[..k][..4] == BE32(|p|);
      RoundTrip32(|p|);
    }
  }

  /** Any change to one byte of the checksum or the payload reads as corrupt. */
  lemma OneByteDamageIsCorrupt(p: Payload, i: nat, b: byte, rest: seq<byte>)
    requires |p| <= MAX_RECORD && 4 <= i < RECORD_HEADER + |p|
    requires Frame(p)[i] != b
    ensures ReadRecord(Frame(p)[i := b] + rest) == Corrupt
  {
    var length := BE32(|p|);
    var sum := BE32(Crc.Sum32(length + p));
    if i < 8 {
      var bad := sum[i - 4 := b];
      assert bad[i - 4] == b && Frame(p)[4..8] == sum;
      assert Frame(p)[i := b] == length + bad + p;
      BurstDamageIsCorrupt(p, bad, p, 0, 0, rest);
    } else {
      var q := p[i - 8 := b];
      assert Frame(p)[4..8] == sum && Frame(p)[i := b] == length + sum + q;
      Crc.ByteIsBurst(p, i - 8, b);
      BurstDamageIsCorrupt(p, sum, q, 8 * (i - 8), 8, rest);
    }
  }

  /** Any change to the payload within 32 consecutive bits, or to the checksum at all, reads as corrupt. */
  lemma BurstDamageIsCorrupt(p: Payload, sum: seq<byte>, q: Payload, i: nat, w: nat, rest: seq<byte>)
    requires |p| <= MAX_RECORD && |sum| == 4
    requires (q == p && sum != Frame(p)[4..8]) || (sum == Frame(p)[4..8] && Crc.Burst(p, q, i, w) && w <= 32)
    ensures ReadRecord(BE32(|p|) + sum + q + rest) == Corrupt
  {
    hide Crc.Burst, ReadRecord;
    var length := BE32(|p|);
    var want := Crc.Sum32(length + p);
    assert Frame(p)[4..8] == BE32(want);
    RoundTrip32(want);
    Onto32(sum);
    if sum == BE32(want) {
      BurstSize(p, q, i, w);
      Crc.BurstBehind(length, p, q, i, w);
      Crc.ChecksumDetectsBursts(length + p, length + q, 32 + i, w);
    }
    MismatchIsCorrupt(sum, q, rest);
  }

  lemma MismatchIsCorrupt(sum: seq<byte>, q: Payload, rest: seq<byte>)
    requires |q| <= MAX_RECORD && |sum| == 4 && FromBE32(sum) != Crc.Sum32(BE32(|q|) + q)
    ensures ReadRecord(BE32(|q|) + sum + q + rest) == Corrupt
  {
    var f := BE32(|q|) + sum + q + rest;
    RoundTrip32(|q|);
    assert f[..4] == BE32(|q|) && f[4..8] == sum && f[8..8 + |q|] == q;
  }

  lemma BurstSize(p: Payload, q: Payload, i: nat, w: nat)
    requires Crc.Burst(p, q, i, w)
    ensures |q| == |p| && q != p
  {
  }
}
