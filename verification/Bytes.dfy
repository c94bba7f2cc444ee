/** Bytes and the big-endian integers that every on-disk structure is made of. */
module Bytes {

  type byte = b: int | 0 <= b < 256

  const U32 := 0x1_0000_0000
  const U64 := 0x1_0000_0000_0000_0000

  /** binary.BigEndian.PutUint32, keeping the low 32 bits as uint32(n) does. */
  function BE32(n: nat): (s: seq<byte>)
    ensures |s| == 4
  {
    var a := n / 256;
    var b := a / 256;
    var c := b / 256;
    [c % 256, b % 256, a % 256, n % 256]
  }

  /** binary.BigEndian.Uint32. */
  function FromBE32(s: seq<byte>): (n: nat)
    requires |s| == 4
    ensures n < U32
  {
    ((s[0] as int * 256 + s[1] as int) * 256 + s[2] as int) * 256 + s[3] as int
  }

  /** binary.BigEndian.PutUint64. */
  function BE64(n: nat): (s: seq<byte>)
    ensures |s| == 8
  {
    BE32(n / U32) + BE32(n % U32)
  }

  /** binary.BigEndian.Uint64. */
  function FromBE64(s: seq<byte>): (n: nat)
    requires |s| == 8
    ensures n < U64
  {
    FromBE32(s[..4]) * U32 + FromBE32(s[4..])
  }

  /** Most significant byte first. */
  lemma BigEndian32(n: nat)
    ensures BE32(n) == [n / 0x100_0000 % 256, n / 0x1_0000 % 256, n / 0x100 % 256, n % 256]
  {
  }

  lemma BigEndian64(n: nat)
    ensures var high, low := n / U32, n % U32;
            BE64(n) == [high / 0x100_0000 % 256, high / 0x1_0000 % 256, high / 0x100 % 256, high % 256,
                        low / 0x100_0000 % 256, low / 0x1_0000 % 256, low / 0x100 % 256, low % 256]
  {
    hide BE32;
    BigEndian32(n / U32);
    BigEndian32(n % U32);
  }

  lemma RoundTrip32(n: nat)
    requires n < U32
    ensures FromBE32(BE32(n)) == n
  {
  }

  lemma RoundTrip64(n: nat)
    requires n < U64
    ensures FromBE64(BE64(n)) == n
  {
    assert BE64(n)[..4] == BE32(n / U32);
    assert BE64(n)[4..] == BE32(n % U32);
    RoundTrip32(n / U32);
    RoundTrip32(n % U32);
  }

  /** Every four bytes are the encoding of the number they decode to. */
  lemma Onto32(s: seq<byte>)
    requires |s| == 4
    ensures BE32(FromBE32(s)) == s
  {
    var c := s[0] as int;
    var b := c * 256 + s[1] as int;
    var a := b * 256 + s[2] as int;
    LastByte(c, s[1]);
    LastByte(b, s[2]);
    LastByte(a, s[3]);
    assert FromBE32(s) == a * 256 + s[3] as int;
  }

  lemma LastByte(n: nat, b: byte)
    ensures (n * 256 + b as int) / 256 == n && (n * 256 + b as int) % 256 == b as int
  {
  }

  lemma Onto64(s: seq<byte>)
    requires |s| == 8
    ensures BE64(FromBE64(s)) == s
  {
    var high, low := FromBE32(s[..4]), FromBE32(s[4..]);
    assert FromBE64(s) / U32 == high && FromBE64(s) % U32 == low;
    Onto32(s[..4]);
    Onto32(s[4..]);
    assert s == s[..4] + s[4..];
  }

  /** os.File.WriteAt inside or at the end of a file. */
  function WriteAt(file: seq<byte>, data: seq<byte>, at: nat): (r: seq<byte>)
    requires at <= |file|
    ensures |r| >= at + |data|
    ensures r[..at] == file[..at] && r[at..at + |data|] == data
  {
    file[..at] + data + if at + |data| < |file| then file[at + |data|..] else []
  }
}
