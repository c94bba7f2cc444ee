/** Runs of records laid end to end, and the full scan that reads them back. */
module RecordRun {
  import opened Bytes
  import opened Record

  ghost predicate Fits(recs: seq<Payload>) {
    forall i :: 0 <= i < |recs| ==> |recs[i]| <= MAX_RECORD
  }

  /** Records end to end, as sequential appends leave them. */
  function Frames(recs: seq<Payload>): (f: seq<byte>)
    ensures |f| >= RECORD_HEADER * |recs|
  {
    if recs == [] then [] else Frame(recs[0]) + Frames(recs[1..])
  }

  /** A full scan: the longest run of whole records at the front of `f`. */
  function Parse(f: seq<byte>): (recs: seq<Payload>)
    decreases |f|
  {
    var r := ReadRecord(f);
    if r.Whole? then WholeIsFrame(f); [r.payload] + Parse(f[r.n..]) else []
  }

  /** How many records of `recs` lie wholly within their first `k` bytes. */
  function Within(recs: seq<Payload>, k: int): (m: nat)
    ensures m <= |recs|
  {
    if recs == [] || k < RECORD_HEADER + |recs[0]| then 0
    else 1 + Within(recs[1..], k - RECORD_HEADER - |recs[0]|)
  }

  lemma {:induction false} FramesConcat(a: seq<Payload>, b: seq<Payload>)
    ensures Frames(a + b) == Frames(a) + Frames(b)
  {
    hide Frame;
    if a == [] {
      assert a + b == b;
    } else {
      assert (a + b)[1..] == a[1..] + b;
      FramesConcat(a[1..], b);
    }
  }

  lemma FramesOne(p: Payload)
    ensures Frames([p]) == Frame(p)
  {
    assert [p][1..] == [];
  }

  lemma FramesSnoc(recs: seq<Payload>, p: Payload)
    ensures Frames(recs + [p]) == Frames(recs) + Frame(p)
  {
    FramesConcat(recs, [p]);
    FramesOne(p);
  }

  /** Every file is a run of frames and a remainder that does not start with a record. */
  lemma {:induction false} ParseDecomposes(f: seq<byte>)
    ensures var recs := Parse(f);
            && Fits(recs) && |Frames(recs)| <= |f| && f[..|Frames(recs)|] == Frames(recs)
            && !ReadRecord(f[|Frames(recs)|..]).Whole?
    decreases |f|
  {
    hide Frame, ReadRecord;
    var r := ReadRecord(f);
    if r.Whole? {
      WholeIsFrame(f);
      var rest := f[r.n..];
      ParseDecomposes(rest);
      var recs := Parse(f);
      assert recs[1..] == Parse(rest);
      assert Frames(recs) == Frame(r.payload) + Frames(Parse(rest));
      assert f[..|Frames(recs)|] == f[..r.n] + rest[..|Frames(Parse(rest))|];
      assert f[|Frames(recs)|..] == rest[|Frames(Parse(rest))|..];
    } else {
      assert f[0..] == f;
    }
  }

  /** A run of frames scans back to its records and goes on with whatever follows. */
  lemma {:induction false} ParseBehind(recs: seq<Payload>, rest: seq<byte>)
    requires Fits(recs)
    ensures Parse(Frames(recs) + rest) == recs + Parse(rest)
  {
    hide Frame, Parse;
    if recs == [] {
      assert Frames(recs) + rest == rest;
    } else {
      var more := Frames(recs[1..]) + rest;
      assert Frames(recs) + rest == Frame(recs[0]) + more;
      ParseFirst(recs[0], more);
      ParseBehind(recs[1..], rest);
      assert recs == [recs[0]] + recs[1..];
    }
  }

  lemma ParseFirst(p: Payload, rest: seq<byte>)
    requires |p| <= MAX_RECORD
    ensures Parse(Frame(p) + rest) == [p] + Parse(rest)
  {
    hide Frame, ReadRecord;
    var f := Frame(p) + rest;
    ReadFrame(p, rest);
    assert f[RECORD_HEADER + |p|..] == rest;
  }

  /** The converse: frames followed by no record scan back to exactly those records. */
  lemma ParseFrames(recs: seq<Payload>, tail: seq<byte>)
    requires Fits(recs) && !ReadRecord(tail).Whole?
    ensures Parse(Frames(recs) + tail) == recs
  {
    ParseBehind(recs, tail);
  }

  /** Fewer bytes scan to fewer records of the same ones. */
  lemma {:induction false} ParsePrefix(f: seq<byte>, k: nat)
    requires k <= |f|
    ensures Parse(f[..k]) <= Parse(f)
    decreases k
  {
    hide ReadRecord;
    var r := ReadRecord(f[..k]);
    if r.Whole? {
      WholeInPrefix(f, k);
      WholeIsFrame(f[..k]);
      assert f[..k][r.n..] == f[r.n..][..k - r.n];
      ParsePrefix(f[r.n..], k - r.n);
    }
  }

  lemma WholeInPrefix(f: seq<byte>, k: nat)
    requires k <= |f| && ReadRecord(f[..k]).Whole?
    ensures ReadRecord(f) == ReadRecord(f[..k])
  {
    hide Frame, ReadRecord;
    var r := ReadRecord(f[..k]);
    WholeIsFrame(f[..k]);
    assert f[..r.n] == f[..k][..r.n];
    assert f == Frame(r.payload) + f[r.n..];
    ReadFrame(r.payload, f[r.n..]);
  }

  lemma NothingIsEof()
    ensures ReadRecord([]) == Eof
  {
  }

  /** Bytes lost from the end of a run cost exactly the records they touch. */
  lemma {:induction false} ParseCut(recs: seq<Payload>, k: nat)
    requires Fits(recs) && k <= |Frames(recs)|
    ensures Parse(Frames(recs)[..k]) == recs[..Within(recs, k)]
  {
    hide Frame, ReadRecord;
    NothingIsEof();
    if recs != [] {
      var n := RECORD_HEADER + |recs[0]|;
      var f := Frames(recs)[..k];
      if k < n {
        assert f == Frame(recs[0])[..k];
        if k > 0 {
          StrictPrefixIsTorn(recs[0], k);
        }
      } else {
        var rest := Frames(recs[1..])[..k - n];
        assert f == Frame(recs[0]) + rest;
        ReadFrame(recs[0], rest);
        assert f[n..] == rest;
        ParseCut(recs[1..], k - n);
        assert recs[..Within(recs, k)] == [recs[0]] + recs[1..][..Within(recs[1..], k - n)];
      }
    }
  }

  /** `Within` counts exactly the whole records: m of them fit, and m + 1 do not. */
  lemma {:induction false} WithinIsMaximal(recs: seq<Payload>, k: nat, m: nat)
    requires m <= |recs|
    ensures m <= Within(recs, k) <==> |Frames(recs[..m])| <= k
  {
    hide Frame;
    if m > 0 {
      var n := RECORD_HEADER + |recs[0]|;
      assert recs[..m][0] == recs[0] && recs[..m][1..] == recs[1..][..m - 1];
      if k >= n {
        WithinIsMaximal(recs[1..], k - n, m - 1);
      }
    }
  }

  /** Records appended later do not disturb the count within earlier bytes. */
  lemma {:induction false} WithinGrows(recs: seq<Payload>, more: seq<Payload>, k: int)
    ensures Within(recs, k) <= Within(recs + more, k)
  {
    if recs != [] && k >= RECORD_HEADER + |recs[0]| {
      assert (recs + more)[1..] == recs[1..] + more;
      WithinGrows(recs[1..], more, k - RECORD_HEADER - |recs[0]|);
    }
  }

  lemma WithinAll(recs: seq<Payload>)
    ensures Within(recs, |Frames(recs)|) == |recs|
  {
    WithinIsMaximal(recs, |Frames(recs)|, |recs|);
    assert recs[..|recs|] == recs;
  }
}
