/**
 * One segment as a value (broker/log/segment.go): what append and recover do to
 * its file and index, and the relation between those bytes and the records the
 * segment holds.
 */
module Scan {
  import opened Options
  import opened Bytes
  import opened Record
  import opened RecordRun
  import opened SparseIndex

  const SEGMENT_MAGIC := 0x4C47_4C4E
  const SEGMENT_VERSION := 1
  const SEGMENT_HEADER := 16

  /** How far past the last index entry a segment can reach. */
  const REACH := INTERVAL + RECORD_HEADER + MAX_RECORD

  function SegmentHeader(base: nat): (h: seq<byte>)
    ensures |h| == SEGMENT_HEADER
  {
    BE32(SEGMENT_MAGIC) + BE32(SEGMENT_VERSION) + BE64(base)
  }

  /** "LGLN", version one, and the base, most significant byte first. */
  lemma HeaderLayout(base: nat)
    ensures SegmentHeader(base)[..8] == [0x4C, 0x47, 0x4C, 0x4E, 0, 0, 0, 1]
    ensures var high, low := base / U32, base % U32;
            SegmentHeader(base)[8..] ==
            [high / 0x100_0000 % 256, high / 0x1_0000 % 256, high / 0x100 % 256, high % 256,
             low / 0x100_0000 % 256, low / 0x1_0000 % 256, low / 0x100 % 256, low % 256]
  {
    hide BE32, BE64;
    BigEndian32(SEGMENT_MAGIC);
    BigEndian32(SEGMENT_VERSION);
    BigEndian64(base);
  }

  datatype Segment = Segment(
    file: seq<byte>,
    entries: seq<Entry>,
    base: nat,
    next: nat,
    size: nat,
    lastIndexed: nat
  )

  datatype Position = Position(entries: seq<Entry>, lastIndexed: nat)

  /** maybeIndex: the index after offering it the record at `position`. */
  function MaybeIndex(ix: Position, rel: nat, position: nat): Option<Position> {
    if |ix.entries| > 0 && position - ix.lastIndexed < INTERVAL then Some(ix)
    else if position >= MAX_INDEXABLE then None
    else Some(Position(ix.entries + [Entry(rel, position)], position))
  }

  function Created(base: nat): Segment {
    Segment(SegmentHeader(base), [], base, base, SEGMENT_HEADER, SEGMENT_HEADER)
  }

  datatype AppendResult = Appended(offset: nat) | RecordTooLarge | IndexFull | WriteFailed

  /** segment.append. An index that cannot take the record leaves its bytes behind, unclaimed. */
  function Append(s: Segment, p: Payload): (r: (Segment, AppendResult))
    requires s.size <= |s.file| && s.base <= s.next
  {
    if |p| > MAX_RECORD then (s, RecordTooLarge)
    else
      var file := WriteAt(s.file, Frame(p), s.size);
      match MaybeIndex(Position(s.entries, s.lastIndexed), (s.next - s.base) % U32, s.size)
      case None => (s.(file := file), IndexFull)
      case Some(ix) =>
        (Segment(file, ix.entries, s.base, s.next + 1, s.size + RECORD_HEADER + |p|, ix.lastIndexed),
         Appended(s.next))
  }

  datatype Cursor = Cursor(position: nat, rel: nat, ix: Position)

  /** Where recover starts: the last index entry if it points inside the file. */
  function Resume(file: seq<byte>, entries: seq<Entry>): Cursor {
    if entries == [] then Cursor(SEGMENT_HEADER, 0, Position([], SEGMENT_HEADER))
    else
      var e := entries[|entries| - 1];
      if SEGMENT_HEADER <= e.position < |file| then Cursor(e.position, e.rel, Position(entries, e.position))
      else Cursor(SEGMENT_HEADER, 0, Position([], SEGMENT_HEADER))
  }

  /** The recovery loop: forward over whole records, completing the index. */
  function ScanFrom(file: seq<byte>, c: Cursor): Option<Cursor>
    requires c.position <= |file|
    decreases |file| - c.position
  {
    var r := ReadRecord(file[c.position..]);
    if !r.Whole? then Some(c)
    else
      WholeIsFrame(file[c.position..]);
      match MaybeIndex(c.ix, c.rel, c.position)
      case None => None
      case Some(ix) => ScanFrom(file, Cursor(c.position + r.n, (c.rel + 1) % U32, ix))
  }

  /** recover: the segment after the scan, its damaged tail and the entries into it dropped. */
  function Recover(base: nat, file: seq<byte>, entries: seq<Entry>): Option<Segment>
    requires |file| >= SEGMENT_HEADER
  {
    match ScanFrom(file, Resume(file, entries))
    case None => None
    case Some(c) => Some(Finish(base, file, c))
  }

  function Finish(base: nat, file: seq<byte>, c: Cursor): Segment {
    if c.position >= |file| then
      Segment(file, c.ix.entries, base, base + c.rel, c.position, c.ix.lastIndexed)
    else
      Segment(file[..c.position], Before(c.ix.entries, c.position), base, base + c.rel,
              c.position, c.ix.lastIndexed)
  }

  /** The byte position at which record `i` starts. */
  function Pos(recs: seq<Payload>, i: nat): (p: nat)
    requires i <= |recs|
    ensures p >= SEGMENT_HEADER + RECORD_HEADER * i
  {
    SEGMENT_HEADER + |Frames(recs[..i])|
  }

  /** Entries in order, and an index interval apart. */
  ghost predicate Sparse(entries: seq<Entry>) {
    forall i, j :: 0 <= i < j < |entries| ==>
      entries[i].rel < entries[j].rel && entries[i].position + INTERVAL <= entries[j].position
  }

  /** Every entry stands on the true start of the record it names. */
  ghost predicate OnBoundary(entries: seq<Entry>, recs: seq<Payload>) {
    forall i :: 0 <= i < |entries| ==>
      && entries[i].rel <= |recs| && entries[i].position == Pos(recs, entries[i].rel)
      && entries[i].position < U32
  }

  /** The first record is always indexed, so every lookup finds something. */
  ghost predicate Anchored(entries: seq<Entry>) {
    entries != [] ==> entries[0] == Entry(0, SEGMENT_HEADER)
  }

  /** The segment holds exactly `recs`, and its index is true of them. */
  ghost predicate Holds(s: Segment, recs: seq<Payload>) {
    && Fits(recs)
    && s.size <= |s.file| && s.file[..s.size] == SegmentHeader(s.base) + Frames(recs)
    && s.next == s.base + |recs|
    && IndexTrue(s.entries, recs)
    && (recs != [] ==> s.entries != [])
    && SEGMENT_HEADER <= s.lastIndexed <= s.size && s.lastIndexed < U32
    && s.size <= s.lastIndexed + REACH
    && (s.entries != [] ==> s.entries[|s.entries| - 1].position <= s.lastIndexed)
  }

  ghost predicate IndexTrue(entries: seq<Entry>, recs: seq<Payload>) {
    && Sparse(entries) && Anchored(entries) && OnBoundary(entries, recs)
    && forall i :: 0 <= i < |entries| ==> entries[i].rel < |recs|
  }

  // ---- positions -------------------------------------------------------

  lemma PosStep(recs: seq<Payload>, i: nat)
    requires i < |recs|
    ensures Pos(recs, i + 1) == Pos(recs, i) + RECORD_HEADER + |recs[i]|
  {
    hide Frame;
    assert recs[..i + 1] == recs[..i] + [recs[i]];
    FramesSnoc(recs[..i], recs[i]);
  }

  lemma {:induction false} PosMonotone(recs: seq<Payload>, i: nat, j: nat)
    requires i <= j <= |recs|
    ensures Pos(recs, i) + RECORD_HEADER * (j - i) <= Pos(recs, j)
    decreases j - i
  {
    hide Pos;
    if i < j {
      PosMonotone(recs, i, j - 1);
      PosStep(recs, j - 1);
    }
  }

  lemma PosZero(recs: seq<Payload>)
    ensures Pos(recs, 0) == SEGMENT_HEADER
  {
  }

  lemma PosPrefix(recs: seq<Payload>, more: seq<Payload>, i: nat)
    requires i <= |recs|
    ensures Pos(recs + more, i) == Pos(recs, i)
  {
    assert (recs + more)[..i] == recs[..i];
  }

  lemma PosEnd(recs: seq<Payload>)
    ensures Pos(recs, |recs|) == SEGMENT_HEADER + |Frames(recs)|
  {
    assert recs[..|recs|] == recs;
  }

  /** From the start of record `i` on, a run reads as the records from `i` on. */
  lemma FramesFrom(recs: seq<Payload>, i: nat)
    requires i <= |recs|
    ensures Pos(recs, i) - SEGMENT_HEADER <= |Frames(recs)|
    ensures Frames(recs)[Pos(recs, i) - SEGMENT_HEADER..] == Frames(recs[i..])
  {
    hide Frame;
    assert recs == recs[..i] + recs[i..];
    FramesConcat(recs[..i], recs[i..]);
  }

  lemma FramesHead(recs: seq<Payload>, i: nat)
    requires i < |recs|
    ensures Frames(recs[i..]) == Frame(recs[i]) + Frames(recs[i + 1..])
  {
    hide Frame;
    assert recs[i..][1..] == recs[i + 1..];
  }

  /** Reading at the start of record `i` of a run, whatever follows the run. */
  lemma ReadInRun(recs: seq<Payload>, i: nat, header: seq<byte>, tail: seq<byte>)
    requires Fits(recs) && i < |recs| && |header| == SEGMENT_HEADER
    ensures var f := header + Frames(recs) + tail;
            Pos(recs, i) <= |f|
            && ReadRecord(f[Pos(recs, i)..]) == Whole(recs[i], RECORD_HEADER + |recs[i]|)
  {
    hide Frame, Frames, ReadRecord, Pos;
    var f, at := header + Frames(recs) + tail, Pos(recs, i);
    FramesFrom(recs, i);
    FramesHead(recs, i);
    var rest := Frames(recs[i + 1..]) + tail;
    assert f[at..] == Frames(recs[i..]) + tail;
    assert f[at..] == Frame(recs[i]) + rest;
    ReadFrame(recs[i], rest);
  }

  /** The records a full scan from the header finds. */
  function FullScan(file: seq<byte>): (recs: seq<Payload>)
    requires |file| >= SEGMENT_HEADER
  {
    Parse(file[SEGMENT_HEADER..])
  }

  /** What the scan sees at each boundary: a record, or the end of the good ones. */
  lemma ReadAtBoundary(file: seq<byte>, i: nat)
    requires |file| >= SEGMENT_HEADER && i <= |FullScan(file)|
    ensures var recs := FullScan(file);
            && Fits(recs) && Pos(recs, i) <= |file|
            && (i < |recs| ==> ReadRecord(file[Pos(recs, i)..]) == Whole(recs[i], RECORD_HEADER + |recs[i]|))
            && (i == |recs| ==> !ReadRecord(file[Pos(recs, i)..]).Whole?)
  {
    hide Frame, ReadRecord, Parse;
    var recs := FullScan(file);
    var body := file[SEGMENT_HEADER..];
    ParseDecomposes(body);
    var tail := body[|Frames(recs)|..];
    assert file == file[..SEGMENT_HEADER] + Frames(recs) + tail;
    if i < |recs| {
      ReadInRun(recs, i, file[..SEGMENT_HEADER], tail);
    } else {
      PosEnd(recs);
      assert file[Pos(recs, i)..] == tail;
    }
  }

  // ---- recovery --------------------------------------------------------

  /** An index a crash can leave: true wherever it points inside the file. */
  ghost predicate Survivor(entries: seq<Entry>, file: seq<byte>)
    requires |file| >= SEGMENT_HEADER
  {
    && Sparse(entries) && Anchored(entries)
    && forall i :: 0 <= i < |entries| && entries[i].position < |file| ==>
         && entries[i].rel <= |FullScan(file)| && entries[i].position == Pos(FullScan(file), entries[i].rel)
         && entries[i].position < U32
  }

  /** The cursor stands on a boundary and its index is true up to there. */
  ghost predicate OnTrack(c: Cursor, file: seq<byte>, recs: seq<Payload>) {
    && c.rel <= |recs| && c.position == Pos(recs, c.rel)
    && Sparse(c.ix.entries) && Anchored(c.ix.entries) && OnBoundary(c.ix.entries, recs)
    && (forall i :: 0 <= i < |c.ix.entries| ==> c.ix.entries[i].rel <= c.rel && c.ix.entries[i].position < |file|)
    && (c.ix.entries == [] ==> c.rel == 0 && c.ix.lastIndexed == SEGMENT_HEADER)
    && (c.ix.entries != [] ==> c.ix.lastIndexed == c.ix.entries[|c.ix.entries| - 1].position)
    && c.ix.lastIndexed <= c.position <= c.ix.lastIndexed + REACH
  }

  lemma SparseSnoc(entries: seq<Entry>, e: Entry)
    requires Sparse(entries)
    requires entries != [] ==> entries[|entries| - 1].rel < e.rel && entries[|entries| - 1].position + INTERVAL <= e.position
    ensures Sparse(entries + [e])
  {
  }

  lemma ResumeOnTrack(file: seq<byte>, entries: seq<Entry>)
    requires |file| >= SEGMENT_HEADER && Survivor(entries, file)
    ensures OnTrack(Resume(file, entries), file, FullScan(file))
  {
    hide Pos, FullScan;
    PosZero(FullScan(file));
  }

  lemma MaybeIndexOnTrack(c: Cursor, file: seq<byte>, recs: seq<Payload>)
    requires OnTrack(c, file, recs) && c.rel < |recs| && |recs[c.rel]| <= MAX_RECORD && c.position < |file|
    ensures match MaybeIndex(c.ix, c.rel, c.position)
            case None => c.position >= U32
            case Some(ix) =>
              c.rel + 1 < U32 && OnTrack(Cursor(c.position + RECORD_HEADER + |recs[c.rel]|, c.rel + 1, ix), file, recs)
  {
    hide Pos, Sparse;
    PosStep(recs, c.rel);
    PosZero(recs);
    var es, e := c.ix.entries, Entry(c.rel, c.position);
    if es != [] && c.position - c.ix.lastIndexed >= INTERVAL {
      assert es[|es| - 1].position == Pos(recs, es[|es| - 1].rel);
    }
    if es == [] || c.position - c.ix.lastIndexed >= INTERVAL {
      SparseSnoc(es, e);
    }
  }

  /** From any boundary the scan ends at the end of the good records, or stops on a full index. */
  lemma {:induction false} ScanLands(file: seq<byte>, c: Cursor)
    requires |file| >= SEGMENT_HEADER && OnTrack(c, file, FullScan(file)) && c.position <= |file|
    ensures match ScanFrom(file, c)
            case None => |file| > U32
            case Some(d) =>
              OnTrack(d, file, FullScan(file)) && d.rel == |FullScan(file)|
    decreases |file| - c.position
  {
    hide Pos, FullScan, ReadRecord, MaybeIndex, OnTrack, Frame;
    var recs := FullScan(file);
    OnTrackUnfold(c, file, recs);
    ReadAtBoundary(file, c.rel);
    if c.rel < |recs| {
      WholeIsFrame(file[c.position..]);
      MaybeIndexOnTrack(c, file, recs);
      var ix := MaybeIndex(c.ix, c.rel, c.position);
      if ix.Some? {
        ScanLands(file, Cursor(c.position + RECORD_HEADER + |recs[c.rel]|, c.rel + 1, ix.value));
      }
    }
  }

  lemma OnTrackUnfold(c: Cursor, file: seq<byte>, recs: seq<Payload>)
    requires OnTrack(c, file, recs)
    ensures c.rel <= |recs| && c.position == Pos(recs, c.rel)
  {
  }

  /** What is left of the index once the tail is dropped is true of the records that remain. */
  lemma CutIndexTrue(c: Cursor, file: seq<byte>, recs: seq<Payload>)
    requires OnTrack(c, file, recs) && c.rel == |recs| && c.position <= |file|
    ensures IndexTrue(Finish(0, file, c).entries, recs)
    ensures recs != [] ==> Finish(0, file, c).entries != []
    ensures var kept := Finish(0, file, c).entries;
            kept != [] ==> kept[|kept| - 1].position <= c.ix.lastIndexed
  {
    hide Pos, Before;
    var kept := Finish(0, file, c).entries;
    PosZero(recs);
    PosMonotone(recs, 0, |recs|);
    forall i | 0 <= i < |kept|
      ensures kept[i].rel < |recs|
    {
      assert kept[i] == c.ix.entries[i];
      assert kept[i].position == Pos(recs, kept[i].rel);
    }
  }

  /**
   * Indexed recovery is full-scan recovery: wherever the surviving index lets it
   * start, recover keeps exactly the longest run of whole records, truncates the
   * file to them, and leaves an index true of them. It fails only when the
   * segment outgrows the index.
   */
  lemma RecoverRefinesFullScan(base: nat, file: seq<byte>, entries: seq<Entry>)
    requires |file| >= SEGMENT_HEADER && file[..SEGMENT_HEADER] == SegmentHeader(base)
    requires Survivor(entries, file)
    ensures match Recover(base, file, entries)
            case None => |file| > U32
            case Some(s) =>
              Holds(s, FullScan(file)) && s.base == base && s.size <= |file| && s.file == file[..s.size]
  {
    hide ReadRecord, Parse, Before, Frames;
    var recs := FullScan(file);
    var c := Resume(file, entries);
    ResumeOnTrack(file, entries);
    ReadAtBoundary(file, c.rel);
    ScanLands(file, c);
    var r := ScanFrom(file, c);
    if r.Some? {
      var d := r.value;
      ReadAtBoundary(file, |recs|);
      HoldsAfterCut(base, file, d);
    }
  }

  lemma HoldsAfterCut(base: nat, file: seq<byte>, d: Cursor)
    requires |file| >= SEGMENT_HEADER && file[..SEGMENT_HEADER] == SegmentHeader(base)
    requires OnTrack(d, file, FullScan(file)) && d.rel == |FullScan(file)| && d.position <= |file|
    ensures Holds(Finish(base, file, d), FullScan(file))
    ensures Finish(base, file, d).file == file[..d.position]
  {
    hide ReadRecord, Parse, Before, Frames, SegmentHeader, Sparse, Anchored;
    var recs := FullScan(file);
    CutIndexTrue(d, file, recs);
    ParseDecomposes(file[SEGMENT_HEADER..]);
    PosEnd(recs);
    PosZero(recs);
    assert file[..d.position] == file[..SEGMENT_HEADER] + file[SEGMENT_HEADER..][..|Frames(recs)|];
  }

  // ---- append ----------------------------------------------------------

  lemma {:induction false} CreatedHolds(base: nat)
    ensures Holds(Created(base), [])
  {
    hide Frame;
    assert Frames([]) == [];
    assert SegmentHeader(base)[..SEGMENT_HEADER] == SegmentHeader(base) + Frames([]);
  }

  lemma AppendIndexTrue(s: Segment, recs: seq<Payload>, p: Payload)
    requires Holds(s, recs)
    ensures match MaybeIndex(Position(s.entries, s.lastIndexed), |recs|, s.size)
            case None => s.size >= U32
            case Some(ix) =>
              && IndexTrue(ix.entries, recs + [p]) && ix.entries != [] && s.entries <= ix.entries
              && ix.entries[|ix.entries| - 1].position <= ix.lastIndexed
              && s.size < ix.lastIndexed + INTERVAL && SEGMENT_HEADER <= ix.lastIndexed <= s.size
              && ix.lastIndexed < U32
  {
    hide Pos, Frames, SegmentHeader;
    PosEnd(recs);
    PosZero(recs);
    assert s.size == Pos(recs, |recs|);
    PosPrefix(recs, [p], |recs|);
    PosZero(recs + [p]);
    forall i | 0 <= i < |s.entries|
      ensures s.entries[i].position == Pos(recs + [p], s.entries[i].rel)
    {
      PosPrefix(recs, [p], s.entries[i].rel);
    }
  }

  /** A segment never holds as many records as a 32-bit relative offset can count. */
  lemma RelativeOffsetsFit(s: Segment, recs: seq<Payload>)
    requires Holds(s, recs)
    ensures |recs| < U32
  {
    PosEnd(recs);
  }

  /** append adds its record and nothing else; a refused one leaves the records as they were. */
  lemma AppendHolds(s: Segment, recs: seq<Payload>, p: Payload)
    requires Holds(s, recs)
    ensures var (t, r) := Append(s, p);
            match r
            case Appended(offset) => Holds(t, recs + [p]) && offset == s.base + |recs| && |p| <= MAX_RECORD
            case RecordTooLarge => t == s && |p| > MAX_RECORD
            case IndexFull => Holds(t, recs) && s.size >= U32
            case WriteFailed => false
  {
    hide Frame, IndexTrue, SegmentHeader;
    AppendIndexTrue(s, recs, p);
    RelativeOffsetsFit(s, recs);
    FramesSnoc(recs, p);
    if |p| <= MAX_RECORD {
      var file := WriteAt(s.file, Frame(p), s.size);
      assert file[..s.size] == s.file[..s.size];
      assert file[..s.size + RECORD_HEADER + |p|] == file[..s.size] + Frame(p);
    }
  }

  /** An append that fails on its way to disk, `n` bytes of the record having been written. */
  function FailedAppend(s: Segment, p: Payload, n: nat): Segment
    requires s.size <= |s.file| && n <= |Frame(p)|
  {
    s.(file := WriteAt(s.file, Frame(p)[..n], s.size))
  }

  /** Bytes past the size claimed are nobody's: a failed append changes no record. */
  lemma FailedAppendHolds(s: Segment, recs: seq<Payload>, p: Payload, n: nat)
    requires Holds(s, recs) && n <= |Frame(p)|
    ensures Holds(FailedAppend(s, p, n), recs)
  {
    hide Frame, Frames, IndexTrue, SegmentHeader;
    var t := FailedAppend(s, p, n);
    assert t.file[..s.size] == s.file[..s.size];
  }

  // ---- power loss ------------------------------------------------------

  /**
   * What power loss can leave of a segment that held `recs`: a prefix of its
   * bytes, which may run on into ones it never claimed, and of its index.
   */
  ghost predicate Remains(base: nat, file: seq<byte>, entries: seq<Entry>, recs: seq<Payload>) {
    && Fits(recs) && IndexTrue(entries, recs)
    && (file <= SegmentHeader(base) + Frames(recs) || SegmentHeader(base) + Frames(recs) <= file)
  }

  lemma CutRemains(s: Segment, recs: seq<Payload>, k: nat, m: nat)
    requires Holds(s, recs) && k <= |s.file| && m <= |s.entries|
    ensures Remains(s.base, s.file[..k], s.entries[..m], recs)
  {
    hide Frames, SegmentHeader, Pos, Sparse;
    if k <= s.size {
      assert s.file[..k] == s.file[..s.size][..k];
    } else {
      assert s.file[..k][..s.size] == s.file[..s.size];
    }
    SparsePrefix(s.entries, m);
  }

  lemma CutAgain(base: nat, file: seq<byte>, entries: seq<Entry>, recs: seq<Payload>, k: nat, m: nat)
    requires Remains(base, file, entries, recs) && k <= |file| && m <= |entries|
    ensures Remains(base, file[..k], entries[..m], recs)
  {
    hide Frames, SegmentHeader, Pos, Sparse;
    var whole := SegmentHeader(base) + Frames(recs);
    if !(file <= whole) {
      if k <= |whole| {
        assert file[..k] == whole[..k];
      } else {
        assert file[..k][..|whole|] == whole;
      }
    }
    SparsePrefix(entries, m);
  }

  /**
   * Whatever prefix survives, a full scan finds the records wholly inside it and
   * no others, save any whole ones in bytes never claimed; and the index is one
   * recovery can start from.
   */
  lemma RemainsSurvive(base: nat, file: seq<byte>, entries: seq<Entry>, recs: seq<Payload>)
    requires Remains(base, file, entries, recs) && |file| >= SEGMENT_HEADER
    ensures var w := Within(recs, |file| - SEGMENT_HEADER);
            && recs[..w] <= FullScan(file)
            && (|file| <= Pos(recs, |recs|) ==> FullScan(file) == recs[..w])
            && (|file| >= Pos(recs, |recs|) ==> w == |recs|)
    ensures Survivor(entries, file)
    ensures file[..SEGMENT_HEADER] == SegmentHeader(base)
  {
    hide Frames, Within, Parse, SegmentHeader, Pos, Survivor, FullScan, IndexTrue;
    if |file| <= SEGMENT_HEADER + |Frames(recs)| {
      ShortScan(SegmentHeader(base), recs, file);
    } else {
      LongScan(SegmentHeader(base), recs, file);
    }
    ScanSurvives(file, entries, recs);
  }

  lemma ShortScan(header: seq<byte>, recs: seq<Payload>, file: seq<byte>)
    requires Fits(recs) && |header| == SEGMENT_HEADER <= |file| <= SEGMENT_HEADER + |Frames(recs)|
    requires file <= header + Frames(recs) || header + Frames(recs) <= file
    ensures var w := Within(recs, |file| - SEGMENT_HEADER);
            && FullScan(file) == recs[..w] && |file| <= Pos(recs, |recs|)
            && (|file| == Pos(recs, |recs|) ==> w == |recs|)
    ensures file[..SEGMENT_HEADER] == header
  {
    hide Frames, Within, FullScan, Parse;
    PosEnd(recs);
    assert file == (header + Frames(recs))[..|file|];
    ScanOfPrefix(header, recs, |file|);
    WithinAll(recs);
  }

  lemma LongScan(header: seq<byte>, recs: seq<Payload>, file: seq<byte>)
    requires Fits(recs) && |header| == SEGMENT_HEADER && |file| > SEGMENT_HEADER + |Frames(recs)|
    requires file <= header + Frames(recs) || header + Frames(recs) <= file
    ensures Within(recs, |file| - SEGMENT_HEADER) == |recs| && recs[..|recs|] <= FullScan(file)
    ensures |file| > Pos(recs, |recs|)
    ensures file[..SEGMENT_HEADER] == header
  {
    hide Frames, Within, FullScan, Parse;
    PosEnd(recs);
    WithinIsMaximal(recs, |file| - SEGMENT_HEADER, |recs|);
    assert recs[..|recs|] == recs;
    TailOf(header + Frames(recs), file);
    ScanBehind(header, recs, file[SEGMENT_HEADER + |Frames(recs)|..]);
  }

  lemma TailOf(whole: seq<byte>, file: seq<byte>)
    requires whole <= file
    ensures file == whole + file[|whole|..]
  {
  }

  lemma ScanSurvives(file: seq<byte>, entries: seq<Entry>, recs: seq<Payload>)
    requires |file| >= SEGMENT_HEADER && IndexTrue(entries, recs)
    requires recs[..Within(recs, |file| - SEGMENT_HEADER)] <= FullScan(file)
    ensures Survivor(entries, file)
  {
    hide Frames, Within, Pos, Sparse, FullScan;
    var w, scan := Within(recs, |file| - SEGMENT_HEADER), FullScan(file);
    forall i | 0 <= i < |entries| && entries[i].position < |file|
      ensures entries[i].rel <= w && entries[i].position == Pos(scan, entries[i].rel)
    {
      BoundaryWithin(recs, |file|, entries[i].rel);
      assert scan == recs[..w] + scan[w..];
      PosPrefix(recs[..w], scan[w..], entries[i].rel);
    }
  }

  lemma ScanOfPrefix(header: seq<byte>, recs: seq<Payload>, n: nat)
    requires Fits(recs) && |header| == SEGMENT_HEADER <= n <= |header + Frames(recs)|
    ensures FullScan((header + Frames(recs))[..n]) == recs[..Within(recs, n - SEGMENT_HEADER)]
  {
    hide Frames, Within, Parse;
    assert (header + Frames(recs))[..n][SEGMENT_HEADER..] == Frames(recs)[..n - SEGMENT_HEADER];
    ParseCut(recs, n - SEGMENT_HEADER);
  }

  lemma ScanBehind(header: seq<byte>, recs: seq<Payload>, junk: seq<byte>)
    requires Fits(recs) && |header| == SEGMENT_HEADER
    ensures recs <= FullScan(header + Frames(recs) + junk)
  {
    hide Frames, Parse;
    assert (header + Frames(recs) + junk)[SEGMENT_HEADER..] == Frames(recs) + junk;
    ParseBehind(recs, junk);
  }

  lemma CutSurvives(s: Segment, recs: seq<Payload>, k: nat, m: nat)
    requires Holds(s, recs) && SEGMENT_HEADER <= k <= |s.file| && m <= |s.entries|
    ensures k <= s.size ==> FullScan(s.file[..k]) == recs[..Within(recs, k - SEGMENT_HEADER)]
    ensures k >= s.size ==> recs <= FullScan(s.file[..k])
    ensures Survivor(s.entries[..m], s.file[..k])
    ensures s.file[..k][..SEGMENT_HEADER] == SegmentHeader(s.base)
  {
    hide Frames, Within, Parse, SegmentHeader, Pos, IndexTrue, Survivor, FullScan;
    CutRemains(s, recs, k, m);
    RemainsSurvive(s.base, s.file[..k], s.entries[..m], recs);
    SizeIsPos(s, recs);
    assert recs[..|recs|] == recs;
  }

  lemma SizeIsPos(s: Segment, recs: seq<Payload>)
    requires Holds(s, recs)
    ensures s.size == Pos(recs, |recs|)
  {
    hide Frames, IndexTrue, SegmentHeader;
    PosEnd(recs);
    assert s.size == |s.file[..s.size]|;
  }

  /** An append that failed after its whole record reached the file is there again after recovery. */
  lemma UnclaimedIsAdopted(s: Segment, recs: seq<Payload>, p: Payload, m: nat)
    requires Holds(s, recs) && |p| <= MAX_RECORD && m <= |s.entries|
    ensures var k := s.size + RECORD_HEADER + |p|;
            var file := FailedAppend(s, p, |Frame(p)|).file;
            && k <= |file| && FullScan(file[..k]) == recs + [p] && Survivor(s.entries[..m], file[..k])
  {
    hide Frames, Parse, SegmentHeader, IndexTrue, Survivor, Frame;
    var t := FailedAppend(s, p, |Frame(p)|);
    FailedAppendHolds(s, recs, p, |Frame(p)|);
    var k := s.size + RECORD_HEADER + |p|;
    CutSurvives(t, recs, k, m);
    SizeIsPos(s, recs);
    PosEnd(recs);
    assert Frame(p)[..|Frame(p)|] == Frame(p);
    assert t.file[..s.size] == s.file[..s.size] && t.file[..k] == t.file[..s.size] + Frame(p);
    assert t.file[..k][SEGMENT_HEADER..] == Frames(recs) + Frame(p);
    FramesSnoc(recs, p);
    NothingIsEof();
    ParseFrames(recs + [p], []);
    assert Frames(recs + [p]) + [] == Frames(recs + [p]);
  }

  /**
   * And what a failed append leaves past a shorter record written over it is read
   * as records too, though no append ever carried them.
   */
  lemma LeftoversAreAdopted(base: nat, b: Payload, recs: seq<Payload>)
    requires Fits([b] + recs) && |b| + |Frames(recs)| <= MAX_RECORD
    ensures var big := b + Frames(recs);
            var s := Created(base);
            && s.size <= |s.file| && s.base <= s.next
            && var (t, r) := Append(FailedAppend(s, big, |Frame(big)|), b);
               r == Appended(base) && Holds(t, [b]) && FullScan(t.file) == [b] + recs
  {
    hide Frames, Parse, SegmentHeader, IndexTrue, Append;
    var big, s := b + Frames(recs), Created(base);
    CreatedHolds(base);
    FailedAppendHolds(s, [], big, |Frame(big)|);
    var f := FailedAppend(s, big, |Frame(big)|);
    AppendHolds(f, [], b);
    assert [] + [b] == [b];
    var t := Append(f, b).0;
    OverwrittenFile(base, b, recs);
    assert t.file[SEGMENT_HEADER..] == Frames([b] + recs) + [];
    NothingIsEof();
    ParseFrames([b] + recs, []);
  }

  lemma OverwrittenFile(base: nat, b: Payload, recs: seq<Payload>)
    requires |b| + |Frames(recs)| <= MAX_RECORD
    ensures var big := b + Frames(recs);
            var s := Created(base);
            && s.size <= |s.file| && s.base <= s.next
            && Append(FailedAppend(s, big, |Frame(big)|), b).0.file == SegmentHeader(base) + Frames([b] + recs)
            && Append(FailedAppend(s, big, |Frame(big)|), b).1.Appended?
  {
    hide SegmentHeader, Frame, Frames, WriteAt;
    var big, s := b + Frames(recs), Created(base);
    var f, header := FailedAppend(s, big, |Frame(big)|), SegmentHeader(base);
    FrameTail(b, Frames(recs));
    assert Frame(big)[..|Frame(big)|] == Frame(big);
    Overlaid(header, [], Frame(big));
    Overlaid(header, Frame(big), Frame(b));
    assert header + [] == header && Frame(big) + [] == Frame(big);
    assert f.file == header + Frame(big);
    assert |Frames(recs)| == 0 ==> Frames(recs) == [];
    FramesFirst(b, recs);
  }

  lemma FrameTail(b: Payload, more: seq<byte>)
    ensures |Frame(b)| == RECORD_HEADER + |b| && |Frame(b + more)| == |Frame(b)| + |more|
    ensures Frame(b + more)[|Frame(b)|..] == more
  {
    assert Frame(b + more)[RECORD_HEADER..] == b + more;
  }

  lemma FramesFirst(b: Payload, recs: seq<Payload>)
    ensures Frames([b] + recs) == Frame(b) + Frames(recs)
  {
    hide Frame;
    assert ([b] + recs)[1..] == recs;
  }

  lemma Overlaid(header: seq<byte>, under: seq<byte>, data: seq<byte>)
    ensures WriteAt(header + under, data, |header|) ==
            header + (data + if |data| < |under| then under[|data|..] else [])
  {
  }

  lemma SparsePrefix(entries: seq<Entry>, m: nat)
    requires Sparse(entries) && m <= |entries|
    ensures Sparse(entries[..m])
  {
  }

  lemma BoundaryWithin(recs: seq<Payload>, k: nat, rel: nat)
    requires SEGMENT_HEADER <= k && rel <= |recs| && Pos(recs, rel) <= k
    ensures rel <= Within(recs, k - SEGMENT_HEADER)
    ensures Pos(recs[..Within(recs, k - SEGMENT_HEADER)], rel) == Pos(recs, rel)
  {
    hide Frames;
    var w := Within(recs, k - SEGMENT_HEADER);
    WithinIsMaximal(recs, k - SEGMENT_HEADER, rel);
    assert recs[..w][..rel] == recs[..rel];
  }
}
