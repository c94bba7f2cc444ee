/**
 * How far a read has to skip forward from the index entry it starts at, over
 * runs of appends, failed appends, crashes and recoveries of one segment.
 */
module ReadBound {
  import opened Options
  import opened Bytes
  import opened Record
  import opened RecordRun
  import opened SparseIndex
  import opened Scan
  import opened Recovery

  /** Where a read of record rel starts skipping: the last entry at or before it, else the header's end. */
  function Anchor(entries: seq<Entry>, rel: nat): nat {
    if entries == [] then SEGMENT_HEADER
    else
      var last := entries[|entries| - 1];
      if last.rel <= rel then last.position else Anchor(entries[..|entries| - 1], rel)
  }

  lemma {:induction false} AnchorIs(entries: seq<Entry>, rel: nat, k: nat)
    requires k < |entries| && entries[k].rel <= rel && forall i :: k < i < |entries| ==> entries[i].rel > rel
    ensures Anchor(entries, rel) == entries[k].position
  {
    if k < |entries| - 1 {
      AnchorIs(entries[..|entries| - 1], rel, k);
    }
  }

  /** What lookup finds is the anchor. */
  lemma AnchorFound(entries: seq<Entry>, rel: nat, e: Entry)
    requires Sparse(entries) && e in entries && e.rel <= rel
    requires forall i :: 0 <= i < |entries| && entries[i].rel <= rel ==> entries[i].rel <= e.rel
    ensures Anchor(entries, rel) == e.position
  {
    var k :| 0 <= k < |entries| && entries[k] == e;
    AnchorIs(entries, rel, k);
  }

  lemma {:induction false} AnchorNone(entries: seq<Entry>, rel: nat)
    requires forall i :: 0 <= i < |entries| ==> entries[i].rel > rel
    ensures Anchor(entries, rel) == SEGMENT_HEADER
  {
    if entries != [] {
      AnchorNone(entries[..|entries| - 1], rel);
    }
  }

  /** Each of the first n records starts fewer than `reach` bytes past its anchor. */
  ghost predicate Near(entries: seq<Entry>, recs: seq<Payload>, n: nat, reach: nat)
    requires n <= |recs|
  {
    forall i :: 0 <= i < n ==> Pos(recs, i) < Anchor(entries, i) + reach
  }

  function LastPosition(entries: seq<Entry>): nat {
    if entries == [] then SEGMENT_HEADER else entries[|entries| - 1].position
  }

  /** An entry for a later record is no earlier record's anchor. */
  lemma AnchorBefore(entries: seq<Entry>, e: Entry, rel: nat)
    requires e.rel > rel
    ensures Anchor(entries + [e], rel) == Anchor(entries, rel)
  {
    assert (entries + [e])[..|entries|] == entries;
  }

  lemma {:induction false} AnchorPrefix(entries: seq<Entry>, m: nat, rel: nat)
    requires m <= |entries| && forall i :: m <= i < |entries| ==> entries[i].rel > rel
    ensures Anchor(entries[..m], rel) == Anchor(entries, rel)
  {
    if m < |entries| {
      assert entries[..|entries| - 1][..m] == entries[..m];
      AnchorPrefix(entries[..|entries| - 1], m, rel);
    } else {
      assert entries[..m] == entries;
    }
  }

  /** The record at `position` gets an entry. */
  predicate Indexed(ix: Position, position: nat) {
    ix.entries == [] || position - ix.lastIndexed >= INTERVAL
  }

  /** One record offered to the index: it stays near exactly when it is indexed or near the last entry. */
  lemma OfferNear(ix: Position, recs: seq<Payload>, n: nat, reach: nat)
    requires n < |recs| && Near(ix.entries, recs, n, reach) && MaybeIndex(ix, n, Pos(recs, n)).Some? && reach > 0
    requires forall i :: 0 <= i < |ix.entries| ==> ix.entries[i].rel <= n
    ensures Near(MaybeIndex(ix, n, Pos(recs, n)).value.entries, recs, n + 1, reach) <==>
            Indexed(ix, Pos(recs, n)) || Pos(recs, n) < LastPosition(ix.entries) + reach
  {
    hide Pos;
    var after, e := MaybeIndex(ix, n, Pos(recs, n)).value, Entry(n, Pos(recs, n));
    if Indexed(ix, Pos(recs, n)) {
      assert after.entries == ix.entries + [e];
      AnchorIs(after.entries, n, |ix.entries|);
      forall i | 0 <= i < n
        ensures Anchor(after.entries, i) == Anchor(ix.entries, i)
      {
        AnchorBefore(ix.entries, e, i);
      }
    } else {
      assert Anchor(ix.entries, n) == LastPosition(ix.entries);
    }
  }

  // ---- one append --------------------------------------------------------------------

  lemma NearExtends(entries: seq<Entry>, recs: seq<Payload>, more: seq<Payload>, reach: nat)
    requires Near(entries, recs, |recs|, reach)
    ensures Near(entries, recs + more, |recs|, reach)
  {
    hide Pos;
    forall i | 0 <= i < |recs|
      ensures Pos(recs + more, i) == Pos(recs, i)
    {
      PosPrefix(recs, more, i);
    }
  }

  lemma NearWiden(entries: seq<Entry>, recs: seq<Payload>, n: nat, reach: nat, wider: nat)
    requires n <= |recs| && Near(entries, recs, n, reach) && reach <= wider
    ensures Near(entries, recs, n, wider)
  {
  }

  lemma HoldsFacts(s: Segment, recs: seq<Payload>)
    requires Holds(s, recs)
    ensures s.size == Pos(recs, |recs|) && (s.next - s.base) % U32 == |recs|
    ensures s.size <= |s.file| && s.base <= s.next
    ensures s.entries == [] ==> recs == [] && s.size == SEGMENT_HEADER
    ensures forall i :: 0 <= i < |s.entries| ==> s.entries[i].rel < |recs|
  {
    hide Frames, SegmentHeader;
    SizeIsPos(s, recs);
    RelativeOffsetsFit(s, recs);
    PosZero(recs);
  }

  /** An append keeps reads within reach exactly when it is due an entry or lands within reach of the last one. */
  lemma AppendNear(s: Segment, recs: seq<Payload>, p: Payload, reach: nat)
    requires Holds(s, recs) && Near(s.entries, recs, |recs|, reach) && reach > 0
    ensures s.size <= |s.file| && s.base <= s.next
    ensures var (t, outcome) := Append(s, p);
            outcome.Appended? ==>
              (Near(t.entries, recs + [p], |recs| + 1, reach) <==> Due(s) || s.size < LastPosition(s.entries) + reach)
  {
    hide Near, Pos, Frames, Holds;
    HoldsFacts(s, recs);
    if Append(s, p).1.Appended? {
      NearExtends(s.entries, recs, [p], reach);
      PosPrefix(recs, [p], |recs|);
      OfferNear(Position(s.entries, s.lastIndexed), recs + [p], |recs|, reach);
    }
  }

  // ---- recovery ----------------------------------------------------------------------

  /** The recovery scan leaves every record it passes near its anchor. */
  lemma {:induction false} ScanNear(file: seq<byte>, c: Cursor, reach: nat)
    requires |file| >= SEGMENT_HEADER && OnTrack(c, file, FullScan(file)) && c.position <= |file| && reach >= INTERVAL
    requires c.rel <= |FullScan(file)| && Near(c.ix.entries, FullScan(file), c.rel, reach) && ScanFrom(file, c).Some?
    ensures Near(ScanFrom(file, c).value.ix.entries, FullScan(file), |FullScan(file)|, reach)
    decreases |file| - c.position
  {
    hide Pos, FullScan, ReadRecord, MaybeIndex, OnTrack, Frame, Near;
    var recs := FullScan(file);
    OnTrackUnfold(c, file, recs);
    ReadAtBoundary(file, c.rel);
    if c.rel < |recs| {
      WholeIsFrame(file[c.position..]);
      MaybeIndexOnTrack(c, file, recs);
      TrackNear(c, file, recs, reach);
      var ix := MaybeIndex(c.ix, c.rel, c.position);
      ScanNear(file, Cursor(c.position + RECORD_HEADER + |recs[c.rel]|, c.rel + 1, ix.value), reach);
    }
  }

  lemma TrackNear(c: Cursor, file: seq<byte>, recs: seq<Payload>, reach: nat)
    requires OnTrack(c, file, recs) && c.rel < |recs| && Near(c.ix.entries, recs, c.rel, reach) && reach >= INTERVAL
    requires MaybeIndex(c.ix, c.rel, c.position).Some?
    ensures Near(MaybeIndex(c.ix, c.rel, c.position).value.entries, recs, c.rel + 1, reach)
  {
    hide Pos, Near, Sparse, OnBoundary, MaybeIndex;
    PosZero(recs);
    OfferNear(c.ix, recs, c.rel, reach);
  }

  /** Dropping the entries past the last good record takes no record's anchor away. */
  lemma CutNear(c: Cursor, file: seq<byte>, recs: seq<Payload>, reach: nat)
    requires OnTrack(c, file, recs) && c.rel == |recs| && Near(c.ix.entries, recs, |recs|, reach)
    ensures Near(Finish(0, file, c).entries, recs, |recs|, reach)
  {
    hide Pos, Before, Sparse;
    if c.position < |file| {
      var kept := Before(c.ix.entries, c.position);
      var m := |kept|;
      assert kept == c.ix.entries[..m];
      forall i | 0 <= i < |recs|
        ensures Anchor(kept, i) == Anchor(c.ix.entries, i)
      {
        forall k | m <= k < |c.ix.entries|
          ensures c.ix.entries[k].rel > i
        {
          LaterEntries(c, file, recs, m, k);
        }
        AnchorPrefix(c.ix.entries, m, i);
      }
    }
  }

  lemma LaterEntries(c: Cursor, file: seq<byte>, recs: seq<Payload>, m: nat, k: nat)
    requires OnTrack(c, file, recs) && c.rel == |recs| && m <= k < |c.ix.entries| && c.ix.entries[m].position >= c.position
    ensures c.ix.entries[k].rel >= |recs|
  {
    hide Pos;
    var e := c.ix.entries[k];
    if e.rel < |recs| {
      PosMonotone(recs, e.rel, |recs|);
    }
  }

  /** What survives of the index anchors each record before its last entry as it did before. */
  lemma KeptAnchors(s: Segment, recs: seq<Payload>, m: nat, i: nat)
    requires Holds(s, recs) && 0 < m <= |s.entries| && i < s.entries[m - 1].rel
    ensures Anchor(s.entries[..m], i) == Anchor(s.entries, i)
  {
    hide Frames, SegmentHeader, Pos;
    forall j | m <= j < |s.entries|
      ensures s.entries[j].rel > i
    {
      assert s.entries[m - 1].rel < s.entries[j].rel;
    }
    AnchorPrefix(s.entries, m, i);
  }

  /** Positions before the cut are as they were. */
  lemma KeptPositions(recs: seq<Payload>, kept: seq<Payload>, i: nat)
    requires (kept <= recs || recs <= kept) && i <= |recs| && i <= |kept|
    ensures Pos(kept, i) == Pos(recs, i)
  {
    assert kept[..i] == recs[..i];
  }

  /** Up to the entry the scan resumes at, nothing has changed. */
  lemma ResumeNear(s: Segment, recs: seq<Payload>, k: nat, m: nat, kept: seq<Payload>, reach: nat)
    requires Holds(s, recs) && Near(s.entries, recs, |recs|, reach)
    requires SEGMENT_HEADER <= k <= |s.file| && m <= |s.entries| && (kept <= recs || recs <= kept)
    requires Resume(s.file[..k], s.entries[..m]).rel <= |kept|
    ensures var c := Resume(s.file[..k], s.entries[..m]);
            Near(c.ix.entries, kept, c.rel, reach)
  {
    hide Pos, Holds, Anchor;
    var c := Resume(s.file[..k], s.entries[..m]);
    if c.ix.entries != [] {
      EntryOfRecord(s, recs, m);
      forall i | 0 <= i < c.rel
        ensures Pos(kept, i) == Pos(recs, i) && Anchor(c.ix.entries, i) == Anchor(s.entries, i)
      {
        KeptPositions(recs, kept, i);
        KeptAnchors(s, recs, m, i);
      }
    }
  }

  lemma EntryOfRecord(s: Segment, recs: seq<Payload>, m: nat)
    requires Holds(s, recs) && 0 < m <= |s.entries|
    ensures s.entries[m - 1].rel < |recs|
  {
    hide Frames, SegmentHeader, Pos;
  }

  /**
   * A segment whose reads are within reach, cut anywhere by a crash, its index to
   * any prefix: once recovered its reads are within reach.
   */
  lemma RecoveryKeepsReadsShort(s: Segment, recs: seq<Payload>, k: nat, m: nat, reach: nat)
    requires Holds(s, recs) && Near(s.entries, recs, |recs|, reach) && reach >= INTERVAL
    requires SEGMENT_HEADER <= k <= |s.file| && m <= |s.entries|
    requires Recover(s.base, s.file[..k], s.entries[..m]).Some?
    ensures var t, kept := Recover(s.base, s.file[..k], s.entries[..m]).value, FullScan(s.file[..k]);
            Holds(t, kept) && Near(t.entries, kept, |kept|, reach)
  {
    hide Near, Holds, Pos, FullScan, Survivor, Within, OnTrack, ScanFrom, SegmentHeader, Resume;
    var file, entries := s.file[..k], s.entries[..m];
    CutSurvives(s, recs, k, m);
    RecoverRefinesFullScan(s.base, file, entries);
    ResumeOnTrack(file, entries);
    var c := Resume(file, entries);
    OnTrackUnfold(c, file, FullScan(file));
    ReadAtBoundary(file, c.rel);
    ResumeNear(s, recs, k, m, FullScan(file), reach);
    ScanNear(file, c, reach);
    ScanLands(file, c);
    CutNear(ScanFrom(file, c).value, file, FullScan(file), reach);
  }

  // ---- runs ----------------------------------------------------------------------------

  /** An append; one that fails after `n` bytes; or a crash that keeps `k` bytes and `m` entries, and a recovery. */
  datatype Step = Add(p: Payload) | Fail(p: Payload, n: nat) | Crash(k: nat, m: nat)

  /** A segment, its records, and how many recoveries have dropped the entry they resumed from. */
  datatype State = State(seg: Segment, recs: seq<Payload>, drops: nat)

  ghost function Next(s: State, step: Step): (r: Option<State>)
    requires Holds(s.seg, s.recs)
    ensures r.Some? ==> Holds(r.value.seg, r.value.recs)
  {
    HoldsFacts(s.seg, s.recs);
    match step
    case Add(p) =>
      AppendHolds(s.seg, s.recs, p);
      var (t, outcome) := Append(s.seg, p);
      Some(State(t, if outcome.Appended? then s.recs + [p] else s.recs, s.drops))
    case Fail(p, n) =>
      if n > |Frame(p)| then None
      else
        FailedAppendHolds(s.seg, s.recs, p, n);
        Some(State(FailedAppend(s.seg, p, n), s.recs, s.drops))
    case Crash(k, m) =>
      if !(SEGMENT_HEADER <= k <= |s.seg.file| && m <= |s.seg.entries|) then None
      else
        var file, entries := s.seg.file[..k], s.seg.entries[..m];
        CutSurvives(s.seg, s.recs, k, m);
        RecoverRefinesFullScan(s.seg.base, file, entries);
        match Recover(s.seg.base, file, entries)
        case None => None
        case Some(t) => Some(State(t, FullScan(file), s.drops + if CutAtEntry(file, entries) then 1 else 0))
  }

  ghost function Run(base: nat, steps: seq<Step>): (r: Option<State>)
    ensures r.Some? ==> Holds(r.value.seg, r.value.recs)
  {
    if steps == [] then
      CreatedHolds(base);
      Some(State(Created(base), [], 0))
    else
      match Run(base, steps[..|steps| - 1])
      case None => None
      case Some(s) => Next(s, steps[|steps| - 1])
  }

  /** Every read of the segment skips fewer bytes than an index interval. */
  ghost predicate Short(s: State) {
    Near(s.seg.entries, s.recs, |s.recs|, INTERVAL)
  }

  /** The step is no append that would go unindexed an interval or more past the last entry. */
  predicate Safe(s: State, step: Step) {
    step.Add? && |step.p| <= MAX_RECORD && !Indexed(Position(s.seg.entries, s.seg.lastIndexed), s.seg.size) ==>
      s.seg.size < LastPosition(s.seg.entries) + INTERVAL
  }

  lemma AddShortIff(s: State, p: Payload)
    requires Holds(s.seg, s.recs) && Short(s) && Next(s, Add(p)).Some?
    ensures Short(Next(s, Add(p)).value) <==> Safe(s, Add(p))
  {
    hide Holds, Near, Append, LastPosition, Indexed;
    AppendNear(s.seg, s.recs, p, INTERVAL);
    AppendOutcome(s.seg, s.recs, p);
    var (t, outcome) := Append(s.seg, p);
    if outcome.Appended? {
      assert Next(s, Add(p)).value == State(t, s.recs + [p], s.drops);
      assert |s.recs + [p]| == |s.recs| + 1;
    } else {
      assert Next(s, Add(p)).value == State(t, s.recs, s.drops);
    }
  }

  lemma StepShortIff(s: State, step: Step)
    requires Holds(s.seg, s.recs) && Short(s) && Next(s, step).Some?
    ensures Short(Next(s, step).value) <==> Safe(s, step)
  {
    hide Holds, Near, Append, Recover, FullScan, CutAtEntry, FailedAppend, Frame;
    match step
    case Add(p) => AddShortIff(s, p);
    case Fail(p, n) => FailedFields(s.seg, s.recs, p, n);
    case Crash(k, m) => RecoveryKeepsReadsShort(s.seg, s.recs, k, m, INTERVAL);
  }

  lemma FailedFields(s: Segment, recs: seq<Payload>, p: Payload, n: nat)
    requires Holds(s, recs) && n <= |Frame(p)|
    ensures s.size <= |s.file| && FailedAppend(s, p, n).entries == s.entries
    ensures FailedAppend(s, p, n).lastIndexed == s.lastIndexed && FailedAppend(s, p, n).size == s.size
  {
  }

  /** When an append is refused, and that it then leaves the index alone. */
  lemma AppendOutcome(s: Segment, recs: seq<Payload>, p: Payload)
    requires Holds(s, recs)
    ensures s.size <= |s.file| && s.base <= s.next
    ensures var (t, outcome) := Append(s, p);
            && !outcome.WriteFailed? && (outcome.RecordTooLarge? <==> |p| > MAX_RECORD)
            && (outcome.IndexFull? ==> Indexed(Position(s.entries, s.lastIndexed), s.size))
            && (outcome.Appended? ==> (Due(s) <==> Indexed(Position(s.entries, s.lastIndexed), s.size)))
            && (!outcome.Appended? ==> t.entries == s.entries && t.lastIndexed == s.lastIndexed && t.size == s.size)
            && (outcome.Appended? ==>
                  && t.lastIndexed == (if Due(s) then s.size else s.lastIndexed)
                  && LastPosition(t.entries) == (if Due(s) then s.size else LastPosition(s.entries))
                  && (!Due(s) ==> s.size < s.lastIndexed + INTERVAL))
  {
    hide Frame, Frames, IndexTrue, SegmentHeader;
  }

  /** The state a run has reached after its first j steps. */
  ghost function At(base: nat, steps: seq<Step>, j: nat): Option<State>
    requires j <= |steps|
    ensures At(base, steps, j).Some? ==> Holds(At(base, steps, j).value.seg, At(base, steps, j).value.recs)
  {
    Run(base, steps[..j])
  }

  lemma AtStep(base: nat, steps: seq<Step>, j: nat)
    requires j < |steps| && At(base, steps, j + 1).Some?
    ensures At(base, steps, j).Some? && At(base, steps, j + 1) == Next(At(base, steps, j).value, steps[j])
  {
    hide Next;
    assert steps[..j + 1][..j] == steps[..j];
  }

  /**
   * Over any run of appends, failed appends, crashes and recoveries: every read
   * stays short at every point exactly when no append went unindexed an interval
   * or more past the last entry.
   */
  lemma {:induction false} ReadsStayShortIff(base: nat, steps: seq<Step>, n: nat)
    requires n <= |steps| && forall j :: 0 <= j <= n ==> At(base, steps, j).Some?
    ensures (forall j :: 0 <= j <= n ==> Short(At(base, steps, j).value)) <==>
            (forall j :: 0 <= j < n ==> Safe(At(base, steps, j).value, steps[j]))
  {
    hide Next, Short, Safe, At, Holds, Created;
    if n == 0 {
      StartsShort(base);
      AtStart(base, steps);
    } else {
      ReadsStayShortIff(base, steps, n - 1);
      AtStep(base, steps, n - 1);
      if Short(At(base, steps, n - 1).value) {
        StepShortIff(At(base, steps, n - 1).value, steps[n - 1]);
      }
    }
  }

  lemma AtStart(base: nat, steps: seq<Step>)
    ensures At(base, steps, 0) == Some(State(Created(base), [], 0))
  {
  }

  lemma StartsShort(base: nat)
    ensures Short(State(Created(base), [], 0))
  {
  }

  /** A run with no crash in it has nothing but short reads. */
  lemma {:induction false} FreshReadsAreShort(base: nat, steps: seq<Step>)
    requires Run(base, steps).Some? && forall j :: 0 <= j < |steps| ==> !steps[j].Crash?
    ensures var s := Run(base, steps).value;
            Short(s) && s.seg.lastIndexed == LastPosition(s.seg.entries)
  {
    hide Short, Holds, Append, FailedAppend, Recover, Frame;
    if steps == [] {
      StartsShort(base);
    } else {
      var n := |steps| - 1;
      FreshReadsAreShort(base, steps[..n]);
      var s := Run(base, steps[..n]).value;
      StepShortIff(s, steps[n]);
      match steps[n]
      case Add(p) => AppendOutcome(s.seg, s.recs, p);
      case Fail(p, k) => FailedFields(s.seg, s.recs, p, k);
    }
  }

  // ---- a bound for every run --------------------------------------------------------------

  /** How far a read can be from its entry after so many recoveries that dropped one. */
  function Reach(drops: nat): nat {
    INTERVAL + drops * REACH
  }

  ghost predicate Bounded(s: State) {
    && Near(s.seg.entries, s.recs, |s.recs|, Reach(s.drops))
    && s.seg.lastIndexed <= LastPosition(s.seg.entries) + s.drops * REACH
  }

  lemma ReachGrows(drops: nat)
    ensures Reach(drops) >= INTERVAL && Reach(drops + 1) == Reach(drops) + REACH
  {
  }

  lemma AddBounded(s: State, p: Payload)
    requires Holds(s.seg, s.recs) && Bounded(s) && Next(s, Add(p)).Some?
    ensures Bounded(Next(s, Add(p)).value)
  {
    hide Holds, Near, Append;
    HoldsFacts(s.seg, s.recs);
    AppendNear(s.seg, s.recs, p, Reach(s.drops));
    AppendOutcome(s.seg, s.recs, p);
  }

  /** What a recovery leaves between its last entry and where the next interval is counted from. */
  lemma RecoveredGap(base: nat, file: seq<byte>, entries: seq<Entry>, reach: nat)
    requires |file| >= SEGMENT_HEADER && file[..SEGMENT_HEADER] == SegmentHeader(base) && Survivor(entries, file)
    requires Recover(base, file, entries).Some?
    requires var t := Recover(base, file, entries).value; Near(t.entries, FullScan(file), |FullScan(file)|, reach)
    ensures var t := Recover(base, file, entries).value;
            t.lastIndexed <= LastPosition(t.entries) + if CutAtEntry(file, entries) then reach + RECORD_HEADER + MAX_RECORD else 0
  {
    hide Frame, Parse, SegmentHeader, Pos, ReadRecord, FullScan, Survivor, Near, Before, OnTrack, IndexTrue;
    var recs, c := FullScan(file), Resume(file, entries);
    RecoverRefinesFullScan(base, file, entries);
    ResumeOnTrack(file, entries);
    OnTrackUnfold(c, file, recs);
    ReadAtBoundary(file, c.rel);
    ScanLands(file, c);
    var d := ScanFrom(file, c).value;
    OnTrackLast(d, file, recs);
    if CutAtEntry(file, entries) {
      EndIsNear(Recover(base, file, entries).value, recs, reach);
    } else {
      NothingDropped(base, file, entries);
    }
  }

  /** A segment ends within one record of the reach of its last entry. */
  lemma EndIsNear(t: Segment, recs: seq<Payload>, reach: nat)
    requires Holds(t, recs) && Near(t.entries, recs, |recs|, reach)
    ensures t.lastIndexed <= t.size <= LastPosition(t.entries) + reach + RECORD_HEADER + MAX_RECORD
  {
    hide Frames, SegmentHeader, Pos;
    HoldsFacts(t, recs);
    PosZero(recs);
    if recs != [] {
      var n := |recs| - 1;
      PosStep(recs, n);
      assert |recs[n]| <= MAX_RECORD;
      AnchorIs(t.entries, n, |t.entries| - 1);
    }
  }

  lemma CrashBounded(s: State, k: nat, m: nat)
    requires Holds(s.seg, s.recs) && Bounded(s) && Next(s, Crash(k, m)).Some?
    ensures Bounded(Next(s, Crash(k, m)).value)
  {
    hide Holds, Near, Recover, FullScan, CutAtEntry, Survivor, SegmentHeader;
    ReachGrows(s.drops);
    var file, entries := s.seg.file[..k], s.seg.entries[..m];
    CutSurvives(s.seg, s.recs, k, m);
    RecoveryKeepsReadsShort(s.seg, s.recs, k, m, Reach(s.drops));
    RecoveredGap(s.seg.base, file, entries, Reach(s.drops));
    var t, kept := Recover(s.seg.base, file, entries).value, FullScan(file);
    NearWiden(t.entries, kept, |kept|, Reach(s.drops), Reach(s.drops + 1));
  }

  /** In every run a read skips less than an interval and one longest record for each recovery that dropped an entry. */
  lemma {:induction false} ReadsAreBounded(base: nat, steps: seq<Step>)
    requires Run(base, steps).Some?
    ensures Bounded(Run(base, steps).value)
  {
    hide Next, Bounded;
    if steps == [] {
      StartsBounded(base);
    } else {
      var n := |steps| - 1;
      ReadsAreBounded(base, steps[..n]);
      var s := Run(base, steps[..n]).value;
      match steps[n]
      case Add(p) => AddBounded(s, p);
      case Fail(p, k) => FailBounded(s, p, k);
      case Crash(k, m) => CrashBounded(s, k, m);
    }
  }

  lemma StartsBounded(base: nat)
    ensures Bounded(State(Created(base), [], 0))
  {
  }

  lemma FailBounded(s: State, p: Payload, n: nat)
    requires Holds(s.seg, s.recs) && Bounded(s) && Next(s, Fail(p, n)).Some?
    ensures Bounded(Next(s, Fail(p, n)).value)
  {
    hide Holds, Near, FailedAppend, Frame;
    FailedFields(s.seg, s.recs, p, n);
  }

  // ---- a read that is not short -------------------------------------------------------------

  /**
   * An indexed append is torn and recovery drops its entry; the retry is not
   * indexed, and every read of it skips the whole record before it.
   */
  lemma ReadsCanBeLong(a: Payload, b: Payload)
    requires |a| == |b| == INTERVAL
    ensures var torn := Crash(SEGMENT_HEADER + RECORD_HEADER + INTERVAL + 1, 2);
            var r := Run(0, [Add(a), Add(b), torn, Add(b)]);
            && r.Some? && r.value.recs == [a, b] && r.value.drops == 1
            && Pos([a, b], 1) == Anchor(r.value.seg.entries, 1) + INTERVAL + RECORD_HEADER && !Short(r.value)
  {
    hide Then, Run, Holds, Pos, Short;
    LongRun(a, b);
    RunFour(Add(a), Add(b), Crash(SEGMENT_HEADER + RECORD_HEADER + INTERVAL + 1, 2), Add(b));
  }

  lemma RunSnoc(steps: seq<Step>, step: Step)
    ensures Run(0, steps + [step]) == Then(Run(0, steps), step)
  {
    hide Next;
    assert (steps + [step])[..|steps|] == steps;
  }

  lemma RunFour(a: Step, b: Step, c: Step, d: Step)
    ensures Run(0, [a, b, c, d]) == Then(Then(Then(Then(Run(0, []), a), b), c), d)
  {
    hide Then, Run, Holds;
    RunSnoc([], a);
    RunSnoc([a], b);
    RunSnoc([a, b], c);
    RunSnoc([a, b, c], d);
    assert [] + [a] == [a] && [a] + [b] == [a, b] && [a, b] + [c] == [a, b, c] && [a, b, c] + [d] == [a, b, c, d];
  }

  ghost function Then(s: Option<State>, step: Step): (r: Option<State>)
    requires s.Some? ==> Holds(s.value.seg, s.value.recs)
    ensures r.Some? ==> Holds(r.value.seg, r.value.recs)
  {
    if s.None? then None else Next(s.value, step)
  }

  lemma LongRun(a: Payload, b: Payload)
    requires |a| == |b| == INTERVAL
    ensures var torn := Crash(SEGMENT_HEADER + RECORD_HEADER + INTERVAL + 1, 2);
            var r := Then(Then(Then(Then(Run(0, []), Add(a)), Add(b)), torn), Add(b));
            && r.Some? && r.value.recs == [a, b] && r.value.drops == 1
            && Pos([a, b], 1) == Anchor(r.value.seg.entries, 1) + INTERVAL + RECORD_HEADER && !Short(r.value)
  {
    hide Append, Created, Recover, Holds, Pos, FullScan, CutAtEntry, Near;
    var s0, e := Created(0), Entry(0, SEGMENT_HEADER);
    CreatedHolds(0);
    CreatedFields(0);
    AppendHolds(s0, [], a);
    AppendFields(s0, a);
    var s1 := Append(s0, a).0;
    assert [] + [a] == [a] && [] + [e] == [e];
    AppendHolds(s1, [a], b);
    AppendFields(s1, b);
    TornIndexedAppend(s1, [a], b);
    var t := Append(s1, b).0;
    assert t.entries[..2] == t.entries;
    TornScan(s1, [a], b);
    var s2 := s1.(file := s1.file[..s1.size], lastIndexed := s1.size);
    HoldsMoved(s1, [a]);
    AppendHolds(s2, [a], b);
    AppendFields(s2, b);
    assert [a] + [b] == [a, b];
    var s3 := Append(s2, b).0;
    PosZero([a, b]);
    PosStep([a, b], 0);
    AnchorIs(s3.entries, 1, 0);
    NotNear(s3.entries, [a, b]);
  }

  lemma NotNear(entries: seq<Entry>, recs: seq<Payload>)
    requires |recs| == 2 && Pos(recs, 1) >= Anchor(entries, 1) + INTERVAL
    ensures !Near(entries, recs, 2, INTERVAL)
  {
  }

  /** Of a torn append the scan finds nothing, and the cut falls on its entry. */
  lemma TornScan(s: Segment, recs: seq<Payload>, p: Payload)
    requires Holds(s, recs) && |p| <= MAX_RECORD && Due(s)
    ensures s.size <= |s.file| && s.base <= s.next
    ensures var t := Append(s, p).0;
            && s.size + 1 <= |t.file| && FullScan(t.file[..s.size + 1]) == recs && CutAtEntry(t.file[..s.size + 1], t.entries)
  {
    hide Frame, ReadRecord, Frames, SegmentHeader, FullScan, IndexTrue, Within;
    RelativeOffsetsFit(s, recs);
    AppendHolds(s, recs, p);
    var t := Append(s, p).0;
    var file := t.file[..s.size + 1];
    assert file[s.size..] == Frame(p)[..1];
    StrictPrefixIsTorn(p, 1);
    TornIndexedAppend(s, recs, p);
    HoldsMoved(s, recs);
    CutSurvives(t, recs + [p], s.size + 1, 0);
    SizeIsPos(s, recs);
    PosPrefix(recs, [p], |recs|);
    WithinTorn(recs, p, s.size + 1);
  }

  lemma WithinTorn(recs: seq<Payload>, p: Payload, k: nat)
    requires k == Pos(recs, |recs|) + 1
    ensures Within(recs + [p], k - SEGMENT_HEADER) == |recs| && (recs + [p])[..|recs|] == recs
  {
    hide Frame, Frames, Within;
    var all := recs + [p];
    PosEnd(recs);
    WithinIsMaximal(all, k - SEGMENT_HEADER, |recs|);
    WithinIsMaximal(all, k - SEGMENT_HEADER, |recs| + 1);
    assert all[..|recs|] == recs && all[..|recs| + 1] == all;
    FramesSnoc(recs, p);
    FrameSize(p);
  }

  lemma FrameSize(p: Payload)
    ensures |Frame(p)| == RECORD_HEADER + |p|
  {
  }
}
