/**
 * What recovery leaves behind: when recovering again changes nothing, and how
 * far a read may have to skip.
 */
module Recovery {
  import opened Bytes
  import opened Record
  import opened RecordRun
  import opened SparseIndex
  import opened Options
  import opened Scan

  /** The last record starts within an interval of the last index entry. */
  ghost predicate Settled(lastIndexed: nat, recs: seq<Payload>) {
    recs == [] || Pos(recs, |recs| - 1) < lastIndexed + INTERVAL
  }

  /** A scan that passes over any record ends settled, and one that starts settled indexes nothing. */
  lemma {:induction false} ScanSettles(file: seq<byte>, c: Cursor)
    requires |file| >= SEGMENT_HEADER && OnTrack(c, file, FullScan(file)) && c.position <= |file|
    ensures var recs := FullScan(file);
            match ScanFrom(file, c)
            case None => !(c.ix.entries != [] && Settled(c.ix.lastIndexed, recs))
            case Some(d) =>
              && (c.rel < |recs| ==> Settled(d.ix.lastIndexed, recs))
              && (c.ix.entries != [] && Settled(c.ix.lastIndexed, recs) ==> d.ix == c.ix)
              && c.ix.entries <= d.ix.entries
    decreases |file| - c.position
  {
    hide Pos, FullScan, ReadRecord, OnTrack, Frame;
    var recs := FullScan(file);
    OnTrackUnfold(c, file, recs);
    ReadAtBoundary(file, c.rel);
    if c.rel < |recs| {
      WholeIsFrame(file[c.position..]);
      MaybeIndexOnTrack(c, file, recs);
      PosMonotone(recs, c.rel, |recs| - 1);
      var ix := MaybeIndex(c.ix, c.rel, c.position);
      if ix.Some? {
        ScanSettles(file, Cursor(c.position + RECORD_HEADER + |recs[c.rel]|, c.rel + 1, ix.value));
      }
    }
  }

  /** The last surviving entry points at a record that did not survive. */
  ghost predicate CutAtEntry(file: seq<byte>, entries: seq<Entry>) {
    && entries != []
    && var at := entries[|entries| - 1].position;
       SEGMENT_HEADER <= at < |file| && !ReadRecord(file[at..]).Whole?
  }

  lemma RecoveredScansBack(file: seq<byte>, s: Segment)
    requires |file| >= SEGMENT_HEADER && Holds(s, FullScan(file))
    requires s.size <= |file| && s.file == file[..s.size]
    ensures |s.file| == s.size >= SEGMENT_HEADER && FullScan(s.file) == FullScan(file) && Survivor(s.entries, s.file)
    ensures s.file[..SEGMENT_HEADER] == SegmentHeader(s.base)
  {
    hide Frame, Parse, IndexTrue, SegmentHeader, Survivor, Within;
    var recs := FullScan(file);
    CutSurvives(s, recs, s.size, |s.entries|);
    WithinAll(recs);
    assert s.file[..s.size] == s.file && s.entries[..|s.entries|] == s.entries;
    assert recs[..|recs|] == recs;
  }

  /** Resuming from a recovered segment: at its last entry, with its index as it is. */
  lemma ResumeRecovered(s: Segment, recs: seq<Payload>)
    requires Holds(s, recs) && |s.file| == s.size
    ensures var c := Resume(s.file, s.entries);
            && c.ix.entries == s.entries
            && (s.entries != [] ==> c.rel < |recs| && c.ix.lastIndexed == s.entries[|s.entries| - 1].position)
            && (s.entries == [] ==> recs == [] && c.ix.lastIndexed == SEGMENT_HEADER)
  {
    hide Frames, SegmentHeader, Sparse, Pos;
    PosEnd(recs);
    PosZero(recs);
    assert s.size == |s.file[..s.size]|;
    if s.entries != [] {
      var e := s.entries[|s.entries| - 1];
      PosMonotone(recs, 0, e.rel);
      PosMonotone(recs, e.rel, |recs|);
    }
  }

  /**
   * Recovering a recovered segment: the same records, file and size always. The
   * index too, except that after a recovery which dropped the entry it resumed
   * from, it is unchanged exactly when the last record starts within an interval
   * of the last entry left.
   */
  lemma SecondRecovery(base: nat, file: seq<byte>, entries: seq<Entry>)
    requires |file| >= SEGMENT_HEADER && file[..SEGMENT_HEADER] == SegmentHeader(base)
    requires Survivor(entries, file) && Recover(base, file, entries).Some?
    ensures var s := Recover(base, file, entries).value;
            && |s.file| >= SEGMENT_HEADER
            && var t := Recover(base, s.file, s.entries);
               && (t.Some? ==> t.value.file == s.file && t.value.size == s.size && t.value.next == s.next)
               && (!CutAtEntry(file, entries) ==> t == Some(s))
               && (t.Some? && s.entries != [] ==>
                     (t.value.entries == s.entries
                      <==> Settled(s.entries[|s.entries| - 1].position, FullScan(file))))
  {
    hide Frame, Parse, IndexTrue, SegmentHeader, Survivor, Within, Holds, Pos, ReadRecord, Before, FullScan, OnTrack;
    var recs := FullScan(file);
    var c := Resume(file, entries);
    RecoverRefinesFullScan(base, file, entries);
    var s := Recover(base, file, entries).value;
    RecoveredScansBack(file, s);
    RecoverRefinesFullScan(base, s.file, s.entries);
    ResumeOnTrack(file, entries);
    OnTrackUnfold(c, file, recs);
    ReadAtBoundary(file, c.rel);
    ScanLands(file, c);
    ScanSettles(file, c);
    var d := ScanFrom(file, c).value;
    OnTrackLast(d, file, recs);
    OnTrackUnfold(d, file, recs);
    var c2 := Resume(s.file, s.entries);
    ResumeRecovered(s, recs);
    ResumeOnTrack(s.file, s.entries);
    OnTrackUnfold(c2, s.file, recs);
    ReadAtBoundary(s.file, c2.rel);
    ScanLands(s.file, c2);
    ScanSettles(s.file, c2);
    SameSize(s, recs);
    var t := Recover(base, s.file, s.entries);
    if t.Some? {
      SameSize(t.value, recs);
      OnTrackLast(ScanFrom(s.file, c2).value, s.file, recs);
    }
    if !CutAtEntry(file, entries) {
      NothingDropped(base, file, entries);
    }
  }

  lemma OnTrackLast(c: Cursor, file: seq<byte>, recs: seq<Payload>)
    requires OnTrack(c, file, recs)
    ensures c.ix.lastIndexed == if c.ix.entries == [] then SEGMENT_HEADER else c.ix.entries[|c.ix.entries| - 1].position
    ensures c.ix.entries == [] ==> c.rel == 0
  {
  }

  lemma SameSize(s: Segment, recs: seq<Payload>)
    requires Holds(s, recs)
    ensures s.size == Pos(recs, |recs|) && s.next == s.base + |recs|
  {
    hide Frames, IndexTrue;
    PosEnd(recs);
    assert s.size == |s.file[..s.size]|;
  }

  /** Unless the cut falls on the entry resumed from, every entry is kept. */
  lemma NothingDropped(base: nat, file: seq<byte>, entries: seq<Entry>)
    requires |file| >= SEGMENT_HEADER && Survivor(entries, file) && Recover(base, file, entries).Some?
    requires !CutAtEntry(file, entries)
    ensures var d := ScanFrom(file, Resume(file, entries));
            d.Some? && Recover(base, file, entries).value.entries == d.value.ix.entries
    ensures Resume(file, entries).rel < |FullScan(file)| || Resume(file, entries).ix.entries == []
  {
    hide Frame, Parse, SegmentHeader, Pos, ReadRecord, FullScan, MaybeIndex, Before;
    var recs := FullScan(file);
    var c := Resume(file, entries);
    ResumeOnTrack(file, entries);
    ReadAtBoundary(file, c.rel);
    ScanLands(file, c);
    var d := ScanFrom(file, c).value;
    if c.rel == |recs| {
      assert d == c;
    }
    AllBefore(file, c);
  }

  /** No entry of the finished scan is at or past its end, unless the scan never moved. */
  lemma {:induction false} AllBefore(file: seq<byte>, c: Cursor)
    requires |file| >= SEGMENT_HEADER && OnTrack(c, file, FullScan(file)) && c.position <= |file|
    requires c.rel < |FullScan(file)| || c.ix.entries == []
    requires ScanFrom(file, c).Some?
    ensures var d := ScanFrom(file, c).value;
            Before(d.ix.entries, d.position) == d.ix.entries
    decreases |file| - c.position
  {
    hide Frame, Parse, SegmentHeader, Pos, ReadRecord, FullScan, Before;
    var recs := FullScan(file);
    ScanLands(file, c);
    ScanLastBeforeEnd(file, c);
    var d := ScanFrom(file, c).value;
    forall i | 0 <= i < |d.ix.entries|
      ensures d.ix.entries[i].position < d.position
    {
      var last := |d.ix.entries| - 1;
      assert d.ix.entries[i].position <= d.ix.entries[last].position;
    }
  }

  lemma {:induction false} ScanLastBeforeEnd(file: seq<byte>, c: Cursor)
    requires |file| >= SEGMENT_HEADER && OnTrack(c, file, FullScan(file)) && c.position <= |file|
    requires c.rel < |FullScan(file)| || c.ix.entries == []
    requires ScanFrom(file, c).Some?
    ensures var d := ScanFrom(file, c).value;
            d.ix.entries == [] || d.ix.lastIndexed < d.position
    decreases |file| - c.position
  {
    hide Frame, Parse, Pos, ReadRecord, FullScan, OnTrack, Before;
    var recs := FullScan(file);
    OnTrackUnfold(c, file, recs);
    ReadAtBoundary(file, c.rel);
    if c.rel < |recs| {
      WholeIsFrame(file[c.position..]);
      MaybeIndexOnTrack(c, file, recs);
      OnTrackBehind(c, file, recs);
      var e := Cursor(c.position + RECORD_HEADER + |recs[c.rel]|, c.rel + 1, MaybeIndex(c.ix, c.rel, c.position).value);
      if e.rel < |recs| {
        ScanLastBeforeEnd(file, e);
      } else {
        ReadAtBoundary(file, e.rel);
        OnTrackUnfold(e, file, recs);
      }
    }
  }

  lemma OnTrackBehind(c: Cursor, file: seq<byte>, recs: seq<Payload>)
    requires OnTrack(c, file, recs)
    ensures c.ix.lastIndexed <= c.position
  {
  }

  /** The record being appended to `s` gets an index entry of its own. */
  ghost predicate Due(s: Segment) {
    s.size < U32 && (s.entries == [] || s.size - s.lastIndexed >= INTERVAL)
  }

  /** Losing all but one byte of an indexed append undoes it, except that `lastIndexed` stays at the cut. */
  lemma TornIndexedAppend(s: Segment, recs: seq<Payload>, p: Payload)
    requires Holds(s, recs) && |p| <= MAX_RECORD && Due(s)
    ensures var t := Append(s, p).0;
            && |t.file| > s.size
            && Recover(s.base, t.file[..s.size + 1], t.entries)
               == Some(s.(file := s.file[..s.size], lastIndexed := s.size))
  {
    hide Frame, ReadRecord, Before, Frames, SegmentHeader;
    RelativeOffsetsFit(s, recs);
    var t := Append(s, p).0;
    var e := Entry(|recs|, s.size);
    assert t.entries == s.entries + [e];
    var file := t.file[..s.size + 1];
    assert file[s.size..] == Frame(p)[..1];
    StrictPrefixIsTorn(p, 1);
    assert file[..s.size] == s.file[..s.size];
    SameSize(s, recs);
    forall i | 0 <= i < |s.entries|
      ensures s.entries[i].position < s.size
    {
      PosStep(recs, s.entries[i].rel);
      PosMonotone(recs, s.entries[i].rel + 1, |recs|);
    }
    BeforeIs(t.entries, |s.entries|, s.size);
  }

  /**
   * A run in which recovering twice does index more: an indexed append is torn,
   * so `lastIndexed` moves past it; the retry is then not indexed; the next
   * record is, and is torn in turn. Recovery drops that entry and leaves a gap
   * which only a second recovery fills.
   */
  lemma SecondRecoveryCanIndexMore(a: Payload, b: Payload)
    requires |a| == |b| == INTERVAL
    ensures var s1 := Append(Created(0), a).0;
            var s2 := s1.(file := s1.file[..s1.size], lastIndexed := s1.size);
            var s3 := Append(s2, b).0;
            var s4 := s3.(file := s3.file[..s3.size], lastIndexed := s3.size);
            && Recover(0, Append(s1, b).0.file[..s1.size + 1], Append(s1, b).0.entries) == Some(s2)
            && Recover(0, Append(s3, []).0.file[..s3.size + 1], Append(s3, []).0.entries) == Some(s4)
            && var t := Recover(0, s4.file, s4.entries);
               t.Some? && t.value.entries != s4.entries
  {
    hide Append, Created, Recover, Holds, Pos;
    var s0, e := Created(0), Entry(0, SEGMENT_HEADER);
    CreatedHolds(0);
    CreatedFields(0);
    AppendHolds(s0, [], a);
    AppendFields(s0, a);
    var s1 := Append(s0, a).0;
    assert [] + [a] == [a];
    assert s1.entries == [e];
    TornIndexedAppend(s1, [a], b);
    var s2 := s1.(file := s1.file[..s1.size], lastIndexed := s1.size);
    HoldsMoved(s1, [a]);
    AppendHolds(s2, [a], b);
    AppendFields(s2, b);
    var s3 := Append(s2, b).0;
    assert [a] + [b] == [a, b];
    TornIndexedAppend(s3, [a, b], []);
    var s4 := s3.(file := s3.file[..s3.size], lastIndexed := s3.size);
    HoldsMoved(s3, [a, b]);
    PosZero([a, b]);
    PosStep([a, b], 0);
    GapFilled(s4, [a, b]);
  }

  lemma AppendFields(s: Segment, p: Payload)
    requires s.size <= |s.file| && s.base <= s.next && |p| <= MAX_RECORD && s.size < U32
    ensures var (t, r) := Append(s, p);
            && r == Appended(s.next) && t.base == s.base && t.next == s.next + 1
            && t.size == s.size + RECORD_HEADER + |p| <= |t.file|
            && t.lastIndexed == (if Due(s) then s.size else s.lastIndexed)
            && t.entries == (if Due(s) then s.entries + [Entry((s.next - s.base) % U32, s.size)] else s.entries)
  {
    hide Frame;
  }

  lemma CreatedFields(base: nat)
    ensures var s := Created(base);
            s.size == SEGMENT_HEADER && s.lastIndexed == SEGMENT_HEADER && s.entries == [] && |s.file| == s.size && s.base == s.next == base
  {
  }

  lemma HoldsMoved(s: Segment, recs: seq<Payload>)
    requires Holds(s, recs) && s.size < U32
    ensures Holds(s.(file := s.file[..s.size], lastIndexed := s.size), recs)
  {
    hide Frames, IndexTrue, SegmentHeader, Pos;
    assert s.file[..s.size][..s.size] == s.file[..s.size];
  }

  /** An unsettled index grows when its segment is recovered. */
  lemma GapFilled(s: Segment, recs: seq<Payload>)
    requires Holds(s, recs) && |s.file| == s.size < U32 && s.entries != []
    requires !Settled(s.entries[|s.entries| - 1].position, recs)
    ensures var t := Recover(s.base, s.file, s.entries);
            t.Some? && t.value.entries != s.entries
  {
    hide Frame, ReadRecord, Before, Frames, SegmentHeader, Pos, Holds, IndexTrue, Survivor, FullScan, OnTrack, Within;
    SameSize(s, recs);
    PosEnd(recs);
    CutSurvives(s, recs, s.size, |s.entries|);
    WithinAll(recs);
    assert s.file[..s.size] == s.file && s.entries[..|s.entries|] == s.entries && recs[..|recs|] == recs;
    RecoverRefinesFullScan(s.base, s.file, s.entries);
    var c := Resume(s.file, s.entries);
    ResumeRecovered(s, recs);
    ResumeOnTrack(s.file, s.entries);
    OnTrackUnfold(c, s.file, recs);
    ReadAtBoundary(s.file, c.rel);
    ScanLands(s.file, c);
    ScanSettles(s.file, c);
    var d := ScanFrom(s.file, c).value;
    OnTrackLast(d, s.file, recs);
    ScanLastBeforeEnd(s.file, c);
    AllBefore(s.file, c);
  }
}
