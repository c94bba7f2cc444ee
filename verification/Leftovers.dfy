/** Runs in which what a failed write left in a segment comes back as records. */
module Leftovers {
  import opened Bytes
  import opened Record
  import opened RecordRun
  import opened Options
  import opened Scan
  import opened GroupCommit
  import opened GroupCommitSafety
  import opened GroupCommitSizes
  import opened LoneWriter

  lemma LosesTail(c: Config, s: State, d: Disk, k: nat) returns (t: State)
    requires s.disks == [d] && Live(d) && d.durable <= k <= |d.seg.file|
    ensures Apply(c, s, PowerLoss([k], [0])) == Some(t) && !t.up && t.acked == s.acked
    ensures t.disks == [d.(seg := d.seg.(file := d.seg.file[..k], entries := []))] && Dead(t.disks[0])
  {
    hide Holds, Remains;
    t := Lose(s, [k], [0]).value;
    CutRemains(d.seg, d.recs, k, 0);
    assert d.seg.entries[..0] == [];
    assert t.disks == [d.(seg := d.seg.(file := d.seg.file[..k], entries := []))];
  }

  lemma Reopens(c: Config, s: State, d: Disk) returns (t: State)
    requires s.disks == [d] && !s.up && Dead(d) && SEGMENT_HEADER <= |d.seg.file| <= U32
    ensures Apply(c, s, Reopen) == Some(t) && t.up && t.acked == s.acked
    ensures Contents(t) == FullScan(d.seg.file) && |t.disks| == 1 && t.disks[0].recs == FullScan(d.seg.file)
  {
    hide Within, Frames, FullScan, SegmentHeader, IndexTrue, Recover, Holds, Pos, Contents;
    RemainsSurvive(d.seg.base, d.seg.file, d.seg.entries, d.recs);
    RecoverRefinesFullScan(d.seg.base, d.seg.file, d.seg.entries);
    t := ReopenAll(s).value;
    var e := RecoverDisk(d).value;
    assert t.disks == [e];
    OneSegment(t, e);
  }

  /** Power lost and the log opened again, at the end of a run that left one segment. */
  lemma CrashOnce(c: Config, steps: seq<Step>, s: State, d: Disk, k: nat) returns (t: State)
    requires Run(c, steps) == Some(s) && s.disks == [d] && Live(d) && d.durable <= k
    requires SEGMENT_HEADER <= k <= |d.seg.file| && k <= U32
    ensures Run(c, steps + [PowerLoss([k], [0])] + [Reopen]) == Some(t) && t.up && t.acked == s.acked
    ensures Contents(t) == FullScan(d.seg.file[..k]) && |t.disks| == 1 && t.disks[0].recs == FullScan(d.seg.file[..k])
  {
    hide Run, Apply, Live, Dead, FullScan, Contents;
    var down := LosesTail(c, s, d, k);
    t := Reopens(c, down, down.disks[0]);
    RunSnoc(c, steps, s, PowerLoss([k], [0]), down);
    RunSnoc(c, steps + [PowerLoss([k], [0])], down, Reopen, t);
  }

  // ---- a failed append -------------------------------------------------------------------------

  function FailSteps(p: Payload): seq<Step> {
    [Lock(0, p), DecideRoll(0, true), WriteError(0, |Frame(p)|)]
  }

  /** The new log after a write that failed only after its last byte. */
  function AfterFail(p: Payload): State
    requires SEGMENT_HEADER <= |Created(0).file|
  {
    Init().(disks := [EMPTY_DISK.(seg := FailedAppend(Created(0), p, |Frame(p)|))])
  }

  lemma FailRun(c: Config, p: Payload)
    requires |p| <= MAX_RECORD
    ensures SEGMENT_HEADER <= |Created(0).file| && Run(c, FailSteps(p)) == Some(AfterFail(p))
  {
    hide Run, Apply, Holds, Created, FailedAppend, Frame;
    var s := Init();
    EmptyRoom(c, p);
    RunNothing(c);
    Locks(c, s, p);
    FailsToWrite(c, s, p, |Frame(p)|);
    assert s.disks[0 := Last(AfterFail(p))] == AfterFail(p).disks;
    var m1 := [] + [Lock(0, p)];
    var m2 := m1 + [DecideRoll(0, true)];
    RunSnoc(c, [], s, Lock(0, p), By(s.(locked := true), Locked(p)));
    RunSnoc(c, m1, By(s.(locked := true), Locked(p)), DecideRoll(0, true), By(s.(locked := true), Ready(p)));
    RunSnoc(c, m2, By(s.(locked := true), Ready(p)), WriteError(0, |Frame(p)|), AfterFail(p));
    assert m2 + [WriteError(0, |Frame(p)|)] == FailSteps(p);
  }

  lemma RunNothing(c: Config)
    ensures Run(c, []) == Some(Init())
  {
  }

  lemma AfterFailLive(p: Payload)
    requires SEGMENT_HEADER <= |Created(0).file|
    ensures var d := Last(AfterFail(p));
            Holds(d.seg, []) && Live(d) && d.seg.base == d.seg.next == 0 && d.seg.size == SEGMENT_HEADER
  {
    hide Holds, Created, Frame;
    CreatedHolds(0);
    CreatedIs(0);
    FailedAppendHolds(Created(0), [], p, |Frame(p)|);
  }

  /**
   * The append of p fails after its last byte: its caller is told so, the log
   * holds nothing. After power loss and a reopening the log holds p.
   */
  lemma FailedAppendComesBack(c: Config, p: Payload)
    requires |p| <= MAX_RECORD
    ensures var before := Run(c, FailSteps(p));
            before.Some? && before.value.up && before.value.writers == map[] && Contents(before.value) == []
    ensures var crash := [PowerLoss([SEGMENT_HEADER + |Frame(p)|], [0])] + [Reopen];
            var after := Run(c, FailSteps(p) + crash);
            after.Some? && after.value.up && Contents(after.value) == [p] && after.value.acked == {}
  {
    hide Run, Holds, Created, FullScan, Contents, Survivor, Frame, FailSteps, Live;
    FailRun(c, p);
    AfterFailLive(p);
    CreatedIs(0);
    CreatedHolds(0);
    var s, k := AfterFail(p), SEGMENT_HEADER + |Frame(p)|;
    OneSegment(s, Last(s));
    FrameLength(p);
    UnclaimedIsAdopted(Created(0), [], p, 0);
    var t := CrashOnce(c, FailSteps(p), s, Last(s), k);
    assert [] + [p] == [p];
    assert FailSteps(p) + [PowerLoss([k], [0])] + [Reopen] == FailSteps(p) + ([PowerLoss([k], [0])] + [Reopen]);
  }

  // ---- leftovers of a longer record ----------------------------------------------------------------

  /** b and an empty record, as the payload of one. */
  function Nested(b: Payload): Payload {
    b + Frames([[]])
  }

  lemma NestedLength(b: Payload)
    ensures |Nested(b)| == |b| + RECORD_HEADER && |Frame(Nested(b))| == |b| + 2 * RECORD_HEADER
  {
    hide Frame, Frames;
    var none: Payload, nothing: seq<Payload> := [], [];
    FramesFirst(none, nothing);
    assert [none] + nothing == [none];
    FrameLength([]);
    FrameLength(Nested(b));
    NoFrames();
  }

  lemma NoFrames()
    ensures Frames([]) == []
  {
  }

  /** One failed write that leaves n bytes, a record written over it, power lost at full length, reopened. */
  function OversizeSteps(b: Payload): seq<Step> {
    FailSteps(Nested(b)) + [Lock(0, b)] + [DecideRoll(0, true)] + [Write(0)]
    + [PowerLoss([SEGMENT_HEADER + |b| + 2 * RECORD_HEADER], [0])] + [Reopen]
  }

  lemma OverwriteRun(c: Config, b: Payload) returns (s: State, d: Disk)
    requires |b| + RECORD_HEADER <= MAX_RECORD
    ensures Run(c, FailSteps(Nested(b)) + [Lock(0, b)] + [DecideRoll(0, true)] + [Write(0)]) == Some(s)
    ensures s.disks == [d] && Live(d) && d.durable == 0
    ensures |d.seg.file| == SEGMENT_HEADER + |b| + 2 * RECORD_HEADER && FullScan(d.seg.file) == [b, []]
  {
    hide Run, Apply, Holds, Created, Frame, Frames, FullScan, FailSteps, Append;
    var big := Nested(b);
    NestedLength(b);
    FailRun(c, big);
    AfterFailLive(big);
    EmptyRoom(c, b);
    var f := AfterFail(big);
    Locks(c, f, b);
    Writes(c, f, b);
    RoomAppends(c, Last(f), b);
    var m0 := FailSteps(big);
    RunSnoc(c, m0, f, Lock(0, b), By(f.(locked := true), Locked(b)));
    RunSnoc(c, m0 + [Lock(0, b)], By(f.(locked := true), Locked(b)), DecideRoll(0, true), By(f.(locked := true), Ready(b)));
    s, d := AfterWrite(f, b), Unsynced(Last(f), b);
    RunSnoc(c, m0 + [Lock(0, b)] + [DecideRoll(0, true)], By(f.(locked := true), Ready(b)), Write(0), s);
    OverwrittenScan(b);
  }

  lemma OverwrittenScan(b: Payload)
    requires |b| + RECORD_HEADER <= MAX_RECORD
    ensures var s := Created(0);
            && s.size <= |s.file| && s.base <= s.next
            && var file := Append(FailedAppend(s, Nested(b), |Frame(Nested(b))|), b).0.file;
               |file| == SEGMENT_HEADER + |b| + 2 * RECORD_HEADER && FullScan(file) == [b, []]
  {
    hide Holds, Frame, Frames, FullScan, Append, FailedAppend;
    NestedLength(b);
    LeftoversAreAdopted(0, b, [[]]);
    OverwrittenFile(0, b, [[]]);
    FramesFirst(b, [[]]);
    FrameLength(b);
    assert [b] + [[]] == [b, []];
  }

  /** However many bytes the failed write left, if it is not harmless a segment of two records past its size can follow. */
  lemma OversizedRun(c: Config, b: Payload)
    requires |b| + RECORD_HEADER <= MAX_RECORD && !Harmless(c, |b| + 2 * RECORD_HEADER)
    ensures Run(c, OversizeSteps(b)).Some? && OnlyLeave(OversizeSteps(b), |b| + 2 * RECORD_HEADER)
    ensures var s := Run(c, OversizeSteps(b)).value;
            s.up && Contents(s) == [b, []] && !AllSmall(c, s)
  {
    hide Run, Frame, Frames, FullScan, Contents, Live;
    var s, d := OverwriteRun(c, b);
    var before := FailSteps(Nested(b)) + [Lock(0, b)] + [DecideRoll(0, true)] + [Write(0)];
    var k := SEGMENT_HEADER + |b| + 2 * RECORD_HEADER;
    assert d.seg.file[..k] == d.seg.file;
    var t := CrashOnce(c, before, s, d, k);
    NestedLength(b);
    LengthOfTwo(b);
    assert !Small(c, t.disks[0].recs);
  }

  lemma LengthOfTwo(b: Payload)
    ensures Length([b, []]) == SEGMENT_HEADER + |b| + 2 * RECORD_HEADER
  {
    hide Frames;
    EmptyLength();
    LengthSnoc([], b);
    assert [] + [b] == [b];
    LengthSnoc([b], []);
    assert [b] + [[]] == [b, []];
  }

  // ---- exactly which leftovers are harmless ----------------------------------------------------------

  ghost predicate AllSmall(c: Config, s: State) {
    forall i :: 0 <= i < |s.disks| ==> Small(c, s.disks[i].recs)
  }

  /** Every failed write in the run leaves n bytes. */
  predicate OnlyLeave(steps: seq<Step>, n: nat) {
    forall i :: 0 <= i < |steps| && steps[i].WriteError? ==> steps[i].n == n
  }

  /**
   * For every number of bytes a failed write can leave: all runs whose failed
   * writes leave that many keep every segment within its size or at one record,
   * exactly when the number is harmless.
   */
  lemma HarmlessIff(c: Config, n: nat)
    requires n <= RECORD_HEADER + MAX_RECORD
    ensures Harmless(c, n) <==>
            forall steps :: Run(c, steps).Some? && OnlyLeave(steps, n) ==> AllSmall(c, Run(c, steps).value)
  {
    hide Run, Small, OversizeSteps;
    if Harmless(c, n) {
      forall steps | Run(c, steps).Some? && OnlyLeave(steps, n)
        ensures AllSmall(c, Run(c, steps).value)
      {
        SegmentsStaySmall(c, steps);
      }
    } else {
      var b: Payload := seq(n - 2 * RECORD_HEADER, _ => 0);
      OversizedRun(c, b);
    }
  }
}
