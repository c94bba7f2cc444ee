/** Segment sizes over every run of the step system. */
module GroupCommitSizes {
  import opened Bytes
  import opened Record
  import opened RecordRun
  import opened Options
  import opened Scan
  import opened GroupCommit
  import opened GroupCommitSafety

  /** A segment fits the configured size, or holds the one record that does not. */
  ghost predicate Small(c: Config, recs: seq<Payload>) {
    Length(recs) <= c.maxSegmentBytes || |recs| <= 1
  }

  /** And its file runs past its records only within that size, or too little to make two records of one. */
  ghost predicate Snug(c: Config, d: Disk) {
    && Small(c, d.recs)
    && (|| |d.seg.file| <= c.maxSegmentBytes
        || |d.seg.file| < Length(d.recs) + if d.recs == [] then 2 * RECORD_HEADER else RECORD_HEADER)
  }

  ghost predicate Sized(c: Config, s: State) {
    forall i :: 0 <= i < |s.disks| ==> Snug(c, s.disks[i])
  }

  ghost predicate SameFiles(s: State, t: State) {
    && |t.disks| == |s.disks|
    && forall i :: 0 <= i < |s.disks| ==> t.disks[i].recs == s.disks[i].recs && t.disks[i].seg == s.disks[i].seg
  }

  /** Only writing, rolling and reopening change what a segment holds. */
  lemma MoveFiles(c: Config, s: State, step: Step, pc: Pc)
    requires |s.disks| > 0 && !step.PowerLoss? && !step.Reopen? && !step.Lock?
    requires step.w in s.writers && s.writers[step.w] == pc && Move(c, s, step, pc).Some?
    requires !step.Write? && !step.WriteError? && !step.RollCreate?
    ensures SameFiles(s, Move(c, s, step, pc).value)
  {
    hide Turn, Broadcast, WriteStep, WriteErrorStep, RollCreateStep;
    forall a: State, t: Ticket | step.w in a.writers
      ensures Turn(a, step.w, t).disks == a.disks
    {
      TurnKeepsDisks(a, step.w, t);
    }
    BroadcastKeeps(s.writers);
  }

  lemma BroadcastKeeps(ws: map<nat, Pc>)
    ensures Broadcast(ws).Keys == ws.Keys
  {
  }

  /** Bytes left by a failed write that are too few for two records, or fit an empty segment of the configured size. */
  predicate Harmless(c: Config, n: nat) {
    n < 2 * RECORD_HEADER || SEGMENT_HEADER + n <= c.maxSegmentBytes
  }

  predicate Fitting(c: Config, step: Step) {
    step.WriteError? ==> Harmless(c, step.n)
  }

  lemma MoveSized(c: Config, s: State, step: Step, pc: Pc)
    requires Inv(c, s) && s.up && Sized(c, s) && |s.disks| > 0 && Fitting(c, step)
    requires !step.PowerLoss? && !step.Reopen? && !step.Lock?
    requires step.w in s.writers && s.writers[step.w] == pc && Move(c, s, step, pc).Some?
    ensures Sized(c, Move(c, s, step, pc).value)
  {
    hide Inv, Snug, WriteStep, WriteErrorStep, Turn, Broadcast, DecideRollStep, SettleStep, FsyncEndStep, RollMarkStep, Created;
    if step.Write? {
      WriteSized(c, s, step.w);
    } else if step.WriteError? {
      WriteErrorSized(c, s, step.w, step.n);
    } else if step.RollCreate? {
      CreatedSnug(c, Last(s).seg.next);
    } else {
      MoveFiles(c, s, step, pc);
      SameFilesSized(c, s, Move(c, s, step, pc).value);
    }
  }

  lemma SameFilesSized(c: Config, s: State, t: State)
    requires SameFiles(s, t) && Sized(c, s)
    ensures Sized(c, t)
  {
  }

  lemma CreatedSnug(c: Config, base: nat)
    ensures Snug(c, Disk(Created(base), [], 0))
  {
    CreatedIs(base);
  }

  lemma WriteAtLength(file: seq<byte>, data: seq<byte>, at: nat)
    requires at <= |file|
    ensures |WriteAt(file, data, at)| == Max(|file|, at + |data|)
  {
  }

  lemma AppendedLength(s: Segment, p: Payload)
    requires s.size <= |s.file| && s.base <= s.next
    ensures var (t, r) := Append(s, p);
            |t.file| == if r.RecordTooLarge? then |s.file| else Max(|s.file|, s.size + RECORD_HEADER + |p|)
  {
    WriteAtLength(s.file, Frame(p), s.size);
  }

  /** What the roll decided still holds when the record is written. */
  lemma ReadyFits(c: Config, s: State, w: nat)
    requires Inv(c, s) && s.up && w in s.writers && s.writers[w].Ready?
    ensures |s.disks| > 0 && Live(Last(s)) && Last(s).seg.size == Length(Last(s).recs)
    ensures Last(s).recs == [] || Length(Last(s).recs) + RECORD_HEADER + |s.writers[w].payload| <= c.maxSegmentBytes
  {
    hide Holds, Kept, Contents, DurableCount, Frames;
    WriterOk(c, s, w);
    assert Live(Last(s));
    LengthIsSize(Last(s).seg, Last(s).recs);
  }

  lemma WriteSized(c: Config, s: State, w: nat)
    requires Inv(c, s) && s.up && w in s.writers && s.writers[w].Ready? && Sized(c, s)
    requires WriteStep(s, w, s.writers[w].payload).Some?
    ensures Sized(c, WriteStep(s, w, s.writers[w].payload).value)
  {
    hide Inv, Append, Snug, Live;
    ReadyFits(c, s, w);
    WrittenSnug(c, Last(s), s.writers[w].payload);
  }

  lemma WrittenSnug(c: Config, d: Disk, p: Payload)
    requires Live(d) && Snug(c, d) && d.seg.size == Length(d.recs)
    requires d.recs == [] || Length(d.recs) + RECORD_HEADER + |p| <= c.maxSegmentBytes
    ensures d.seg.size <= |d.seg.file| && d.seg.base <= d.seg.next
    ensures var (seg, r) := Append(d.seg, p);
            if r.Appended? then Snug(c, Disk(seg, d.recs + [p], d.durable)) else Snug(c, d.(seg := seg))
  {
    hide Append, Frames, Holds;
    WrittenDisk(d, p);
    AppendedLength(d.seg, p);
    AppendHolds(d.seg, d.recs, p);
    LengthSnoc(d.recs, p);
    EmptyLength();
  }

  lemma EmptyLength()
    ensures Length([]) == SEGMENT_HEADER
  {
  }

  lemma WriteErrorSized(c: Config, s: State, w: nat, n: nat)
    requires Inv(c, s) && s.up && w in s.writers && s.writers[w].Ready? && Sized(c, s)
    requires Harmless(c, n) && WriteErrorStep(s, w, s.writers[w].payload, n).Some?
    ensures Sized(c, WriteErrorStep(s, w, s.writers[w].payload, n).value)
  {
    hide Inv, Live, Frames, Frame;
    ReadyFits(c, s, w);
    EmptyLength();
    var p, d := s.writers[w].payload, Last(s);
    FrameLength(p);
    WriteAtLength(d.seg.file, Frame(p)[..n], d.seg.size);
  }

  lemma FrameLength(p: Payload)
    ensures |Frame(p)| == RECORD_HEADER + |p|
  {
  }

  lemma LengthSnoc(recs: seq<Payload>, p: Payload)
    ensures Length(recs + [p]) == Length(recs) + RECORD_HEADER + |p|
  {
    FramesSnoc(recs, p);
  }

  /** A recovered segment fits because its file did, or because its file had no room for more than its records or one. */
  lemma RecoverSnug(c: Config, d: Disk)
    requires Dead(d) && Snug(c, d) && RecoverDisk(d).Some?
    ensures Snug(c, RecoverDisk(d).value)
  {
    hide Frames, Recover, Holds, Length;
    var e := RecoverDisk(d).value;
    RecoveredFile(d);
    EmptyLength();
    LengthAtLeast(e.recs);
    if e.recs <= d.recs {
      assert d.recs[..|e.recs|] == e.recs;
      LengthOfPrefix(d.recs, |e.recs|);
    } else {
      LengthGrows(d.recs, e.recs);
    }
  }

  lemma RecoveredFile(d: Disk)
    requires Dead(d) && RecoverDisk(d).Some?
    ensures var e := RecoverDisk(d).value;
            && |e.seg.file| == Length(e.recs) <= |d.seg.file| && (e.recs <= d.recs || d.recs <= e.recs)
            && (|d.seg.file| <= Length(d.recs) ==> e.recs <= d.recs)
  {
    hide Within, Frames, FullScan, SegmentHeader, IndexTrue, Recover, Holds, Pos;
    var file := d.seg.file;
    var e := RecoverDisk(d).value;
    RemainsSurvive(d.seg.base, file, d.seg.entries, d.recs);
    RecoverRefinesFullScan(d.seg.base, file, d.seg.entries);
    RecoverDiskKeeps(d);
    LengthIsSize(e.seg, e.recs);
    HoldsRoom(e.seg, e.recs);
    PosIsLength(d.recs);
  }

  lemma LengthAtLeast(recs: seq<Payload>)
    ensures Length(recs) >= SEGMENT_HEADER + RECORD_HEADER * |recs|
  {
    hide Frames;
  }

  lemma LengthGrows(recs: seq<Payload>, longer: seq<Payload>)
    requires recs < longer
    ensures Length(longer) >= Length(recs) + RECORD_HEADER
  {
    hide Frames;
    assert longer == recs + longer[|recs|..];
    FramesConcat(recs, longer[|recs|..]);
  }

  lemma PosIsLength(recs: seq<Payload>)
    ensures Pos(recs, |recs|) == Length(recs)
  {
    hide Frames, Pos;
    PosEnd(recs);
  }

  lemma ReopenSized(c: Config, s: State)
    requires Inv(c, s) && !s.up && Sized(c, s) && ReopenAll(s).Some?
    ensures Sized(c, ReopenAll(s).value)
  {
    hide RecoverDisk, Dead, Live, Kept, Frames, Snug;
    forall i | 0 <= i < |s.disks|
      ensures Snug(c, RecoverDisk(s.disks[i]).value)
    {
      assert Dead(s.disks[i]);
      RecoverSnug(c, s.disks[i]);
    }
  }

  lemma StepSized(c: Config, s: State, step: Step)
    requires Inv(c, s) && Sized(c, s) && Fitting(c, step) && Apply(c, s, step).Some?
    ensures Sized(c, Apply(c, s, step).value)
  {
    hide Inv, Small, Move, ReopenAll;
    SomeDisk(c, s);
    if step.Reopen? {
      ReopenSized(c, s);
    } else if !step.PowerLoss? && !step.Lock? {
      MoveSized(c, s, step, s.writers[step.w]);
    }
  }

  lemma SomeDisk(c: Config, s: State)
    requires Inv(c, s)
    ensures |s.disks| > 0
  {
  }

  /**
   * In every run, with crashes, recoveries and failed writes, every segment fits
   * its size or holds one record, as long as each failed write leaves bytes that
   * are too few for two records or fit an empty segment.
   */
  lemma {:induction false} SegmentsStaySmall(c: Config, steps: seq<Step>)
    requires Run(c, steps).Some? && forall i :: 0 <= i < |steps| ==> Fitting(c, steps[i])
    ensures var s := Run(c, steps).value;
            Sized(c, s) && forall i :: 0 <= i < |s.disks| ==> Small(c, s.disks[i].recs)
  {
    hide Inv, Apply, Created, Harmless;
    if steps == [] {
      CreatedSnug(c, 0);
    } else {
      var n := |steps| - 1;
      SegmentsStaySmall(c, steps[..n]);
      RunInv(c, steps[..n]);
      StepSized(c, Run(c, steps[..n]).value, steps[n]);
    }
  }
}
