/** Runs in which no write leaves bytes behind: a reopened log is a prefix of the one before. */
module GroupCommitTidy {
  import opened Bytes
  import opened Record
  import opened RecordRun
  import opened Options
  import opened Scan
  import opened LogShape
  import opened GroupCommit
  import opened GroupCommitSafety
  import opened GroupCommitSizes

  /** No file runs past its records. */
  ghost predicate Tidy(s: State) {
    forall i :: 0 <= i < |s.disks| ==> |s.disks[i].seg.file| <= Length(s.disks[i].recs)
  }

  /** The step is no failed write that leaves a byte. */
  predicate Spotless(step: Step) {
    step.WriteError? ==> step.n == 0
  }

  lemma WrittenTidy(c: Config, d: Disk, p: Payload)
    requires Live(d) && c.maxSegmentBytes <= U32 && |d.seg.file| <= Length(d.recs) == d.seg.size
    requires d.recs == [] || Length(d.recs) + RECORD_HEADER + |p| <= c.maxSegmentBytes
    ensures d.seg.size <= |d.seg.file| && d.seg.base <= d.seg.next
    ensures var (seg, r) := Append(d.seg, p);
            |seg.file| <= Length(if r.Appended? then d.recs + [p] else d.recs)
  {
    hide Append, Frames, Holds;
    WrittenDisk(d, p);
    AppendedLength(d.seg, p);
    AppendHolds(d.seg, d.recs, p);
    LengthSnoc(d.recs, p);
    EmptyLength();
  }

  lemma WriteTidy(c: Config, s: State, w: nat)
    requires Inv(c, s) && s.up && w in s.writers && s.writers[w].Ready? && Tidy(s) && c.maxSegmentBytes <= U32
    requires WriteStep(s, w, s.writers[w].payload).Some?
    ensures Tidy(WriteStep(s, w, s.writers[w].payload).value)
  {
    hide Inv, Append, Live, Length;
    ReadyFits(c, s, w);
    WrittenTidy(c, Last(s), s.writers[w].payload);
  }

  lemma WriteErrorTidy(c: Config, s: State, w: nat)
    requires Inv(c, s) && s.up && w in s.writers && s.writers[w].Ready? && Tidy(s)
    requires WriteErrorStep(s, w, s.writers[w].payload, 0).Some?
    ensures Tidy(WriteErrorStep(s, w, s.writers[w].payload, 0).value)
  {
    hide Inv, Live, Length, Frame;
    ReadyFits(c, s, w);
    var p, d := s.writers[w].payload, Last(s);
    WriteAtLength(d.seg.file, Frame(p)[..0], d.seg.size);
  }

  lemma MoveTidy(c: Config, s: State, step: Step, pc: Pc)
    requires Inv(c, s) && s.up && Tidy(s) && |s.disks| > 0 && Spotless(step) && c.maxSegmentBytes <= U32
    requires !step.PowerLoss? && !step.Reopen? && !step.Lock?
    requires step.w in s.writers && s.writers[step.w] == pc && Move(c, s, step, pc).Some?
    ensures Tidy(Move(c, s, step, pc).value)
  {
    hide Inv, Length, WriteStep, WriteErrorStep, Turn, Broadcast, DecideRollStep, SettleStep, FsyncEndStep, RollMarkStep,
      Created;
    if step.Write? {
      WriteTidy(c, s, step.w);
    } else if step.WriteError? {
      WriteErrorTidy(c, s, step.w);
    } else if step.RollCreate? {
      CreatedIs(Last(s).seg.next);
      EmptyLength();
    } else {
      MoveFiles(c, s, step, pc);
    }
  }

  lemma LoseTidy(s: State, cuts: seq<nat>, indexCuts: seq<nat>)
    requires Tidy(s) && Lose(s, cuts, indexCuts).Some?
    ensures Tidy(Lose(s, cuts, indexCuts).value)
  {
    hide Length;
    forall i | 0 <= i < |s.disks|
      ensures |Lose(s, cuts, indexCuts).value.disks[i].seg.file| <= Length(s.disks[i].recs)
    {
      assert |s.disks[i].seg.file| <= Length(s.disks[i].recs);
    }
  }

  lemma ReopenTidy(c: Config, s: State)
    requires Inv(c, s) && !s.up && ReopenAll(s).Some?
    ensures Tidy(ReopenAll(s).value)
  {
    hide RecoverDisk, Dead, Live, Kept, Length;
    forall i | 0 <= i < |s.disks|
      ensures var e := RecoverDisk(s.disks[i]).value;
              |e.seg.file| <= Length(e.recs)
    {
      assert Dead(s.disks[i]);
      RecoveredFile(s.disks[i]);
    }
  }

  lemma StepTidy(c: Config, s: State, step: Step)
    requires Inv(c, s) && Tidy(s) && Spotless(step) && c.maxSegmentBytes <= U32 && Apply(c, s, step).Some?
    ensures Tidy(Apply(c, s, step).value)
  {
    hide Inv, Move, Lose, ReopenAll, Length;
    SomeDisk(c, s);
    match step
    case PowerLoss(cuts, indexCuts) => LoseTidy(s, cuts, indexCuts);
    case Reopen => ReopenTidy(c, s);
    case Lock(_, _) =>
    case _ => MoveTidy(c, s, step, s.writers[step.w]);
  }

  lemma {:induction false} RunTidy(c: Config, steps: seq<Step>)
    requires Run(c, steps).Some? && c.maxSegmentBytes <= U32 && forall i :: 0 <= i < |steps| ==> Spotless(steps[i])
    ensures Tidy(Run(c, steps).value)
  {
    hide Inv, Apply, Created, Length, Spotless;
    if steps == [] {
      CreatedIs(0);
      EmptyLength();
    } else {
      var n := |steps| - 1;
      RunTidy(c, steps[..n]);
      RunInv(c, steps[..n]);
      StepTidy(c, Run(c, steps[..n]).value, steps[n]);
    }
  }

  /** Reopening files that hold nothing but records can only cut the log short. */
  lemma TidyReopenCuts(c: Config, s: State)
    requires Inv(c, s) && !s.up && Tidy(s) && ReopenAll(s).Some?
    ensures Contents(ReopenAll(s).value) <= Contents(s)
  {
    hide Flat, Contiguous, Frames, RecoverDisk, Length, Kept, Part, Dead;
    var t, n := ReopenAll(s).value, |s.disks| - 1;
    ReopenShape(c, s);
    LastPart(s);
    assert Dead(s.disks[n]);
    RecoveredFile(s.disks[n]);
    ReplaceLast(Bases(s), Parts(s), t.disks[n].recs);
    CutLog(Flat(Parts(s)[..n]), s.disks[n].recs, t.disks[n].recs);
  }

  /**
   * When no failed write leaves a byte, and no segment outgrows its index: the
   * files of a log that is up hold exactly the log, and whatever power losses
   * came before a reopening, what comes back is a prefix of what was there.
   */
  lemma CleanRunsKeepPrefix(c: Config, steps: seq<Step>)
    requires Run(c, steps).Some? && c.maxSegmentBytes <= U32 && forall i :: 0 <= i < |steps| ==> Spotless(steps[i])
    ensures var s := Run(c, steps).value;
            && |s.disks| > 0
            && (s.up ==> Headed(s) && OnDisk(s) == Contents(s)
                         && forall i :: 0 <= i < |s.disks| ==> |s.disks[i].seg.file| == s.disks[i].seg.size)
            && (!s.up && ReopenAll(s).Some? ==> Contents(ReopenAll(s).value) <= Contents(s))
  {
    hide Run, Inv, OnDisk, Contents, ReopenAll, Spotless, Headed, Tidy;
    var s := Run(c, steps).value;
    RunInv(c, steps);
    RunTidy(c, steps);
    SomeDisk(c, s);
    if s.up {
      TidyFiles(c, s);
      OnDiskHoldsContents(c, s);
    } else if ReopenAll(s).Some? {
      TidyReopenCuts(c, s);
    }
  }

  lemma TidyFiles(c: Config, s: State)
    requires Inv(c, s) && s.up && Tidy(s)
    ensures forall i :: 0 <= i < |s.disks| ==> |s.disks[i].seg.file| == s.disks[i].seg.size
  {
    hide Kept, Writers, Contents, DurableCount, Contiguous, Holds, Length;
    forall i | 0 <= i < |s.disks|
      ensures |s.disks[i].seg.file| == s.disks[i].seg.size
    {
      assert Live(s.disks[i]);
      LengthIsSize(s.disks[i].seg, s.disks[i].recs);
      HoldsRoom(s.disks[i].seg, s.disks[i].recs);
    }
  }

  /** In particular power loss at any moment of such a run, then a successful open, only cuts the log short. */
  lemma CleanPowerLossCuts(c: Config, steps: seq<Step>, s: State, cuts: seq<nat>, indexCuts: seq<nat>, t: State)
    requires Run(c, steps) == Some(s) && s.up && c.maxSegmentBytes <= U32
    requires forall i :: 0 <= i < |steps| ==> Spotless(steps[i])
    requires var d := Lose(s, cuts, indexCuts);
             d.Some? && |d.value.disks| > 0 && ReopenAll(d.value) == Some(t)
    ensures |s.disks| > 0 && Contents(t) <= Contents(s) && DurableCount(s) <= |Contents(t)|
  {
    hide Run, OnDisk, Contents, DurableCount, Lose, ReopenAll, Headed, Spotless, ReadRecord, Parse;
    CleanRunsKeepPrefix(c, steps);
    PowerLossKeepsDurablePrefix(c, steps, s, cuts, indexCuts, t);
  }
}
