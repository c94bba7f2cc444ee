/** What a step does to the log's contents and to the part of it no power loss can take. */
module GroupCommitGrowth {
  import opened Record
  import opened RecordRun
  import opened Options
  import opened Scan
  import opened LogShape
  import opened GroupCommit
  import opened GroupCommitSafety

  /** Nothing is taken out of the log or of its durable part. */
  ghost predicate Longer(s: State, t: State) {
    && |s.disks| > 0 && |t.disks| > 0
    && Contents(s) <= Contents(t) && DurableCount(s) <= DurableCount(t)
  }

  lemma SameDisksLonger(s: State, t: State)
    requires |s.disks| > 0 && t.disks == s.disks
    ensures Longer(s, t)
  {
    hide Flat, Within;
    assert Parts(t) == Parts(s);
  }

  /** Flushing lengthens only the durable part. */
  lemma FlushLonger(s: State, t: State)
    requires Shape(s) && Flushes(s, t)
    ensures Longer(s, t)
  {
    hide Within, Flat, Contiguous, Shape, Flushes;
    var u := t.(start := s.start, sequence := s.sequence, pending := s.pending);
    SameFlushes(s, t, u);
    FlushGrows(s, u);
    SomeSegment(s);
    SomeSegment(u);
    SameDisksLonger(u, t);
  }

  lemma SameFlushes(s: State, t: State, u: State)
    requires Flushes(s, t) && u.disks == t.disks
    ensures Flushes(s, u)
  {
  }

  lemma DecideRollLonger(c: Config, s: State, w: nat, p: Payload, ok: bool)
    requires Inv(c, s) && s.up && |s.disks| > 0 && w in s.writers
    ensures Longer(s, DecideRollStep(c, s, w, p, ok))
  {
    hide Contents, DurableCount, Longer, Holds, Kept, Writers, Counters, Contiguous;
    var t := DecideRollStep(c, s, w, p, ok);
    assert Live(Last(s));
    if t.disks == s.disks {
      SameDisksLonger(s, t);
    } else {
      FlushedWithinFile(c, s);
      FlushLonger(s, t);
    }
  }

  lemma FsyncEndLonger(c: Config, s: State, w: nat, ok: bool)
    requires Inv(c, s) && s.up && |s.disks| > 0 && w in s.writers && s.writers[w].Flushing? && s.writers[w].at < |s.disks|
    ensures Longer(s, FsyncEndStep(s, w, s.writers[w], ok))
  {
    hide Contents, DurableCount, Longer, Within;
    WriterOk(c, s, w);
    FlushedWithinFile(c, s);
    FlushLonger(s, FsyncEndStep(s, w, s.writers[w], ok));
  }

  lemma RollCreateLonger(c: Config, s: State, w: nat, ok: bool)
    requires Inv(c, s) && s.up && |s.disks| > 0 && w in s.writers && s.writers[w].RollMarked?
    ensures Longer(s, RollCreateStep(s, w, s.writers[w].payload, ok))
  {
    hide Within, Holds, Flat, Frames, Created, Contents, DurableCount, Kept, Writers, Contiguous;
    var t := RollCreateStep(s, w, s.writers[w].payload, ok);
    if ok {
      WriterOk(c, s, w);
      LengthIsSize(Last(s).seg, Last(s).recs);
      RolledShape(s, t, Created(Last(s).seg.next));
      DurableWithinContents(s);
    } else {
      SameDisksLonger(s, t);
    }
  }

  /** Another segment in place of the last, holding the same records. */
  lemma JunkLonger(c: Config, s: State, seg: Segment, t: State)
    requires Inv(c, s) && |s.disks| > 0 && t.disks == SetLast(s, Last(s).(seg := seg)).disks
    requires seg.base == Last(s).seg.base && seg.size == Last(s).seg.size
    ensures Longer(s, t)
  {
    hide Within, Flat, Contiguous, Holds, Contents, DurableCount, Frames, Kept, Writers, Counters;
    var u := SetLast(s, Last(s).(seg := seg));
    JunkShape(s, u);
    SameDisksLonger(u, t);
  }

  lemma WriteLonger(c: Config, s: State, w: nat, p: Payload)
    requires Inv(c, s) && s.up && |s.disks| > 0 && w in s.writers && WriteStep(s, w, p).Some?
    ensures Longer(s, WriteStep(s, w, p).value)
  {
    hide Within, Flat, Append, Contiguous, Live, Writers, Kept, Counters, Contents, DurableCount, Frames, Shape;
    var d := Last(s);
    var t := WriteStep(s, w, p).value;
    assert Live(d);
    WrittenDisk(d, p);
    if Append(d.seg, p).1.Appended? {
      WrittenContents(s, t, p);
    } else {
      JunkLonger(c, s, Append(d.seg, p).0, t);
    }
  }

  /** Steps of the coordinator touch no file. */
  lemma OtherLonger(c: Config, s: State, step: Step, pc: Pc)
    requires |s.disks| > 0 && !step.PowerLoss? && !step.Reopen? && !step.Lock?
    requires step.w in s.writers && s.writers[step.w] == pc && Move(c, s, step, pc).Some?
    requires !step.DecideRoll? && !step.RollCreate? && !step.Write? && !step.WriteError? && !step.FsyncEnd?
    ensures Longer(s, Move(c, s, step, pc).value)
  {
    hide Turn, Longer;
    forall a: State, t: Ticket | step.w in a.writers
      ensures Turn(a, step.w, t).disks == a.disks
    {
      TurnKeepsDisks(a, step.w, t);
    }
    SameDisksLonger(s, Move(c, s, step, pc).value);
  }

  lemma MoveLonger(c: Config, s: State, step: Step, pc: Pc)
    requires Inv(c, s) && s.up && |s.disks| > 0 && !step.PowerLoss? && !step.Reopen? && !step.Lock?
    requires step.w in s.writers && s.writers[step.w] == pc && Move(c, s, step, pc).Some?
    ensures Longer(s, Move(c, s, step, pc).value)
  {
    hide Inv, Longer, FailedAppend, Contents, DurableCount, WriteStep, DecideRollStep, RollCreateStep, FsyncEndStep,
      RollMarkStep, SettleStep, ArriveStep, Turn, Frame;
    var w := step.w;
    match step
    case DecideRoll(_, ok) => DecideRollLonger(c, s, w, pc.payload, ok);
    case RollCreate(_, ok) => RollCreateLonger(c, s, w, ok);
    case Write(_) => WriteLonger(c, s, w, pc.payload);
    case WriteError(_, n) =>
      FailedDisk(c, s, pc.payload, n);
      JunkLonger(c, s, FailedAppend(Last(s).seg, pc.payload, n), Move(c, s, step, pc).value);
    case FsyncEnd(_, ok) => FsyncEndLonger(c, s, w, ok);
    case _ => OtherLonger(c, s, step, pc);
  }

  /**
   * No step but a reopening takes a record out of the log, and none at all takes
   * one out of its durable part; a reopening leaves more of the log or less of it,
   * never a different one.
   */
  lemma StepKeeps(c: Config, s: State, step: Step)
    requires Inv(c, s) && Apply(c, s, step).Some?
    ensures var t := Apply(c, s, step).value;
            && |t.disks| > 0 && DurableCount(s) <= DurableCount(t) <= |Contents(t)|
            && (!step.Reopen? ==> Contents(s) <= Contents(t))
            && (Contents(s) <= Contents(t) || Contents(t) <= Contents(s))
  {
    hide Inv, Move, Lose, ReopenAll, Contents, DurableCount;
    InvBounds(c, s);
    StepInv(c, s, step);
    InvBounds(c, Apply(c, s, step).value);
    match step
    case PowerLoss(cuts, indexCuts) =>
      LoseInv(c, s, cuts, indexCuts);
      LoseKeepsCount(s, cuts, indexCuts);
    case Reopen => ReopenInv(c, s);
    case Lock(_, _) => SameDisksLonger(s, Apply(c, s, step).value);
    case _ => MoveLonger(c, s, step, s.writers[step.w]);
  }

  lemma InvBounds(c: Config, s: State)
    requires Inv(c, s)
    ensures |s.disks| > 0 && DurableCount(s) <= |Contents(s)|
  {
    hide Contents, DurableCount, Kept, Writers, Counters, Files;
    DurableWithinContents(s);
  }
}
