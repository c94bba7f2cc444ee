/** Nobody is stuck: in every run, while anyone is appending, some writer can take its next step. */
module GroupCommitLiveness {
  import opened Bytes
  import opened Record
  import opened RecordRun
  import opened Options
  import opened Scan
  import opened LogShape
  import opened GroupCommit
  import opened GroupCommitSafety
  import opened GroupCommitProgress
  import opened GroupCommitOutcome

  // ---- the log lock is held by somebody ----------------------------------------------------

  ghost predicate LockHeld(s: State) {
    s.locked ==> exists w :: w in s.writers && s.writers[w].HoldsLock()
  }

  lemma TurnLock(s: State, w: nat, k: Ticket)
    requires w in s.writers && !s.writers[w].HoldsLock()
    ensures Turn(s, w, k).locked == s.locked
  {
  }

  lemma SettleLock(c: Config, s: State, w: nat, pc: Pc)
    requires w in s.writers && s.writers[w] == pc && pc.Flushed?
    ensures SettleStep(c, s, w, pc.t, pc.target, pc.ok).locked == s.locked
  {
    hide Broadcast;
    BroadcastAwake(s.writers, w);
  }

  lemma BroadcastAwake(ws: map<nat, Pc>, w: nat)
    requires w in ws && !ws[w].Asleep?
    ensures w in Broadcast(ws) && Broadcast(ws)[w] == ws[w]
  {
  }

  /** A writer that has the lock keeps it or lets it go; no other step takes it. */
  lemma MoveLock(c: Config, s: State, step: Step, pc: Pc)
    requires |s.disks| > 0
    requires !step.PowerLoss? && !step.Reopen? && !step.Lock? && step.w in s.writers && s.writers[step.w] == pc
    requires Move(c, s, step, pc).Some?
    ensures var t, w := Move(c, s, step, pc).value, step.w;
            if pc.HoldsLock() then t.locked ==> w in t.writers && t.writers[w].HoldsLock()
            else t.locked == s.locked
  {
    hide Turn, SettleStep, Append, Created, FailedAppend, Broadcast;
    var w := step.w;
    if step.Arrive? {
      TurnLock(s.(pending := Max(s.pending, pc.t.sequence)), w, pc.t.(arrived := s.finished));
    } else if step.Wake? {
      TurnLock(s, w, pc.t);
    } else if step.Settle? {
      SettleLock(c, s, w, pc);
    }
  }

  lemma StepLockHeld(c: Config, s: State, step: Step)
    requires |s.disks| > 0 && LockHeld(s) && Apply(c, s, step).Some?
    ensures LockHeld(Apply(c, s, step).value)
  {
    hide Move, Lose, ReopenAll;
    var t := Apply(c, s, step).value;
    match step
    case PowerLoss(cuts, indexCuts) => Unlocked(c, s, step);
    case Reopen => Unlocked(c, s, step);
    case Lock(w, _) => assert w in t.writers && t.writers[w].HoldsLock();
    case _ => MoveLockHeld(c, s, step, s.writers[step.w]);
  }

  lemma MoveLockHeld(c: Config, s: State, step: Step, pc: Pc)
    requires |s.disks| > 0 && LockHeld(s)
    requires !step.PowerLoss? && !step.Reopen? && !step.Lock? && step.w in s.writers && s.writers[step.w] == pc
    requires Move(c, s, step, pc).Some?
    ensures LockHeld(Move(c, s, step, pc).value)
  {
    hide Move;
    var t := Move(c, s, step, pc).value;
    MoveLock(c, s, step, pc);
    MoveOthers(c, s, step, pc);
    if t.locked && !pc.HoldsLock() {
      var v :| v in s.writers && s.writers[v].HoldsLock();
      assert v in t.writers && t.writers[v].HoldsLock();
    }
  }

  lemma Unlocked(c: Config, s: State, step: Step)
    requires |s.disks| > 0 && Apply(c, s, step).Some? && (step.PowerLoss? || step.Reopen?)
    ensures !Apply(c, s, step).value.locked
  {
  }

  lemma {:induction false} LockIsHeld(c: Config, steps: seq<Step>)
    requires Run(c, steps).Some?
    ensures LockHeld(Run(c, steps).value)
  {
    hide LockHeld, Apply;
    if steps == [] {
      InitUnlocked();
    } else {
      var n := |steps| - 1;
      LockIsHeld(c, steps[..n]);
      StepLockHeld(c, Run(c, steps[..n]).value, steps[n]);
    }
  }

  lemma InitUnlocked()
    ensures LockHeld(Init())
  {
  }

  // ---- nobody sleeps without group commit -----------------------------------------------------

  ghost predicate Wakeful(c: Config, s: State) {
    c.policy.SyncAlways? ==> forall w :: w in s.writers ==> !s.writers[w].Asleep? && !s.writers[w].Woken?
  }

  lemma MoveWakeful(c: Config, s: State, step: Step, pc: Pc)
    requires |s.disks| > 0 && Wakeful(c, s)
    requires !step.PowerLoss? && !step.Reopen? && !step.Lock? && step.w in s.writers && s.writers[step.w] == pc
    requires Move(c, s, step, pc).Some?
    ensures Wakeful(c, Move(c, s, step, pc).value)
  {
    hide Turn, WriteStep, WriteErrorStep, DecideRollStep, RollMarkStep, RollCreateStep;
    if pc.HoldsLock() {
      LockedWakeful(c, s, step, pc);
    }
  }

  lemma LockedWakeful(c: Config, s: State, step: Step, pc: Pc)
    requires |s.disks| > 0 && Wakeful(c, s)
    requires !step.PowerLoss? && !step.Reopen? && !step.Lock? && step.w in s.writers && s.writers[step.w] == pc
    requires Move(c, s, step, pc).Some? && pc.HoldsLock()
    ensures Wakeful(c, Move(c, s, step, pc).value)
  {
    hide Move;
    AppendMoves(c, s, step, pc);
  }

  lemma StepWakeful(c: Config, s: State, step: Step)
    requires |s.disks| > 0 && Wakeful(c, s) && Apply(c, s, step).Some?
    ensures Wakeful(c, Apply(c, s, step).value)
  {
    hide Move, Lose, ReopenAll;
    match step
    case PowerLoss(cuts, indexCuts) => LoseEmpties(s, cuts, indexCuts);
    case Reopen => ReopenEmpties(s);
    case Lock(_, _) =>
    case _ => MoveWakeful(c, s, step, s.writers[step.w]);
  }

  lemma {:induction false} RunWakeful(c: Config, steps: seq<Step>)
    requires Run(c, steps).Some?
    ensures Wakeful(c, Run(c, steps).value)
  {
    hide Wakeful, Apply;
    if steps == [] {
      InitWakeful(c);
    } else {
      var n := |steps| - 1;
      RunWakeful(c, steps[..n]);
      StepWakeful(c, Run(c, steps[..n]).value, steps[n]);
    }
  }

  lemma InitWakeful(c: Config)
    ensures Wakeful(c, Init())
  {
  }

  // ---- somebody can go on -------------------------------------------------------------------------

  /** The step a writer takes next, with nothing going wrong. */
  function NextStep(c: Config, pc: Pc, w: nat): Step {
    match pc
    case Locked(_) => DecideRoll(w, true)
    case RollSynced(_) => RollMark(w)
    case RollMarked(_) => RollCreate(w, true)
    case Ready(_) => Write(w)
    case Written(_) => if c.policy.SyncGroup? then Arrive(w) else Lookup(w)
    case Asleep(_) => Wake(w)
    case Woken(_) => Wake(w)
    case Syncer(_, _) => Lookup(w)
    case Looked(_, _, _) => FsyncStart(w)
    case Flushing(_, _, _, _) => FsyncEnd(w, true)
    case Flushed(_, _, _) => Settle(w)
  }

  /** A writer can take its next step unless it sleeps, or wants to look at a log that is locked. */
  lemma CanGoOn(c: Config, steps: seq<Step>, s: State, w: nat)
    requires Run(c, steps) == Some(s) && s.up && w in s.writers && !s.writers[w].Asleep?
    requires NextStep(c, s.writers[w], w).Lookup? ==> !s.locked
    requires |s.disks| > 0 && Last(s).seg.next + 1 < U64
    ensures Apply(c, s, NextStep(c, s.writers[w], w)).Some?
  {
    hide Run, Contents, DurableCount, Within, Append, DecideRollStep, RollMarkStep, RollCreateStep, ArriveStep, Turn,
      FsyncEndStep, SettleStep, Holds, Kept, Counters, Contiguous, Lose, ReopenAll;
    RunInv(c, steps);
    WriterOk(c, s, w);
    LastLive(c, s);
    HoldsRoom(Last(s).seg, Last(s).recs);
    LengthIsSize(Last(s).seg, Last(s).recs);
  }

  /**
   * No deadlock. In every run, while the log is up and anyone is appending, some
   * writer can take its next step: whoever holds the lock, else the syncer the
   * sleepers wait for, else anyone.
   */
  lemma NoDeadlock(c: Config, steps: seq<Step>, s: State) returns (w: nat)
    requires Run(c, steps) == Some(s) && s.up && s.writers != map[]
    requires |s.disks| > 0 && Last(s).seg.next + 1 < U64
    ensures w in s.writers && Apply(c, s, NextStep(c, s.writers[w], w)).Some?
  {
    hide Run, Apply, Coordinated;
    LockIsHeld(c, steps);
    RunWakeful(c, steps);
    if s.locked {
      w :| w in s.writers && s.writers[w].HoldsLock();
    } else {
      w :| w in s.writers;
      if s.writers[w].Asleep? {
        CoordinatorProgress(c, steps);
        w := TheSyncer(s, w);
      }
    }
    CanGoOn(c, steps, s, w);
  }

  lemma TheSyncer(s: State, w: nat) returns (v: nat)
    requires Coordinated(s) && w in s.writers && s.writers[w].Asleep?
    ensures v in s.writers && s.writers[v].InSync()
  {
    v :| v in s.writers && s.writers[v].InSync();
  }
}
