/**
 * What an append returns (broker/log/log.go, broker/log/sync.go): which writers
 * are acknowledged and which are turned away, at every step of every run.
 */
module GroupCommitOutcome {
  import opened Bytes
  import opened Record
  import opened RecordRun
  import opened SparseIndex
  import opened Options
  import opened Scan
  import opened GroupCommit
  import opened GroupCommitSafety
  import opened GroupCommitProgress

  /** The writer's append returns its offset. */
  ghost predicate Told(s: State, w: nat, k: Ticket, t: State) {
    w !in t.writers && t.acked == s.acked + {Ack(k.offset, k.payload)}
  }

  /** The writer's append returns an error. */
  ghost predicate TurnedAway(s: State, w: nat, t: State) {
    w !in t.writers && t.acked == s.acked
  }

  /** The writer goes on. */
  ghost predicate GoesOn(s: State, w: nat, t: State) {
    w in t.writers && t.acked == s.acked
  }

  /** A writer that comes to look whether its record is on disk. */
  ghost predicate Looks(s: State, w: nat, k: Ticket, t: State) {
    if s.synced >= k.sequence then Told(s, w, k, t)
    else if s.failed then TurnedAway(s, w, t)
    else GoesOn(s, w, t)
  }

  /** The active segment holds a record, and this one would take it past its size. */
  predicate Full(c: Config, s: State, p: Payload)
    requires |s.disks| > 0
  {
    Last(s).seg.next > Last(s).seg.base && Last(s).seg.size + RECORD_HEADER + |p| > c.maxSegmentBytes
  }

  /** The record can be framed, and indexed if an entry is due for it. */
  predicate Takes(seg: Segment, p: Payload) {
    && |p| <= MAX_RECORD
    && (seg.size < U32 || (seg.entries != [] && seg.size < seg.lastIndexed + INTERVAL))
  }

  /** What a step does for the writer that takes it. */
  ghost predicate Outcome(c: Config, s: State, step: Step, t: State)
    requires |s.disks| > 0 && !step.PowerLoss? && !step.Reopen? && step.w in s.writers
  {
    var w := step.w;
    match s.writers[w]
    case Locked(p) => if step.DecideRoll? && !step.ok && Full(c, s, p) then TurnedAway(s, w, t) else GoesOn(s, w, t)
    case RollSynced(_) => GoesOn(s, w, t)
    case RollMarked(_) => if step.RollCreate? && !step.ok then TurnedAway(s, w, t) else GoesOn(s, w, t)
    case Ready(p) =>
      if step.Write? && Takes(Last(s).seg, p) then GoesOn(s, w, t) && |t.disks| > 0 && Last(t).recs == Last(s).recs + [p]
      else TurnedAway(s, w, t)
    case Written(k) => if step.Arrive? then Looks(s, w, k, t) else GoesOn(s, w, t)
    case Asleep(_) => false
    case Woken(k) => Looks(s, w, k, t)
    case Flushed(k, _, ok) => if ok then Told(s, w, k, t) else TurnedAway(s, w, t) && (c.policy.SyncGroup? ==> t.failed)
    case _ => GoesOn(s, w, t)
  }

  lemma TurnOutcome(s: State, w: nat, k: Ticket)
    requires w in s.writers
    ensures Looks(s, w, k, Turn(s, w, k))
    ensures Turn(s, w, k).writers - {w} == s.writers - {w}
  {
  }

  lemma WriteOutcome(s: State, w: nat, p: Payload)
    requires |s.disks| > 0 && w in s.writers && WriteStep(s, w, p).Some?
    ensures var t := WriteStep(s, w, p).value;
            if Takes(Last(s).seg, p) then GoesOn(s, w, t) && |t.disks| > 0 && Last(t).recs == Last(s).recs + [p]
            else TurnedAway(s, w, t)
  {
    hide Frame, WriteAt;
  }

  /** The syncer of a group had announced its own record before it began. */
  lemma SettleOutcome(c: Config, s: State, w: nat)
    requires w in s.writers && s.writers[w].Flushed? && (c.policy.SyncGroup? ==> s.writers[w].target >= s.writers[w].t.sequence)
    ensures var pc := s.writers[w];
            var t := SettleStep(c, s, w, pc.t, pc.target, pc.ok);
            if pc.ok then Told(s, w, pc.t, t) else TurnedAway(s, w, t) && (c.policy.SyncGroup? ==> t.failed)
  {
    hide Broadcast;
    BroadcastKeeps(s.writers);
  }

  lemma BroadcastKeeps(ws: map<nat, Pc>)
    ensures Broadcast(ws).Keys == ws.Keys
  {
  }

  lemma MoveOutcome(c: Config, s: State, step: Step, pc: Pc)
    requires |s.disks| > 0 && (c.policy.SyncGroup? ==> Coordinated(s))
    requires !step.PowerLoss? && !step.Reopen? && !step.Lock? && step.w in s.writers && s.writers[step.w] == pc
    requires Move(c, s, step, pc).Some?
    ensures Outcome(c, s, step, Move(c, s, step, pc).value)
  {
    hide Turn, WriteStep, SettleStep, Broadcast, Created, FailedAppend, Served, Coordinated, Takes;
    var w := step.w;
    BroadcastKeeps(s.writers);
    if step.Write? {
      WriteOutcome(s, w, pc.payload);
    } else if step.Arrive? {
      TurnOutcome(s.(pending := Max(s.pending, pc.t.sequence)), w, pc.t.(arrived := s.finished));
    } else if step.Wake? {
      TurnOutcome(s, w, pc.t);
    } else if step.Settle? {
      if c.policy.SyncGroup? {
        TargetCovers(s, w);
      }
      SettleOutcome(c, s, w);
    }
  }

  lemma TargetCovers(s: State, w: nat)
    requires Coordinated(s) && w in s.writers && s.writers[w].InSync()
    ensures s.writers[w].target >= s.writers[w].t.sequence
  {
  }

  /**
   * In every run, whatever step a writer takes: a writer that looks is
   * acknowledged when its record is claimed as synced, even after a failure, and
   * turned away when it is not and a sync has failed; the writer whose own fsync
   * returned is acknowledged just when it succeeded; nobody else is.
   */
  lemma AppendOutcome(c: Config, steps: seq<Step>, s: State, step: Step, t: State)
    requires Run(c, steps) == Some(s) && |s.disks| > 0 && Apply(c, s, step) == Some(t)
    requires !step.PowerLoss? && !step.Reopen? && step.w in s.writers
    ensures Outcome(c, s, step, t)
  {
    hide Run, Move, Lose, ReopenAll, Coordinated, Outcome;
    if c.policy.SyncGroup? {
      CoordinatorProgress(c, steps);
    }
    MoveOutcome(c, s, step, s.writers[step.w]);
  }

  // ---- the other writers ---------------------------------------------------------------------

  /** Other writers stay where they are, but for sleepers being woken. */
  ghost predicate OthersStay(s: State, w: nat, t: State) {
    && s.acked <= t.acked
    && forall v :: v in s.writers && v != w ==>
         && v in t.writers
         && (t.writers[v] == s.writers[v] || (s.writers[v].Asleep? && t.writers[v] == Woken(s.writers[v].t)))
  }

  lemma TurnOthers(s: State, w: nat, k: Ticket)
    requires w in s.writers
    ensures OthersStay(s, w, Turn(s, w, k))
  {
  }

  lemma BroadcastOthers(s: State, s': State, w: nat, t: State)
    requires s'.writers == Broadcast(s.writers) && s'.acked == s.acked && OthersStay(s', w, t)
    ensures OthersStay(s, w, t)
  {
    forall v | v in s.writers && v != w
      ensures v in t.writers
      ensures t.writers[v] == s.writers[v] || (s.writers[v].Asleep? && t.writers[v] == Woken(s.writers[v].t))
    {
      assert v in s'.writers;
    }
  }

  lemma SettleOthers(c: Config, s: State, w: nat, pc: Pc)
    requires w in s.writers && s.writers[w] == pc && pc.Flushed?
    ensures OthersStay(s, w, SettleStep(c, s, w, pc.t, pc.target, pc.ok))
  {
    hide Turn, Broadcast;
    BroadcastKeeps(s.writers);
    var t := SettleStep(c, s, w, pc.t, pc.target, pc.ok);
    if c.policy.SyncGroup? {
      var s' := s.(syncing := false, finished := s.finished + 1, failed := s.failed || !pc.ok,
                   synced := if pc.ok then Max(s.synced, pc.target) else s.synced,
                   writers := Broadcast(s.writers));
      if pc.ok {
        TurnOthers(s', w, pc.t);
      }
      BroadcastOthers(s, s', w, t);
    }
  }

  lemma MoveOthers(c: Config, s: State, step: Step, pc: Pc)
    requires |s.disks| > 0
    requires !step.PowerLoss? && !step.Reopen? && !step.Lock? && step.w in s.writers && s.writers[step.w] == pc
    requires Move(c, s, step, pc).Some?
    ensures OthersStay(s, step.w, Move(c, s, step, pc).value)
  {
    hide Turn, SettleStep, WriteStep, WriteErrorStep, DecideRollStep, RollMarkStep, RollCreateStep, OthersStay;
    var w := step.w;
    if pc.HoldsLock() {
      LockedOthers(c, s, step, pc);
    } else if step.Arrive? {
      ArriveOthers(s, w, pc.t);
    } else if step.Wake? {
      TurnOthers(s, w, pc.t);
    } else if step.Settle? {
      SettleOthers(c, s, w, pc);
    } else {
      AloneMoves(s, w, Move(c, s, step, pc).value);
    }
  }

  lemma AloneMoves(s: State, w: nat, t: State)
    requires w in t.writers && t.writers == s.writers[w := t.writers[w]] && t.acked == s.acked
    ensures OthersStay(s, w, t)
  {
  }

  lemma ArriveOthers(s: State, w: nat, t: Ticket)
    requires w in s.writers
    ensures OthersStay(s, w, ArriveStep(s, w, t))
  {
    hide Turn;
    TurnOthers(s.(pending := Max(s.pending, t.sequence)), w, t.(arrived := s.finished));
  }

  lemma LockedOthers(c: Config, s: State, step: Step, pc: Pc)
    requires |s.disks| > 0
    requires !step.PowerLoss? && !step.Reopen? && !step.Lock? && step.w in s.writers && s.writers[step.w] == pc
    requires Move(c, s, step, pc).Some? && pc.HoldsLock()
    ensures OthersStay(s, step.w, Move(c, s, step, pc).value)
  {
    hide Move;
    AppendMoves(c, s, step, pc);
    LockedAcks(c, s, step, pc);
  }

  lemma LockedAcks(c: Config, s: State, step: Step, pc: Pc)
    requires |s.disks| > 0
    requires !step.PowerLoss? && !step.Reopen? && !step.Lock? && step.w in s.writers && s.writers[step.w] == pc
    requires Move(c, s, step, pc).Some? && pc.HoldsLock()
    ensures Move(c, s, step, pc).value.acked == s.acked
  {
    hide Append, Created, FailedAppend, Broadcast;
  }

  /** A writer whose record has its place in the log. */
  predicate HasTicket(pc: Pc) {
    pc.Written? || pc.Asleep? || pc.Woken? || pc.InSync()
  }

  /**
   * In every run a writer whose record is written leaves unacknowledged only when
   * its own fsync failed, when it looks after a failed sync with its record not
   * claimed, or when the power is lost.
   */
  lemma LeavesUnacknowledgedOnlyIf(c: Config, steps: seq<Step>, s: State, step: Step, t: State, v: nat)
    requires Run(c, steps) == Some(s) && |s.disks| > 0 && Apply(c, s, step) == Some(t)
    requires v in s.writers && HasTicket(s.writers[v]) && v !in t.writers
    requires Ack(s.writers[v].t.offset, s.writers[v].t.payload) !in t.acked
    ensures || step.PowerLoss?
            || (step == Settle(v) && s.writers[v].Flushed? && !s.writers[v].ok)
            || (step in {Wake(v), Arrive(v)} && s.failed && s.synced < s.writers[v].t.sequence)
  {
    hide Run, Move, Lose, ReopenAll;
    if !step.PowerLoss? && !step.Lock? {
      UpOnly(c, steps, s);
      MoveOthers(c, s, step, s.writers[step.w]);
      AppendOutcome(c, steps, s, step, t);
      MoveIsTheWriters(c, s, step, s.writers[step.w]);
    }
  }

  lemma UpOnly(c: Config, steps: seq<Step>, s: State)
    requires Run(c, steps) == Some(s) && s.writers != map[]
    ensures s.up
  {
    hide Run, Shape, Files, Kept, Counters, Writers;
    RunInv(c, steps);
  }

  lemma MoveIsTheWriters(c: Config, s: State, step: Step, pc: Pc)
    requires |s.disks| > 0
    requires !step.PowerLoss? && !step.Reopen? && !step.Lock? && step.w in s.writers && s.writers[step.w] == pc
    requires Move(c, s, step, pc).Some?
    ensures pc.Woken? ==> step == Wake(step.w)
    ensures pc.Flushed? ==> step == Settle(step.w)
    ensures step.Arrive? ==> pc.Written?
  {
  }

  // ---- no wake-up is lost ------------------------------------------------------------------------

  /** A sleeper's record is not claimed as synced yet, and no sync has failed. */
  ghost predicate Alert(s: State) {
    forall w :: w in s.writers && s.writers[w].Asleep? ==> s.synced < s.writers[w].t.sequence && !s.failed
  }

  lemma TurnAlert(s: State, w: nat, k: Ticket)
    requires w in s.writers && Alert(s)
    ensures Alert(Turn(s, w, k))
  {
  }

  lemma SettleAlert(c: Config, s: State, w: nat, pc: Pc)
    requires w in s.writers && s.writers[w] == pc && pc.Flushed? && Alert(s)
    ensures Alert(SettleStep(c, s, w, pc.t, pc.target, pc.ok))
  {
    hide Turn;
    if c.policy.SyncGroup? {
      var s' := s.(syncing := false, finished := s.finished + 1, failed := s.failed || !pc.ok,
                   synced := if pc.ok then Max(s.synced, pc.target) else s.synced,
                   writers := Broadcast(s.writers));
      if pc.ok {
        TurnAlert(s', w, pc.t);
      }
    }
  }

  /** Under the log lock nobody goes to sleep, and whoever raises the claims wakes all sleepers. */
  lemma LockedAlert(c: Config, s: State, step: Step, pc: Pc)
    requires |s.disks| > 0 && Alert(s)
    requires !step.PowerLoss? && !step.Reopen? && !step.Lock? && step.w in s.writers && s.writers[step.w] == pc
    requires Move(c, s, step, pc).Some? && pc.HoldsLock()
    ensures Alert(Move(c, s, step, pc).value)
  {
    hide Move;
    AppendMoves(c, s, step, pc);
    AppendClaims(c, s, step, pc);
  }

  lemma AppendClaims(c: Config, s: State, step: Step, pc: Pc)
    requires |s.disks| > 0
    requires !step.PowerLoss? && !step.Reopen? && !step.Lock? && step.w in s.writers && s.writers[step.w] == pc
    requires Move(c, s, step, pc).Some? && pc.HoldsLock()
    ensures var t := Move(c, s, step, pc).value;
            if step.RollMark? then step.w in t.writers && t.writers == Broadcast(s.writers)[step.w := t.writers[step.w]]
            else t.synced == s.synced
  {
    hide WriteStep, Created, FailedAppend, Broadcast;
    if step.Write? {
      WriteMoves(s, step.w, pc.payload);
    }
  }

  lemma MoveAlert(c: Config, s: State, step: Step, pc: Pc)
    requires |s.disks| > 0 && Alert(s)
    requires !step.PowerLoss? && !step.Reopen? && !step.Lock? && step.w in s.writers && s.writers[step.w] == pc
    requires Move(c, s, step, pc).Some?
    ensures Alert(Move(c, s, step, pc).value)
  {
    hide Turn, SettleStep, WriteStep, WriteErrorStep, DecideRollStep, RollMarkStep, RollCreateStep;
    var w := step.w;
    if pc.HoldsLock() {
      LockedAlert(c, s, step, pc);
    } else if step.Arrive? {
      TurnAlert(s.(pending := Max(s.pending, pc.t.sequence)), w, pc.t.(arrived := s.finished));
    } else if step.Wake? {
      TurnAlert(s, w, pc.t);
    } else if step.Settle? {
      SettleAlert(c, s, w, pc);
    }
  }

  lemma StepAlert(c: Config, s: State, step: Step)
    requires |s.disks| > 0 && Alert(s) && Apply(c, s, step).Some?
    ensures Alert(Apply(c, s, step).value)
  {
    hide Move, Lose, ReopenAll;
    match step
    case PowerLoss(cuts, indexCuts) => LoseEmpties(s, cuts, indexCuts);
    case Reopen => ReopenEmpties(s);
    case Lock(_, _) =>
    case _ => MoveAlert(c, s, step, s.writers[step.w]);
  }

  /** In every run a writer sleeps only while its record is unclaimed and no sync has failed: no wake-up is lost. */
  lemma {:induction false} NoLostWakeup(c: Config, steps: seq<Step>)
    requires Run(c, steps).Some?
    ensures Alert(Run(c, steps).value)
  {
    hide Alert, Apply;
    if steps == [] {
      InitAlert();
    } else {
      var n := |steps| - 1;
      NoLostWakeup(c, steps[..n]);
      StepAlert(c, Run(c, steps[..n]).value, steps[n]);
    }
  }

  lemma InitAlert()
    ensures Alert(Init())
  {
  }

  // ---- covered writers ------------------------------------------------------------------------------

  /** A writer that has yet to look, or sleeps, with this ticket. */
  predicate Awaits(pc: Pc, k: Ticket) {
    (pc.Written? || pc.Asleep? || pc.Woken?) && pc.t == k
  }

  /** The writer waits still, or has been acknowledged. */
  ghost predicate SeenTo(s: State, w: nat, k: Ticket) {
    (w in s.writers && Awaits(s.writers[w], k)) || Ack(k.offset, k.payload) in s.acked
  }

  lemma CoveredStep(c: Config, s: State, step: Step, w: nat, k: Ticket)
    requires c.policy.SyncGroup? && |s.disks| > 0 && s.up && Coordinated(s) && !step.PowerLoss? && Apply(c, s, step).Some?
    requires s.synced >= k.sequence && SeenTo(s, w, k)
    ensures SeenTo(Apply(c, s, step).value, w, k)
  {
    hide Move, ReopenAll, Coordinated, Served;
    if !step.Lock? {
      MoveOthers(c, s, step, s.writers[step.w]);
      MoveOutcome(c, s, step, s.writers[step.w]);
      MoveKind(c, s, step, s.writers[step.w]);
    }
  }

  lemma MoveKind(c: Config, s: State, step: Step, pc: Pc)
    requires |s.disks| > 0 && c.policy.SyncGroup?
    requires !step.PowerLoss? && !step.Reopen? && !step.Lock? && step.w in s.writers && s.writers[step.w] == pc
    requires Move(c, s, step, pc).Some?
    ensures pc.Written? ==> step.Arrive?
    ensures !pc.Asleep?
  {
  }

  /**
   * Under group commit: once everything up to a writer's record is claimed as
   * synced, by whoever's fsync or by a roll, no continuation of the run turns that
   * writer away; until the power is lost it waits or has been acknowledged.
   */
  lemma {:induction false} CoveredIsAcknowledged(c: Config, steps: seq<Step>, more: seq<Step>, w: nat, k: Ticket)
    requires c.policy.SyncGroup? && Run(c, steps).Some? && Run(c, steps).value.up && Run(c, steps + more).Some?
    requires Run(c, steps).value.synced >= k.sequence && SeenTo(Run(c, steps).value, w, k)
    requires forall i :: 0 <= i < |more| ==> !more[i].PowerLoss?
    ensures SeenTo(Run(c, steps + more).value, w, k)
  {
    hide Run, Apply, SeenTo, Coordinated, Holding;
    if more == [] {
      assert steps + more == steps;
    } else {
      var init, last := more[..|more| - 1], more[|more| - 1];
      RunHasDisks(c, steps, more);
      CoveredIsAcknowledged(c, steps, init, w, k);
      FailStopUntilPowerLoss(c, steps, init);
      var s := Run(c, steps + init).value;
      HoldingSynced(Run(c, steps).value, s);
      CoordinatorProgress(c, steps + init);
      CoveredStep(c, s, last, w, k);
    }
  }

  lemma HoldingSynced(s: State, t: State)
    requires Holding(s, t)
    ensures s.synced <= t.synced
  {
  }

  /**
   * One fsync serves every writer it covered: when a group sync has succeeded and
   * settles, the syncer is acknowledged, each other writer that waits with a record
   * up to its target is awake, and its next step acknowledges it.
   */
  lemma OneSyncServesAll(c: Config, steps: seq<Step>, s: State, w: nat, v: nat, t: State)
    requires c.policy.SyncGroup? && Run(c, steps) == Some(s) && |s.disks| > 0 && Apply(c, s, Settle(w)) == Some(t)
    requires w in s.writers && s.writers[w].Flushed? && s.writers[w].ok
    requires v in s.writers && v != w && (s.writers[v].Asleep? || s.writers[v].Woken?)
    requires s.writers[v].t.sequence <= s.writers[w].target
    ensures Told(s, w, s.writers[w].t, t) && |t.disks| > 0 && Apply(c, t, Wake(v)).Some?
    ensures Told(t, v, s.writers[v].t, Apply(c, t, Wake(v)).value)
  {
    hide Run, Coordinated, Turn, Broadcast, Outcome, SettleStep, OthersStay;
    AppendOutcome(c, steps, s, Settle(w), t);
    OutcomeOfSync(c, s, w, t);
    UpOnly(c, steps, s);
    SettleWakes(c, s, w, v);
    TurnOutcome(t, v, s.writers[v].t);
  }

  lemma OutcomeOfSync(c: Config, s: State, w: nat, t: State)
    requires |s.disks| > 0 && w in s.writers && s.writers[w].Flushed? && s.writers[w].ok && Outcome(c, s, Settle(w), t)
    ensures Told(s, w, s.writers[w].t, t)
  {
  }

  lemma SettleWakes(c: Config, s: State, w: nat, v: nat)
    requires c.policy.SyncGroup? && w in s.writers && s.writers[w].Flushed? && s.writers[w].ok
    requires v in s.writers && v != w && (s.writers[v].Asleep? || s.writers[v].Woken?)
    ensures var pc := s.writers[w];
            var t := SettleStep(c, s, w, pc.t, pc.target, true);
            && v in t.writers && t.writers[v] == Woken(s.writers[v].t) && t.synced == Max(s.synced, pc.target)
            && t.disks == s.disks && t.up == s.up
  {
  }

  // ---- acknowledgements stand -------------------------------------------------------------------------

  lemma StepKeepsAcks(c: Config, s: State, step: Step)
    requires |s.disks| > 0 && Apply(c, s, step).Some?
    ensures s.acked <= Apply(c, s, step).value.acked
  {
    hide Move, RecoverDisk;
    match step
    case PowerLoss(_, _) =>
    case Reopen =>
    case Lock(_, _) =>
    case _ => MoveOthers(c, s, step, s.writers[step.w]);
  }

  /** No continuation of a run, power losses included, takes an acknowledgement back. */
  lemma {:induction false} AcknowledgementsStand(c: Config, steps: seq<Step>, more: seq<Step>)
    requires Run(c, steps).Some? && Run(c, steps + more).Some?
    ensures Run(c, steps).value.acked <= Run(c, steps + more).value.acked
  {
    hide Run, Apply;
    if more == [] {
      assert steps + more == steps;
    } else {
      var init, last := more[..|more| - 1], more[|more| - 1];
      RunHasDisks(c, steps, more);
      AcknowledgementsStand(c, steps, init);
      StepKeepsAcks(c, Run(c, steps + init).value, last);
    }
  }
}
