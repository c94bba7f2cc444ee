/**
 * The coordinator makes progress and fails stop (broker/log/sync.go): one group
 * fsync at a time, no writer asleep with nobody to wake it, and no writer left
 * waiting past the second sync to finish after it arrived.
 */
module GroupCommitProgress {
  import opened Record
  import opened Options
  import opened Scan
  import opened GroupCommit
  import opened GroupCommitSafety

  /** A writer inside waitFor. */
  predicate Waiting(pc: Pc) {
    pc.Asleep? || pc.Woken? || pc.InSync()
  }

  /** What a waiting writer can count on from the syncs that finished since it arrived. */
  ghost predicate Served(s: State, t: Ticket) {
    && t.arrived <= s.finished && t.sequence <= s.pending
    && (s.finished >= t.arrived + 2 ==> s.synced >= t.sequence || s.failed)
    && (forall v :: v in s.writers && s.writers[v].InSync() && s.finished >= t.arrived + 1 ==>
          s.writers[v].target >= t.sequence)
  }

  ghost predicate Coordinated(s: State) {
    && (forall v, w :: v in s.writers && w in s.writers && s.writers[v].InSync() && s.writers[w].InSync() ==> v == w)
    && (s.syncing <==> exists v :: v in s.writers && s.writers[v].InSync())
    && (forall w :: w in s.writers && s.writers[w].Asleep? ==> s.syncing)
    && (forall w :: w in s.writers && s.writers[w].InSync() ==> s.writers[w].target >= s.writers[w].t.sequence)
    && (forall w :: w in s.writers && Waiting(s.writers[w]) ==> Served(s, s.writers[w].t))
  }

  /** One turn of waitFor, the writer's own ticket having been served so far. */
  lemma TurnCoordinated(s: State, w: nat, k: Ticket)
    requires w in s.writers && !s.writers[w].InSync() && Coordinated(s) && Served(s, k)
    ensures Coordinated(Turn(s, w, k))
  {
    var t := Turn(s, w, k);
    if s.synced >= k.sequence || s.failed {
      Removed(s, t, w);
    } else if s.syncing {
      var v :| v in s.writers && s.writers[v].InSync();
      assert v in t.writers && t.writers[v].InSync();
    } else {
      assert w in t.writers && t.writers[w].InSync();
    }
  }

  /** A writer that leaves without being the syncer changes nothing for the rest. */
  lemma Removed(s: State, t: State, w: nat)
    requires Coordinated(s) && w in s.writers && !s.writers[w].InSync()
    requires t.writers == s.writers - {w} && t.syncing == s.syncing && t.synced == s.synced
    requires t.pending == s.pending && t.failed == s.failed && t.finished == s.finished
    ensures Coordinated(t)
  {
    if s.syncing {
      var v :| v in s.writers && s.writers[v].InSync();
      assert v in t.writers && t.writers[v].InSync();
    }
  }

  /** One writer moving between points of the same kind, others possibly woken, counters only rising. */
  lemma Shifted(s: State, t: State, w: nat)
    requires Coordinated(s) && t.syncing == s.syncing && t.finished == s.finished
    requires s.synced <= t.synced && s.pending <= t.pending && (s.failed ==> t.failed)
    requires forall v :: v in s.writers ==> v in t.writers
    requires forall v :: v in t.writers && v != w ==>
               && v in s.writers
               && (t.writers[v] == s.writers[v] || (s.writers[v].Asleep? && t.writers[v] == Woken(s.writers[v].t)))
    requires w in t.writers
    requires if w in s.writers && s.writers[w].InSync()
             then t.writers[w].InSync() && t.writers[w].t == s.writers[w].t && t.writers[w].target == s.writers[w].target
             else !Waiting(t.writers[w])
    ensures Coordinated(t)
  {
    if s.syncing {
      var v :| v in s.writers && s.writers[v].InSync();
      assert v in t.writers && t.writers[v].InSync();
    }
    assert forall v :: v in t.writers && t.writers[v].InSync() ==>
      v in s.writers && s.writers[v].InSync() && t.writers[v].target == s.writers[v].target;
  }

  /** The syncer is back: everyone asleep is woken, and the count of finished syncs goes up. */
  lemma Finished(s: State, w: nat, s': State)
    requires Coordinated(s) && w in s.writers && s.writers[w].Flushed?
    requires var pc := s.writers[w];
             s' == s.(syncing := false, finished := s.finished + 1, failed := s.failed || !pc.ok,
                      synced := if pc.ok then Max(s.synced, pc.target) else s.synced,
                      writers := Broadcast(s.writers)[w := Woken(pc.t)])
    ensures Coordinated(s') && Served(s', s.writers[w].t)
  {
    var pc := s.writers[w];
    forall v | v in s'.writers && Waiting(s'.writers[v])
      ensures Served(s', s'.writers[v].t)
    {
      assert Waiting(s.writers[v]) && s'.writers[v].t == s.writers[v].t;
      assert Served(s, s.writers[v].t);
      assert s.writers[w].InSync();
    }
  }

  lemma SameUpdate(a: map<nat, Pc>, b: map<nat, Pc>, w: nat, x: Pc)
    requires a - {w} == b - {w}
    ensures a[w := x] == b[w := x]
  {
    var p, q := a[w := x], b[w := x];
    forall v | v != w
      ensures v in p <==> v in q
      ensures v in p ==> p[v] == q[v]
    {
      assert v in a - {w} <==> v in b - {w};
      if v in p {
        assert (a - {w})[v] == (b - {w})[v];
      }
    }
  }

  lemma TurnIgnoresOldPc(s: State, s': State, w: nat, k: Ticket)
    requires w in s.writers && w in s'.writers && !s.writers[w].HoldsLock() && !s'.writers[w].HoldsLock()
    requires s == s'.(writers := s.writers) && s.writers - {w} == s'.writers - {w}
    ensures Turn(s, w, k) == Turn(s', w, k)
  {
    SameUpdate(s.writers, s'.writers, w, Asleep(k));
    SameUpdate(s.writers, s'.writers, w, Syncer(k, s.pending));
  }

  lemma SettleCoordinated(c: Config, s: State, w: nat)
    requires c.policy.SyncGroup? && Coordinated(s) && w in s.writers && s.writers[w].Flushed?
    ensures var pc := s.writers[w];
            Coordinated(SettleStep(c, s, w, pc.t, pc.target, pc.ok))
  {
    hide Coordinated, Served, Turn;
    var pc := s.writers[w];
    var s' := s.(syncing := false, finished := s.finished + 1, failed := s.failed || !pc.ok,
                 synced := if pc.ok then Max(s.synced, pc.target) else s.synced,
                 writers := Broadcast(s.writers)[w := Woken(pc.t)]);
    var raw := s'.(writers := Broadcast(s.writers));
    Finished(s, w, s');
    assert raw.writers - {w} == s'.writers - {w};
    if pc.ok {
      TurnIgnoresOldPc(raw, s', w, pc.t);
      TurnCoordinated(s', w, pc.t);
    } else {
      Removed(s', Fail(raw, w), w);
    }
  }

  lemma ArriveCoordinated(s: State, w: nat)
    requires Coordinated(s) && w in s.writers && s.writers[w].Written?
    ensures Coordinated(ArriveStep(s, w, s.writers[w].t))
  {
    hide Turn;
    var t := s.writers[w].t;
    var s' := s.(pending := Max(s.pending, t.sequence));
    Shifted(s, s', w);
    TurnCoordinated(s', w, t.(arrived := s.finished));
  }

  /** Under the log lock a writer moves on, leaves, or wakes the sleepers; the claims only rise. */
  lemma AppendMoves(c: Config, s: State, step: Step, pc: Pc)
    requires |s.disks| > 0
    requires !step.PowerLoss? && !step.Reopen? && !step.Lock? && step.w in s.writers && s.writers[step.w] == pc
    requires Move(c, s, step, pc).Some? && pc.HoldsLock()
    ensures var t := Move(c, s, step, pc).value;
            && t.syncing == s.syncing && t.finished == s.finished && t.failed == s.failed
            && if step.w in t.writers then
                 && s.synced <= t.synced && s.pending <= t.pending && !Waiting(t.writers[step.w])
                 && (t.writers == s.writers[step.w := t.writers[step.w]]
                     || t.writers == Broadcast(s.writers)[step.w := t.writers[step.w]])
               else t.synced == s.synced && t.pending == s.pending && t.writers == s.writers - {step.w}
  {
    hide WriteStep, Created, FailedAppend, Broadcast;
    if step.Write? {
      WriteMoves(s, step.w, pc.payload);
    }
  }

  /** The part of Append under the log lock does not concern the coordinator, but for markSynced. */
  lemma AppendCoordinated(c: Config, s: State, step: Step, pc: Pc)
    requires |s.disks| > 0 && Coordinated(s)
    requires !step.PowerLoss? && !step.Reopen? && !step.Lock? && step.w in s.writers && s.writers[step.w] == pc
    requires Move(c, s, step, pc).Some? && pc.HoldsLock()
    ensures Coordinated(Move(c, s, step, pc).value)
  {
    hide Coordinated, Served, Move;
    var w := step.w;
    var t := Move(c, s, step, pc).value;
    AppendMoves(c, s, step, pc);
    if w in t.writers {
      Shifted(s, t, w);
    } else {
      Removed(s, t, w);
    }
  }

  lemma MoveCoordinated(c: Config, s: State, step: Step, pc: Pc)
    requires c.policy.SyncGroup? && |s.disks| > 0 && Coordinated(s)
    requires !step.PowerLoss? && !step.Reopen? && !step.Lock? && step.w in s.writers && s.writers[step.w] == pc
    requires Move(c, s, step, pc).Some?
    ensures Coordinated(Move(c, s, step, pc).value)
  {
    hide Coordinated, Served, Turn, SettleStep, ArriveStep, DecideRollStep, RollMarkStep, RollCreateStep, WriteStep,
      WriteErrorStep;
    var w := step.w;
    if pc.HoldsLock() {
      AppendCoordinated(c, s, step, pc);
    } else if pc.Written? {
      ArriveCoordinated(s, w);
    } else if pc.Woken? {
      ReadServed(s, w);
      TurnCoordinated(s, w, pc.t);
    } else if pc.Flushed? {
      SettleCoordinated(c, s, w);
    } else if !pc.Asleep? {
      Shifted(s, Move(c, s, step, pc).value, w);
    }
  }

  lemma ReadServed(s: State, w: nat)
    requires Coordinated(s) && w in s.writers && Waiting(s.writers[w])
    ensures Served(s, s.writers[w].t)
  {
  }

  lemma WriteMoves(s: State, w: nat, p: Payload)
    requires |s.disks| > 0 && w in s.writers && WriteStep(s, w, p).Some?
    ensures var t := WriteStep(s, w, p).value;
            && t.syncing == s.syncing && t.finished == s.finished && t.synced == s.synced
            && t.pending == s.pending && t.failed == s.failed
            && (t.writers == s.writers - {w} || (w in t.writers && t.writers[w].Written? && t.writers == s.writers[w := t.writers[w]]))
  {
    hide Append;
  }

  lemma StepCoordinated(c: Config, s: State, step: Step)
    requires c.policy.SyncGroup? && |s.disks| > 0 && Coordinated(s) && Apply(c, s, step).Some?
    ensures Coordinated(Apply(c, s, step).value)
  {
    hide Move, Lose, ReopenAll, Served;
    var t := Apply(c, s, step).value;
    match step
    case PowerLoss(cuts, indexCuts) => EmptyCoordinated(t) by { LoseEmpties(s, cuts, indexCuts); }
    case Reopen => EmptyCoordinated(t) by { ReopenEmpties(s); }
    case Lock(w, p) => Shifted(s, t, w);
    case _ => MoveCoordinated(c, s, step, s.writers[step.w]);
  }

  lemma EmptyCoordinated(s: State)
    requires s.writers == map[] && !s.syncing
    ensures Coordinated(s)
  {
  }

  lemma LoseEmpties(s: State, cuts: seq<nat>, indexCuts: seq<nat>)
    requires Lose(s, cuts, indexCuts).Some?
    ensures var t := Lose(s, cuts, indexCuts).value;
            t.writers == map[] && !t.syncing && !t.up
  {
  }

  lemma ReopenEmpties(s: State)
    requires |s.disks| > 0 && ReopenAll(s).Some?
    ensures var t := ReopenAll(s).value;
            t.writers == map[] && !t.syncing
  {
  }

  /**
   * In every run under group commit: at most one group fsync is in flight, and
   * exactly when `syncing` says so; a writer sleeps only while one is; and once a
   * second sync has finished since a writer arrived, its exit condition holds.
   */
  lemma {:induction false} CoordinatorProgress(c: Config, steps: seq<Step>)
    requires c.policy.SyncGroup? && Run(c, steps).Some?
    ensures Coordinated(Run(c, steps).value)
  {
    hide Coordinated, Apply;
    if steps == [] {
      EmptyCoordinated(Init());
    } else {
      var n := |steps| - 1;
      CoordinatorProgress(c, steps[..n]);
      StepCoordinated(c, Run(c, steps[..n]).value, steps[n]);
    }
  }

  /** The writer that performed a successful sync leaves with it: its own record was in the target. */
  lemma SyncerNeedsOneRound(c: Config, steps: seq<Step>, w: nat)
    requires c.policy.SyncGroup? && Run(c, steps).Some?
    requires var s := Run(c, steps).value;
             w in s.writers && s.writers[w].Flushed? && s.writers[w].ok
    ensures var s := Run(c, steps).value;
            var pc := s.writers[w];
            var t := SettleStep(c, s, w, pc.t, pc.target, true);
            w !in t.writers && Ack(pc.t.offset, pc.t.payload) in t.acked
  {
    hide Run;
    CoordinatorProgress(c, steps);
    assert Run(c, steps).value.writers[w].InSync();
  }

  /** Claims only rise, failure is not forgotten, and after a failure no sync starts. */
  ghost predicate Holding(s: State, t: State) {
    && s.synced <= t.synced && s.pending <= t.pending && s.finished <= t.finished
    && (s.failed ==> t.failed)
    && (s.failed ==> forall w :: w in t.writers && t.writers[w].Syncer? ==> w in s.writers && s.writers[w] == t.writers[w])
  }

  lemma TurnHolding(s: State, w: nat, k: Ticket)
    requires w in s.writers
    ensures Holding(s, Turn(s, w, k))
  {
  }

  lemma HoldingTransitive(s: State, t: State, u: State)
    requires Holding(s, t) && Holding(t, u)
    ensures Holding(s, u)
  {
  }

  lemma SettleHolding(c: Config, s: State, w: nat, pc: Pc)
    requires w in s.writers && s.writers[w] == pc && pc.Flushed?
    ensures Holding(s, SettleStep(c, s, w, pc.t, pc.target, pc.ok))
  {
    hide Turn;
    if c.policy.SyncGroup? {
      var s' := s.(syncing := false, finished := s.finished + 1, failed := s.failed || !pc.ok,
                   synced := if pc.ok then Max(s.synced, pc.target) else s.synced,
                   writers := Broadcast(s.writers));
      TurnHolding(s', w, pc.t);
      HoldingTransitive(s, s', Turn(s', w, pc.t));
    }
  }

  lemma ArriveHolding(s: State, w: nat, t: Ticket)
    requires w in s.writers
    ensures Holding(s, ArriveStep(s, w, t))
  {
    hide Turn;
    var s', k := s.(pending := Max(s.pending, t.sequence)), t.(arrived := s.finished);
    TurnHolding(s', w, k);
    HoldingTransitive(s, s', Turn(s', w, k));
  }

  lemma AppendHolding(c: Config, s: State, step: Step, pc: Pc)
    requires |s.disks| > 0
    requires !step.PowerLoss? && !step.Reopen? && !step.Lock? && step.w in s.writers && s.writers[step.w] == pc
    requires Move(c, s, step, pc).Some? && pc.HoldsLock()
    ensures Holding(s, Move(c, s, step, pc).value)
  {
    hide WriteStep, Created, FailedAppend;
    if step.Write? {
      WriteMoves(s, step.w, pc.payload);
    }
  }

  lemma MoveHolding(c: Config, s: State, step: Step, pc: Pc)
    requires |s.disks| > 0
    requires !step.PowerLoss? && !step.Reopen? && !step.Lock? && step.w in s.writers && s.writers[step.w] == pc
    requires Move(c, s, step, pc).Some?
    ensures Holding(s, Move(c, s, step, pc).value)
  {
    hide Turn, SettleStep, ArriveStep, DecideRollStep, RollMarkStep, RollCreateStep, WriteStep,
      WriteErrorStep;
    if pc.HoldsLock() {
      AppendHolding(c, s, step, pc);
    } else if step.Arrive? {
      ArriveHolding(s, step.w, pc.t);
    } else if pc.Woken? {
      TurnHolding(s, step.w, pc.t);
    } else if pc.Flushed? {
      SettleHolding(c, s, step.w, pc);
    }
  }

  /**
   * Fail stop: while the log is up, no step takes back what is claimed as
   * synced, and once a group sync has failed no step forgets it or starts another.
   */
  lemma FailStop(c: Config, s: State, step: Step)
    requires |s.disks| > 0 && s.up && Apply(c, s, step).Some?
    ensures Apply(c, s, step).value.up ==> Holding(s, Apply(c, s, step).value)
  {
    hide Move, Lose, ReopenAll;
    match step
    case PowerLoss(cuts, indexCuts) => LoseEmpties(s, cuts, indexCuts);
    case Reopen =>
    case Lock(_, _) =>
    case _ => MoveHolding(c, s, step, s.writers[step.w]);
  }

  lemma HoldingSelf(s: State)
    ensures Holding(s, s)
  {
  }

  /** Every step but losing power keeps a running log up. */
  lemma StaysUp(c: Config, s: State, step: Step)
    requires |s.disks| > 0 && s.up && !step.PowerLoss? && Apply(c, s, step).Some?
    ensures Apply(c, s, step).value.up
  {
    hide Move, Lose, ReopenAll;
    if !step.Reopen? && !step.Lock? {
      MoveStaysUp(c, s, step, s.writers[step.w]);
    }
  }

  lemma MoveStaysUp(c: Config, s: State, step: Step, pc: Pc)
    requires |s.disks| > 0 && s.up
    requires !step.PowerLoss? && !step.Reopen? && !step.Lock? && step.w in s.writers && s.writers[step.w] == pc
    requires Move(c, s, step, pc).Some?
    ensures Move(c, s, step, pc).value.up
  {
    hide Turn, Append, Created, FailedAppend;
    forall a: State, t: Ticket | step.w in a.writers
      ensures Turn(a, step.w, t).up == a.up
    {
      TurnStaysUp(a, step.w, t);
    }
  }

  lemma TurnStaysUp(s: State, w: nat, t: Ticket)
    requires w in s.writers
    ensures Turn(s, w, t).up == s.up
  {
  }

  lemma RunHasDisks(c: Config, steps: seq<Step>, more: seq<Step>)
    requires more != [] && Run(c, steps + more).Some?
    ensures Run(c, steps + more[..|more| - 1]).Some? && |Run(c, steps + more[..|more| - 1]).value.disks| > 0
    ensures Run(c, steps + more) == Apply(c, Run(c, steps + more[..|more| - 1]).value, more[|more| - 1])
  {
    hide Apply, Init;
    assert (steps + more)[..|steps + more| - 1] == steps + more[..|more| - 1];
  }

  /** From any point of any run until the power is next lost: claims stand, and after a failure no sync starts. */
  lemma {:induction false} FailStopUntilPowerLoss(c: Config, steps: seq<Step>, more: seq<Step>)
    requires Run(c, steps).Some? && Run(c, steps).value.up && Run(c, steps + more).Some?
    requires forall i :: 0 <= i < |more| ==> !more[i].PowerLoss?
    ensures Run(c, steps + more).value.up && Holding(Run(c, steps).value, Run(c, steps + more).value)
  {
    hide Run, Apply, Holding;
    if more == [] {
      assert steps + more == steps;
      HoldingSelf(Run(c, steps).value);
    } else {
      var init, last := more[..|more| - 1], more[|more| - 1];
      RunHasDisks(c, steps, more);
      FailStopUntilPowerLoss(c, steps, init);
      var s := Run(c, steps + init).value;
      StaysUp(c, s, last);
      FailStop(c, s, last);
      HoldingTransitive(Run(c, steps).value, s, Run(c, steps + more).value);
    }
  }
}
