/** Two writers, one fsync: the batching group commit is for, as a run. */
module SharedSync {
  import opened Bytes
  import opened Record
  import opened Options
  import opened Scan
  import opened GroupCommit
  import opened GroupCommitSafety
  import opened LoneWriter

  /** Both writers, each at some point of its append. */
  function Both(s: State, a: Pc, b: Pc): State {
    s.(writers := map[0 := a, 1 := b])
  }

  lemma BothMove(a: Pc, b: Pc, x: Pc)
    ensures map[0 := a, 1 := b][0 := x] == map[0 := x, 1 := b] && map[0 := a, 1 := b][1 := x] == map[0 := a, 1 := x]
    ensures map[0 := a, 1 := b] - {1} == map[0 := a]
  {
  }

  /** The second writer appends while the first has yet to wait. */
  lemma SecondWrites(c: Config, s: State, a: Pc, q: Payload)
    requires s.up && |s.disks| > 0 && !s.locked && Room(c, Last(s), q)
    ensures var held := s.(locked := true);
            var after := SetLast(s, Unsynced(Last(s), q)).(sequence := s.sequence + 1);
            && Apply(c, By(s, a), Lock(1, q)) == Some(Both(held, a, Locked(q)))
            && Apply(c, Both(held, a, Locked(q)), DecideRoll(1, true)) == Some(Both(held, a, Ready(q)))
            && Apply(c, Both(held, a, Ready(q)), Write(1)) ==
               Some(Both(after, a, Written(Ticket(Last(s).seg.next, s.sequence + 1, q, 0))))
  {
    hide Append, Holds, WriteErrorStep, RollCreateStep, RollMarkStep, Lose, ReopenAll, SettleStep, FsyncEndStep, ArriveStep, Turn;
    RoomAppends(c, Last(s), q);
    HoldsRoom(Last(s).seg, Last(s).recs);
    LengthIsSize(Last(s).seg, Last(s).recs);
    assert map[0 := a][1 := Locked(q)] == map[0 := a, 1 := Locked(q)];
    BothMove(a, Locked(q), Ready(q));
    BothMove(a, Ready(q), Written(Ticket(Last(s).seg.next, s.sequence + 1, q, 0)));
  }

  /** It arrives first and becomes the syncer; the first then finds it at work, and sleeps. */
  lemma BothArrive(c: Config, s: State, j: Ticket, k: Ticket)
    requires c.policy.SyncGroup? && s.up && |s.disks| > 0 && !s.syncing && !s.failed
    requires s.synced < j.sequence <= k.sequence && s.pending <= k.sequence
    ensures var at, seen := s.(pending := k.sequence, syncing := true), k.(arrived := s.finished);
            && Apply(c, Both(s, Written(j), Written(k)), Arrive(1)) == Some(Both(at, Written(j), Syncer(seen, k.sequence)))
            && Apply(c, Both(at, Written(j), Syncer(seen, k.sequence)), Arrive(0)) ==
               Some(Both(at, Asleep(j.(arrived := s.finished)), Syncer(seen, k.sequence)))
  {
    hide WriteStep, DecideRollStep, RollCreateStep, RollMarkStep, WriteErrorStep, Lose, ReopenAll, SettleStep, FsyncEndStep,
      Broadcast;
    var seen := Syncer(k.(arrived := s.finished), k.sequence);
    BothMove(Written(j), Written(k), seen);
    BothMove(Written(j), seen, Asleep(j.(arrived := s.finished)));
  }

  lemma SecondSyncs(c: Config, s: State, a: Pc, k: Ticket, target: nat)
    requires s.up && |s.disks| > 0 && !s.locked && Last(s).durable <= Last(s).seg.size
    ensures var n, size := |s.disks| - 1, Last(s).seg.size;
            && Apply(c, Both(s, a, Syncer(k, target)), Lookup(1)) == Some(Both(s, a, Looked(k, target, n)))
            && Apply(c, Both(s, a, Looked(k, target, n)), FsyncStart(1)) == Some(Both(s, a, Flushing(k, target, n, size)))
            && Apply(c, Both(s, a, Flushing(k, target, n, size)), FsyncEnd(1, true)) ==
               Some(Both(SetLast(s, Last(s).(durable := size)), a, Flushed(k, target, true)))
  {
    hide WriteStep, DecideRollStep, RollCreateStep, RollMarkStep, WriteErrorStep, Lose, ReopenAll, SettleStep, ArriveStep, Turn;
    var n, size := |s.disks| - 1, Last(s).seg.size;
    BothMove(a, Syncer(k, target), Looked(k, target, n));
    BothMove(a, Looked(k, target, n), Flushing(k, target, n, size));
    BothMove(a, Flushing(k, target, n, size), Flushed(k, target, true));
  }

  /** The syncer is acknowledged and wakes the sleeper. */
  lemma SecondSettles(c: Config, s: State, j: Ticket, k: Ticket)
    requires c.policy.SyncGroup? && s.up && |s.disks| > 0 && s.synced < k.sequence
    ensures Apply(c, Both(s, Asleep(j), Flushed(k, k.sequence, true)), Settle(1)) ==
            Some(By(s.(syncing := false, finished := s.finished + 1, synced := k.sequence,
                       acked := s.acked + {Ack(k.offset, k.payload)}), Woken(j)))
  {
    hide WriteStep, DecideRollStep, RollCreateStep, RollMarkStep, WriteErrorStep, Lose, ReopenAll, ArriveStep, FsyncEndStep;
    var g := Flushed(k, k.sequence, true);
    assert Broadcast(map[0 := Asleep(j), 1 := g]) == map[0 := Woken(j), 1 := g];
    BothMove(Woken(j), g, g);
  }

  /** Which is acknowledged in turn, though it never synced. */
  lemma FirstWakes(c: Config, s: State, j: Ticket)
    requires s.up && |s.disks| > 0 && s.synced >= j.sequence
    ensures Apply(c, By(s, Woken(j)), Wake(0)) == Some(s.(writers := map[], acked := s.acked + {Ack(j.offset, j.payload)}))
  {
    hide WriteStep, DecideRollStep, RollCreateStep, RollMarkStep, WriteErrorStep, Lose, ReopenAll, ArriveStep, FsyncEndStep,
      SettleStep;
    ByMoves(s, Woken(j), Woken(j));
  }

  function WriteSteps(p: Payload, q: Payload): seq<Step> {
    [Lock(0, p), DecideRoll(0, true), Write(0), Lock(1, q), DecideRoll(1, true), Write(1)]
  }

  const SYNC_STEPS := [Arrive(1), Arrive(0), Lookup(1), FsyncStart(1), FsyncEnd(1, true), Settle(1), Wake(0)]

  /** Both records written. */
  lemma BothWritten(c: Config, before: seq<Step>, s: State, p: Payload, q: Payload) returns (u: State, j: Ticket, k: Ticket)
    requires Run(c, before) == Some(s) && Quiet(s) && Room(c, Last(s), p) && Room(c, Unsynced(Last(s), p), q)
    ensures Run(c, before + WriteSteps(p, q)) == Some(Both(u, Written(j), Written(k)))
    ensures u == s.(disks := u.disks, sequence := s.sequence + 2) && |u.disks| > 0 && Last(u).durable <= Last(u).seg.size
    ensures j == Ticket(Last(s).seg.next, s.sequence + 1, p, 0) && k == Ticket(Last(s).seg.next + 1, s.sequence + 2, q, 0)
  {
    hide Run, Apply, Holds, Append;
    Locks(c, s, p);
    Writes(c, s, p);
    RoomAppends(c, Last(s), p);
    var held, first := s.(locked := true), SetLast(s, Unsynced(Last(s), p)).(sequence := s.sequence + 1);
    j, k := Ticket(Last(s).seg.next, s.sequence + 1, p, 0), Ticket(Last(s).seg.next + 1, s.sequence + 2, q, 0);
    SecondWrites(c, first, Written(j), q);
    RoomAppends(c, Last(first), q);
    u := SetLast(first, Unsynced(Last(first), q)).(sequence := first.sequence + 1);
    var again := first.(locked := true);
    var m1 := before + [Lock(0, p)];
    var m2 := m1 + [DecideRoll(0, true)];
    var m3 := m2 + [Write(0)];
    var m4 := m3 + [Lock(1, q)];
    var m5 := m4 + [DecideRoll(1, true)];
    RunSnoc(c, before, s, Lock(0, p), By(held, Locked(p)));
    RunSnoc(c, m1, By(held, Locked(p)), DecideRoll(0, true), By(held, Ready(p)));
    RunSnoc(c, m2, By(held, Ready(p)), Write(0), By(first, Written(j)));
    RunSnoc(c, m3, By(first, Written(j)), Lock(1, q), Both(again, Written(j), Locked(q)));
    RunSnoc(c, m4, Both(again, Written(j), Locked(q)), DecideRoll(1, true), Both(again, Written(j), Ready(q)));
    RunSnoc(c, m5, Both(again, Written(j), Ready(q)), Write(1), Both(u, Written(j), Written(k)));
    assert m5 + [Write(1)] == before + WriteSteps(p, q);
  }

  lemma BothSynced(c: Config, before: seq<Step>, u: State, j: Ticket, k: Ticket) returns (t: State)
    requires c.policy.SyncGroup? && Run(c, before) == Some(Both(u, Written(j), Written(k)))
    requires u.up && |u.disks| > 0 && !u.locked && !u.syncing && !u.failed && Last(u).durable <= Last(u).seg.size
    requires u.synced < j.sequence <= k.sequence && u.pending <= k.sequence
    ensures Run(c, before + SYNC_STEPS) == Some(t) && t.writers == map[] && t.finished == u.finished + 1
    ensures t.acked == u.acked + {Ack(k.offset, k.payload)} + {Ack(j.offset, j.payload)}
  {
    hide Run, Apply;
    var at, n, size := u.(pending := k.sequence, syncing := true), |u.disks| - 1, Last(u).seg.size;
    var x, y := j.(arrived := u.finished), k.(arrived := u.finished);
    var done := SetLast(at, Last(at).(durable := size));
    BothArrive(c, u, j, k);
    SecondSyncs(c, at, Asleep(x), y, k.sequence);
    SecondSettles(c, done, x, y);
    var told := done.(syncing := false, finished := done.finished + 1, synced := y.sequence,
                      acked := done.acked + {Ack(y.offset, y.payload)});
    FirstWakes(c, told, x);
    t := told.(writers := map[], acked := told.acked + {Ack(x.offset, x.payload)});
    var m1 := before + [Arrive(1)];
    var m2 := m1 + [Arrive(0)];
    var m3 := m2 + [Lookup(1)];
    var m4 := m3 + [FsyncStart(1)];
    var m5 := m4 + [FsyncEnd(1, true)];
    var m6 := m5 + [Settle(1)];
    RunSnoc(c, before, Both(u, Written(j), Written(k)), Arrive(1), Both(at, Written(j), Syncer(y, k.sequence)));
    RunSnoc(c, m1, Both(at, Written(j), Syncer(y, k.sequence)), Arrive(0), Both(at, Asleep(x), Syncer(y, k.sequence)));
    RunSnoc(c, m2, Both(at, Asleep(x), Syncer(y, k.sequence)), Lookup(1), Both(at, Asleep(x), Looked(y, k.sequence, n)));
    RunSnoc(c, m3, Both(at, Asleep(x), Looked(y, k.sequence, n)), FsyncStart(1), Both(at, Asleep(x), Flushing(y, k.sequence, n, size)));
    RunSnoc(c, m4, Both(at, Asleep(x), Flushing(y, k.sequence, n, size)), FsyncEnd(1, true), Both(done, Asleep(x), Flushed(y, k.sequence, true)));
    RunSnoc(c, m5, Both(done, Asleep(x), Flushed(y, k.sequence, true)), Settle(1), By(told, Woken(x)));
    RunSnoc(c, m6, By(told, Woken(x)), Wake(0), t);
    assert m6 + [Wake(0)] == before + SYNC_STEPS;
  }

  /**
   * From any quiet moment of any run with room for both: two appends, one fsync,
   * both acknowledged at consecutive offsets.
   */
  lemma OneFsyncAcknowledgesTwo(c: Config, before: seq<Step>, s: State, p: Payload, q: Payload) returns (t: State)
    requires c.policy.SyncGroup? && Run(c, before) == Some(s)
    requires Quiet(s) && Room(c, Last(s), p) && Room(c, Unsynced(Last(s), p), q)
    ensures Run(c, before + WriteSteps(p, q) + SYNC_STEPS) == Some(t)
    ensures t.writers == map[] && t.finished == s.finished + 1
    ensures t.acked == s.acked + {Ack(Last(s).seg.next, p), Ack(Last(s).seg.next + 1, q)}
  {
    hide Run, Holds, Append, WriteSteps, Inv;
    RunInv(c, before);
    ClaimsWithin(c, s);
    var u, j, k := BothWritten(c, before, s, p, q);
    t := BothSynced(c, before + WriteSteps(p, q), u, j, k);
  }
}
