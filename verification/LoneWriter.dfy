/** What one writer does to a log that nobody else is appending to, step by step. */
module LoneWriter {
  import opened Bytes
  import opened Record
  import opened Options
  import opened Scan
  import opened LogShape
  import opened GroupCommit
  import opened GroupCommitSafety

  /** Up, nobody appending, no sync under way and none failed. */
  predicate Quiet(s: State) {
    s.up && |s.disks| > 0 && !s.locked && s.writers == map[] && !s.syncing && !s.failed
  }

  /** The record goes into this segment: it fits, or is the first; it can be indexed, and its offset counted. */
  ghost predicate Room(c: Config, d: Disk, p: Payload) {
    && Holds(d.seg, d.recs) && d.durable <= d.seg.size < U32 && d.seg.next + 1 < U64 && |p| <= MAX_RECORD
    && (d.recs == [] || d.seg.size + RECORD_HEADER + |p| <= c.maxSegmentBytes)
  }

  ghost function Unsynced(d: Disk, p: Payload): Disk
    requires Holds(d.seg, d.recs)
  {
    Disk(Append(d.seg, p).0, d.recs + [p], d.durable)
  }

  ghost function Synced(d: Disk, p: Payload): Disk
    requires Holds(d.seg, d.recs)
  {
    var e := Unsynced(d, p);
    e.(durable := e.seg.size)
  }

  lemma RoomAppends(c: Config, d: Disk, p: Payload)
    requires Room(c, d, p)
    ensures Append(d.seg, p).1 == Appended(d.seg.next)
    ensures var e := Unsynced(d, p);
            && Holds(e.seg, e.recs) && e.durable <= e.seg.size == d.seg.size + RECORD_HEADER + |p|
            && e.seg.base == d.seg.base && e.seg.next == d.seg.next + 1
  {
    hide Append, Holds;
    AppendHolds(d.seg, d.recs, p);
    LengthIsSize(d.seg, d.recs);
    HoldsRoom(d.seg, d.recs);
    AppendedSize(d.seg, p);
    var e := Unsynced(d, p);
    LengthIsSize(e.seg, e.recs);
  }

  // ---- an empty log and one segment ----------------------------------------------------------

  const EMPTY_DISK := Disk(Created(0), [], 0)

  lemma EmptyRoom(c: Config, p: Payload)
    requires |p| <= MAX_RECORD
    ensures Quiet(Init()) && Last(Init()) == EMPTY_DISK && Room(c, EMPTY_DISK, p)
    ensures Created(0).size == |Created(0).file| == SEGMENT_HEADER && Created(0).base == Created(0).next == 0
  {
    hide Holds, Created;
    CreatedHolds(0);
    CreatedIs(0);
  }

  /** A log of one segment holds that segment's records. */
  lemma OneSegment(s: State, d: Disk)
    requires s.disks == [d]
    ensures Contents(s) == d.recs
  {
    var none: seq<seq<Payload>> := [];
    FlatSnoc(none, d.recs);
    assert Parts(s) == none + [d.recs] && Flat(none) + d.recs == d.recs;
  }

  // ---- the steps of one append -------------------------------------------------------------------

  lemma RunSnoc(c: Config, steps: seq<Step>, s: State, step: Step, t: State)
    requires Run(c, steps) == Some(s) && |s.disks| > 0 && Apply(c, s, step) == Some(t)
    ensures Run(c, steps + [step]) == Some(t)
  {
    hide Apply;
    assert (steps + [step])[..|steps|] == steps;
  }

  lemma ClaimsWithin(c: Config, s: State)
    requires Inv(c, s) && s.up
    ensures s.synced <= s.sequence && s.pending <= s.sequence
  {
  }

  /** The one writer at some point of its append. */
  function By(s: State, pc: Pc): State {
    s.(writers := map[0 := pc])
  }

  lemma ByMoves(s: State, a: Pc, b: Pc)
    ensures By(s, a).writers[0 := b] == By(s, b).writers && By(s, a).writers - {0} == map[]
  {
    assert map[0 := a][0 := b] == map[0 := b] && map[0 := a] - {0} == map[];
  }

  lemma Locks(c: Config, s: State, p: Payload)
    requires Quiet(s) && Room(c, Last(s), p)
    ensures Apply(c, s, Lock(0, p)) == Some(By(s.(locked := true), Locked(p)))
    ensures Apply(c, By(s.(locked := true), Locked(p)), DecideRoll(0, true)) == Some(By(s.(locked := true), Ready(p)))
  {
    hide Holds, WriteStep, WriteErrorStep, RollCreateStep, RollMarkStep, Lose, ReopenAll, SettleStep, FsyncEndStep,
      ArriveStep, Turn;
    LengthIsSize(Last(s).seg, Last(s).recs);
    assert map[][0 := Locked(p)] == map[0 := Locked(p)];
    ByMoves(s.(locked := true), Locked(p), Ready(p));
  }

  /** The log with its record written, and the writer about to wait for it. */
  ghost function AfterWrite(s: State, p: Payload): State
    requires |s.disks| > 0 && Holds(Last(s).seg, Last(s).recs)
  {
    By(SetLast(s, Unsynced(Last(s), p)).(sequence := s.sequence + 1), Written(Ticket(Last(s).seg.next, s.sequence + 1, p, 0)))
  }

  lemma Writes(c: Config, s: State, p: Payload)
    requires Quiet(s) && Room(c, Last(s), p)
    ensures Apply(c, By(s.(locked := true), Ready(p)), Write(0)) == Some(AfterWrite(s, p))
  {
    hide Append, Holds, DecideRollStep, WriteErrorStep, RollCreateStep, RollMarkStep, Lose, ReopenAll, SettleStep,
      FsyncEndStep, ArriveStep, Turn;
    RoomAppends(c, Last(s), p);
    HoldsRoom(Last(s).seg, Last(s).recs);
    LengthIsSize(Last(s).seg, Last(s).recs);
    ByMoves(s, Ready(p), Written(Ticket(Last(s).seg.next, s.sequence + 1, p, 0)));
  }

  /** A write that fails leaves the log quiet, and its bytes. */
  lemma FailsToWrite(c: Config, s: State, p: Payload, n: nat)
    requires Quiet(s) && Last(s).seg.size <= |Last(s).seg.file| && |p| <= MAX_RECORD && n <= |Frame(p)|
    ensures Apply(c, By(s.(locked := true), Ready(p)), WriteError(0, n)) ==
            Some(SetLast(s, Last(s).(seg := FailedAppend(Last(s).seg, p, n))))
  {
    hide FailedAppend, Frame, WriteStep, DecideRollStep, RollCreateStep, RollMarkStep, Lose, ReopenAll, SettleStep,
      FsyncEndStep, ArriveStep, Turn;
    ByMoves(s, Ready(p), Ready(p));
  }

  lemma Arrives(c: Config, s: State, t: Ticket)
    requires c.policy.SyncGroup? && s.up && |s.disks| > 0 && !s.syncing && !s.failed
    requires s.synced < t.sequence && s.pending <= t.sequence
    ensures Apply(c, By(s, Written(t)), Arrive(0)) ==
            Some(By(s.(pending := t.sequence, syncing := true), Syncer(t.(arrived := s.finished), t.sequence)))
  {
    hide WriteStep, DecideRollStep, RollCreateStep, RollMarkStep, WriteErrorStep, Lose, ReopenAll, SettleStep, FsyncEndStep,
      Broadcast;
    ByMoves(s, Written(t), Syncer(t.(arrived := s.finished), t.sequence));
  }

  lemma Looks(c: Config, s: State, t: Ticket, target: nat)
    requires s.up && |s.disks| > 0 && !s.locked
    ensures Apply(c, By(s, Syncer(t, target)), Lookup(0)) == Some(By(s, Looked(t, target, |s.disks| - 1)))
    ensures Apply(c, By(s, Looked(t, target, |s.disks| - 1)), FsyncStart(0)) ==
            Some(By(s, Flushing(t, target, |s.disks| - 1, Last(s).seg.size)))
  {
    hide WriteStep, DecideRollStep, RollCreateStep, RollMarkStep, WriteErrorStep, Lose, ReopenAll, SettleStep, FsyncEndStep,
      ArriveStep, Turn;
    ByMoves(s, Syncer(t, target), Looked(t, target, |s.disks| - 1));
    ByMoves(s, Looked(t, target, |s.disks| - 1), Flushing(t, target, |s.disks| - 1, Last(s).seg.size));
  }

  lemma Syncs(c: Config, s: State, t: Ticket, target: nat)
    requires s.up && |s.disks| > 0 && Last(s).durable <= Last(s).seg.size
    ensures Apply(c, By(s, Flushing(t, target, |s.disks| - 1, Last(s).seg.size)), FsyncEnd(0, true)) ==
            Some(By(SetLast(s, Last(s).(durable := Last(s).seg.size)), Flushed(t, target, true)))
  {
    hide WriteStep, DecideRollStep, RollCreateStep, RollMarkStep, WriteErrorStep, Lose, ReopenAll, SettleStep, ArriveStep, Turn;
    ByMoves(s, Flushing(t, target, |s.disks| - 1, Last(s).seg.size), Flushed(t, target, true));
  }

  lemma Settles(c: Config, s: State, t: Ticket)
    requires c.policy.SyncGroup? && s.up && |s.disks| > 0 && !s.failed && s.synced < t.sequence
    ensures Apply(c, By(s, Flushed(t, t.sequence, true)), Settle(0)) ==
            Some(s.(syncing := false, finished := s.finished + 1, synced := t.sequence, writers := map[],
                    acked := s.acked + {Ack(t.offset, t.payload)}))
  {
    hide WriteStep, DecideRollStep, RollCreateStep, RollMarkStep, WriteErrorStep, Lose, ReopenAll, ArriveStep, FsyncEndStep;
    var g := Flushed(t, t.sequence, true);
    ByMoves(s, g, g);
    assert Broadcast(map[0 := g]) == map[0 := g];
  }

  /** The log with its record written, flushed and acknowledged, quiet again. */
  ghost function AfterAppend(s: State, p: Payload): State
    requires |s.disks| > 0 && Holds(Last(s).seg, Last(s).recs)
  {
    SetLast(s, Synced(Last(s), p))
    .(sequence := s.sequence + 1, synced := s.sequence + 1, pending := s.sequence + 1, finished := s.finished + 1,
      acked := s.acked + {Ack(Last(s).seg.next, p)})
  }

  // ---- the steps of a roll ---------------------------------------------------------------------------

  /** The log with its last segment flushed and marked, and a fresh one after it. */
  function Rolled(s: State): State
    requires |s.disks| > 0
  {
    var d := Last(s);
    s.(disks := s.disks[|s.disks| - 1 := d.(durable := d.seg.size)] + [Disk(Created(d.seg.next), [], 0)],
       synced := Max(s.synced, s.sequence), pending := Max(s.pending, s.sequence))
  }

  /** A record that does not fit flushes the segment, claims what was written, and moves on to a fresh one. */
  lemma Rolls(c: Config, s: State, p: Payload)
    requires Quiet(s) && Holds(Last(s).seg, Last(s).recs) && Last(s).recs != []
    requires Last(s).seg.size + RECORD_HEADER + |p| > c.maxSegmentBytes
    ensures var d := Last(s);
            var synced := SetLast(s.(locked := true), d.(durable := d.seg.size));
            var marked := synced.(synced := Max(s.synced, s.sequence), pending := Max(s.pending, s.sequence));
            && Apply(c, s, Lock(0, p)) == Some(By(s.(locked := true), Locked(p)))
            && Apply(c, By(s.(locked := true), Locked(p)), DecideRoll(0, true)) == Some(By(synced, RollSynced(p)))
            && Apply(c, By(synced, RollSynced(p)), RollMark(0)) == Some(By(marked, RollMarked(p)))
            && Apply(c, By(marked, RollMarked(p)), RollCreate(0, true)) == Some(By(Rolled(s).(locked := true), Ready(p)))
  {
    hide Holds, WriteStep, WriteErrorStep, Lose, ReopenAll, SettleStep, FsyncEndStep, ArriveStep, Turn, Created;
    LengthIsSize(Last(s).seg, Last(s).recs);
    assert map[][0 := Locked(p)] == map[0 := Locked(p)];
    ByMoves(s, Locked(p), RollSynced(p));
    ByMoves(s, RollSynced(p), RollMarked(p));
    ByMoves(s, RollMarked(p), Ready(p));
    assert Broadcast(map[0 := RollSynced(p)]) == map[0 := RollSynced(p)];
  }

  /** A fresh segment has room for any record. */
  lemma RolledRoom(c: Config, s: State, p: Payload)
    requires Quiet(s) && Last(s).seg.next + 1 < U64 && |p| <= MAX_RECORD
    ensures Quiet(Rolled(s)) && Room(c, Last(Rolled(s)), p) && Last(Rolled(s)).seg.next == Last(s).seg.next
  {
    hide Holds, Created;
    CreatedHolds(Last(s).seg.next);
    CreatedIs(Last(s).seg.next);
  }
}
