/**
 * Whole runs, from append to invoice: one that meets every hypothesis of the
 * theorem on the pipeline, and one in which the consumer got ahead of the disk.
 */
module Pipeline {
  import opened Int64
  import opened Bytes
  import opened Record
  import opened RecordRun
  import opened Options
  import opened Scan
  import Consumer
  import GroupCommit
  import GroupCommitSafety
  import opened LoneWriter
  import opened LiveConsumer
  import Pricing
  import Rating
  import LedgerStore
  import Invoicing
  import FlatPlan
  import EndToEnd

  // ---- one append ------------------------------------------------------------------------

  function WriteMoves(p: Payload): seq<Move> {
    [OfLog(GroupCommit.Lock(0, p)), OfLog(GroupCommit.DecideRoll(0, true)), OfLog(GroupCommit.Write(0))]
  }

  const SYNC_MOVES: seq<Move> := [
    OfLog(GroupCommit.Arrive(0)), OfLog(GroupCommit.Lookup(0)), OfLog(GroupCommit.FsyncStart(0)),
    OfLog(GroupCommit.FsyncEnd(0, true)), OfLog(GroupCommit.Settle(0))]

  lemma TraceSnoc(c: GroupCommit.Config, moves: seq<Move>, move: Move, decode: Consumer.Decoder)
    requires Trace(c, moves, decode).Some?
    ensures Trace(c, moves + [move], decode) == After(c, Trace(c, moves, decode).value, move, decode)
  {
    hide After;
    assert (moves + [move])[..|moves|] == moves;
  }

  /** A run of log steps, one after another. */
  lemma LogSnoc(c: GroupCommit.Config, moves: seq<Move>, s: Joint, step: GroupCommit.Step, log: GroupCommit.State, decode: Consumer.Decoder)
    requires Trace(c, moves, decode) == Some(s) && |s.log.disks| > 0 && GroupCommit.Apply(c, s.log, step) == Some(log)
    ensures Trace(c, moves + [OfLog(step)], decode) == Some(s.(log := log))
  {
    hide Trace, GroupCommit.Apply;
    TraceSnoc(c, moves, OfLog(step), decode);
  }

  lemma LoneWrite(c: GroupCommit.Config, before: seq<Move>, s: Joint, p: Payload, decode: Consumer.Decoder)
    requires Trace(c, before, decode) == Some(s) && Quiet(s.log) && Room(c, GroupCommit.Last(s.log), p)
    ensures Trace(c, before + WriteMoves(p), decode) == Some(s.(log := AfterWrite(s.log, p)))
  {
    hide Trace, GroupCommit.Apply, Holds, Append;
    Locks(c, s.log, p);
    Writes(c, s.log, p);
    var locked := s.log.(locked := true);
    var s1, s2 := s.(log := By(locked, GroupCommit.Locked(p))), s.(log := By(locked, GroupCommit.Ready(p)));
    var lock, decide, write := GroupCommit.Lock(0, p), GroupCommit.DecideRoll(0, true), GroupCommit.Write(0);
    LogSnoc(c, before, s, lock, s1.log, decode);
    LogSnoc(c, before + [OfLog(lock)], s1, decide, s2.log, decode);
    LogSnoc(c, before + [OfLog(lock)] + [OfLog(decide)], s2, write, AfterWrite(s.log, p), decode);
    assert before + [OfLog(lock)] + [OfLog(decide)] + [OfLog(write)] == before + WriteMoves(p);
  }

  /** From the point after a lone write: a sync that succeeds, and the acknowledgement. */
  lemma LoneSync(c: GroupCommit.Config, before: seq<Move>, s: Joint, u: GroupCommit.State, t: GroupCommit.Ticket, decode: Consumer.Decoder)
    requires c.policy.SyncGroup? && Trace(c, before, decode) == Some(s) && s.log == By(u, GroupCommit.Written(t))
    requires u.up && |u.disks| > 0 && !u.locked && !u.syncing && !u.failed && u.writers == map[]
    requires u.synced < t.sequence && u.pending <= t.sequence && GroupCommit.Last(u).durable <= GroupCommit.Last(u).seg.size
    ensures var d := GroupCommit.Last(u);
            Trace(c, before + SYNC_MOVES, decode) ==
            Some(s.(log := GroupCommit.SetLast(u, d.(durable := d.seg.size))
                           .(pending := t.sequence, synced := t.sequence, finished := u.finished + 1,
                             acked := u.acked + {GroupCommit.Ack(t.offset, t.payload)})))
  {
    hide Trace, GroupCommit.Apply;
    var k, n, at, d := t.(arrived := u.finished), t.sequence, |u.disks| - 1, GroupCommit.Last(u);
    var v := u.(pending := n, syncing := true);
    var e := GroupCommit.SetLast(v, d.(durable := d.seg.size));
    Arrives(c, u, t);
    Looks(c, v, k, n);
    Syncs(c, v, k, n);
    Settles(c, e, k);
    var m1 := before + [OfLog(GroupCommit.Arrive(0))];
    var m2 := m1 + [OfLog(GroupCommit.Lookup(0))];
    var m3 := m2 + [OfLog(GroupCommit.FsyncStart(0))];
    var m4 := m3 + [OfLog(GroupCommit.FsyncEnd(0, true))];
    var s1 := By(v, GroupCommit.Syncer(k, n));
    var s2 := By(v, GroupCommit.Looked(k, n, at));
    var s3 := By(v, GroupCommit.Flushing(k, n, at, d.seg.size));
    var s4 := By(e, GroupCommit.Flushed(k, n, true));
    var s5 := e.(syncing := false, finished := u.finished + 1, synced := n, writers := map[],
                 acked := u.acked + {GroupCommit.Ack(t.offset, t.payload)});
    LogSnoc(c, before, s, GroupCommit.Arrive(0), s1, decode);
    LogSnoc(c, m1, s.(log := s1), GroupCommit.Lookup(0), s2, decode);
    LogSnoc(c, m2, s.(log := s2), GroupCommit.FsyncStart(0), s3, decode);
    LogSnoc(c, m3, s.(log := s3), GroupCommit.FsyncEnd(0, true), s4, decode);
    LogSnoc(c, m4, s.(log := s4), GroupCommit.Settle(0), s5, decode);
    assert m4 + [OfLog(GroupCommit.Settle(0))] == before + SYNC_MOVES;
  }

  /**
   * From any moment of any run at which nobody is appending, no sync has failed
   * and the last segment has room, a lone append under group commit runs to its
   * acknowledgement.
   */
  lemma LoneAppend(c: GroupCommit.Config, before: seq<Move>, s: Joint, p: Payload, decode: Consumer.Decoder)
    requires c.policy.SyncGroup? && Trace(c, before, decode) == Some(s) && Quiet(s.log) && Room(c, GroupCommit.Last(s.log), p)
    ensures Trace(c, before + WriteMoves(p) + SYNC_MOVES, decode) == Some(s.(log := AfterAppend(s.log, p)))
  {
    hide Trace, Append, WriteMoves, Holds, GroupCommitSafety.Inv;
    TraceInv(c, before, decode);
    ClaimsWithin(c, s.log);
    LoneWrite(c, before, s, p, decode);
    var d := GroupCommit.Last(s.log);
    RoomAppends(c, d, p);
    var u := GroupCommit.SetLast(s.log, Unsynced(d, p)).(sequence := s.log.sequence + 1);
    var t := GroupCommit.Ticket(d.seg.next, s.log.sequence + 1, p, 0);
    LoneSync(c, before + WriteMoves(p), s.(log := AfterWrite(s.log, p)), u, t, decode);
    var disks, n := s.log.disks, |s.log.disks| - 1;
    assert disks[n := Unsynced(d, p)][n := Synced(d, p)] == disks[n := Synced(d, p)];
  }

  function RollMoves(p: Payload): seq<Move> {
    [OfLog(GroupCommit.Lock(0, p)), OfLog(GroupCommit.DecideRoll(0, true)), OfLog(GroupCommit.RollMark(0)),
     OfLog(GroupCommit.RollCreate(0, true)), OfLog(GroupCommit.Write(0))]
  }

  lemma RollWrite(c: GroupCommit.Config, before: seq<Move>, s: Joint, p: Payload, decode: Consumer.Decoder)
    requires Trace(c, before, decode) == Some(s) && Quiet(s.log) && |p| <= MAX_RECORD
    requires var d := GroupCommit.Last(s.log);
             && Holds(d.seg, d.recs) && d.recs != [] && d.seg.next + 1 < U64
             && d.seg.size + RECORD_HEADER + |p| > c.maxSegmentBytes
    ensures Room(c, GroupCommit.Last(Rolled(s.log)), p)
    ensures Trace(c, before + RollMoves(p), decode) == Some(s.(log := AfterWrite(Rolled(s.log), p)))
  {
    hide Trace, GroupCommit.Apply, Holds, Append, Created;
    Rolls(c, s.log, p);
    RolledRoom(c, s.log, p);
    Writes(c, Rolled(s.log), p);
    var d := GroupCommit.Last(s.log);
    var synced := GroupCommit.SetLast(s.log.(locked := true), d.(durable := d.seg.size));
    var marked := synced.(synced := GroupCommit.Max(s.log.synced, s.log.sequence),
                          pending := GroupCommit.Max(s.log.pending, s.log.sequence));
    var s1, s2 := s.(log := By(s.log.(locked := true), GroupCommit.Locked(p))), s.(log := By(synced, GroupCommit.RollSynced(p)));
    var s3 := s.(log := By(marked, GroupCommit.RollMarked(p)));
    var s4 := s.(log := By(Rolled(s.log).(locked := true), GroupCommit.Ready(p)));
    var m1 := before + [OfLog(GroupCommit.Lock(0, p))];
    var m2 := m1 + [OfLog(GroupCommit.DecideRoll(0, true))];
    var m3 := m2 + [OfLog(GroupCommit.RollMark(0))];
    var m4 := m3 + [OfLog(GroupCommit.RollCreate(0, true))];
    LogSnoc(c, before, s, GroupCommit.Lock(0, p), s1.log, decode);
    LogSnoc(c, m1, s1, GroupCommit.DecideRoll(0, true), s2.log, decode);
    LogSnoc(c, m2, s2, GroupCommit.RollMark(0), s3.log, decode);
    LogSnoc(c, m3, s3, GroupCommit.RollCreate(0, true), s4.log, decode);
    LogSnoc(c, m4, s4, GroupCommit.Write(0), AfterWrite(Rolled(s.log), p), decode);
    assert m4 + [OfLog(GroupCommit.Write(0))] == before + RollMoves(p);
  }

  /**
   * And when the record does not fit, it rolls: the full segment is flushed and
   * claimed as synced, and the append runs to its acknowledgement at the next
   * offset, in a segment of its own.
   */
  lemma LoneRollAppend(c: GroupCommit.Config, before: seq<Move>, s: Joint, p: Payload, decode: Consumer.Decoder)
    requires c.policy.SyncGroup? && Trace(c, before, decode) == Some(s) && Quiet(s.log) && |p| <= MAX_RECORD
    requires var d := GroupCommit.Last(s.log);
             d.recs != [] && d.seg.next + 1 < U64 && d.seg.size + RECORD_HEADER + |p| > c.maxSegmentBytes
    ensures Room(c, GroupCommit.Last(Rolled(s.log)), p)
    ensures Trace(c, before + RollMoves(p) + SYNC_MOVES, decode) == Some(s.(log := AfterAppend(Rolled(s.log), p)))
  {
    hide Trace, Append, RollMoves, Holds, GroupCommitSafety.Inv, Created;
    TraceInv(c, before, decode);
    ClaimsWithin(c, s.log);
    LastHolds(c, s.log);
    RollWrite(c, before, s, p, decode);
    var r := Rolled(s.log);
    var d := GroupCommit.Last(r);
    RoomAppends(c, d, p);
    RolledRoom(c, s.log, p);
    var u := GroupCommit.SetLast(r, Unsynced(d, p)).(sequence := r.sequence + 1);
    var t := GroupCommit.Ticket(d.seg.next, r.sequence + 1, p, 0);
    LoneSync(c, before + RollMoves(p), s.(log := AfterWrite(r, p)), u, t, decode);
    var disks, n := r.disks, |r.disks| - 1;
    assert disks[n := Unsynced(d, p)][n := Synced(d, p)] == disks[n := Synced(d, p)];
  }

  lemma LastHolds(c: GroupCommit.Config, s: GroupCommit.State)
    requires GroupCommitSafety.Inv(c, s) && s.up
    ensures |s.disks| > 0 && Holds(GroupCommit.Last(s).seg, GroupCommit.Last(s).recs)
  {
    hide GroupCommitSafety.Inv;
    GroupCommitSafety.LastLive(c, s);
  }

  // ---- the hypotheses are met ---------------------------------------------------------------

  const CONFIG := GroupCommit.Config(GroupCommit.SyncGroup, 0x400_0000)

  /** A log of one segment, nobody appending, after n acknowledged appends. */
  function Idle(d: GroupCommit.Disk, n: nat, acked: set<GroupCommit.Ack>): GroupCommit.State {
    GroupCommit.State(true, [d], false, 0, n, n, n, false, false, n, map[], acked)
  }

  lemma IdleAppend(before: seq<Move>, s: Joint, d: GroupCommit.Disk, n: nat, p: Payload, decode: Consumer.Decoder)
    requires Trace(CONFIG, before, decode) == Some(s) && s.log == Idle(d, n, s.log.acked) && Room(CONFIG, d, p)
    ensures Trace(CONFIG, before + WriteMoves(p) + SYNC_MOVES, decode) ==
            Some(s.(log := Idle(Synced(d, p), n + 1, s.log.acked + {GroupCommit.Ack(d.seg.next, p)})))
  {
    hide Trace, Append, WriteMoves, Holds;
    LoneAppend(CONFIG, before, s, p, decode);
    assert [d][0 := Synced(d, p)] == [Synced(d, p)];
  }

  /** The first append, acknowledged. */
  lemma FirstAppend(before: seq<Move>, s: Joint, p: Payload, decode: Consumer.Decoder)
    requires |p| <= MAX_RECORD && Trace(CONFIG, before, decode) == Some(s) && s.log == GroupCommit.Init()
    ensures Room(CONFIG, EMPTY_DISK, p)
    ensures Trace(CONFIG, before + WriteMoves(p) + SYNC_MOVES, decode) ==
            Some(s.(log := Idle(Synced(EMPTY_DISK, p), 1, {GroupCommit.Ack(0, p)})))
  {
    hide Trace, Append, WriteMoves, Holds, Created;
    EmptyRoom(CONFIG, p);
    IdleAppend(before, s, EMPTY_DISK, 0, p, decode);
    assert {} + {GroupCommit.Ack(0, p)} == {GroupCommit.Ack(0, p)};
  }

  lemma SecondRoom(q: Payload, p: Payload)
    requires |p| <= MAX_RECORD && |q| <= MAX_RECORD
    ensures Room(CONFIG, EMPTY_DISK, q) && Room(CONFIG, Synced(EMPTY_DISK, q), p)
    ensures Synced(EMPTY_DISK, q).seg.next == 1 && Synced(EMPTY_DISK, q).recs == [q]
  {
    hide Holds, Created, Append;
    EmptyRoom(CONFIG, q);
    RoomAppends(CONFIG, EMPTY_DISK, q);
    GroupCommitSafety.CreatedIs(0);
  }

  lemma DrainSnoc(c: GroupCommit.Config, moves: seq<Move>, s: Joint, start: nat, decode: Consumer.Decoder)
    requires Trace(c, moves, decode) == Some(s) && s.log.up && start <= s.hi
    requires var log := GroupCommit.Contents(s.log);
             start < |log| && Consumer.Castable(log, start, |log|, decode) && s.hi <= |log|
    ensures var log := GroupCommit.Contents(s.log);
            Trace(c, moves + [Drained(start, |log|)], decode) ==
            Some(s.(store := Consumer.ApplyRange(s.store, log, start, |log|, decode), next := |log|, hi := |log|))
  {
    hide Trace, GroupCommit.Contents, Consumer.ApplyRange;
    TraceSnoc(c, moves, Drained(start, |GroupCommit.Contents(s.log)|), decode);
  }

  lemma OneRow(store: Consumer.Store, log: seq<Payload>, start: nat, decode: Consumer.Decoder)
    requires start + 1 == |log| && decode(log[start]).Usable?
    ensures Consumer.ApplyRange(store, log, start, |log|, decode) == Consumer.Apply(store, start, log[start], decode)
  {
    hide Consumer.Apply;
    assert Consumer.ApplyRange(store, log, start, start, decode) == store;
  }

  const PERIOD := Invoicing.Period("t", "p", 1, 10, false)

  function BillingMoves(p: Payload): seq<Move> {
    [] + WriteMoves(p) + SYNC_MOVES + [Drained(0, 1)]
  }

  lemma BillingTrace(p: Payload, decode: Consumer.Decoder)
    requires |p| <= MAX_RECORD && decode(p).Usable?
    ensures Room(CONFIG, EMPTY_DISK, p)
    ensures Trace(CONFIG, BillingMoves(p), decode) ==
            Some(Joint(Idle(Synced(EMPTY_DISK, p), 1, {GroupCommit.Ack(0, p)}),
                       Consumer.Apply(Consumer.EMPTY, 0, p, decode), 1, 1))
  {
    hide GroupCommit.Contents, Append, WriteMoves, Holds, Created, Consumer.Apply, Consumer.ApplyRange, After;
    FirstAppend([], START, p, decode);
    SecondRoom(p, p);
    var d := Synced(EMPTY_DISK, p);
    var s := START.(log := Idle(d, 1, {GroupCommit.Ack(0, p)}));
    OneSegment(s.log, d);
    DrainSnoc(CONFIG, [] + WriteMoves(p) + SYNC_MOVES, s, 0, decode);
    OneRow(Consumer.EMPTY, [p], 0, decode);
  }

  lemma NoReopening(moves: seq<Move>, decode: Consumer.Decoder)
    requires Trace(CONFIG, moves, decode).Some? && OfLog(GroupCommit.Reopen) !in moves
    ensures NeverBehind(CONFIG, moves, decode)
  {
    hide Trace, At;
  }

  lemma OneKey(p: Payload, decode: Consumer.Decoder)
    requires decode(p) == Consumer.Usable(FlatPlan.UnitEvent("t", "a"))
    ensures EndToEnd.AckedKeys({GroupCommit.Ack(0, p)}, decode) == {"a"}
  {
    var a := GroupCommit.Ack(0, p);
    assert a in {a};
  }

  /** From one acknowledged append to an invoice of one unit price, with every hypothesis met. */
  lemma OneEventIsBilled(p: Payload, decode: Consumer.Decoder)
    requires |p| <= MAX_RECORD && decode(p) == Consumer.Usable(FlatPlan.UnitEvent("t", "a"))
    ensures Trace(CONFIG, BillingMoves(p), decode).Some? && NeverBehind(CONFIG, BillingMoves(p), decode)
    ensures var s := Trace(CONFIG, BillingMoves(p), decode).value;
            var db := EndToEnd.Unbilled(s.store.events, PERIOD);
            var r := Invoicing.CloseOf(db, 0, FlatPlan.UNIT_PLAN, {"m"}, db.events);
            && EndToEnd.Settled(s, "t", "m", 10, decode)
            && EndToEnd.AckedKeys(s.log.acked, decode) == {"a"}
            && r.Issued? && r.invoice.total == 1
  {
    hide Trace, NeverBehind, Invoicing.CloseOf, EndToEnd.Unbilled, Rating.PriceFor, LedgerStore.Balance, Append, Holds,
      Created, Consumer.Apply, GroupCommit.Contents, EndToEnd.AckedKeys;
    BillingTrace(p, decode);
    NoReopening(BillingMoves(p), decode);
    SecondRoom(p, p);
    OneSegment(Trace(CONFIG, BillingMoves(p), decode).value.log, Synced(EMPTY_DISK, p));
    OneKey(p, decode);
    FlatPlan.UnitPlanIsFlat();
    EndToEnd.CorrectToTheCent(CONFIG, BillingMoves(p), decode, PERIOD, "m", Pricing.Price("m", Pricing.Flat, 1, []),
                              FlatPlan.UNIT_PLAN, {"m"});
  }

  // ---- the consumer gets ahead of the disk ---------------------------------------------------------

  /** The log after its one unflushed record is lost. */
  ghost function Down(d: GroupCommit.Disk): GroupCommit.State
    requires |d.seg.file| >= SEGMENT_HEADER
  {
    GroupCommit.State(false, [d.(seg := d.seg.(file := d.seg.file[..SEGMENT_HEADER], entries := []))],
                      false, 0, 0, 0, 0, false, false, 0, map[], {})
  }

  lemma LosesAll(c: GroupCommit.Config, s: GroupCommit.State, d: GroupCommit.Disk)
    requires s.disks == [d] && s.acked == {} && d.durable == 0 && |d.seg.file| >= SEGMENT_HEADER
    ensures GroupCommit.Apply(c, s, GroupCommit.PowerLoss([SEGMENT_HEADER], [0])) == Some(Down(d))
  {
    var disks := GroupCommit.Lose(s, [SEGMENT_HEADER], [0]).value.disks;
    assert d.seg.entries[..0] == [];
    assert disks == Down(d).disks;
  }

  lemma HeaderAlone()
    ensures Recover(0, SegmentHeader(0), []) == Some(Created(0)) && FullScan(SegmentHeader(0)) == []
  {
    hide SegmentHeader, ReadRecord;
    NothingIsEof();
    var f := SegmentHeader(0);
    assert f[SEGMENT_HEADER..] == [];
  }

  lemma ReopensEmpty(c: GroupCommit.Config, d: GroupCommit.Disk)
    requires d.seg.base == 0 && d.durable == 0 && |d.seg.file| >= SEGMENT_HEADER
    requires d.seg.file[..SEGMENT_HEADER] == SegmentHeader(0)
    ensures GroupCommit.Apply(c, Down(d), GroupCommit.Reopen) == Some(GroupCommit.Init())
  {
    hide SegmentHeader, Recover, FullScan;
    HeaderAlone();
    var down := Down(d);
    assert GroupCommit.RecoverDisk(down.disks[0]) == Some(EMPTY_DISK);
    assert GroupCommit.ReopenAll(down).value.disks == [EMPTY_DISK];
  }

  lemma FrontIsHeader(d: GroupCommit.Disk)
    requires Holds(d.seg, d.recs)
    ensures |d.seg.file| >= SEGMENT_HEADER && d.seg.file[..SEGMENT_HEADER] == SegmentHeader(d.seg.base)
  {
    hide IndexTrue, Frames;
    var front := d.seg.file[..d.seg.size];
    assert front[..SEGMENT_HEADER] == SegmentHeader(d.seg.base);
  }

  /** Written, drained, lost: the log is new again, the tables are not. */
  function LossMoves(p: Payload): seq<Move> {
    [] + WriteMoves(p) + [Drained(0, 1)] + [OfLog(GroupCommit.PowerLoss([SEGMENT_HEADER], [0]))] + [OfLog(GroupCommit.Reopen)]
  }

  lemma LossTrace(p: Payload, decode: Consumer.Decoder)
    requires |p| <= MAX_RECORD && decode(p).Usable?
    ensures Trace(CONFIG, LossMoves(p), decode) ==
            Some(Joint(GroupCommit.Init(), Consumer.Apply(Consumer.EMPTY, 0, p, decode), 1, 1))
  {
    hide GroupCommit.Contents, Append, WriteMoves, Holds, Created, Consumer.Apply, Consumer.ApplyRange, After,
      GroupCommit.Apply, SegmentHeader, Trace;
    EmptyRoom(CONFIG, p);
    GroupCommitSafety.CreatedIs(0);
    TraceNothing(decode);
    LoneWrite(CONFIG, [], START, p, decode);
    RoomAppends(CONFIG, EMPTY_DISK, p);
    var d := Unsynced(EMPTY_DISK, p);
    var s := START.(log := AfterWrite(GroupCommit.Init(), p));
    assert s.log.disks == [d];
    OneSegment(s.log, d);
    assert d.recs == [p];
    var m1 := [] + WriteMoves(p);
    DrainSnoc(CONFIG, m1, s, 0, decode);
    OneRow(Consumer.EMPTY, [p], 0, decode);
    var t := s.(store := Consumer.Apply(Consumer.EMPTY, 0, p, decode), next := 1, hi := 1);
    FrontIsHeader(d);
    LosesAll(CONFIG, t.log, d);
    ReopensEmpty(CONFIG, d);
    var m2 := m1 + [Drained(0, 1)];
    LogSnoc(CONFIG, m2, t, GroupCommit.PowerLoss([SEGMENT_HEADER], [0]), Down(d), decode);
    LogSnoc(CONFIG, m2 + [OfLog(GroupCommit.PowerLoss([SEGMENT_HEADER], [0]))], t.(log := Down(d)), GroupCommit.Reopen,
            GroupCommit.Init(), decode);
  }

  lemma TraceNothing(decode: Consumer.Decoder)
    ensures Trace(CONFIG, [], decode) == Some(START)
  {
  }

  /** Another event takes the lost one's offset, the lost one is retried, and the consumer goes on from where it was. */
  function SkippedMoves(p: Payload, q: Payload): seq<Move> {
    LossMoves(p) + WriteMoves(q) + SYNC_MOVES + WriteMoves(p) + SYNC_MOVES + [Drained(1, 2)]
  }

  lemma SkippedTrace(p: Payload, q: Payload, decode: Consumer.Decoder)
    requires |p| <= MAX_RECORD && |q| <= MAX_RECORD && decode(p).Usable?
    ensures Room(CONFIG, EMPTY_DISK, q) && Room(CONFIG, Synced(EMPTY_DISK, q), p)
    ensures var once := Consumer.Apply(Consumer.EMPTY, 0, p, decode);
            Trace(CONFIG, SkippedMoves(p, q), decode) ==
            Some(Joint(Idle(Synced(Synced(EMPTY_DISK, q), p), 2, {GroupCommit.Ack(0, q), GroupCommit.Ack(1, p)}),
                       Consumer.Apply(once, 1, p, decode), 2, 2))
  {
    hide GroupCommit.Contents, Append, WriteMoves, Holds, Created, Consumer.Apply, Consumer.ApplyRange, After,
      GroupCommit.Apply, Trace, LossMoves;
    LossTrace(p, decode);
    SecondRoom(q, p);
    var once := Consumer.Apply(Consumer.EMPTY, 0, p, decode);
    var s0 := Joint(GroupCommit.Init(), once, 1, 1);
    FirstAppend(LossMoves(p), s0, q, decode);
    var d := Synced(EMPTY_DISK, q);
    var s1 := s0.(log := Idle(d, 1, {GroupCommit.Ack(0, q)}));
    var m1 := LossMoves(p) + WriteMoves(q) + SYNC_MOVES;
    IdleAppend(m1, s1, d, 1, p, decode);
    assert {GroupCommit.Ack(0, q)} + {GroupCommit.Ack(1, p)} == {GroupCommit.Ack(0, q), GroupCommit.Ack(1, p)};
    var s2 := s1.(log := Idle(Synced(d, p), 2, {GroupCommit.Ack(0, q), GroupCommit.Ack(1, p)}));
    OneSegment(s2.log, Synced(d, p));
    assert Synced(d, p).recs == [q, p];
    DrainSnoc(CONFIG, m1 + WriteMoves(p) + SYNC_MOVES, s2, 1, decode);
    OneRow(once, [q, p], 1, decode);
  }

  lemma TwoKeys(p: Payload, q: Payload, decode: Consumer.Decoder)
    requires decode(p) == Consumer.Usable(FlatPlan.UnitEvent("t", "a")) && decode(q) == Consumer.Usable(FlatPlan.UnitEvent("t", "b"))
    ensures EndToEnd.AckedKeys({GroupCommit.Ack(0, q), GroupCommit.Ack(1, p)}, decode) == {"a", "b"}
  {
    var a, b := GroupCommit.Ack(1, p), GroupCommit.Ack(0, q);
    var acked := {b, a};
    assert a in acked && b in acked;
    assert decode(a.payload).event.key == "a" && decode(b.payload).event.key == "b";
  }

  lemma AppliedTwice(p: Payload, decode: Consumer.Decoder)
    requires decode(p) == Consumer.Usable(FlatPlan.UnitEvent("t", "a"))
    ensures var once := Consumer.Apply(Consumer.EMPTY, 0, p, decode);
            once.events == [FlatPlan.UnitEvent("t", "a")] && Consumer.Apply(once, 1, p, decode).events == once.events
  {
    var once := Consumer.Apply(Consumer.EMPTY, 0, p, decode);
    assert [] + [FlatPlan.UnitEvent("t", "a")] == [FlatPlan.UnitEvent("t", "a")];
    assert Consumer.Find(once.events, FlatPlan.UnitEvent("t", "a")) == Some(0);
  }

  /**
   * An event drained before it was flushed and then lost: another takes its
   * offset and is never read. The log is up and drained, both keys are
   * acknowledged and every record carries one of them, yet one event is stored
   * and one billed.
   */
  lemma ConsumerAheadLosesUsage(p: Payload, q: Payload, decode: Consumer.Decoder)
    requires |p| <= MAX_RECORD && |q| <= MAX_RECORD
    requires decode(p) == Consumer.Usable(FlatPlan.UnitEvent("t", "a")) && decode(q) == Consumer.Usable(FlatPlan.UnitEvent("t", "b"))
    ensures Trace(CONFIG, SkippedMoves(p, q), decode).Some? && !NeverBehind(CONFIG, SkippedMoves(p, q), decode)
    ensures var s := Trace(CONFIG, SkippedMoves(p, q), decode).value;
            var db := EndToEnd.Unbilled(s.store.events, PERIOD);
            var r := Invoicing.CloseOf(db, 0, FlatPlan.UNIT_PLAN, {"m"}, db.events);
            && EndToEnd.Settled(s, "t", "m", 10, decode)
            && EndToEnd.AckedKeys(s.log.acked, decode) == {"a", "b"}
            && s.store.events == [FlatPlan.UnitEvent("t", "a")]
            && r.Issued? && r.invoice.total == 1
  {
    hide Trace, NeverBehind, Invoicing.CloseOf, EndToEnd.Unbilled, Rating.PriceFor, LedgerStore.Balance, Append, Holds,
      Created, Consumer.Apply, GroupCommit.Contents, EndToEnd.AckedKeys, SkippedMoves;
    SkippedTrace(p, q, decode);
    AppliedTwice(p, decode);
    TwoKeys(p, q, decode);
    SecondRoom(q, p);
    var s := Trace(CONFIG, SkippedMoves(p, q), decode).value;
    var d := Synced(Synced(EMPTY_DISK, q), p);
    OneSegment(s.log, d);
    assert d.recs == [q, p];
    FlatPlan.UnitPlanIsFlat();
    EndToEnd.UnitsBilled(s.store.events, PERIOD, "m", Pricing.Price("m", Pricing.Flat, 1, []), FlatPlan.UNIT_PLAN, {"m"});
    if NeverBehind(CONFIG, SkippedMoves(p, q), decode) {
      EndToEnd.SettledRows(CONFIG, SkippedMoves(p, q), decode, PERIOD, "m");
    }
  }
}
