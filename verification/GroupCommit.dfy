/**
 * Durable appends under concurrency (broker/log/log.go, broker/log/sync.go): any
 * number of writers, segment rolls, group or individual fsyncs that may fail,
 * power loss and reopening, as a step system. Each step is what one goroutine
 * does between two points where another may run; the files are the segments of
 * module Scan, byte for byte.
 */
module GroupCommit {
  import opened Bytes
  import opened Record
  import opened RecordRun
  import opened SparseIndex
  import opened Options
  import opened Scan
  import opened LogShape

  datatype Policy = SyncAlways | SyncGroup

  datatype Config = Config(policy: Policy, maxSegmentBytes: nat)

  /** A segment, the records written to it, and how many of its bytes are known to be on disk. */
  datatype Disk = Disk(seg: Segment, recs: seq<Payload>, durable: nat)

  /** One append under way: its offset, sequence number, payload, and the syncs finished when it began waiting. */
  datatype Ticket = Ticket(offset: nat, sequence: nat, payload: Payload, arrived: nat)

  datatype Pc =
    | Locked(payload: Payload)
    | RollSynced(payload: Payload)
    | RollMarked(payload: Payload)
    | Ready(payload: Payload)
    | Written(t: Ticket)
    | Asleep(t: Ticket)
    | Woken(t: Ticket)
    | Syncer(t: Ticket, target: nat)
    | Looked(t: Ticket, target: nat, at: nat)
    | Flushing(t: Ticket, target: nat, at: nat, upTo: nat)
    | Flushed(t: Ticket, target: nat, ok: bool)
  {
    predicate HoldsLock() {
      Locked? || RollSynced? || RollMarked? || Ready?
    }

    predicate InSync() {
      Syncer? || Looked? || Flushing? || Flushed?
    }
  }

  datatype Ack = Ack(offset: nat, payload: Payload)

  datatype State = State(
    up: bool,
    disks: seq<Disk>,
    locked: bool,
    start: nat,
    sequence: nat,
    synced: nat,
    pending: nat,
    syncing: bool,
    failed: bool,
    finished: nat,
    writers: map<nat, Pc>,
    acked: set<Ack>
  )

  datatype Step =
    | Lock(w: nat, payload: Payload)
    | DecideRoll(w: nat, ok: bool)
    | RollMark(w: nat)
    | RollCreate(w: nat, ok: bool)
    | Write(w: nat)
    | WriteError(w: nat, n: nat)
    | Arrive(w: nat)
    | Wake(w: nat)
    | Lookup(w: nat)
    | FsyncStart(w: nat)
    | FsyncEnd(w: nat, ok: bool)
    | Settle(w: nat)
    | PowerLoss(cuts: seq<nat>, indexCuts: seq<nat>)
    | Reopen

  function Max(a: nat, b: nat): nat {
    if a < b then b else a
  }

  function Min(a: nat, b: nat): nat {
    if a < b then a else b
  }

  function Init(): State {
    State(true, [Disk(Created(0), [], 0)], false, 0, 0, 0, 0, false, false, 0, map[], {})
  }

  /** cond.Broadcast. */
  function Broadcast(ws: map<nat, Pc>): map<nat, Pc> {
    map w | w in ws :: if ws[w].Asleep? then Woken(ws[w].t) else ws[w]
  }

  function Last(s: State): Disk
    requires |s.disks| > 0
  {
    s.disks[|s.disks| - 1]
  }

  function SetLast(s: State, d: Disk): State
    requires |s.disks| > 0
  {
    s.(disks := s.disks[|s.disks| - 1 := d])
  }

  /** An append that returns its offset. */
  function Acknowledge(s: State, w: nat, t: Ticket): State {
    s.(writers := s.writers - {w}, acked := s.acked + {Ack(t.offset, t.payload)})
  }

  /** An append that returns an error, letting go of the log lock if it holds it. */
  function Fail(s: State, w: nat): State
    requires w in s.writers
  {
    s.(writers := s.writers - {w}, locked := s.locked && !s.writers[w].HoldsLock())
  }

  /** One turn of the loop in waitFor, entered with the coordinator's mutex held. */
  function Turn(s: State, w: nat, t: Ticket): State
    requires w in s.writers
  {
    if s.synced >= t.sequence then Acknowledge(s, w, t)
    else if s.failed then Fail(s, w)
    else if s.syncing then s.(writers := s.writers[w := Asleep(t)])
    else s.(syncing := true, writers := s.writers[w := Syncer(t, s.pending)])
  }

  /** The state after a step, or None when the step is not enabled. */
  function Apply(c: Config, s: State, step: Step): Option<State>
    requires |s.disks| > 0
  {
    match step
    case PowerLoss(cuts, indexCuts) => Lose(s, cuts, indexCuts)
    case Reopen => if s.up then None else ReopenAll(s)
    case Lock(w, p) =>
      if s.up && !s.locked && w !in s.writers then
        Some(s.(locked := true, writers := s.writers[w := Locked(p)]))
      else None
    case _ => if s.up && step.w in s.writers then Move(c, s, step, s.writers[step.w]) else None
  }

  /** Under the log lock: flush the active segment if this record will not fit in it. */
  function DecideRollStep(c: Config, s: State, w: nat, p: Payload, ok: bool): State
    requires |s.disks| > 0 && w in s.writers
  {
    var d := Last(s);
    if d.seg.next > d.seg.base && d.seg.size + RECORD_HEADER + |p| > c.maxSegmentBytes then
      if ok then SetLast(s, d.(durable := d.seg.size)).(writers := s.writers[w := RollSynced(p)])
      else Fail(s, w)
    else s.(writers := s.writers[w := Ready(p)])
  }

  /** markSynced(l.seq). */
  function RollMarkStep(s: State, w: nat, p: Payload): State {
    s.(synced := Max(s.synced, s.sequence), pending := Max(s.pending, s.sequence),
       writers := Broadcast(s.writers)[w := RollMarked(p)])
  }

  function RollCreateStep(s: State, w: nat, p: Payload, ok: bool): State
    requires |s.disks| > 0 && w in s.writers
  {
    if ok then
      s.(disks := s.disks + [Disk(Created(Last(s).seg.next), [], 0)], writers := s.writers[w := Ready(p)])
    else Fail(s, w)
  }

  /** Entering waitFor. */
  function ArriveStep(s: State, w: nat, t: Ticket): State
    requires w in s.writers
  {
    Turn(s.(pending := Max(s.pending, t.sequence)), w, t.(arrived := s.finished))
  }

  /** fsync returning: if it succeeded, everything written before it started is on disk. */
  function FsyncEndStep(s: State, w: nat, pc: Pc, ok: bool): State
    requires pc.Flushing? && pc.at < |s.disks|
  {
    var d := s.disks[pc.at];
    var disks := if ok then s.disks[pc.at := d.(durable := Max(d.durable, pc.upTo))] else s.disks;
    s.(disks := disks, writers := s.writers[w := Flushed(pc.t, pc.target, ok)])
  }

  /** Back from the fsync, with the coordinator's mutex held again. */
  function SettleStep(c: Config, s: State, w: nat, t: Ticket, target: nat, ok: bool): State
    requires w in s.writers
  {
    if c.policy.SyncAlways? then
      if ok then Acknowledge(s, w, t) else Fail(s, w)
    else
      var s' := s.(syncing := false, finished := s.finished + 1, failed := s.failed || !ok,
                   synced := if ok then Max(s.synced, target) else s.synced,
                   writers := Broadcast(s.writers));
      if ok then Turn(s', w, t) else Fail(s', w)
  }

  /** A step of a writer already under way. */
  function Move(c: Config, s: State, step: Step, pc: Pc): Option<State>
    requires |s.disks| > 0 && !step.PowerLoss? && !step.Reopen? && !step.Lock?
    requires step.w in s.writers && s.writers[step.w] == pc
  {
    var w := step.w;
    match (step, pc)
    case (DecideRoll(_, ok), Locked(p)) => Some(DecideRollStep(c, s, w, p, ok))
    case (RollMark(_), RollSynced(p)) => Some(RollMarkStep(s, w, p))
    case (RollCreate(_, ok), RollMarked(p)) => Some(RollCreateStep(s, w, p, ok))
    case (Write(_), Ready(p)) => WriteStep(s, w, p)
    case (WriteError(_, n), Ready(p)) => WriteErrorStep(s, w, p, n)
    case (Arrive(_), Written(t)) => if c.policy.SyncGroup? then Some(ArriveStep(s, w, t)) else None
    case (Wake(_), Woken(t)) => Some(Turn(s, w, t))
    case (Lookup(_), Written(t)) =>
      if c.policy.SyncAlways? && !s.locked then
        Some(s.(writers := s.writers[w := Looked(t, t.sequence, |s.disks| - 1)]))
      else None
    case (Lookup(_), Syncer(t, target)) =>
      if !s.locked then Some(s.(writers := s.writers[w := Looked(t, target, |s.disks| - 1)])) else None
    case (FsyncStart(_), Looked(t, target, at)) =>
      if at < |s.disks| then
        Some(s.(writers := s.writers[w := Flushing(t, target, at, s.disks[at].seg.size)]))
      else None
    case (FsyncEnd(_, ok), Flushing(_, _, at, _)) =>
      if at < |s.disks| then Some(FsyncEndStep(s, w, pc, ok)) else None
    case (Settle(_), Flushed(t, target, ok)) => Some(SettleStep(c, s, w, t, target, ok))
    case _ => None
  }

  /** active.append, then the sequence number, then the lock is released. */
  function WriteStep(s: State, w: nat, p: Payload): Option<State>
    requires |s.disks| > 0 && w in s.writers
  {
    var d := Last(s);
    if d.seg.size > |d.seg.file| || d.seg.base > d.seg.next || d.seg.next + 1 >= U64 then None
    else
      var (seg, r) := Append(d.seg, p);
      if r.Appended? then
        var t := Ticket(r.offset, s.sequence + 1, p, 0);
        Some(SetLast(s, Disk(seg, d.recs + [p], d.durable))
             .(sequence := s.sequence + 1, locked := false, writers := s.writers[w := Written(t)]))
      else
        Some(Fail(SetLast(s, d.(seg := seg)), w))
  }

  /** The record or its index entry fails to reach the disk: the append returns an error, its bytes may stay. */
  function WriteErrorStep(s: State, w: nat, p: Payload, n: nat): Option<State>
    requires |s.disks| > 0 && w in s.writers
  {
    var d := Last(s);
    if d.seg.size > |d.seg.file| || |p| > MAX_RECORD || n > |Frame(p)| then None
    else Some(Fail(SetLast(s, d.(seg := FailedAppend(d.seg, p, n))), w))
  }

  /** Power loss: each file keeps a prefix no shorter than what was flushed, each index any prefix. */
  function Lose(s: State, cuts: seq<nat>, indexCuts: seq<nat>): Option<State> {
    if && |cuts| == |s.disks| == |indexCuts|
       && forall i :: 0 <= i < |s.disks| ==>
            s.disks[i].durable <= cuts[i] <= |s.disks[i].seg.file| && indexCuts[i] <= |s.disks[i].seg.entries|
    then
      var disks := seq(|s.disks|, i requires 0 <= i < |s.disks| =>
        s.disks[i].(seg := s.disks[i].seg.(file := s.disks[i].seg.file[..cuts[i]],
                                           entries := s.disks[i].seg.entries[..indexCuts[i]])));
      Some(State(false, disks, false, 0, 0, 0, 0, false, false, 0, map[], s.acked))
    else None
  }

  function RecoverDisk(d: Disk): Option<Disk> {
    if |d.seg.file| < SEGMENT_HEADER then None
    else
      match Recover(d.seg.base, d.seg.file, d.seg.entries)
      case None => None
      case Some(seg) => Some(Disk(seg, FullScan(d.seg.file), Min(d.durable, seg.size)))
  }

  /** Open: every segment recovered, or the whole open refused. */
  function ReopenAll(s: State): Option<State>
    requires |s.disks| > 0
  {
    if forall i :: 0 <= i < |s.disks| ==> RecoverDisk(s.disks[i]).Some? then
      var disks := seq(|s.disks|, i requires 0 <= i < |s.disks| => RecoverDisk(s.disks[i]).value);
      Some(State(true, disks, false, disks[|disks| - 1].seg.next, 0, 0, 0, false, false, 0, map[], s.acked))
    else None
  }

  // ---- what the state means ----------------------------------------------

  /** Of a segment's records, those before the next segment's base: a read looks no further in it. */
  ghost function Visible(recs: seq<Payload>, base: nat, next: nat): seq<Payload> {
    if base <= next <= base + |recs| then recs[..next - base] else recs
  }

  ghost function Part(s: State, i: nat): seq<Payload>
    requires i < |s.disks|
  {
    if i + 1 < |s.disks| then Visible(s.disks[i].recs, s.disks[i].seg.base, s.disks[i + 1].seg.base) else s.disks[i].recs
  }

  ghost function Parts(s: State): seq<seq<Payload>> {
    seq(|s.disks|, i requires 0 <= i < |s.disks| => Part(s, i))
  }

  ghost function Bases(s: State): seq<nat> {
    seq(|s.disks|, i requires 0 <= i < |s.disks| => s.disks[i].seg.base)
  }

  /** Every record written and not lost, in order. */
  ghost function Contents(s: State): seq<Payload> {
    Flat(Parts(s))
  }

  ghost function Length(recs: seq<Payload>): nat {
    SEGMENT_HEADER + |Frames(recs)|
  }

  /** How many records at the front of a file lie within its flushed bytes. */
  ghost function SafeCount(d: Disk): nat {
    Within(d.recs, d.durable - SEGMENT_HEADER)
  }

  /** How many records at the front of the log no power loss can take. */
  ghost function DurableCount(s: State): nat
    requires |s.disks| > 0
  {
    Last(s).seg.base + SafeCount(Last(s))
  }
}
