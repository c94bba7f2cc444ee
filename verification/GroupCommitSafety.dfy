/** Acknowledged means durable, over every run of the step system. */
module GroupCommitSafety {
  import opened Bytes
  import opened Record
  import opened RecordRun
  import opened SparseIndex
  import opened Options
  import opened Scan
  import opened LogShape
  import opened GroupCommit

  // ---- the invariant -----------------------------------------------------

  /** The segments line up, and all but the active one are on disk in full. */
  ghost predicate Shape(s: State) {
    && |s.disks| > 0
    && Contiguous(Bases(s), Parts(s))
    && (forall i :: 0 <= i < |s.disks| - 1 ==> s.disks[i].durable >= Length(Part(s, i)))
  }

  /** A segment of a running log: the bytes it claims are its records, and no more are flushed than claimed. */
  ghost predicate Live(d: Disk) {
    Holds(d.seg, d.recs) && d.durable <= d.seg.size
  }

  /** A segment of a log that is down: a prefix of what it was, at least as long as what was flushed. */
  ghost predicate Dead(d: Disk) {
    Remains(d.seg.base, d.seg.file, d.seg.entries, d.recs) && d.durable <= |d.seg.file|
  }

  ghost predicate Files(s: State) {
    forall i :: 0 <= i < |s.disks| ==> if s.up then Live(s.disks[i]) else Dead(s.disks[i])
  }

  /** Every acknowledged record is where its append said, among those no power loss can take. */
  ghost predicate Kept(s: State)
    requires |s.disks| > 0
  {
    forall a :: a in s.acked ==> a.offset < DurableCount(s) <= |Contents(s)| && Contents(s)[a.offset] == a.payload
  }

  /** Sequence numbers count the records since Open; everything up to `synced` is on disk. */
  ghost predicate Counters(s: State)
    requires |s.disks| > 0
  {
    && s.start + s.sequence == |Contents(s)|
    && s.synced <= s.sequence && s.pending <= s.sequence
    && (s.synced > 0 ==> s.start + s.synced <= DurableCount(s))
  }

  ghost predicate TicketOk(s: State, t: Ticket) {
    && 1 <= t.sequence <= s.sequence && t.offset == s.start + t.sequence - 1
    && t.offset < |Contents(s)| && Contents(s)[t.offset] == t.payload
  }

  /** A group sync claims no more than has been announced. */
  ghost predicate TargetOk(c: Config, s: State, target: nat) {
    c.policy.SyncGroup? ==> target <= s.pending
  }

  /** What each program point promises. */
  ghost predicate PcOk(c: Config, s: State, pc: Pc)
    requires |s.disks| > 0
  {
    match pc
    case Locked(_) => true
    case RollSynced(_) => Last(s).durable >= Length(Last(s).recs) && Last(s).recs != []
    case RollMarked(_) => Last(s).durable >= Length(Last(s).recs) && Last(s).recs != []
    case Ready(p) => Last(s).recs == [] || Last(s).seg.size + RECORD_HEADER + |p| <= c.maxSegmentBytes
    case Written(t) => TicketOk(s, t)
    case Asleep(t) => TicketOk(s, t) && t.sequence <= s.pending
    case Woken(t) => TicketOk(s, t) && t.sequence <= s.pending
    case Syncer(t, target) => TicketOk(s, t) && t.sequence <= target <= s.sequence && TargetOk(c, s, target)
    case Looked(t, target, at) =>
      && TicketOk(s, t) && t.sequence <= target && TargetOk(c, s, target)
      && at < |s.disks| && s.start + target <= s.disks[at].seg.base + |Part(s, at)|
    case Flushing(t, target, at, upTo) =>
      && TicketOk(s, t) && t.sequence <= target && TargetOk(c, s, target)
      && at < |s.disks| && upTo <= s.disks[at].seg.size
      && s.start + target <= s.disks[at].seg.base + Within(Part(s, at), upTo - SEGMENT_HEADER)
    case Flushed(t, target, ok) =>
      && TicketOk(s, t) && t.sequence <= target && TargetOk(c, s, target)
      && (ok ==> s.start + target <= DurableCount(s))
  }

  ghost predicate Writers(c: Config, s: State)
    requires |s.disks| > 0
  {
    && (forall w :: w in s.writers ==> PcOk(c, s, s.writers[w]))
    && (forall w :: w in s.writers && s.writers[w].HoldsLock() ==> s.locked)
    && (forall v, w :: v in s.writers && w in s.writers && s.writers[v].HoldsLock() && s.writers[w].HoldsLock() ==> v == w)
  }

  ghost predicate Inv(c: Config, s: State) {
    && Shape(s) && Files(s) && Kept(s)
    && (s.up ==> Counters(s) && Writers(c, s))
    && (!s.up ==> s.writers == map[])
  }

  // ---- durable counts ------------------------------------------------------

  lemma LengthIsSize(seg: Segment, recs: seq<Payload>)
    requires Holds(seg, recs)
    ensures seg.size == Length(recs) && seg.next == seg.base + |recs|
  {
    hide Frames, IndexTrue;
    assert seg.size == |seg.file[..seg.size]|;
  }

  lemma SafeAll(d: Disk)
    requires d.durable >= Length(d.recs)
    ensures SafeCount(d) == |d.recs|
  {
    hide Within, Frames;
    assert d.recs[..|d.recs|] == d.recs;
    WithinIsMaximal(d.recs, d.durable - SEGMENT_HEADER, |d.recs|);
  }

  lemma {:induction false} WithinMonotone(recs: seq<Payload>, j: int, k: int)
    requires j <= k
    ensures Within(recs, j) <= Within(recs, k)
  {
    if recs != [] && j >= RECORD_HEADER + |recs[0]| {
      WithinMonotone(recs[1..], j - RECORD_HEADER - |recs[0]|, k - RECORD_HEADER - |recs[0]|);
    }
  }

  /** The flushed records are among the written ones. */
  lemma DurableWithinContents(s: State)
    requires Shape(s)
    ensures DurableCount(s) <= |Contents(s)| == Last(s).seg.base + |Last(s).recs|
  {
    hide Within, Flat;
    var n := |s.disks| - 1;
    FlatStep(Parts(s), n);
    assert Parts(s)[..n + 1] == Parts(s) && Parts(s)[n] == Last(s).recs;
    assert Bases(s)[n] == |Flat(Parts(s)[..n])|;
  }

  // ---- steps that keep growing ---------------------------------------------

  /** From `s` to `t` nothing written is lost and nothing flushed is forgotten. */
  ghost predicate Grows(s: State, t: State) {
    && |s.disks| > 0 && |s.disks| <= |t.disks|
    && s.start == t.start && s.sequence <= t.sequence && s.pending <= t.pending
    && Contents(s) <= Contents(t) && DurableCount(s) <= DurableCount(t)
    && (forall i :: 0 <= i < |s.disks| ==>
          && s.disks[i].seg.base == t.disks[i].seg.base && Part(s, i) <= Part(t, i)
          && s.disks[i].seg.size <= t.disks[i].seg.size)
  }

  /** A writer that is not holding the lock keeps its promise through such a step. */
  lemma PcStable(c: Config, s: State, t: State, pc: Pc)
    requires Grows(s, t) && PcOk(c, s, pc) && !pc.HoldsLock()
    ensures PcOk(c, t, pc)
  {
    hide Contents, DurableCount, Within, Part;
    if pc.Flushing? {
      var a, b := Part(s, pc.at), Part(t, pc.at);
      assert b == a + b[|a|..];
      WithinGrows(a, b[|a|..], pc.upTo - SEGMENT_HEADER);
    }
  }

  lemma KeptStable(s: State, t: State)
    requires |s.disks| > 0 && |t.disks| > 0 && Kept(s) && t.acked == s.acked
    requires Contents(s) <= Contents(t) && DurableCount(s) <= DurableCount(t) <= |Contents(t)|
    ensures Kept(t)
  {
  }

  lemma SameContents(s: State, t: State)
    requires s.disks == t.disks
    ensures Parts(t) == Parts(s) && Bases(t) == Bases(s) && Contents(t) == Contents(s)
  {
  }

  // ---- writers ---------------------------------------------------------------

  /** Besides `w`, writers stay where they were or are woken. */
  ghost predicate OnlyMoved(s: State, t: State, w: nat) {
    forall v :: v in t.writers && v != w ==>
      && v in s.writers
      && (t.writers[v] == s.writers[v] || (s.writers[v].Asleep? && t.writers[v] == Woken(s.writers[v].t)))
  }

  /** What a writer holding the lock relies on. */
  ghost predicate SameTail(s: State, t: State) {
    && |s.disks| > 0 && |t.disks| > 0
    && Last(t).recs == Last(s).recs && Last(t).seg.size == Last(s).seg.size && Last(t).durable >= Last(s).durable
  }

  lemma WritersAfter(c: Config, s: State, t: State, w: nat)
    requires |s.disks| > 0 && |t.disks| > 0 && Writers(c, s) && OnlyMoved(s, t, w) && Grows(s, t)
    requires (w in s.writers && s.writers[w].HoldsLock()) || SameTail(s, t)
    requires w in t.writers ==> PcOk(c, t, t.writers[w])
    requires s.locked && !(w in s.writers && s.writers[w].HoldsLock()) ==> t.locked
    requires w in t.writers && t.writers[w].HoldsLock() ==>
               t.locked && (!s.locked || (w in s.writers && s.writers[w].HoldsLock()))
    ensures Writers(c, t)
  {
    hide Grows, SameTail, PcOk;
    forall v | v in t.writers && v != w
      ensures PcOk(c, t, t.writers[v]) && t.writers[v].HoldsLock() == s.writers[v].HoldsLock()
    {
      OtherPc(c, s, t, s.writers[v], t.writers[v]);
    }
  }

  lemma OtherPc(c: Config, s: State, t: State, pc: Pc, now: Pc)
    requires Grows(s, t) && PcOk(c, s, pc) && (!pc.HoldsLock() || SameTail(s, t))
    requires now == pc || (pc.Asleep? && now == Woken(pc.t))
    ensures PcOk(c, t, now) && now.HoldsLock() == pc.HoldsLock()
  {
    hide Grows, Contents, DurableCount, Within, TicketOk;
    GrowsCounts(s, t);
    if !pc.HoldsLock() {
      PcStable(c, s, t, pc);
    }
  }

  lemma GrowsSameDisks(s: State, t: State)
    requires |s.disks| > 0 && s.disks == t.disks && s.start == t.start && s.sequence <= t.sequence
    requires s.pending <= t.pending
    ensures Grows(s, t) && SameTail(s, t)
  {
    SameContents(s, t);
  }

  /** A step of one writer that touches no file. */
  lemma WriterStep(c: Config, s: State, t: State, w: nat)
    requires Inv(c, s) && s.up && t.up && t.disks == s.disks && OnlyMoved(s, t, w)
    requires t.start == s.start && t.sequence == s.sequence
    requires t.synced <= t.sequence && s.pending <= t.pending <= t.sequence
    requires t.synced > 0 ==> t.start + t.synced <= DurableCount(s)
    requires forall a :: a in t.acked && a !in s.acked ==>
               a.offset < DurableCount(s) && a.offset < |Contents(s)| && Contents(s)[a.offset] == a.payload
    requires w in t.writers ==> PcOk(c, s, t.writers[w])
    requires s.locked && !(w in s.writers && s.writers[w].HoldsLock()) ==> t.locked
    requires w in t.writers && t.writers[w].HoldsLock() ==>
               t.locked && (!s.locked || (w in s.writers && s.writers[w].HoldsLock()))
    ensures Inv(c, t)
  {
    hide Within, Contiguous, Holds, Flat;
    SameContents(s, t);
    GrowsSameDisks(s, t);
    DurableWithinContents(s);
    WritersAfter(c, s, t, w);
  }

  /** An append that returns an error. */
  lemma FailInv(c: Config, s: State, w: nat)
    requires Inv(c, s) && s.up && w in s.writers
    ensures Inv(c, Fail(s, w))
  {
    hide Within, Contiguous, Holds, Contents, DurableCount, Files, Kept;
    WriterStep(c, s, Fail(s, w), w);
  }

  /** A turn of waitFor: an append is acknowledged only once it is on disk. */
  lemma TurnInv(c: Config, s: State, w: nat, k: Ticket)
    requires Inv(c, s) && s.up && w in s.writers && !s.writers[w].HoldsLock()
    requires TicketOk(s, k) && k.sequence <= s.pending
    ensures Inv(c, Turn(s, w, k))
  {
    hide Within, Contiguous, Holds, Contents, DurableCount, Files, Writers, Kept;
    WriterStep(c, s, Turn(s, w, k), w);
  }

  /** Counters and wake-ups alone. */
  lemma CountersInv(c: Config, s: State, t: State)
    requires Inv(c, s) && s.up
    requires t == s.(synced := t.synced, pending := t.pending, syncing := t.syncing, failed := t.failed,
                     finished := t.finished, writers := t.writers)
    requires t.writers == s.writers || t.writers == Broadcast(s.writers)
    requires t.synced <= t.sequence && s.pending <= t.pending <= t.sequence
    requires t.synced > 0 ==> t.start + t.synced <= DurableCount(s)
    ensures Inv(c, t)
  {
    hide Within, Contiguous, Holds, Contents, DurableCount, Files;
    if w :| w in s.writers {
      assert w in t.writers;
      SameContents(s, t);
      assert PcOk(c, s, t.writers[w]);
      assert OnlyMoved(s, t, w);
      assert s.writers[w].HoldsLock() == t.writers[w].HoldsLock();
      WriterStep(c, s, t, w);
    } else {
      assert OnlyMoved(s, t, 0);
      WriterStep(c, s, t, 0);
    }
  }

  // ---- steps that touch a file -----------------------------------------------

  /** Only flushed lengths change, and only upwards. */
  ghost predicate Flushes(s: State, t: State) {
    && |t.disks| == |s.disks|
    && forall i :: 0 <= i < |s.disks| ==>
         && t.disks[i] == s.disks[i].(durable := t.disks[i].durable)
         && s.disks[i].durable <= t.disks[i].durable <= s.disks[i].seg.size
  }

  lemma FlushGrows(s: State, t: State)
    requires Shape(s) && Flushes(s, t) && t.start == s.start && t.sequence == s.sequence && t.pending == s.pending
    ensures Parts(t) == Parts(s) && Bases(t) == Bases(s) && Contents(t) == Contents(s)
    ensures DurableCount(s) <= DurableCount(t) && Grows(s, t) && SameTail(s, t) && Shape(t)
  {
    hide Within, Contiguous, Flat, Frames;
    assert Parts(t) == Parts(s) && Bases(t) == Bases(s);
    WithinMonotone(Last(s).recs, Last(s).durable - SEGMENT_HEADER, Last(t).durable - SEGMENT_HEADER);
  }

  /** An fsync of any segment, by any writer. */
  lemma FlushInv(c: Config, s: State, disks: seq<Disk>, w: nat, pc: Pc)
    requires var t := s.(disks := disks, writers := s.writers[w := pc]);
             && Inv(c, s) && s.up && w in s.writers && Flushes(s, t)
             && |disks| > 0 && PcOk(c, t, pc) && s.writers[w].HoldsLock() == pc.HoldsLock()
    ensures Inv(c, s.(disks := disks, writers := s.writers[w := pc]))
  {
    hide Within, Contiguous, Holds, Contents, DurableCount;
    var t := s.(disks := disks, writers := s.writers[w := pc]);
    FlushGrows(s, t);
    DurableWithinContents(t);
    KeptStable(s, t);
    WritersAfter(c, s, t, w);
  }

  lemma FsyncEndInv(c: Config, s: State, w: nat, ok: bool)
    requires Inv(c, s) && s.up && w in s.writers && s.writers[w].Flushing?
    ensures s.writers[w].at < |s.disks| && Inv(c, FsyncEndStep(s, w, s.writers[w], ok))
  {
    hide Inv, Shape, Contents, Within, DurableCount, Part, TicketOk, TargetOk, Flushes, Length;
    var pc := s.writers[w];
    WriterOk(c, s, w);
    FlushedWithinFile(c, s);
    var t := FsyncEndStep(s, w, pc, ok);
    FsyncFlushes(s, w, pc, ok);
    FlushGrows(s, t);
    if ok {
      FlushedCovers(s, t, pc.at, pc.upTo, s.start + pc.target);
    }
    SameTicket(c, s, t, pc.t, pc.target);
    FlushInv(c, s, t.disks, w, Flushed(pc.t, pc.target, ok));
  }

  lemma FsyncFlushes(s: State, w: nat, pc: Pc, ok: bool)
    requires pc.Flushing? && pc.at < |s.disks| && pc.upTo <= s.disks[pc.at].seg.size
    requires forall i :: 0 <= i < |s.disks| ==> s.disks[i].durable <= s.disks[i].seg.size
    ensures Flushes(s, FsyncEndStep(s, w, pc, ok))
  {
  }

  lemma SameTicket(c: Config, s: State, t: State, k: Ticket, target: nat)
    requires TicketOk(s, k) && TargetOk(c, s, target)
    requires Contents(t) == Contents(s) && t.sequence == s.sequence && t.start == s.start && t.pending == s.pending
    ensures TicketOk(t, k) && TargetOk(c, t, target)
  {
  }

  lemma FlushedWithinFile(c: Config, s: State)
    requires Inv(c, s) && s.up
    ensures forall i :: 0 <= i < |s.disks| ==> s.disks[i].durable <= s.disks[i].seg.size
  {
    hide Holds, Writers, Shape, Kept, Counters;
  }

  /** What a writer's program point promises, and the lock. */
  lemma WriterOk(c: Config, s: State, w: nat)
    requires Inv(c, s) && s.up && w in s.writers
    ensures |s.disks| > 0 && PcOk(c, s, s.writers[w]) && Shape(s) && (s.writers[w].HoldsLock() ==> s.locked)
  {
    hide PcOk, Kept, Files, Contiguous;
  }

  /** What lay within the bytes an fsync covered is now within the durable part of the log. */
  lemma FlushedCovers(s: State, t: State, at: nat, upTo: nat, count: nat)
    requires Shape(s) && Shape(t) && Flushes(s, t) && at < |s.disks| && t.disks[at].durable >= upTo
    requires count <= s.disks[at].seg.base + Within(Part(s, at), upTo - SEGMENT_HEADER)
    requires Bases(t) == Bases(s) && Parts(t) == Parts(s)
    ensures count <= DurableCount(t)
  {
    hide Frames, Within, Flat;
    var n := |s.disks| - 1;
    if at == n {
      WithinMonotone(s.disks[n].recs, upTo - SEGMENT_HEADER, t.disks[n].durable - SEGMENT_HEADER);
    } else {
      assert Parts(s)[at] == Part(s, at);
      FlatStep(Parts(s), at);
      FlatPrefix(Parts(s), at + 1, n);
      assert Bases(t)[n] == |Flat(Parts(s)[..n])| && Bases(s)[at] == |Flat(Parts(s)[..at])|;
    }
  }

  lemma DecideRollInv(c: Config, s: State, w: nat, ok: bool)
    requires Inv(c, s) && s.up && w in s.writers && s.writers[w].Locked?
    ensures Inv(c, DecideRollStep(c, s, w, s.writers[w].payload, ok))
  {
    hide Contiguous, Contents, Within, Holds, Flat, Frames, Writers, Kept, DurableCount;
    var t := DecideRollStep(c, s, w, s.writers[w].payload, ok);
    var d := Last(s);
    WriterOk(c, s, w);
    LengthIsSize(d.seg, d.recs);
    if t == Fail(s, w) {
      FailInv(c, s, w);
    } else if t == s.(writers := s.writers[w := Ready(s.writers[w].payload)]) {
      WriterStep(c, s, t, w);
    } else {
      assert Flushes(s, t);
      FlushInv(c, s, t.disks, w, t.writers[w]);
    }
  }

  /** A fresh segment after one that is on disk in full. */
  lemma RollCreateInv(c: Config, s: State, w: nat, ok: bool)
    requires Inv(c, s) && s.up && w in s.writers && s.writers[w].RollMarked?
    ensures Inv(c, RollCreateStep(s, w, s.writers[w].payload, ok))
  {
    hide Within, Holds, Flat, Frames, Created, Contents, DurableCount, Kept, Writers, Contiguous;
    var pc := s.writers[w];
    var t := RollCreateStep(s, w, pc.payload, ok);
    if !ok {
      WriterOk(c, s, w);
      FailInv(c, s, w);
    } else {
      WriterOk(c, s, w);
      LengthIsSize(Last(s).seg, Last(s).recs);
      RolledShape(s, t, Created(Last(s).seg.next));
      RolledInv(c, s, t, w, Disk(Created(Last(s).seg.next), [], 0), pc.payload);
    }
  }

  /** A full segment on disk, then an empty one. */
  lemma RolledShape(s: State, t: State, seg: Segment)
    requires Shape(s) && t.disks == s.disks + [Disk(seg, [], 0)] && seg == Created(Last(s).seg.next)
    requires Last(s).seg.next == Last(s).seg.base + |Last(s).recs|
    requires Last(s).durable >= Length(Last(s).recs) && Last(s).recs != []
    requires t.start == s.start && t.sequence == s.sequence && t.pending == s.pending
    ensures Shape(t) && Grows(s, t) && Contents(t) == Contents(s) && DurableCount(t) == |Contents(t)|
    ensures Live(Last(t))
  {
    hide Within, Flat, Frames, Created, Holds;
    DurableWithinContents(s);
    CreatedHolds(seg.base);
    CreatedIs(Last(s).seg.next);
    AddEmpty(Bases(s), Parts(s));
    ContentsEnd(s);
    forall i | 0 <= i < |s.disks|
      ensures Part(t, i) == Part(s, i)
    {
    }
    assert Parts(t) == Parts(s) + [[]] && Bases(t) == Bases(s) + [|Contents(s)|];
    EmptyWithin(0 - SEGMENT_HEADER);
  }

  /** The log ends where its last segment does. */
  lemma ContentsEnd(s: State)
    requires Shape(s)
    ensures |Contents(s)| == Last(s).seg.base + |Last(s).recs|
  {
    hide Flat;
    var n := |s.disks| - 1;
    FlatStep(Parts(s), n);
    assert Parts(s)[..n + 1] == Parts(s) && Bases(s)[n] == |Flat(Parts(s)[..n])|;
  }

  lemma RolledInv(c: Config, s: State, t: State, w: nat, d: Disk, p: Payload)
    requires Inv(c, s) && s.up && w in s.writers && s.writers[w].HoldsLock()
    requires t == s.(disks := s.disks + [d], writers := s.writers[w := Ready(p)]) && d.recs == [] && Live(d)
    requires Shape(t) && Grows(s, t) && Contents(t) == Contents(s) && DurableCount(t) == |Contents(t)|
    ensures Inv(c, t)
  {
    hide Shape, Live, Contents, DurableCount, Grows;
    GrowsCounts(s, t);
    KeptStable(s, t);
    WritersAfter(c, s, t, w);
  }

  lemma GrowsCounts(s: State, t: State)
    requires Grows(s, t)
    ensures |s.disks| > 0 && |t.disks| > 0 && Contents(s) <= Contents(t) && DurableCount(s) <= DurableCount(t)
  {
  }

  lemma CreatedIs(base: nat)
    ensures var s := Created(base);
            s.base == s.next == base && s.size == |s.file| == SEGMENT_HEADER
  {
  }

  lemma EmptyWithin(k: int)
    ensures Within([], k) == 0
  {
  }

  lemma WriteInv(c: Config, s: State, w: nat)
    requires Inv(c, s) && s.up && w in s.writers && s.writers[w].Ready?
    requires WriteStep(s, w, s.writers[w].payload).Some?
    ensures Inv(c, WriteStep(s, w, s.writers[w].payload).value)
  {
    hide Within, Flat, Append, Contiguous, Holds, Writers, Kept, Contents, DurableCount, Frames;
    var p, d := s.writers[w].payload, Last(s);
    var t := WriteStep(s, w, p).value;
    WriterOk(c, s, w);
    LengthIsSize(d.seg, d.recs);
    DurableWithinContents(s);
    WrittenDisk(d, p);
    if Append(d.seg, p).1.Appended? {
      WrittenContents(s, t, p);
      GrewByOne(c, s, t, w, p);
    } else {
      JunkInv(c, s, Append(d.seg, p).0);
      FailInv(c, SetLast(s, d.(seg := Append(d.seg, p).0)), w);
    }
  }

  lemma WriteErrorInv(c: Config, s: State, w: nat, n: nat)
    requires Inv(c, s) && s.up && w in s.writers && s.writers[w].Ready?
    requires WriteErrorStep(s, w, s.writers[w].payload, n).Some?
    ensures Inv(c, WriteErrorStep(s, w, s.writers[w].payload, n).value)
  {
    hide FailedAppend, Frame, Shape, Files, Kept, Counters, Writers;
    SomeSegment(s);
    var p, d := s.writers[w].payload, Last(s);
    WriterOk(c, s, w);
    FailedDisk(c, s, p, n);
    JunkInv(c, s, FailedAppend(d.seg, p, n));
    FailInv(c, SetLast(s, d.(seg := FailedAppend(d.seg, p, n))), w);
  }

  lemma SomeSegment(s: State)
    requires Shape(s)
    ensures |s.disks| > 0
  {
  }

  lemma FailedDisk(c: Config, s: State, p: Payload, n: nat)
    requires Inv(c, s) && s.up && |s.disks| > 0 && Last(s).seg.size <= |Last(s).seg.file| && n <= |Frame(p)|
    ensures var seg := FailedAppend(Last(s).seg, p, n);
            Holds(seg, Last(s).recs) && seg.base == Last(s).seg.base && seg.size == Last(s).seg.size
  {
    hide Frame, Holds, Writers, Kept, Counters, Contiguous;
    assert Live(Last(s));
    FailedAppendHolds(Last(s).seg, Last(s).recs, p, n);
  }

  /** A record appended to a live segment leaves it live; a refused one changes no record. */
  lemma WrittenDisk(d: Disk, p: Payload)
    requires Live(d)
    ensures d.seg.size <= |d.seg.file| && d.seg.base <= d.seg.next
    ensures var (seg, r) := Append(d.seg, p);
            if r.Appended? then
              && Live(Disk(seg, d.recs + [p], d.durable))
              && seg.base == d.seg.base && seg.size >= d.seg.size && r.offset == d.seg.next
            else Holds(seg, d.recs) && seg.base == d.seg.base && seg.size == d.seg.size
  {
    hide Append, Holds;
    LengthIsSize(d.seg, d.recs);
    HoldsRoom(d.seg, d.recs);
    AppendHolds(d.seg, d.recs, p);
    AppendedSize(d.seg, p);
  }

  lemma HoldsRoom(seg: Segment, recs: seq<Payload>)
    requires Holds(seg, recs)
    ensures seg.size <= |seg.file|
  {
  }

  lemma AppendedSize(s: Segment, p: Payload)
    requires s.size <= |s.file| && s.base <= s.next
    ensures var (t, r) := Append(s, p);
            && t.base == s.base && t.size == s.size + (if r.Appended? then RECORD_HEADER + |p| else 0)
            && (r.Appended? ==> r.offset == s.next)
  {
    hide Frame;
  }

  /** Bytes past the size a segment claims matter to nobody. */
  lemma JunkInv(c: Config, s: State, seg: Segment)
    requires Inv(c, s) && s.up && |s.disks| > 0
    requires Holds(seg, Last(s).recs) && seg.base == Last(s).seg.base && seg.size == Last(s).seg.size
    ensures Inv(c, SetLast(s, Last(s).(seg := seg)))
  {
    hide Within, Flat, Contiguous, Holds, Contents, DurableCount, Frames;
    var t := SetLast(s, Last(s).(seg := seg));
    JunkShape(s, t);
    KeptStable(s, t);
    WritersMovedNone(c, s, t);
  }

  lemma JunkShape(s: State, t: State)
    requires Shape(s) && |t.disks| == |s.disks| && t.disks == s.disks[|s.disks| - 1 := Last(t)]
    requires Last(t).recs == Last(s).recs && Last(t).durable == Last(s).durable
    requires Last(t).seg.base == Last(s).seg.base && Last(t).seg.size == Last(s).seg.size
    requires t.start == s.start && t.sequence == s.sequence && t.pending == s.pending
    ensures Parts(t) == Parts(s) && Bases(t) == Bases(s) && Contents(t) == Contents(s)
    ensures Shape(t) && Grows(s, t) && SameTail(s, t) && DurableCount(t) == DurableCount(s) <= |Contents(s)|
  {
    hide Within, Flat, Contiguous, Frames;
    forall i | 0 <= i < |s.disks|
      ensures Part(t, i) == Part(s, i)
    {
    }
    assert Parts(t) == Parts(s) && Bases(t) == Bases(s);
    DurableWithinContents(s);
  }

  lemma WritersMovedNone(c: Config, s: State, t: State)
    requires |s.disks| > 0 && |t.disks| > 0 && Writers(c, s) && Grows(s, t) && SameTail(s, t)
    requires t.writers == s.writers && t.locked == s.locked
    ensures Writers(c, t)
  {
    hide PcOk, Grows, SameTail;
    forall w | w in t.writers
      ensures PcOk(c, t, t.writers[w])
    {
      OtherPc(c, s, t, s.writers[w], t.writers[w]);
    }
  }

  lemma WrittenContents(s: State, t: State, p: Payload)
    requires Shape(s) && |t.disks| == |s.disks| && t.disks == s.disks[|s.disks| - 1 := Last(t)]
    requires Last(t).seg.base == Last(s).seg.base && Last(t).recs == Last(s).recs + [p] && Last(t).durable == Last(s).durable
    ensures Contiguous(Bases(t), Parts(t)) && Contents(t) == Contents(s) + [p] && DurableCount(t) >= DurableCount(s)
  {
    hide Within, Flat, Contiguous;
    var n := |s.disks| - 1;
    GrowLast(Bases(s), Parts(s), [p]);
    assert Parts(t) == Parts(s)[n := Last(s).recs + [p]] && Bases(t) == Bases(s);
    WithinGrows(Last(s).recs, [p], Last(s).durable - SEGMENT_HEADER);
  }

  lemma GrewShape(s: State, t: State, p: Payload)
    requires Shape(s) && |t.disks| == |s.disks| && t.disks == s.disks[|s.disks| - 1 := Last(t)]
    requires Last(t).seg.base == Last(s).seg.base && Last(t).recs == Last(s).recs + [p]
    requires Last(t).seg.size >= Last(s).seg.size && t.start == s.start && t.sequence >= s.sequence && t.pending == s.pending
    requires Contiguous(Bases(t), Parts(t)) && Contents(t) == Contents(s) + [p] && DurableCount(t) >= DurableCount(s)
    ensures Shape(t) && Grows(s, t)
  {
    hide Within, Flat, Contiguous, Contents, DurableCount, Frames;
    forall i | 0 <= i < |s.disks| - 1
      ensures Part(t, i) == Part(s, i)
    {
    }
  }

  lemma GrewByOne(c: Config, s: State, t: State, w: nat, p: Payload)
    requires Inv(c, s) && s.up && t.up && w in s.writers && s.writers[w].HoldsLock()
    requires |t.disks| == |s.disks| && t.disks == s.disks[|s.disks| - 1 := Last(t)]
    requires Live(Last(t)) && Last(t).seg.base == Last(s).seg.base && Last(t).recs == Last(s).recs + [p]
    requires Last(t).seg.size >= Last(s).seg.size
    requires Contiguous(Bases(t), Parts(t)) && Contents(t) == Contents(s) + [p]
    requires DurableCount(t) >= DurableCount(s)
    requires t.acked == s.acked && t.start == s.start && t.sequence == s.sequence + 1
    requires t.synced == s.synced && t.pending == s.pending && !t.locked
    requires t.writers == s.writers[w := Written(Ticket(|Contents(s)|, s.sequence + 1, p, 0))]
    ensures Inv(c, t)
  {
    hide Within, Flat, Contiguous, Live, Contents, DurableCount, Grows, Shape;
    GrewShape(s, t, p);
    DurableWithinContents(t);
    KeptStable(s, t);
    assert OnlyMoved(s, t, w);
    assert TicketOk(t, t.writers[w].t);
    WritersAfter(c, s, t, w);
  }

  // ---- power loss and reopening ------------------------------------------------

  lemma LoseInv(c: Config, s: State, cuts: seq<nat>, indexCuts: seq<nat>)
    requires Inv(c, s) && Lose(s, cuts, indexCuts).Some?
    ensures var t := Lose(s, cuts, indexCuts).value;
            Inv(c, t) && Contents(t) == Contents(s)
  {
    hide Within, Flat, Contiguous, Holds, Remains, Frames, Live, Dead;
    var t := Lose(s, cuts, indexCuts).value;
    assert Parts(t) == Parts(s) && Bases(t) == Bases(s);
    forall i | 0 <= i < |s.disks|
      ensures Dead(t.disks[i])
    {
      assert if s.up then Live(s.disks[i]) else Dead(s.disks[i]);
      LoseDisk(s.disks[i], cuts[i], indexCuts[i]);
    }
  }

  lemma LoseDisk(d: Disk, cut: nat, indexCut: nat)
    requires Live(d) || Dead(d)
    requires d.durable <= cut <= |d.seg.file| && indexCut <= |d.seg.entries|
    ensures Dead(d.(seg := d.seg.(file := d.seg.file[..cut], entries := d.seg.entries[..indexCut])))
  {
    hide Holds, Remains;
    if Live(d) {
      CutRemains(d.seg, d.recs, cut, indexCut);
    } else {
      CutAgain(d.seg.base, d.seg.file, d.seg.entries, d.recs, cut, indexCut);
    }
  }

  /** Records that lie within the flushed bytes of a segment are there, still flushed, once it is recovered. */
  lemma RecoverDiskPart(d: Disk, m: nat)
    requires Dead(d) && RecoverDisk(d).Some? && m <= |d.recs| && d.durable >= Length(d.recs[..m])
    ensures var e := RecoverDisk(d).value;
            m <= |e.recs| && e.recs[..m] == d.recs[..m] && e.durable >= Length(d.recs[..m])
  {
    hide Within, Frames, FullScan, SegmentHeader, IndexTrue, Recover, Holds, Pos;
    var file, k := d.seg.file, |d.seg.file| - SEGMENT_HEADER;
    var e := RecoverDisk(d).value;
    RemainsSurvive(d.seg.base, file, d.seg.entries, d.recs);
    RecoverRefinesFullScan(d.seg.base, file, d.seg.entries);
    WithinIsMaximal(d.recs, k, m);
    var w := Within(d.recs, k);
    assert d.recs[..w][..m] == d.recs[..m];
    assert e.recs[..w][..m] == e.recs[..m];
    LengthIsSize(e.seg, e.recs);
    LengthOfPrefix(e.recs, m);
  }

  lemma LengthOfPrefix(recs: seq<Payload>, m: nat)
    requires m <= |recs|
    ensures Length(recs[..m]) <= Length(recs)
  {
    hide Frames;
    assert recs == recs[..m] + recs[m..];
    FramesConcat(recs[..m], recs[m..]);
  }

  /** A recovered segment is live, has lost nothing flushed, and holds more or less of what it held. */
  lemma RecoverDiskKeeps(d: Disk)
    requires Dead(d) && RecoverDisk(d).Some?
    ensures var e := RecoverDisk(d).value;
            && Live(e) && e.seg.base == d.seg.base && (e.recs <= d.recs || d.recs <= e.recs)
            && SafeCount(d) <= SafeCount(e) && SafeCount(d) <= |e.recs| && e.recs[..SafeCount(d)] == d.recs[..SafeCount(d)]
  {
    hide Within, Frames, FullScan, SegmentHeader, IndexTrue, Recover, Holds, Pos;
    var file := d.seg.file;
    var e, m := RecoverDisk(d).value, SafeCount(d);
    RemainsSurvive(d.seg.base, file, d.seg.entries, d.recs);
    RecoverRefinesFullScan(d.seg.base, file, d.seg.entries);
    assert d.recs[..|d.recs|] == d.recs;
    if d.durable >= SEGMENT_HEADER {
      WithinIsMaximal(d.recs, d.durable - SEGMENT_HEADER, m);
      RecoverDiskPart(d, m);
      WithinIsMaximal(e.recs, e.durable - SEGMENT_HEADER, m);
    } else {
      NegativeWithin(d.recs, d.durable - SEGMENT_HEADER);
    }
  }

  lemma NegativeWithin(recs: seq<Payload>, k: int)
    requires k < 0
    ensures Within(recs, k) == 0
  {
  }

  /** A segment's part of the log is the front of its records, up to the next base. */
  lemma PartIs(s: State, i: nat)
    requires Shape(s) && i < |s.disks|
    ensures Part(s, i) <= s.disks[i].recs
    ensures i + 1 < |s.disks| ==> s.disks[i + 1].seg.base == s.disks[i].seg.base + |Part(s, i)|
  {
    hide Flat;
    if i + 1 < |s.disks| {
      FlatStep(Parts(s), i);
      assert Bases(s)[i + 1] == |Flat(Parts(s)[..i + 1])| && Bases(s)[i] == |Flat(Parts(s)[..i])|;
    }
  }

  /** All but the last segment come back with their part of the log, on disk. */
  lemma ReopenPart(c: Config, s: State, i: nat)
    requires Inv(c, s) && !s.up && ReopenAll(s).Some? && i + 1 < |s.disks|
    ensures var t := ReopenAll(s).value;
            |t.disks| == |s.disks| && Part(t, i) == Part(s, i) && t.disks[i].durable >= Length(Part(t, i))
  {
    hide Flat, Contiguous, Holds, Remains, Frames, RecoverDisk, Length, Kept;
    var t := ReopenAll(s).value;
    assert Dead(s.disks[i]) && Dead(s.disks[i + 1]);
    PartIs(s, i);
    var m := |Part(s, i)|;
    assert s.disks[i].recs[..m] == Part(s, i);
    RecoverDiskPart(s.disks[i], m);
    RecoverDiskKeeps(s.disks[i]);
    RecoverDiskKeeps(s.disks[i + 1]);
  }

  lemma ReopenShape(c: Config, s: State)
    requires Inv(c, s) && !s.up && ReopenAll(s).Some?
    ensures var t, n := ReopenAll(s).value, |s.disks| - 1;
            && |t.disks| == |s.disks| && Bases(t) == Bases(s) && Parts(t) == Parts(s)[n := t.disks[n].recs]
            && forall i :: 0 <= i < n ==> t.disks[i].durable >= Length(Part(t, i))
  {
    hide Flat, Contiguous, Holds, Remains, Frames, RecoverDisk, Length, Kept, Part;
    var t, n := ReopenAll(s).value, |s.disks| - 1;
    forall i | 0 <= i < n
      ensures Part(t, i) == Part(s, i) && t.disks[i].durable >= Length(Part(t, i))
    {
      ReopenPart(c, s, i);
    }
    LastPart(t);
    forall i | 0 <= i < |s.disks|
      ensures t.disks[i].seg.base == s.disks[i].seg.base
    {
      assert Dead(s.disks[i]);
      RecoverDiskKeeps(s.disks[i]);
    }
  }

  lemma LastPart(s: State)
    requires |s.disks| > 0
    ensures Part(s, |s.disks| - 1) == Last(s).recs
  {
  }

  /** What comes back is the log up to a cut, or the log and records nobody was told of; the flushed part is in it. */
  lemma ReopenInv(c: Config, s: State)
    requires Inv(c, s) && !s.up && ReopenAll(s).Some?
    ensures var t := ReopenAll(s).value;
            && Inv(c, t) && t.up && (Contents(t) <= Contents(s) || Contents(s) <= Contents(t))
            && DurableCount(s) <= DurableCount(t) <= |Contents(t)|
  {
    hide Within, Flat, Contiguous, Holds, Remains, Frames, RecoverDisk, Length;
    var t, n := ReopenAll(s).value, |s.disks| - 1;
    ReopenShape(c, s);
    ReplaceLast(Bases(s), Parts(s), t.disks[n].recs);
    forall i | 0 <= i < |s.disks|
      ensures Live(t.disks[i])
    {
      assert Dead(s.disks[i]);
      RecoverDiskKeeps(s.disks[i]);
    }
    assert Dead(s.disks[n]);
    RecoverDiskKeeps(s.disks[n]);
    LastPart(s);
    DurableWithinContents(s);
    DurableWithinContents(t);
    var front := Flat(Parts(s)[..n]);
    assert Contents(s) == front + s.disks[n].recs && Contents(t) == front + t.disks[n].recs;
    LengthIsSize(t.disks[n].seg, t.disks[n].recs);
  }

  // ---- every run -----------------------------------------------------------------

  lemma RollMarkInv(c: Config, s: State, w: nat)
    requires Inv(c, s) && s.up && w in s.writers && s.writers[w].RollSynced?
    ensures Inv(c, RollMarkStep(s, w, s.writers[w].payload))
  {
    hide Within, Flat, Contiguous, Holds, Contents, Frames, Files, Kept, Writers;
    var p, d := s.writers[w].payload, Last(s);
    WriterOk(c, s, w);
    SafeAll(d);
    DurableWithinContents(s);
    var t := s.(synced := Max(s.synced, s.sequence), pending := Max(s.pending, s.sequence), writers := Broadcast(s.writers));
    CountersInv(c, s, t);
    WriterStep(c, t, RollMarkStep(s, w, p), w);
  }

  lemma ArriveInv(c: Config, s: State, w: nat)
    requires Inv(c, s) && s.up && w in s.writers && s.writers[w].Written?
    ensures Inv(c, ArriveStep(s, w, s.writers[w].t))
  {
    hide Within, Flat, Contiguous, Holds, Contents, Frames, Files, Kept, Turn, DurableCount;
    var t := s.writers[w].t;
    assert PcOk(c, s, s.writers[w]);
    var s' := s.(pending := Max(s.pending, t.sequence));
    CountersInv(c, s, s');
    SameContents(s, s');
    TurnInv(c, s', w, t.(arrived := s.finished));
  }

  lemma SettleInv(c: Config, s: State, w: nat)
    requires Inv(c, s) && s.up && w in s.writers && s.writers[w].Flushed?
    ensures var pc := s.writers[w];
            Inv(c, SettleStep(c, s, w, pc.t, pc.target, pc.ok))
  {
    hide Within, Flat, Contiguous, Holds, Contents, Frames, Files, Kept, Turn, DurableCount, Counters;
    var pc := s.writers[w];
    var t := pc.t;
    if c.policy.SyncAlways? {
      DirectSyncInv(c, s, w);
    } else {
      var s' := s.(syncing := false, finished := s.finished + 1, failed := s.failed || !pc.ok,
                   synced := if pc.ok then Max(s.synced, pc.target) else s.synced,
                   writers := Broadcast(s.writers));
      ClaimInv(c, s, s', w);
      if pc.ok {
        TurnInv(c, s', w, t);
      } else {
        WriterStep(c, s', Fail(s', w), w) by { ReadCounters(c, s'); }
      }
    }
  }

  lemma ReadCounters(c: Config, s: State)
    requires Inv(c, s) && s.up
    ensures s.synced <= s.sequence && s.pending <= s.sequence
    ensures s.synced > 0 ==> s.start + s.synced <= DurableCount(s)
  {
  }

  lemma DirectSyncInv(c: Config, s: State, w: nat)
    requires Inv(c, s) && s.up && w in s.writers && s.writers[w].Flushed? && c.policy.SyncAlways?
    ensures var pc := s.writers[w];
            Inv(c, SettleStep(c, s, w, pc.t, pc.target, pc.ok))
  {
    hide Within, Flat, Contiguous, Holds, Contents, Frames, Files, Kept, DurableCount;
    var pc := s.writers[w];
    assert PcOk(c, s, pc);
    WriterStep(c, s, SettleStep(c, s, w, pc.t, pc.target, pc.ok), w);
  }

  /** A finished group sync claims its target, all of which is on disk. */
  lemma ClaimInv(c: Config, s: State, s': State, w: nat)
    requires Inv(c, s) && s.up && w in s.writers && s.writers[w].Flushed? && c.policy.SyncGroup?
    requires var pc := s.writers[w];
             s' == s.(syncing := false, finished := s.finished + 1, failed := s.failed || !pc.ok,
                      synced := if pc.ok then Max(s.synced, pc.target) else s.synced,
                      writers := Broadcast(s.writers))
    ensures Inv(c, s') && w in s'.writers && s'.writers[w] == s.writers[w]
    ensures TicketOk(s', s.writers[w].t) && s.writers[w].t.sequence <= s'.pending
  {
    hide Within, Flat, Contiguous, Holds, Contents, Frames, Files, Kept, DurableCount;
    assert PcOk(c, s, s.writers[w]);
    CountersInv(c, s, s');
    SameContents(s, s');
  }

  lemma LookupInv(c: Config, s: State, w: nat, t: Ticket, target: nat)
    requires Inv(c, s) && s.up && w in s.writers && !s.writers[w].HoldsLock()
    requires TicketOk(s, t) && t.sequence <= target <= s.sequence && TargetOk(c, s, target)
    ensures Inv(c, s.(writers := s.writers[w := Looked(t, target, |s.disks| - 1)]))
  {
    hide Within, Flat, Contiguous, Holds, Contents, Frames, Files, Kept;
    DurableWithinContents(s);
    WriterStep(c, s, s.(writers := s.writers[w := Looked(t, target, |s.disks| - 1)]), w);
  }

  lemma FsyncStartInv(c: Config, s: State, w: nat)
    requires Inv(c, s) && s.up && w in s.writers && s.writers[w].Looked?
    ensures var pc := s.writers[w];
            && pc.at < |s.disks|
            && Inv(c, s.(writers := s.writers[w := Flushing(pc.t, pc.target, pc.at, s.disks[pc.at].seg.size)]))
  {
    hide Within, Flat, Contiguous, Holds, Contents, Frames, Kept, DurableCount;
    var pc := s.writers[w];
    assert PcOk(c, s, pc);
    var d := s.disks[pc.at];
    assert Live(d);
    LengthIsSize(d.seg, d.recs);
    PartIs(s, pc.at);
    PartWithin(Part(s, pc.at), d.recs);
    WriterStep(c, s, s.(writers := s.writers[w := Flushing(pc.t, pc.target, pc.at, d.seg.size)]), w);
  }

  lemma PartWithin(part: seq<Payload>, recs: seq<Payload>)
    requires part <= recs
    ensures Within(part, Length(recs) - SEGMENT_HEADER) == |part|
  {
    hide Within, Frames;
    LengthOfPrefix(recs, |part|);
    assert recs[..|part|] == part && part[..|part|] == part;
    WithinIsMaximal(part, Length(recs) - SEGMENT_HEADER, |part|);
  }

  lemma MoveInv(c: Config, s: State, step: Step, pc: Pc)
    requires Inv(c, s) && s.up
    requires !step.PowerLoss? && !step.Reopen? && !step.Lock? && step.w in s.writers && s.writers[step.w] == pc
    requires Move(c, s, step, pc).Some?
    ensures Inv(c, Move(c, s, step, pc).value)
  {
    hide Within, Flat, Contiguous, Holds, Contents, Frames, Files, Kept, Turn, DurableCount, Counters,
      DecideRollStep, RollMarkStep, RollCreateStep, WriteStep, WriteErrorStep, ArriveStep, FsyncEndStep, SettleStep;
    var w := step.w;
    assert PcOk(c, s, pc);
    match pc
    case Locked(_) => DecideRollInv(c, s, w, step.ok);
    case RollSynced(_) => RollMarkInv(c, s, w);
    case RollMarked(_) => RollCreateInv(c, s, w, step.ok);
    case Ready(_) =>
      if step.Write? {
        WriteInv(c, s, w);
      } else {
        WriteErrorInv(c, s, w, step.n);
      }
    case Written(t) =>
      if step.Arrive? {
        ArriveInv(c, s, w);
      } else {
        LookupInv(c, s, w, t, t.sequence);
      }
    case Woken(t) => TurnInv(c, s, w, t);
    case Syncer(t, target) => LookupInv(c, s, w, t, target);
    case Looked(_, _, _) => FsyncStartInv(c, s, w);
    case Flushing(_, _, _, _) => FsyncEndInv(c, s, w, step.ok);
    case Flushed(_, _, _) => SettleInv(c, s, w);
    case Asleep(_) =>
  }

  lemma TurnKeepsDisks(s: State, w: nat, t: Ticket)
    requires w in s.writers
    ensures Turn(s, w, t).disks == s.disks
  {
  }

  lemma LockInv(c: Config, s: State, w: nat, p: Payload)
    requires Inv(c, s) && s.up && !s.locked && w !in s.writers
    ensures Inv(c, s.(locked := true, writers := s.writers[w := Locked(p)]))
  {
    hide Within, Flat, Contiguous, Holds, Contents, Frames, Files, Kept, DurableCount;
    WriterStep(c, s, s.(locked := true, writers := s.writers[w := Locked(p)]), w);
  }

  /** Every step keeps the invariant. */
  lemma StepInv(c: Config, s: State, step: Step)
    requires Inv(c, s) && Apply(c, s, step).Some?
    ensures Inv(c, Apply(c, s, step).value)
  {
    hide Within, Flat, Contiguous, Holds, Contents, Frames, Files, Kept, Move, Lose, ReopenAll, DurableCount,
      Counters, Writers;
    match step
    case PowerLoss(cuts, indexCuts) => LoseInv(c, s, cuts, indexCuts);
    case Reopen => ReopenInv(c, s);
    case Lock(w, p) => LockInv(c, s, w, p);
    case _ => MoveInv(c, s, step, s.writers[step.w]);
  }

  lemma InitInv(c: Config)
    ensures Inv(c, Init())
  {
    hide Holds, Created;
    CreatedHolds(0);
    CreatedIs(0);
    var s := Init();
    FlatSnoc([], []);
    assert Parts(s) == [] + [[]] && Parts(s)[..0] == [];
  }

  /** The state after running `steps` from an empty log, if each is enabled in turn. */
  function Run(c: Config, steps: seq<Step>): Option<State> {
    if steps == [] then Some(Init())
    else
      var before := Run(c, steps[..|steps| - 1]);
      if before.None? || |before.value.disks| == 0 then None
      else Apply(c, before.value, steps[|steps| - 1])
  }

  lemma {:induction false} RunInv(c: Config, steps: seq<Step>)
    requires Run(c, steps).Some?
    ensures Inv(c, Run(c, steps).value)
  {
    hide Inv, Apply, Init;
    if steps == [] {
      InitInv(c);
    } else {
      var n := |steps| - 1;
      RunInv(c, steps[..n]);
      StepInv(c, Run(c, steps[..n]).value, steps[n]);
    }
  }

  // ---- the theorems ----------------------------------------------------------------

  ghost predicate Headed(s: State) {
    forall i :: 0 <= i < |s.disks| ==> |s.disks[i].seg.file| >= SEGMENT_HEADER
  }

  /** What the bytes of a segment's file say of its part of the log. */
  ghost function FilePart(s: State, i: nat): seq<Payload>
    requires Headed(s) && i < |s.disks|
  {
    var recs := FullScan(s.disks[i].seg.file);
    if i + 1 < |s.disks| then Visible(recs, s.disks[i].seg.base, s.disks[i + 1].seg.base) else recs
  }

  /** What a reader of the files alone would find: no history, only bytes. */
  ghost function OnDisk(s: State): seq<Payload>
    requires Headed(s)
  {
    Flat(seq(|s.disks|, i requires 0 <= i < |s.disks| => FilePart(s, i)))
  }

  lemma LiveFile(d: Disk)
    requires Live(d)
    ensures |d.seg.file| >= SEGMENT_HEADER && d.recs <= FullScan(d.seg.file)
    ensures |d.seg.file| == d.seg.size ==> d.recs == FullScan(d.seg.file)
  {
    hide Within, Holds, Frames, FullScan, Survivor;
    LengthIsSize(d.seg, d.recs);
    HoldsRoom(d.seg, d.recs);
    CutSurvives(d.seg, d.recs, |d.seg.file|, 0);
    assert d.seg.file[..|d.seg.file|] == d.seg.file;
    WithinAll(d.recs);
    assert d.recs[..|d.recs|] == d.recs;
  }

  lemma FilePartIs(c: Config, s: State, i: nat)
    requires Inv(c, s) && s.up && Headed(s) && i < |s.disks|
    ensures if i + 1 < |s.disks| then FilePart(s, i) == Part(s, i) else FilePart(s, i) == FullScan(Last(s).seg.file)
  {
    hide Flat, Contiguous, Holds, FullScan, Kept, Writers, Counters, Live;
    assert Live(s.disks[i]);
    LiveFile(s.disks[i]);
    PartIs(s, i);
  }

  /** The files of a running log hold the log, and after it at most records whose appends failed. */
  lemma OnDiskHoldsContents(c: Config, s: State)
    requires Inv(c, s) && s.up
    ensures Headed(s) && Contents(s) <= OnDisk(s)
    ensures Contents(s) == Flat(Parts(s)[..|s.disks| - 1]) + Last(s).recs
    ensures OnDisk(s) == Flat(Parts(s)[..|s.disks| - 1]) + FullScan(Last(s).seg.file)
    ensures |Last(s).seg.file| == Last(s).seg.size ==> OnDisk(s) == Contents(s)
  {
    hide Within, Flat, Contiguous, Holds, Frames, FullScan, Kept, DurableCount, Writers, FilePart, Part, Live;
    forall i | 0 <= i < |s.disks|
      ensures |s.disks[i].seg.file| >= SEGMENT_HEADER
    {
      assert Live(s.disks[i]);
      LiveFile(s.disks[i]);
    }
    var n := |s.disks| - 1;
    assert Live(s.disks[n]);
    LiveFile(s.disks[n]);
    forall i | 0 <= i < |s.disks|
      ensures if i < n then FilePart(s, i) == Part(s, i) else FilePart(s, i) == FullScan(Last(s).seg.file)
    {
      FilePartIs(c, s, i);
    }
    LastPart(s);
    ReplaceLast(Bases(s), Parts(s), FullScan(Last(s).seg.file));
    assert seq(|s.disks|, i requires 0 <= i < |s.disks| => FilePart(s, i)) == Parts(s)[n := FullScan(Last(s).seg.file)];
  }

  /**
   * Acknowledged means durable. In every run of any number of writers, rolls,
   * failing fsyncs, power losses and reopenings, whenever the log is up its files
   * hold each acknowledged payload at the offset its append returned.
   */
  lemma AcknowledgedMeansDurable(c: Config, steps: seq<Step>)
    requires Run(c, steps).Some? && Run(c, steps).value.up
    ensures var s := Run(c, steps).value;
            && Headed(s)
            && forall a :: a in s.acked ==>
                 && a.offset < |Contents(s)| && Contents(s)[a.offset] == a.payload
                 && a.offset < |OnDisk(s)| && OnDisk(s)[a.offset] == a.payload
  {
    hide Run, OnDisk, Contents, DurableCount;
    RunInv(c, steps);
    OnDiskHoldsContents(c, Run(c, steps).value);
  }

  /**
   * Power loss at any moment of any run, then a successful open: the log that
   * comes back is no shorter than its durable part, which takes in everything
   * claimed as synced. It is a prefix of the log that was, exactly unless the loss
   * kept a whole record a failed write had left past the last segment's size; then
   * it is all of that log and the records left there.
   */
  lemma PowerLossKeepsDurablePrefix(c: Config, steps: seq<Step>, s: State, cuts: seq<nat>, indexCuts: seq<nat>, t: State)
    requires Run(c, steps) == Some(s) && s.up
    requires var d := Lose(s, cuts, indexCuts);
             d.Some? && |d.value.disks| > 0 && ReopenAll(d.value) == Some(t)
    ensures Headed(s) && Contents(s) <= OnDisk(s) && Contents(t) <= OnDisk(s)
    ensures Headed(t) && OnDisk(t) == Contents(t)
    ensures |s.disks| == |cuts| > 0 && cuts[|s.disks| - 1] <= |Last(s).seg.file|
    ensures var seg, k := Last(s).seg, cuts[|s.disks| - 1];
            && (Contents(t) <= Contents(s) <==> k <= seg.size || !ReadRecord(seg.file[seg.size..k]).Whole?)
            && (k >= seg.size ==> Contents(t) == Contents(s) + Parse(seg.file[seg.size..k]))
    ensures DurableCount(s) <= |Contents(t)|
    ensures s.synced > 0 ==> s.start + s.synced <= |Contents(t)|
  {
    hide Run, OnDisk, Lose, ReopenAll, Contents, DurableCount, Inv, FullScan, Parse, ReadRecord, Live, Headed;
    RunInv(c, steps);
    LastLive(c, s);
    LossKeepsDurable(c, s, cuts, indexCuts);
    var front, file, k := LossPieces(c, s, cuts, indexCuts);
    FileCut(file, k);
    CutScan(Last(s), k);
    CutLog(front, Last(s).recs, FullScan(file[..k]));
    CutLog(front, FullScan(file), FullScan(file[..k]));
  }

  /** Before and after the loss the log is one front, and the records or the scan of the last file behind it. */
  lemma LossPieces(c: Config, s: State, cuts: seq<nat>, indexCuts: seq<nat>) returns (front: seq<Payload>, file: seq<byte>, k: nat)
    requires Inv(c, s) && s.up
    requires var d := Lose(s, cuts, indexCuts);
             d.Some? && |d.value.disks| > 0 && ReopenAll(d.value).Some?
    ensures var t := ReopenAll(Lose(s, cuts, indexCuts).value).value;
            && |s.disks| == |cuts| > 0 && file == Last(s).seg.file && k == cuts[|s.disks| - 1]
            && SEGMENT_HEADER <= k <= |file|
            && Contents(s) == front + Last(s).recs && Contents(t) == front + FullScan(file[..k])
            && Headed(s) && OnDisk(s) == front + FullScan(file) && Contents(s) <= OnDisk(s)
            && Headed(t) && OnDisk(t) == Contents(t)
  {
    hide OnDisk, Lose, ReopenAll, Contents, DurableCount, Files, Kept, Writers, Counters, Contiguous, FullScan, Flat,
      RecoverDisk, Part, Headed;
    var d, n := Lose(s, cuts, indexCuts).value, |s.disks| - 1;
    var t := ReopenAll(d).value;
    LoseInv(c, s, cuts, indexCuts);
    LosePieces(s, cuts, indexCuts);
    ReopenInv(c, d);
    ReopenShape(c, d);
    ReopenFile(c, d);
    OnDiskHoldsContents(c, s);
    OnDiskHoldsContents(c, t);
    front, file, k := Flat(Parts(s)[..n]), Last(s).seg.file, cuts[n];
    assert Parts(t)[..n] == Parts(s)[..n];
  }

  lemma LossKeepsDurable(c: Config, s: State, cuts: seq<nat>, indexCuts: seq<nat>)
    requires Inv(c, s) && s.up
    requires var d := Lose(s, cuts, indexCuts);
             d.Some? && |d.value.disks| > 0 && ReopenAll(d.value).Some?
    ensures var t := ReopenAll(Lose(s, cuts, indexCuts).value).value;
            && |s.disks| > 0 && DurableCount(s) <= |Contents(t)|
            && (s.synced > 0 ==> s.start + s.synced <= DurableCount(s))
  {
    hide Lose, ReopenAll, Contents, DurableCount, Files, Kept, Writers, Contiguous;
    LoseInv(c, s, cuts, indexCuts);
    LoseKeepsCount(s, cuts, indexCuts);
    ReopenInv(c, Lose(s, cuts, indexCuts).value);
  }

  lemma LastLive(c: Config, s: State)
    requires Inv(c, s) && s.up
    ensures |s.disks| > 0 && Live(Last(s))
  {
    hide Contents, DurableCount, Kept, Writers, Contiguous, Live;
  }

  /** A live file cut anywhere scans to the records inside the cut, and to whatever whole ones lie past the size. */
  lemma CutScan(d: Disk, k: nat)
    requires Live(d) && SEGMENT_HEADER <= k <= |d.seg.file|
    ensures var scan, size := FullScan(d.seg.file[..k]), d.seg.size;
            && (k <= size ==> scan <= d.recs)
            && (k >= size ==> scan == d.recs + Parse(d.seg.file[size..k]))
            && (scan <= d.recs <==> k <= size || !ReadRecord(d.seg.file[size..k]).Whole?)
  {
    hide Holds, Frames, Within, Parse, FullScan, Survivor, ReadRecord;
    var file, size := d.seg.file, d.seg.size;
    HoldsRoom(d.seg, d.recs);
    CutSurvives(d.seg, d.recs, k, 0);
    if k >= size {
      ScanPast(d.seg, d.recs, k);
      ParseNothing(file[size..k]);
    }
  }

  lemma ScanPast(seg: Segment, recs: seq<Payload>, k: nat)
    requires Holds(seg, recs) && seg.size <= k <= |seg.file|
    ensures k >= SEGMENT_HEADER && FullScan(seg.file[..k]) == recs + Parse(seg.file[seg.size..k])
  {
    hide Frames, Parse, IndexTrue, SegmentHeader;
    var tail := seg.file[seg.size..k];
    assert seg.file[..k] == seg.file[..seg.size] + tail;
    assert seg.file[..k][SEGMENT_HEADER..] == Frames(recs) + tail;
    ParseBehind(recs, tail);
  }

  lemma ParseNothing(f: seq<byte>)
    ensures Parse(f) == [] <==> !ReadRecord(f).Whole?
  {
    hide ReadRecord;
  }

  lemma CutLog(front: seq<Payload>, recs: seq<Payload>, scan: seq<Payload>)
    ensures front + scan <= front + recs <==> scan <= recs
    ensures forall more :: scan == recs + more ==> front + scan == (front + recs) + more
  {
    if front + scan <= front + recs {
      assert scan == (front + scan)[|front|..] && recs == (front + recs)[|front|..];
    }
  }

  lemma LosePieces(s: State, cuts: seq<nat>, indexCuts: seq<nat>)
    requires |s.disks| > 0 && Lose(s, cuts, indexCuts).Some?
    ensures var d, n := Lose(s, cuts, indexCuts).value, |s.disks| - 1;
            && |d.disks| == |s.disks| == |cuts| && Parts(d) == Parts(s) && !d.up
            && cuts[n] <= |s.disks[n].seg.file| && d.disks[n].seg.file == s.disks[n].seg.file[..cuts[n]]
  {
    var d := Lose(s, cuts, indexCuts).value;
    assert Parts(d) == Parts(s);
  }

  /** The last segment, recovered, is its scanned records and nothing else. */
  lemma ReopenFile(c: Config, d: State)
    requires Inv(c, d) && !d.up && ReopenAll(d).Some?
    ensures var t, n := ReopenAll(d).value, |d.disks| - 1;
            && |t.disks| == |d.disks| && |d.disks[n].seg.file| >= SEGMENT_HEADER
            && t.disks[n].recs == FullScan(d.disks[n].seg.file) && |t.disks[n].seg.file| == t.disks[n].seg.size
  {
    hide Within, Flat, Contiguous, Holds, Frames, Kept, FullScan, Recover, Remains;
    var n := |d.disks| - 1;
    var e := d.disks[n];
    assert Dead(e);
    RemainsSurvive(e.seg.base, e.seg.file, e.seg.entries, e.recs);
    RecoverRefinesFullScan(e.seg.base, e.seg.file, e.seg.entries);
  }

  lemma FileCut(file: seq<byte>, k: nat)
    requires SEGMENT_HEADER <= k <= |file|
    ensures FullScan(file[..k]) <= FullScan(file)
  {
    hide Parse;
    assert file[..k][SEGMENT_HEADER..] == file[SEGMENT_HEADER..][..k - SEGMENT_HEADER];
    ParsePrefix(file[SEGMENT_HEADER..], k - SEGMENT_HEADER);
  }

  lemma LoseKeepsCount(s: State, cuts: seq<nat>, indexCuts: seq<nat>)
    requires |s.disks| > 0 && Lose(s, cuts, indexCuts).Some?
    ensures var d := Lose(s, cuts, indexCuts).value;
            !d.up && |d.disks| > 0 && DurableCount(d) == DurableCount(s)
  {
  }

  /** Opening succeeds whenever every segment kept its header and fits its index. */
  lemma OpenSucceeds(c: Config, s: State)
    requires Inv(c, s) && !s.up
    requires forall i :: 0 <= i < |s.disks| ==> SEGMENT_HEADER <= |s.disks[i].seg.file| <= U32
    ensures ReopenAll(s).Some?
  {
    hide Within, Flat, Contiguous, Frames, FullScan, Recover, Kept, IndexTrue;
    forall i | 0 <= i < |s.disks|
      ensures RecoverDisk(s.disks[i]).Some?
    {
      var d := s.disks[i];
      assert Dead(d);
      RemainsSurvive(d.seg.base, d.seg.file, d.seg.entries, d.recs);
      RecoverRefinesFullScan(d.seg.base, d.seg.file, d.seg.entries);
    }
  }
}
