/** Consumer.Drain and processBatch, with the counts they report. */
module Drain {
  import opened Options
  import opened Bytes
  import opened Record
  import opened Consumer

  datatype Stats = Stats(read: nat, inserted: nat, duplicates: nat, conflicts: nat, deadLettered: nat)

  const NOTHING := Stats(0, 0, 0, 0, 0)

  /** Stats.Accounted. */
  predicate Accounted(s: Stats) {
    s.inserted + s.duplicates + s.conflicts == s.read
  }

  /** Stats.add. */
  function Plus(a: Stats, b: Stats): Stats {
    Stats(a.read + b.read, a.inserted + b.inserted, a.duplicates + b.duplicates, a.conflicts + b.conflicts,
          a.deadLettered + b.deadLettered)
  }

  /** The counts say what became of the tables: no record read is left out. */
  ghost predicate Tells(s: Stats, read: int, before: Store, after: Store) {
    && Accounted(s) && s.read == read
    && s.inserted == |after.events| - |before.events|
    && s.deadLettered == |after.letters| - |before.letters| && s.deadLettered <= s.conflicts
  }

  lemma TellsPlus(a: Stats, b: Stats, m: int, n: int, x: Store, y: Store, z: Store)
    requires Tells(a, m, x, y) && Tells(b, n, y, z)
    ensures Tells(Plus(a, b), m + n, x, z)
  {
  }

  // ---- counting on the log ---------------------------------------------------------------

  /** What reading a record comes to: a new row, nothing new, or a rejection. */
  datatype Fate = New | Again | Rejected

  /** Told from the log and from how far it had been committed. */
  ghost function FateOf(log: seq<Payload>, i: nat, hi: nat, decode: Decoder): Fate
    requires i < |log|
  {
    if Dead(log, i, decode) then Rejected
    else if decode(log[i]).Usable? && i >= hi && !Earlier(log, i, decode) then New
    else Again
  }

  /** How many offsets from start up to end have the fate. */
  ghost function Count(log: seq<Payload>, start: nat, end: nat, hi: nat, fate: Fate, decode: Decoder): nat
    requires start <= end <= |log|
    decreases end
  {
    if start == end then 0
    else Count(log, start, end - 1, hi, fate, decode) + if FateOf(log, end - 1, hi, decode) == fate then 1 else 0
  }

  /** How many of them are dead for the first time. */
  ghost function Letters(log: seq<Payload>, start: nat, end: nat, hi: nat, decode: Decoder): nat
    requires start <= end <= |log|
    decreases end
  {
    if start == end then 0
    else Letters(log, start, end - 1, hi, decode) + if end - 1 >= hi && Dead(log, end - 1, decode) then 1 else 0
  }

  /** The counts a run over the stretch reports. */
  ghost function Tally(log: seq<Payload>, start: nat, end: nat, hi: nat, decode: Decoder): Stats
    requires start <= end <= |log|
  {
    Stats(end - start, Count(log, start, end, hi, New, decode), Count(log, start, end, hi, Again, decode),
          Count(log, start, end, hi, Rejected, decode), Letters(log, start, end, hi, decode))
  }

  lemma {:induction false} TallyPlus(log: seq<Payload>, start: nat, mid: nat, end: nat, hi: nat, decode: Decoder)
    requires start <= mid <= end <= |log|
    ensures Tally(log, start, end, hi, decode) == Plus(Tally(log, start, mid, hi, decode), Tally(log, mid, end, hi, decode))
    decreases end
  {
    hide FateOf, Dead;
    if mid < end {
      TallyPlus(log, start, mid, end - 1, hi, decode);
    }
  }

  /** How far the log had been committed matters only within the stretch. */
  lemma {:induction false} TallySame(log: seq<Payload>, start: nat, end: nat, hi: nat, other: nat, decode: Decoder)
    requires start <= end <= |log| && (hi == other || (hi <= start && other <= start))
    ensures Tally(log, start, end, hi, decode) == Tally(log, start, end, other, decode)
    decreases end
  {
    hide Dead, Earlier;
    if start < end {
      TallySame(log, start, end - 1, hi, other, decode);
    }
  }

  /** On a first pass every rejection is a new dead letter. */
  lemma {:induction false} FirstPassLetters(log: seq<Payload>, start: nat, end: nat, hi: nat, decode: Decoder)
    requires hi <= start <= end <= |log|
    ensures Letters(log, start, end, hi, decode) == Count(log, start, end, hi, Rejected, decode)
    decreases end
  {
    hide Dead, Earlier;
    if start < end {
      FirstPassLetters(log, start, end - 1, hi, decode);
    }
  }

  /** What the tables make of a record, be it new or folded in before, is its fate. */
  lemma VerdictIsFate(log: seq<Payload>, i: nat, hi: nat, decode: Decoder)
    requires i < |log| && hi <= |log| && !decode(log[i]).Uncastable?
    ensures var store, fate := Fold(log, if i > hi then i else hi, decode), FateOf(log, i, hi, decode);
            var verdict := Verdict(store.events, decode(log[i]));
            && (verdict == Inserted <==> fate == New) && (verdict == Duplicate <==> fate == Again)
            && (verdict == Conflict || verdict == CannotDecode <==> fate == Rejected)
            && (i in store.letters <==> i < hi && fate == Rejected)
  {
    hide Fold, FirstWith, Earlier;
    var n := if i > hi then i else hi;
    LettersAreTheDead(log, n, i, decode);
    if decode(log[i]).Usable? {
      var e := decode(log[i]).event;
      EarlierIff(log, i, decode);
      FirstWins(log, n, e, decode);
      if i < hi {
        FirstStays(log, i, hi, decode);
      }
    }
  }

  /** Read again, a record meets the first of its tenant and key, which may be itself. */
  lemma FirstStays(log: seq<Payload>, i: nat, n: nat, decode: Decoder)
    requires i < n <= |log| && decode(log[i]).Usable?
    ensures var e := decode(log[i]).event;
            var first := FirstWith(log, i, e, decode);
            FirstWith(log, n, e, decode) == if first.Some? then first else Some(i)
  {
    hide FirstWith;
    var e := decode(log[i]).event;
    var first, later := FirstWith(log, i, e, decode), FirstWith(log, n, e, decode);
    assert SameKey(decode(log[i]).event, e);
    assert later.Some? && later.value <= i;
  }

  /** The first record from start on whose quantity does not cast, or the end of the log. */
  ghost function Stuck(log: seq<Payload>, start: nat, decode: Decoder): (bad: nat)
    requires start <= |log|
    ensures start <= bad <= |log| && (bad < |log| ==> decode(log[bad]).Uncastable?)
    ensures forall i :: start <= i < bad ==> !decode(log[i]).Uncastable?
    decreases |log| - start
  {
    if start == |log| || decode(log[start]).Uncastable? then start else Stuck(log, start + 1, decode)
  }

  // ---- one record -----------------------------------------------------------------------

  /** One more of what the verdict counts as; a letter written before is not written again. */
  function Counted(stats: Stats, verdict: Applied, written: bool): Stats {
    var more := stats.(read := stats.read + 1);
    match verdict
    case Inserted => more.(inserted := more.inserted + 1)
    case Duplicate => more.(duplicates := more.duplicates + 1)
    case Conflict => more.(conflicts := more.conflicts + 1, deadLettered := more.deadLettered + if written then 1 else 0)
    case CannotDecode => more.(conflicts := more.conflicts + 1, deadLettered := more.deadLettered + if written then 1 else 0)
    case Failed => more
  }

  /** Counting one more record of the log, against tables that are its fold. */
  lemma CountedIsTally(log: seq<Payload>, start: nat, i: nat, hi: nat, decode: Decoder)
    requires start <= i < |log| && hi <= |log| && !decode(log[i]).Uncastable?
    ensures var store := Fold(log, if i > hi then i else hi, decode);
            Counted(Tally(log, start, i, hi, decode), Verdict(store.events, decode(log[i])), i !in store.letters) ==
            Tally(log, start, i + 1, hi, decode)
  {
    hide Fold, Dead, Earlier, Verdict;
    VerdictIsFate(log, i, hi, decode);
    VerdictFails(Fold(log, if i > hi then i else hi, decode).events, decode(log[i]));
  }

  lemma VerdictFails(events: seq<Event>, reading: Reading)
    ensures Verdict(events, reading) == Failed <==> reading.Uncastable?
  {
  }

  /** One turn of the loop of processBatch: the tables and the counts after a record. */
  method ProcessRecord(store: Store, stats: Stats, offset: nat, record: Payload, decode: Decoder)
    returns (after: Store, counted: Stats, ok: bool)
    ensures ok <==> !decode(record).Uncastable?
    ensures ok ==> after == Apply(store, offset, record, decode)
    ensures counted == Counted(stats, Verdict(store.events, decode(record)), offset !in store.letters)
    ensures ok ==> forall before: Store, n :: Tells(stats, n, before, store) ==> Tells(counted, n + 1, before, after)
  {
    counted := stats.(read := stats.read + 1);
    after := store;
    var reading := decode(record);
    if reading.Undecodable? {
      var written := offset !in store.letters;
      after := store.(letters := AddLetter(store.letters, offset, Letter(UndecodableRecord, record)));
      counted := counted.(conflicts := counted.conflicts + 1, deadLettered := counted.deadLettered + if written then 1 else 0);
      return after, counted, true;
    }
    if reading.Uncastable? {
      return store, counted, false;
    }
    var row := Find(store.events, reading.event);
    if row.None? {
      after := store.(events := store.events + [reading.event]);
      counted := counted.(inserted := counted.inserted + 1);
    } else if Differs(store.events[row.value], reading.event) {
      var written := offset !in store.letters;
      after := store.(letters := AddLetter(store.letters, offset, Letter(KeyReuse, record)));
      counted := counted.(conflicts := counted.conflicts + 1, deadLettered := counted.deadLettered + if written then 1 else 0);
    } else {
      counted := counted.(duplicates := counted.duplicates + 1);
    }
    ok := true;
  }

  class Drainer {
    const decode: Decoder
    const batchSize: nat
    var store: Store
    var next: nat

    /** The highest offset ever committed. */
    ghost var hi: nat

    ghost predicate Valid(log: seq<Payload>)
      reads this
    {
      batchSize > 0 && Exact(State(log, store, next, hi), decode)
    }

    constructor (decode: Decoder, batchSize: int)
      ensures Valid([]) && next == 0 && store == EMPTY
      ensures this.decode == decode && this.batchSize == if batchSize <= 0 then 100 else batchSize
    {
      this.decode := decode;
      this.batchSize := if batchSize <= 0 then 100 else batchSize;
      store, next, hi := EMPTY, 0, 0;
    }

    /** Records appended behind the consumer's back change nothing it has done. */
    lemma LogGrows(log: seq<Payload>, more: seq<Payload>)
      requires Valid(log)
      ensures Valid(log + more)
    {
      hide Fold;
      FoldOfPrefix(log, more, hi, decode);
    }

    /** processBatch: all of the batch and its offset, or nothing; the counts go as far as it got. */
    method ProcessBatch(log: seq<Payload>, start: nat, end: nat) returns (stats: Stats, ok: bool)
      requires Valid(log) && start <= hi && start < end <= |log|
      modifies this
      ensures Valid(log)
      ensures ok <==> Stuck(log, start, decode) >= end
      ensures ok ==> next == end && hi == (if end > old(hi) then end else old(hi))
      ensures ok ==> Tells(stats, end - start, old(store), store)
      ensures ok ==> stats == Tally(log, start, end, old(hi), decode)
      ensures !ok ==> unchanged(this)
      ensures !ok ==> stats == Failing(Tally(log, start, Stuck(log, start, decode), hi, decode))
    {
      hide Fold, Apply, Tells, Accounted, Tally, Counted, Verdict, Stuck;
      stats := NOTHING;
      var work := store;
      TellsNothing(store);
      TallyNothing(log, start, hi, decode);
      RangeNothing(store, log, start, decode);
      for offset := start to end
        invariant unchanged(this) && Stuck(log, start, decode) >= offset
        invariant work == ApplyRange(store, log, start, offset, decode)
        invariant Tells(stats, offset - start, store, work)
        invariant stats == Tally(log, start, offset, hi, decode)
      {
        RangeExtendsFold(log, hi, start, offset, decode);
        var done;
        work, stats, done := ProcessRecord(work, stats, offset, log[offset], decode);
        if !done {
          VerdictFails(ApplyRange(store, log, start, offset, decode).events, decode(log[offset]));
          FailingIs(Tally(log, start, offset, hi, decode), offset !in ApplyRange(store, log, start, offset, decode).letters);
          return stats, false;
        }
        CountedIsTally(log, start, offset, hi, decode);
      }
      RangeExtendsFold(log, hi, start, end, decode);
      store, next := work, end;
      hi := if end > hi then end else hi;
      ok := true;
    }

    /**
     * Drain: on a log that stays put it ends caught up, unless a record's quantity
     * cannot be cast, and then at the start of that record's batch. Either way the
     * counts are those of the records read.
     */
    method Drain(log: seq<Payload>) returns (total: Stats, ok: bool)
      requires Valid(log)
      modifies this
      ensures Valid(log)
      ensures ok <==> Stuck(log, old(next), decode) == |log|
      ensures ok ==> next == hi == |log| && store == Fold(log, |log|, decode)
      ensures ok ==> Tells(total, |log| - old(next), old(store), store)
      ensures ok ==> total == Tally(log, old(next), |log|, old(hi), decode)
      ensures !ok ==> old(next) <= next <= Stuck(log, old(next), decode) < next + batchSize
      ensures !ok ==> WholeBatches(next - old(next), batchSize)
      ensures !ok ==> total == Failing(Tally(log, old(next), Stuck(log, old(next), decode), old(hi), decode))
    {
      hide Fold, Tells, Accounted, Tally, Stuck, WholeBatches, Plus, Failing;
      BatchesNone(batchSize);
      total := NOTHING;
      TellsNothing(store);
      TallyNothing(log, next, hi, decode);
      while next < |log|
        invariant Valid(log) && old(next) <= next && hi == (if next > old(hi) then next else old(hi))
        invariant Stuck(log, old(next), decode) >= next
        invariant next < |log| ==> WholeBatches(next - old(next), batchSize)
        invariant Tells(total, next - old(next), old(store), store)
        invariant total == Tally(log, old(next), next, old(hi), decode)
        decreases |log| - next
      {
        var batchEnd := next + batchSize;
        if batchEnd > |log| {
          batchEnd := |log|;
        }
        ghost var before, from, seen := store, next, hi;
        StuckLater(log, old(next), next, decode);
        OneMoreBatch(next - old(next), batchSize);
        var stats, done := ProcessBatch(log, next, batchEnd);
        ghost var reached := if done then batchEnd else Stuck(log, from, decode);
        TallySame(log, from, reached, seen, old(hi), decode);
        TallyPlus(log, old(next), from, reached, old(hi), decode);
        if !done {
          PlusFailing(total, Tally(log, from, reached, old(hi), decode));
          return Plus(total, stats), false;
        }
        TellsPlus(total, stats, from - old(next), batchEnd - from, old(store), before, store);
        total := Plus(total, stats);
      }
      ok := true;
    }
  }

  /** A record that failed is read and not otherwise counted. */
  function Failing(s: Stats): Stats {
    s.(read := s.read + 1)
  }

  lemma FailingIs(s: Stats, written: bool)
    ensures Counted(s, Failed, written) == Failing(s)
  {
  }

  lemma PlusFailing(a: Stats, b: Stats)
    ensures Plus(a, Failing(b)) == Failing(Plus(a, b))
  {
  }

  lemma RangeNothing(store: Store, log: seq<Payload>, start: nat, decode: Decoder)
    requires start <= |log|
    ensures ApplyRange(store, log, start, start, decode) == store
  {
  }

  lemma TallyNothing(log: seq<Payload>, start: nat, hi: nat, decode: Decoder)
    requires start <= |log|
    ensures Tally(log, start, start, hi, decode) == NOTHING
  {
  }

  lemma {:induction false} StuckLater(log: seq<Payload>, start: nat, i: nat, decode: Decoder)
    requires start <= i <= |log| && i <= Stuck(log, start, decode)
    ensures Stuck(log, i, decode) == Stuck(log, start, decode)
    decreases i - start
  {
    if start < i {
      StuckLater(log, start + 1, i, decode);
    }
  }

  /** n records make whole batches. */
  predicate WholeBatches(n: nat, size: nat) {
    n == 0 || (n >= size > 0 && WholeBatches(n - size, size))
  }

  lemma BatchesNone(size: nat)
    ensures WholeBatches(0, size)
  {
  }

  lemma OneMoreBatch(n: nat, size: nat)
    requires size > 0 && WholeBatches(n, size)
    ensures WholeBatches(n + size, size)
  {
  }

  lemma TellsNothing(store: Store)
    ensures Tells(NOTHING, 0, store, store)
  {
  }
}
