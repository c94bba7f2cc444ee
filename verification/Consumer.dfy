/**
 * The consumer that drains the log into the database (billing/consumer/consumer.go).
 * Decoding a record and casting its quantity are one function of its bytes.
 */
module Consumer {
  import opened Options
  import opened Bytes
  import opened Record

  datatype Event = Event(
    tenant: string,
    key: string,
    meter: string,
    quantity: int,
    occurred: int,
    fingerprint: Option<seq<byte>>)

  /** A record does not decode, or its quantity does not cast, or it is an event. */
  datatype Reading = Undecodable | Uncastable | Usable(event: Event)

  type Decoder = Payload -> Reading

  datatype Reason = UndecodableRecord | KeyReuse

  datatype Letter = Letter(reason: Reason, record: Payload)

  /** The events and dead_letters tables. */
  datatype Store = Store(events: seq<Event>, letters: map<nat, Letter>)

  const EMPTY := Store([], map[])

  // ---- one record ------------------------------------------------------------------

  predicate SameKey(a: Event, b: Event) {
    a.tenant == b.tenant && a.key == b.key
  }

  /** The row the unique constraint finds, if there is one. */
  function Find(events: seq<Event>, e: Event): (r: Option<nat>)
    ensures r.Some? ==> r.value < |events| && SameKey(events[r.value], e)
    ensures r.None? ==> forall i :: 0 <= i < |events| ==> !SameKey(events[i], e)
  {
    if events == [] then None
    else if SameKey(events[0], e) then Some(0)
    else
      match Find(events[1..], e)
      case None => None
      case Some(i) => Some(i + 1)
  }

  /** The stored fingerprint is there and differs; an absent one compares as no bytes. */
  predicate Differs(stored: Event, e: Event) {
    stored.fingerprint.Some? &&
    stored.fingerprint.value != if e.fingerprint.Some? then e.fingerprint.value else []
  }

  /** An insert that leaves an existing row alone. */
  function AddLetter(letters: map<nat, Letter>, offset: nat, letter: Letter): map<nat, Letter> {
    if offset in letters then letters else letters[offset := letter]
  }

  datatype Applied = Inserted | Duplicate | Conflict | CannotDecode | Failed

  /** What becomes of one reading against the rows already there. */
  function Verdict(events: seq<Event>, reading: Reading): Applied {
    match reading
    case Undecodable => CannotDecode
    case Uncastable => Failed
    case Usable(e) =>
      match Find(events, e)
      case None => Inserted
      case Some(i) => if Differs(events[i], e) then Conflict else Duplicate
  }

  /** One record applied; a failed one leaves the tables alone, for its batch is rolled back. */
  function Apply(store: Store, offset: nat, record: Payload, decode: Decoder): Store {
    match Verdict(store.events, decode(record))
    case Inserted => store.(events := store.events + [decode(record).event])
    case Duplicate => store
    case Conflict => store.(letters := AddLetter(store.letters, offset, Letter(KeyReuse, record)))
    case CannotDecode => store.(letters := AddLetter(store.letters, offset, Letter(UndecodableRecord, record)))
    case Failed => store
  }

  // ---- the fold ------------------------------------------------------------------------

  /** What applying the first n records of the log, once and in order, makes of empty tables. */
  function Fold(log: seq<Payload>, n: nat, decode: Decoder): Store
    requires n <= |log|
  {
    if n == 0 then EMPTY else Apply(Fold(log, n - 1, decode), n - 1, log[n - 1], decode)
  }

  lemma {:induction false} FindAppended(events: seq<Event>, more: seq<Event>, e: Event)
    requires Find(events, e).Some?
    ensures Find(events + more, e) == Find(events, e)
  {
    assert (events + more)[0] == events[0];
    if !SameKey(events[0], e) {
      assert (events + more)[1..] == events[1..] + more;
      FindAppended(events[1..], more, e);
    }
  }

  /** Rows and letters are only ever added. */
  predicate Extends(later: Store, earlier: Store) {
    && earlier.events <= later.events
    && forall offset :: offset in earlier.letters ==> offset in later.letters && later.letters[offset] == earlier.letters[offset]
  }

  lemma {:induction false} FoldExtends(log: seq<Payload>, i: nat, n: nat, decode: Decoder)
    requires i <= n <= |log|
    ensures Extends(Fold(log, n, decode), Fold(log, i, decode))
    decreases n
  {
    hide Verdict;
    if i < n {
      FoldExtends(log, i, n - 1, decode);
    }
  }

  /** Straight after it was applied, applying a record again changes nothing. */
  lemma ApplyTwice(store: Store, offset: nat, record: Payload, decode: Decoder)
    ensures var once := Apply(store, offset, record, decode);
            Apply(once, offset, record, decode) == once
  {
    var once := Apply(store, offset, record, decode);
    var reading := decode(record);
    if reading.Usable? && Find(store.events, reading.event).None? {
      FindNew(store.events, reading.event);
    }
  }

  lemma {:induction false} FindNew(events: seq<Event>, e: Event)
    requires Find(events, e).None?
    ensures Find(events + [e], e) == Some(|events|)
  {
    if events != [] {
      assert (events + [e])[0] == events[0];
      assert (events + [e])[1..] == events[1..] + [e];
      FindNew(events[1..], e);
    }
  }

  /** A record already folded in changes nothing when it comes again, however much later. */
  lemma RedeliveryChangesNothing(log: seq<Payload>, i: nat, n: nat, decode: Decoder)
    requires i < n <= |log|
    ensures Apply(Fold(log, n, decode), i, log[i], decode) == Fold(log, n, decode)
  {
    hide Apply, Extends;
    var earlier, now := Fold(log, i + 1, decode), Fold(log, n, decode);
    FoldExtends(log, i + 1, n, decode);
    ApplyTwice(Fold(log, i, decode), i, log[i], decode);
    AppliedStays(earlier, now, i, log[i], decode);
  }

  lemma AppliedStays(earlier: Store, later: Store, offset: nat, record: Payload, decode: Decoder)
    requires Extends(later, earlier) && Apply(earlier, offset, record, decode) == earlier
    ensures Apply(later, offset, record, decode) == later
  {
    var reading := decode(record);
    if reading.Usable? && Find(earlier.events, reading.event).Some? {
      assert later.events == earlier.events + later.events[|earlier.events|..];
      FindAppended(earlier.events, later.events[|earlier.events|..], reading.event);
    }
  }

  /** Applying a stretch that starts inside the folded prefix gives the fold of the longer one. */
  function ApplyRange(store: Store, log: seq<Payload>, start: nat, end: nat, decode: Decoder): Store
    requires start <= end <= |log|
    decreases end
  {
    if start == end then store
    else Apply(ApplyRange(store, log, start, end - 1, decode), end - 1, log[end - 1], decode)
  }

  lemma {:induction false} RangeExtendsFold(log: seq<Payload>, hi: nat, start: nat, end: nat, decode: Decoder)
    requires start <= hi <= |log| && start <= end <= |log|
    ensures ApplyRange(Fold(log, hi, decode), log, start, end, decode) == Fold(log, if end > hi then end else hi, decode)
    decreases end
  {
    hide Apply;
    if start < end {
      RangeExtendsFold(log, hi, start, end - 1, decode);
      if end <= hi {
        RedeliveryChangesNothing(log, end - 1, hi, decode);
      }
    }
  }

  lemma {:induction false} FoldOfPrefix(log: seq<Payload>, more: seq<Payload>, n: nat, decode: Decoder)
    requires n <= |log|
    ensures Fold(log + more, n, decode) == Fold(log, n, decode)
  {
    hide Apply;
    if n > 0 {
      FoldOfPrefix(log, more, n - 1, decode);
    }
  }

  // ---- what the fold is ------------------------------------------------------------------

  /** The first of the first n records that is an event with e's tenant and key. */
  function FirstWith(log: seq<Payload>, n: nat, e: Event, decode: Decoder): (r: Option<nat>)
    requires n <= |log|
    ensures r.Some? ==>
              && r.value < n && decode(log[r.value]).Usable? && SameKey(decode(log[r.value]).event, e)
              && forall i :: 0 <= i < r.value ==> decode(log[i]).Usable? ==> !SameKey(decode(log[i]).event, e)
    ensures r.None? ==> forall i :: 0 <= i < n ==> decode(log[i]).Usable? ==> !SameKey(decode(log[i]).event, e)
  {
    if n == 0 then None
    else if FirstWith(log, n - 1, e, decode).Some? then FirstWith(log, n - 1, e, decode)
    else if decode(log[n - 1]).Usable? && SameKey(decode(log[n - 1]).event, e) then Some(n - 1)
    else None
  }

  lemma {:induction false} FindOther(events: seq<Event>, other: Event, e: Event)
    requires !SameKey(other, e)
    ensures Find(events + [other], e) == Find(events, e)
  {
    if events != [] {
      assert (events + [other])[0] == events[0];
      assert (events + [other])[1..] == events[1..] + [other];
      FindOther(events[1..], other, e);
    }
  }

  lemma {:induction false} FindSame(events: seq<Event>, a: Event, b: Event)
    requires SameKey(a, b)
    ensures Find(events, a) == Find(events, b)
  {
    if events != [] {
      FindSame(events[1..], a, b);
    }
  }

  /** First wins: the row stored for a tenant and key is the first event that carries them. */
  lemma {:induction false} FirstWins(log: seq<Payload>, n: nat, e: Event, decode: Decoder)
    requires n <= |log|
    ensures var events, first := Fold(log, n, decode).events, FirstWith(log, n, e, decode);
            && (Find(events, e).Some? <==> first.Some?)
            && (first.Some? ==> events[Find(events, e).value] == decode(log[first.value]).event)
  {
    hide Apply, Find, SameKey;
    if n > 0 {
      FirstWins(log, n - 1, e, decode);
      FindAfter(Fold(log, n - 1, decode), n - 1, log[n - 1], e, decode);
    }
  }

  /** What is found for a tenant and key after a record: what was, or the record's event if it is the first. */
  lemma FindAfter(before: Store, offset: nat, record: Payload, e: Event, decode: Decoder)
    ensures var after, found := Apply(before, offset, record, decode), Find(before.events, e);
            && before.events <= after.events
            && Find(after.events, e) ==
               (if found.None? && decode(record).Usable? && SameKey(decode(record).event, e) then Some(|before.events|) else found)
            && (found.None? && Find(after.events, e).Some? ==> after.events[|before.events|] == decode(record).event)
  {
    hide Find, Apply, SameKey;
    var reading, events := decode(record), before.events;
    ApplyAdds(before, offset, record, decode);
    assert events + [] == events;
    if reading.Usable? {
      if SameKey(reading.event, e) {
        FindSame(events, reading.event, e);
      }
      if Find(events, reading.event).None? {
        if Find(events, e).Some? {
          FindAppended(events, [reading.event], e);
        } else if SameKey(reading.event, e) {
          FindNew(events, reading.event);
          FindSame(events + [reading.event], reading.event, e);
        } else {
          FindOther(events, reading.event, e);
        }
      }
    }
  }

  /** An earlier record is an event with the tenant and key of record i. */
  ghost predicate Earlier(log: seq<Payload>, i: nat, decode: Decoder)
    requires i < |log| && decode(log[i]).Usable?
  {
    exists k :: 0 <= k < i && decode(log[k]).Usable?
                && decode(log[k]).event.tenant == decode(log[i]).event.tenant
                && decode(log[k]).event.key == decode(log[i]).event.key
  }

  lemma EarlierIff(log: seq<Payload>, i: nat, decode: Decoder)
    requires i < |log| && decode(log[i]).Usable?
    ensures Earlier(log, i, decode) <==> FirstWith(log, i, decode(log[i]).event, decode).Some?
  {
    hide FirstWith;
    var first := FirstWith(log, i, decode(log[i]).event, decode);
    if first.Some? {
      var k := first.value;
      assert 0 <= k < i && decode(log[k]).Usable?;
    }
  }

  /** The events among the first n records whose tenant and key no earlier event has, in order. */
  ghost function Firsts(log: seq<Payload>, n: nat, decode: Decoder): seq<Event>
    requires n <= |log|
  {
    if n == 0 then []
    else
      Firsts(log, n - 1, decode)
      + if decode(log[n - 1]).Usable? && !Earlier(log, n - 1, decode) then [decode(log[n - 1]).event] else []
  }

  lemma ApplyAdds(store: Store, offset: nat, record: Payload, decode: Decoder)
    ensures Apply(store, offset, record, decode).events ==
            store.events + if decode(record).Usable? && Find(store.events, decode(record).event).None? then [decode(record).event] else []
  {
    hide Find;
  }

  /** The events table is those events and no others. */
  lemma {:induction false} EventsAreFirsts(log: seq<Payload>, n: nat, decode: Decoder)
    requires n <= |log|
    ensures Fold(log, n, decode).events == Firsts(log, n, decode)
  {
    hide Earlier, FirstWith, Apply, Find;
    if n > 0 {
      EventsAreFirsts(log, n - 1, decode);
      ApplyAdds(Fold(log, n - 1, decode), n - 1, log[n - 1], decode);
      if decode(log[n - 1]).Usable? {
        EarlierIff(log, n - 1, decode);
        FirstWins(log, n - 1, decode(log[n - 1]).event, decode);
      }
    }
  }

  predicate Distinct(events: seq<Event>) {
    forall i, j :: 0 <= i < j < |events| ==> !SameKey(events[i], events[j])
  }

  lemma DistinctStays(events: seq<Event>, reading: Reading)
    requires Distinct(events) && Verdict(events, reading) == Inserted
    ensures Distinct(events + [reading.event])
  {
  }

  /** No two rows share a tenant and key. */
  lemma {:induction false} KeysDistinct(log: seq<Payload>, n: nat, decode: Decoder)
    requires n <= |log|
    ensures Distinct(Fold(log, n, decode).events)
  {
    if n > 0 {
      KeysDistinct(log, n - 1, decode);
      if Verdict(Fold(log, n - 1, decode).events, decode(log[n - 1])) == Inserted {
        DistinctStays(Fold(log, n - 1, decode).events, decode(log[n - 1]));
      }
    }
  }

  /** The bytes a fingerprint compares as. */
  function Content(e: Event): seq<byte> {
    match e.fingerprint
    case Some(digest) => digest
    case None => []
  }

  /**
   * An offset is dead-lettered just when it cannot be decoded, or the first event
   * of its tenant and key came earlier, with a fingerprint, and another one.
   */
  ghost predicate Dead(log: seq<Payload>, offset: nat, decode: Decoder)
    requires offset < |log|
  {
    var reading := decode(log[offset]);
    || reading.Undecodable?
    || (reading.Usable?
        && var first := FirstWith(log, offset, reading.event, decode);
           first.Some? && decode(log[first.value]).event.fingerprint.Some?
           && decode(log[first.value]).event.fingerprint.value != Content(reading.event))
  }

  lemma {:induction false} LettersAreTheDead(log: seq<Payload>, n: nat, offset: nat, decode: Decoder)
    requires n <= |log|
    ensures var letters := Fold(log, n, decode).letters;
            && (offset in letters <==> offset < n && Dead(log, offset, decode))
            && (offset in letters ==>
                  letters[offset] == Letter(if decode(log[offset]).Undecodable? then UndecodableRecord else KeyReuse, log[offset]))
  {
    hide FirstWith, Differs, Apply, Dead;
    if n > 0 {
      LettersAreTheDead(log, n - 1, offset, decode);
      LettersAreTheDead(log, n - 1, n - 1, decode);
      ApplyLetters(Fold(log, n - 1, decode), n - 1, log[n - 1], decode);
      if offset == n - 1 {
        DeadByVerdict(log, offset, decode);
      }
    }
  }

  lemma ApplyLetters(store: Store, offset: nat, record: Payload, decode: Decoder)
    requires offset !in store.letters
    ensures var verdict, letters := Verdict(store.events, decode(record)), Apply(store, offset, record, decode).letters;
            letters ==
            if verdict == Conflict then store.letters[offset := Letter(KeyReuse, record)]
            else if verdict == CannotDecode then store.letters[offset := Letter(UndecodableRecord, record)]
            else store.letters
  {
  }

  lemma DeadByVerdict(log: seq<Payload>, offset: nat, decode: Decoder)
    requires offset < |log|
    ensures var verdict := Verdict(Fold(log, offset, decode).events, decode(log[offset]));
            && (verdict == CannotDecode <==> decode(log[offset]).Undecodable?)
            && (Dead(log, offset, decode) <==> verdict == Conflict || verdict == CannotDecode)
  {
    hide Fold;
    if decode(log[offset]).Usable? {
      FirstWins(log, offset, decode(log[offset]).event, decode);
    }
  }

  /**
   * A key used again, told from the records alone: i the first event of its tenant
   * and key, j a later one with the same. It is dead-lettered as a reuse exactly
   * when i carries a fingerprint and j's bytes are not those.
   */
  lemma ReuseIsByContent(log: seq<Payload>, n: nat, i: nat, j: nat, decode: Decoder)
    requires i < j < n <= |log| && decode(log[i]).Usable? && decode(log[j]).Usable?
    requires !Earlier(log, i, decode)
    requires decode(log[i]).event.tenant == decode(log[j]).event.tenant && decode(log[i]).event.key == decode(log[j]).event.key
    ensures var letters, stored, other := Fold(log, n, decode).letters, decode(log[i]).event, decode(log[j]).event;
            var differ := stored.fingerprint.Some? && stored.fingerprint.value != if other.fingerprint.Some? then other.fingerprint.value else [];
            && (j in letters <==> differ) && (differ ==> letters[j] == Letter(KeyReuse, log[j]))
  {
    hide Fold, FirstWith;
    LettersAreTheDead(log, n, j, decode);
    var first := FirstWith(log, j, decode(log[j]).event, decode);
    assert first == Some(i);
  }

  // ---- whole runs ------------------------------------------------------------------------

  /** The log, the tables, the stored offset, and the highest offset ever committed. */
  datatype State = State(log: seq<Payload>, store: Store, next: nat, hi: nat)

  datatype Step =
    | Produce(record: Payload)
    | Batch(start: nat, end: nat)
    | RollBack
    | Rewind(offset: nat)

  predicate Castable(log: seq<Payload>, start: nat, end: nat, decode: Decoder)
    requires start <= end <= |log|
  {
    forall i :: start <= i < end ==> !decode(log[i]).Uncastable?
  }

  /**
   * A batch starts at any offset that was ever the stored one, so at most hi: a
   * reader may have read the offset before another reader moved it.
   */
  ghost predicate Next(s: State, step: Step, t: State, decode: Decoder) {
    match step
    case Produce(record) => t == s.(log := s.log + [record])
    case Batch(start, end) =>
      && start <= s.hi && start < end <= |s.log| && Castable(s.log, start, end, decode)
      && t == s.(store := ApplyRange(s.store, s.log, start, end, decode), next := end, hi := if end > s.hi then end else s.hi)
    case RollBack => t == s
    case Rewind(offset) => offset <= s.next && t == s.(next := offset)
  }

  ghost predicate Run(states: seq<State>, steps: seq<Step>, decode: Decoder) {
    && |states| == |steps| + 1
    && states[0] == State([], EMPTY, 0, 0)
    && forall i :: 0 <= i < |steps| ==> Next(states[i], steps[i], states[i + 1], decode)
  }

  ghost predicate Exact(s: State, decode: Decoder) {
    && s.next <= s.hi <= |s.log|
    && Castable(s.log, 0, s.hi, decode)
    && s.store == Fold(s.log, s.hi, decode)
  }

  lemma StepStaysExact(s: State, step: Step, t: State, decode: Decoder)
    requires Exact(s, decode) && Next(s, step, t, decode)
    ensures Exact(t, decode)
  {
    hide Fold, ApplyRange;
    match step
    case Produce(record) => FoldOfPrefix(s.log, [record], s.hi, decode);
    case Batch(start, end) => RangeExtendsFold(s.log, s.hi, start, end, decode);
    case RollBack =>
    case Rewind(offset) =>
  }

  /**
   * Exactly once: after any run of appends, batches, roll-backs, rewinds and
   * stale readers, the tables are the fold of the log up to the highest offset
   * ever committed.
   */
  lemma {:induction false} ExactlyOnce(states: seq<State>, steps: seq<Step>, i: nat, decode: Decoder)
    requires Run(states, steps, decode) && i < |states|
    ensures Exact(states[i], decode)
  {
    hide Next, Exact;
    if i == 0 {
      StartsExact(decode);
    } else {
      ExactlyOnce(states, steps, i - 1, decode);
      assert Next(states[i - 1], steps[i - 1], states[i], decode);
      StepStaysExact(states[i - 1], steps[i - 1], states[i], decode);
    }
  }

  lemma StartsExact(decode: Decoder)
    ensures Exact(State([], EMPTY, 0, 0), decode)
  {
  }

  /** Deterministic replay: two runs that have each committed all of one log hold the same tables. */
  lemma ReplayIsDeterministic(a: seq<State>, aSteps: seq<Step>, b: seq<State>, bSteps: seq<Step>, decode: Decoder)
    requires Run(a, aSteps, decode) && Run(b, bSteps, decode)
    requires a[|a| - 1].log == b[|b| - 1].log && a[|a| - 1].hi == b[|b| - 1].hi
    ensures a[|a| - 1].store == b[|b| - 1].store
  {
    ExactlyOnce(a, aSteps, |a| - 1, decode);
    ExactlyOnce(b, bSteps, |b| - 1, decode);
  }
}
