/**
 * Correct to the cent: from the bytes a crashed and recovered log holds, through
 * the consumer's tables, to the invoice and the ledger (chaos/harness.go).
 */
module EndToEnd {
  import opened Int64
  import opened Bytes
  import opened Record
  import opened Options
  import opened Consumer
  import GroupCommit
  import GroupCommitSafety
  import LiveConsumer
  import opened Pricing
  import opened Rating
  import opened Ledger
  import LedgerStore
  import EventTable
  import opened Invoicing
  import opened InvoicingEntry
  import InvoicingRuns
  import opened InvoicingMoney
  import opened CloseOutcome
  import opened FlatPlan

  // ---- keys ------------------------------------------------------------------------------------

  function KeysOf(events: seq<Event>): set<string> {
    set e | e in events :: e.key
  }

  lemma {:induction false} DistinctKeysCount(events: seq<Event>, tenant: string)
    requires Distinct(events) && forall e :: e in events ==> e.tenant == tenant
    ensures |KeysOf(events)| == |events|
  {
    if events != [] {
      var init, last := events[..|events| - 1], events[|events| - 1];
      assert events == init + [last];
      DistinctKeysCount(init, tenant);
      assert KeysOf(events) == KeysOf(init) + {last.key};
      assert last.key !in KeysOf(init);
    }
  }

  /** Every stored row is some record of the log. */
  lemma {:induction false} RowsComeFromLog(log: seq<Payload>, n: nat, e: Event, decode: Decoder)
    requires n <= |log| && e in Fold(log, n, decode).events
    ensures exists i :: 0 <= i < n && decode(log[i]) == Usable(e)
  {
    hide Verdict, AddLetter;
    if n > 0 {
      var before := Fold(log, n - 1, decode);
      if e in before.events {
        RowsComeFromLog(log, n - 1, e, decode);
      } else {
        LastInserted(before, n - 1, log[n - 1], e, decode);
      }
    }
  }

  lemma LastInserted(before: Store, offset: nat, record: Payload, e: Event, decode: Decoder)
    requires e !in before.events && e in Apply(before, offset, record, decode).events
    ensures decode(record) == Usable(e)
  {
  }

  /** A record of one unit of the tenant's meter, from before the end of the period. */
  predicate IsUnit(reading: Reading, tenant: string, meter: string, end: int) {
    reading.Usable? && reading.event.tenant == tenant && reading.event.meter == meter
    && reading.event.quantity == UNIT && reading.event.occurred < end
  }

  /** The keys of a log all of whose records are events. */
  ghost predicate KeysAre(log: seq<Payload>, keys: set<string>, decode: Decoder) {
    && (forall i :: 0 <= i < |log| ==> decode(log[i]).Usable? && decode(log[i]).event.key in keys)
    && (forall key :: key in keys ==> exists i :: 0 <= i < |log| && decode(log[i]).Usable? && decode(log[i]).event.key == key)
  }

  lemma StoredKeys(log: seq<Payload>, keys: set<string>, tenant: string, meter: string, end: int, decode: Decoder)
    requires KeysAre(log, keys, decode)
    requires forall i :: 0 <= i < |log| ==> IsUnit(decode(log[i]), tenant, meter, end)
    ensures var events := Fold(log, |log|, decode).events;
            && |events| == |keys|
            && forall e :: e in events ==> IsUnit(Usable(e), tenant, meter, end)
  {
    hide Fold, FirstWith;
    var events := Fold(log, |log|, decode).events;
    forall e | e in events
      ensures IsUnit(Usable(e), tenant, meter, end) && e.key in keys
    {
      RowsComeFromLog(log, |log|, e, decode);
    }
    forall key | key in keys
      ensures key in KeysOf(events)
    {
      var i :| 0 <= i < |log| && decode(log[i]).Usable? && decode(log[i]).event.key == key;
      FirstWins(log, |log|, decode(log[i]).event, decode);
      var row := events[Find(events, decode(log[i]).event).value];
      assert row in events && row.key == key;
    }
    assert KeysOf(events) == keys;
    KeysDistinct(log, |log|, decode);
    DistinctKeysCount(events, tenant);
  }

  // ---- usage -----------------------------------------------------------------------------------

  function Fresh(events: seq<Event>): (rows: seq<EventTable.Row>)
    ensures |rows| == |events| && forall i :: 0 <= i < |rows| ==> rows[i] == EventTable.Row(events[i], None)
  {
    seq(|events|, i requires 0 <= i < |events| => EventTable.Row(events[i], None))
  }

  lemma {:induction false} UnitsDue(events: seq<Event>, tenant: string, meter: string, end: int)
    requires forall e :: e in events ==> IsUnit(Usable(e), tenant, meter, end)
    ensures EventTable.SumDue(Fresh(events), tenant, end, meter) == UNIT * |events|
    ensures events != [] ==> EventTable.MetersDue(Fresh(events), tenant, end) == {meter}
  {
    if events != [] {
      var init := events[..|events| - 1];
      UnitsDue(init, tenant, meter, end);
      assert Fresh(events)[..|events| - 1] == Fresh(init);
      assert events[|events| - 1] in events;
      assert Fresh(events)[|events| - 1] in Fresh(events);
    }
  }

  lemma RoundWhole(n: nat, price: nat)
    ensures Round(UNIT * n * price) == n * price
  {
    var k := n * price;
    assert UNIT * n * price == FACTOR * k;
    WholeRounds(k);
  }

  lemma WholeRounds(k: nat)
    ensures Round(FACTOR * k) == k
  {
  }

  // ---- the whole pipeline --------------------------------------------------------------------------

  ghost function AckedKeys(acked: set<GroupCommit.Ack>, decode: Decoder): set<string> {
    set a | a in acked && decode(a.payload).Usable? :: decode(a.payload).event.key
  }

  lemma AckedAreLogged(log: seq<Payload>, acked: set<GroupCommit.Ack>, decode: Decoder)
    requires forall a :: a in acked ==> a.offset < |log| && log[a.offset] == a.payload
    requires forall i :: 0 <= i < |log| ==> decode(log[i]).Usable? && decode(log[i]).event.key in AckedKeys(acked, decode)
    ensures KeysAre(log, AckedKeys(acked, decode), decode)
  {
    var keys := AckedKeys(acked, decode);
    forall key | key in keys
      ensures exists i :: 0 <= i < |log| && decode(log[i]).Usable? && decode(log[i]).event.key == key
    {
      var a :| a in acked && decode(a.payload).Usable? && decode(a.payload).event.key == key;
      assert log[a.offset] == a.payload;
    }
  }

  /** A database that holds the consumer's rows, one open period, and nothing billed. */
  function Unbilled(events: seq<Event>, p: Period): Database {
    Database(Fresh(events), [p], [], LedgerStore.Books(map[], map[], []))
  }

  lemma UnbilledIsSound(events: seq<Event>, p: Period)
    requires !p.closed
    ensures var db := Unbilled(events, p);
            InvoicingRuns.Shape(db) && LedgerStore.Kept(db.books) && Charted(db.books)
  {
  }

  lemma OneShare(item: LineItem, name: string)
    ensures Share([item], name) == if RevenueAccount(item.meter) == name then item.amount as int else 0
  {
    hide RevenueAccount;
    assert [item][..0] == [];
  }

  /** What one flat line does to the tenant's receivable and the meter's revenue. */
  lemma LineCharges(tenant: string, item: LineItem)
    ensures InvoicingEntry.Charge(tenant, [item], ReceivableAccount(tenant)) == item.amount
    ensures InvoicingEntry.Charge(tenant, [item], RevenueAccount(item.meter)) == -(item.amount as int)
  {
    hide ReceivableAccount, RevenueAccount, Share, SumAmounts;
    OneLine(item);
    OneShare(item, ReceivableAccount(tenant));
    OneShare(item, RevenueAccount(item.meter));
    NamesApart(tenant, item.meter);
  }

  /** Billing n unit events at a flat price: invoice, receivable and revenue all say n times the price. */
  lemma UnitsBilled(events: seq<Event>, p: Period, meter: string, price: Price, plan: Plan, registry: Registry)
    requires !p.closed && p.start != NEVER && events != []
    requires forall e :: e in events ==> IsUnit(Usable(e), p.tenant, meter, p.end)
    requires meter in registry && PriceFor(plan, meter) == Some(price) && price.model == Flat && price.unitPrice > 0
    requires UNIT * |events| <= MAX_INT && |events| * price.unitPrice as int <= MAX_INT
    ensures var db, n := Unbilled(events, p), |events| * price.unitPrice as int;
            var r := CloseOf(db, 0, plan, registry, db.events);
            && r.Issued? && r.invoice.total == n
            && LedgerStore.Balance(r.db.books, ReceivableAccount(p.tenant)) == n
            && LedgerStore.Balance(r.db.books, RevenueAccount(meter)) == -n
  {
    hide Round, EventTable.SumDue, EventTable.MetersDue, CloseOf, Issue, InvoicingRuns.Shape, LedgerStore.Kept,
      Charted, Fresh, PriceFor, LedgerStore.Balance, ReceivableAccount, RevenueAccount, InvoicingEntry.Charge,
      TransactionKey, Gathered, RateOf, InvoiceFor, EventTable.Mark;
    var db, n := Unbilled(events, p), |events| * price.unitPrice as int;
    UnbilledIsSound(events, p);
    UnitsDue(events, p.tenant, meter, p.end);
    RoundWhole(|events|, price.unitPrice as int);
    Product(|events|, price.unitPrice as int);
    FlatClose(db, 0, plan, registry, db.events, meter, price);
    InvoicingRuns.IssuedIs(db, 0, plan, registry, db.events);
    var r := CloseOf(db, 0, plan, registry, db.events);
    var item := r.invoice.lines[0];
    assert r.invoice.lines == [item];
    IssueMoves(db, 0, [item], ReceivableAccount(p.tenant));
    IssueMoves(db, 0, [item], RevenueAccount(meter));
    LineCharges(p.tenant, item);
    NothingYet(p.tenant, meter);
  }

  lemma Product(n: nat, price: nat)
    ensures n > 0 && price > 0 ==> n * price > 0
  {
  }

  lemma NothingYet(tenant: string, meter: string)
    ensures LedgerStore.Balance(LedgerStore.Books(map[], map[], []), ReceivableAccount(tenant)) == 0
    ensures LedgerStore.Balance(LedgerStore.Books(map[], map[], []), RevenueAccount(meter)) == 0
  {
  }

  /** Every record the running log holds is a unit event under an acknowledged key, and the tables hold it. */
  ghost predicate Settled(s: LiveConsumer.Joint, tenant: string, meter: string, end: int, decode: Decoder) {
    var log := GroupCommit.Contents(s.log);
    && s.log.up && s.hi == |log|
    && forall i :: 0 <= i < |log| ==>
         IsUnit(decode(log[i]), tenant, meter, end) && decode(log[i]).event.key in AckedKeys(s.log.acked, decode)
  }

  /** The rows stored are as many as the keys acknowledged. */
  lemma SettledRows(c: GroupCommit.Config, moves: seq<LiveConsumer.Move>, decode: Decoder, p: Period, meter: string)
    requires LiveConsumer.Trace(c, moves, decode).Some? && LiveConsumer.NeverBehind(c, moves, decode)
    requires Settled(LiveConsumer.Trace(c, moves, decode).value, p.tenant, meter, p.end, decode)
    ensures var s := LiveConsumer.Trace(c, moves, decode).value;
            && |s.store.events| == |AckedKeys(s.log.acked, decode)|
            && forall e :: e in s.store.events ==> IsUnit(Usable(e), p.tenant, meter, p.end)
  {
    hide LiveConsumer.Trace, LiveConsumer.NeverBehind, GroupCommitSafety.Run, GroupCommitSafety.OnDisk,
      GroupCommitSafety.Headed, AckedKeys, Fold, KeysAre, GroupCommit.Contents;
    var s := LiveConsumer.Trace(c, moves, decode).value;
    var log := GroupCommit.Contents(s.log);
    LiveConsumer.LogRuns(c, moves, decode);
    GroupCommitSafety.AcknowledgedMeansDurable(c, LiveConsumer.LogSteps(moves));
    AckedAreLogged(log, s.log.acked, decode);
    LiveConsumer.ExactAt(c, moves, |moves|, decode);
    assert moves[..|moves|] == moves;
    StoredKeys(log, AckedKeys(s.log.acked, decode), p.tenant, meter, p.end, decode);
  }

  /**
   * Any run of the log and of the consumer that drains it as it goes, with crashes,
   * failed writes and syncs, retries, duplicates, aborted batches and rewinds, that
   * ends with the log up and drained; then a close. If no reopening found the log
   * shorter than what was committed, and every record carries an acknowledged key,
   * the invoice total, the tenant's receivable and the meter's revenue are the unit
   * price times the number of distinct acknowledged keys.
   */
  lemma CorrectToTheCent(
    c: GroupCommit.Config, moves: seq<LiveConsumer.Move>, decode: Decoder,
    p: Period, meter: string, price: Price, plan: Plan, registry: Registry)
    requires LiveConsumer.Trace(c, moves, decode).Some? && LiveConsumer.NeverBehind(c, moves, decode)
    requires Settled(LiveConsumer.Trace(c, moves, decode).value, p.tenant, meter, p.end, decode)
    requires !p.closed && p.start != NEVER
    requires meter in registry && PriceFor(plan, meter) == Some(price) && price.model == Flat && price.unitPrice > 0
    requires var n := |AckedKeys(LiveConsumer.Trace(c, moves, decode).value.log.acked, decode)|;
             n > 0 && UNIT * n <= MAX_INT && n * price.unitPrice as int <= MAX_INT
    ensures var s := LiveConsumer.Trace(c, moves, decode).value;
            var n := |AckedKeys(s.log.acked, decode)| * price.unitPrice as int;
            var db := Unbilled(s.store.events, p);
            var r := CloseOf(db, 0, plan, registry, db.events);
            && r.Issued? && r.invoice.total == n
            && LedgerStore.Balance(r.db.books, ReceivableAccount(p.tenant)) == n
            && LedgerStore.Balance(r.db.books, RevenueAccount(meter)) == -n
  {
    hide LiveConsumer.Trace, LiveConsumer.NeverBehind, Settled, AckedKeys, CloseOf, Unbilled, PriceFor,
      LedgerStore.Balance, ReceivableAccount, RevenueAccount;
    SettledRows(c, moves, decode, p, meter);
    UnitsBilled(LiveConsumer.Trace(c, moves, decode).value.store.events, p, meter, price, plan, registry);
  }
}
