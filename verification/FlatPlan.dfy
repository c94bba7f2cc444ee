/** Closing a period whose unbilled usage is all of one meter at a flat price. */
module FlatPlan {
  import opened Int64
  import opened Options
  import opened Amounts
  import opened Quantities
  import opened Meters
  import Consumer
  import opened Pricing
  import opened Rating
  import opened Ledger
  import opened LedgerStore
  import opened EventTable
  import opened Invoicing
  import opened InvoicingEntry
  import opened InvoicingRuns
  import opened InvoicingMoney
  import opened CloseOutcome

  lemma OneName(meter: string)
    ensures InOrder({meter}) == [meter]
  {
    SortedOnce(InOrder({meter}), [meter]);
  }

  lemma OneMeter(seen: Rows, tenant: string, end: Instant, meter: string)
    requires MetersDue(seen, tenant, end) == {meter} && 0 <= SumDue(seen, tenant, end, meter) <= MAX_INT
    ensures Gathered(seen, tenant, end) == Some([Usage(meter, SumDue(seen, tenant, end, meter))])
  {
    hide MetersDue, SumDue, SumText, ParseQuantity;
    OneName(meter);
    UsageExact([meter], seen, tenant, end);
    var u := UsageOf([meter], seen, tenant, end);
    assert [meter][0] == meter;
    assert u.value == [Usage(meter, SumDue(seen, tenant, end, meter))];
  }

  lemma SingleLine(meter: string, sums: map<string, Quantity>, plan: Plan, item: LineItem)
    requires LineFor(plan, meter, Lookup(sums, meter)) == Line(item)
    ensures Lines([meter], sums, plan) == Rated([item])
  {
    hide LineFor;
    assert [meter][..0] == [];
    assert Lines([], sums, plan) == Rated([]);
  }

  lemma FlatRate(meter: string, q: Quantity, price: Price, plan: Plan, registry: Registry)
    requires q >= 0 && meter in registry && PriceFor(plan, meter) == Some(price) && price.model == Flat
    requires Fit(Round(q as int * price.unitPrice as int)).Charged?
    ensures RateOf([Usage(meter, q)], plan, registry) == Rated([LineItem(meter, q, Round(q as int * price.unitPrice as int))])
  {
    hide CheckedAdd, PriceFor, Round, InOrder, Lines;
    var u := Usage(meter, q);
    assert [u][..0] == [];
    CheckedAddExact(0, q);
    var sums: map<string, Quantity> := map[][meter := q];
    assert Gather([u], registry) == Totals(sums);
    assert sums.Keys == {meter};
    OneName(meter);
    MultiplyRounds(q, price.unitPrice);
    var item := LineItem(meter, q, Round(q as int * price.unitPrice as int));
    assert LineFor(plan, meter, q) == Line(item);
    SingleLine(meter, sums, plan, item);
  }

  lemma OneLine(item: LineItem)
    ensures SumAmounts([item]) == item.amount
  {
    assert [item][..0] == [];
  }

  /** The invoice is one line for all that was due, at the flat price, rounded once. */
  lemma FlatClose(db: Database, pid: nat, plan: Plan, registry: Registry, seen: Rows, meter: string, price: Price)
    requires Shape(db) && Kept(db.books) && Charted(db.books) && pid < |db.periods| && !db.periods[pid].closed
    requires db.periods[pid].start != NEVER
    requires meter in registry && PriceFor(plan, meter) == Some(price) && price.model == Flat
    requires var p := db.periods[pid];
             && MetersDue(seen, p.tenant, p.end) == {meter}
             && 0 <= SumDue(seen, p.tenant, p.end, meter) <= MAX_INT
             && 0 < Round(SumDue(seen, p.tenant, p.end, meter) * price.unitPrice as int) <= MAX_INT
    ensures var p, r := db.periods[pid], CloseOf(db, pid, plan, registry, seen);
            var total := Round(SumDue(seen, p.tenant, p.end, meter) * price.unitPrice as int);
            && r.Issued? && r.invoice.total == total
            && r.invoice.lines == [LineItem(meter, SumDue(seen, p.tenant, p.end, meter), total)]
  {
    hide MetersDue, SumDue, Round, Gathered, RateOf, Issue, InvoiceFor, Kept, Charted, Shape, PriceFor;
    var p := db.periods[pid];
    var q := SumDue(seen, p.tenant, p.end, meter);
    OneMeter(seen, p.tenant, p.end, meter);
    FlatRate(meter, q, price, plan, registry);
    var item := LineItem(meter, q, Round(q * price.unitPrice as int));
    OneLine(item);
    OpenHasNoInvoice(db, pid);
    IssueSucceeds(db, pid, [item]);
    IssueTotal(db, pid, [item]);
  }

  // ---- one unit at a price of one ----------------------------------------------------------------

  const UNIT := FACTOR

  /** One unit of a tenant's usage on meter "m" at instant 5. */
  function UnitEvent(tenant: string, key: string): Consumer.Event {
    Consumer.Event(tenant, key, "m", UNIT, 5, None)
  }

  function UnitRow(tenant: string, key: string): EventTable.Row {
    EventTable.Row(UnitEvent(tenant, key), None)
  }

  const UNIT_PLAN: Plan := [Price("m", Flat, 1, [])]

  lemma UnitIsDue(tenant: string, key: string, end: Instant)
    requires end > 5
    ensures MetersDue([UnitRow(tenant, key)], tenant, end) == {"m"} && SumDue([UnitRow(tenant, key)], tenant, end, "m") == UNIT
  {
    var rows := [UnitRow(tenant, key)];
    assert rows[0] in rows;
    assert rows[..0] == [];
  }

  lemma UnitPlanIsFlat()
    ensures PriceFor(UNIT_PLAN, "m") == Some(Price("m", Flat, 1, [])) && Round(UNIT * 1) == 1
  {
  }

  /** An open period with one unit of its tenant due in what was seen is closed into an invoice. */
  lemma UnitClose(db: Database, pid: nat, seen: Rows)
    requires Shape(db) && Kept(db.books) && Charted(db.books) && pid < |db.periods| && !db.periods[pid].closed
    requires db.periods[pid].start != NEVER
    requires var p := db.periods[pid]; MetersDue(seen, p.tenant, p.end) == {"m"} && SumDue(seen, p.tenant, p.end, "m") == UNIT
    ensures CloseOf(db, pid, UNIT_PLAN, {"m"}, seen).Issued?
  {
    hide SumDue, MetersDue, Round, PriceFor, CloseOf, Shape, Kept, Charted;
    UnitPlanIsFlat();
    FlatClose(db, pid, UNIT_PLAN, {"m"}, seen, "m", Price("m", Flat, 1, []));
  }
}
