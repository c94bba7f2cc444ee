/**
 * Whole runs of inserts and closes. A close gathers at one step and marks at a
 * later one, and other transactions may commit in between.
 */
module InvoicingRuns {
  import opened Options
  import Consumer
  import opened Rating
  import opened Ledger
  import opened LedgerStore
  import opened EventTable
  import opened Invoicing

  type Rows = seq<EventTable.Row>

  /** The tables, and what each close in flight has gathered from; the period's row lock admits one. */
  datatype State = State(db: Database, gathering: map<nat, Rows>)

  const START := State(Database([], [], [], Books(map[], map[], [])), map[])

  datatype Step =
    | Insert(event: Consumer.Event)
    | NewPeriod(tenant: string, name: string, start: Instant, end: Instant)
    | Begin(pid: nat)
    | Finish(pid: nat, plan: Plan)
    | GiveUp(pid: nat)

  ghost function Effect(s: State, step: Step, registry: Registry): Database {
    match step
    case Insert(event) => s.db.(events := s.db.events + [EventTable.Row(event, None)])
    case NewPeriod(tenant, name, start, end) =>
      var r := EnsurePeriodOf(s.db.periods, tenant, name, start, end);
      if r.None? then s.db else s.db.(periods := r.value.0)
    case Begin(_) => s.db
    case Finish(pid, plan) =>
      if pid !in s.gathering then s.db
      else
        var r := CloseOf(s.db, pid, plan, registry, s.gathering[pid]);
        if r.Issued? then r.db else s.db
    case GiveUp(_) => s.db
  }

  ghost predicate Next(s: State, step: Step, t: State, registry: Registry) {
    && t.db == Effect(s, step, registry)
    && match step
       case Insert(_) => t.gathering == s.gathering
       case NewPeriod(_, _, _, _) => t.gathering == s.gathering
       case Begin(pid) => pid !in s.gathering && t.gathering == s.gathering[pid := s.db.events]
       case Finish(pid, _) => pid in s.gathering && t.gathering == s.gathering - {pid}
       case GiveUp(pid) => t.gathering == s.gathering - {pid}
  }

  ghost predicate Run(states: seq<State>, steps: seq<Step>, registry: Registry) {
    && |states| == |steps| + 1 && states[0] == START
    && forall i :: 0 <= i < |steps| ==> Next(states[i], steps[i], states[i + 1], registry)
  }

  /** A close that issues an invoice, and what it leaves. */
  ghost predicate Issues(s: State, step: Step, registry: Registry) {
    step.Finish? && step.pid in s.gathering && CloseOf(s.db, step.pid, step.plan, registry, s.gathering[step.pid]).Issued?
  }

  lemma IssuedIs(db: Database, pid: nat, plan: Plan, registry: Registry, seen: Rows)
    requires CloseOf(db, pid, plan, registry, seen).Issued?
    ensures pid < |db.periods| && !db.periods[pid].closed && InvoiceFor(db.invoices, pid).None?
    ensures var p, r := db.periods[pid], CloseOf(db, pid, plan, registry, seen);
            && r == Issue(db, pid, r.invoice.lines)
            && Gathered(seen, p.tenant, p.end).Some?
            && RateOf(Gathered(seen, p.tenant, p.end).value, plan, registry) == Rated(r.invoice.lines)
            && r.db.events == Mark(db.events, p.tenant, p.end, |db.invoices|)
            && r.db.periods == db.periods[pid := p.(closed := true)]
            && r.db.invoices == db.invoices + [r.invoice]
            && r.invoice.period == pid && r.invoice.tenant == p.tenant
  {
    hide Gathered, RateOf, EntryOf, PostOf, InvoiceFor, TransactionKey, Mark, PostingsOf;
  }

  // ---- what never changes ------------------------------------------------------------------

  /** Events are never altered or moved between invoices, invoices never change, periods only close. */
  ghost predicate Grown(a: Database, b: Database) {
    && |a.events| <= |b.events|
    && (forall i :: 0 <= i < |a.events| ==>
         b.events[i].event == a.events[i].event && (a.events[i].invoice.Some? ==> b.events[i].invoice == a.events[i].invoice))
    && a.invoices <= b.invoices
    && |a.periods| <= |b.periods|
    && (forall i :: 0 <= i < |a.periods| ==>
         b.periods[i] == a.periods[i] || b.periods[i] == a.periods[i].(closed := true))
  }

  lemma StepGrows(s: State, step: Step, registry: Registry)
    ensures Grown(s.db, Effect(s, step, registry))
  {
    hide CloseOf, Issue, FindPeriod, Mark, Gathered, RateOf, InvoiceFor;
    if Issues(s, step, registry) {
      IssuedIs(s.db, step.pid, step.plan, registry, s.gathering[step.pid]);
    }
  }

  lemma GrownTwice(a: Database, b: Database, c: Database)
    requires Grown(a, b) && Grown(b, c)
    ensures Grown(a, c)
  {
  }

  /** Whatever the run, what is issued stays issued and what is billed stays billed where it was. */
  lemma {:induction false} RunGrows(states: seq<State>, steps: seq<Step>, i: nat, j: nat, registry: Registry)
    requires Run(states, steps, registry) && i <= j < |states|
    ensures Grown(states[i].db, states[j].db)
    decreases j
  {
    hide Effect, Grown;
    if i == j {
      GrownSelf(states[i].db);
    } else {
      RunGrows(states, steps, i, j - 1, registry);
      assert Next(states[j - 1], steps[j - 1], states[j], registry);
      StepGrows(states[j - 1], steps[j - 1], registry);
      GrownTwice(states[i].db, states[j - 1].db, states[j].db);
    }
  }

  lemma GrownSelf(a: Database)
    ensures Grown(a, a)
  {
  }

  ghost predicate NamesUnique(periods: seq<Period>) {
    forall i, j :: 0 <= i < j < |periods| ==> periods[i].tenant != periods[j].tenant || periods[i].name != periods[j].name
  }

  /** A period is closed just when it has an invoice, and it has at most one. */
  ghost predicate Matched(periods: seq<Period>, invoices: seq<Invoice>) {
    && (forall k :: 0 <= k < |invoices| ==>
         && invoices[k].period < |periods|
         && periods[invoices[k].period].closed
         && periods[invoices[k].period].tenant == invoices[k].tenant)
    && (forall j, k :: 0 <= j < k < |invoices| ==> invoices[j].period != invoices[k].period)
    && (forall i :: 0 <= i < |periods| ==> (periods[i].closed <==> InvoiceFor(invoices, i).Some?))
  }

  ghost predicate Stamped(db: Database) {
    forall i :: 0 <= i < |db.events| && db.events[i].invoice.Some? ==>
      db.events[i].invoice.value < |db.invoices| && Billed(db, db.events[i])
  }

  ghost predicate Shape(db: Database) {
    NamesUnique(db.periods) && Matched(db.periods, db.invoices) && Stamped(db)
  }

  /** A billed event is its own tenant's, from before the end of the period that billed it. */
  ghost predicate Billed(db: Database, row: EventTable.Row)
    requires row.invoice.Some? && row.invoice.value < |db.invoices|
  {
    var invoice := db.invoices[row.invoice.value];
    && invoice.tenant == row.event.tenant
    && invoice.period < |db.periods| && row.event.occurred < db.periods[invoice.period].end
  }

  lemma {:induction false} InvoiceForAppended(invoices: seq<Invoice>, invoice: Invoice, period: nat)
    ensures InvoiceFor(invoices + [invoice], period) ==
            if invoice.period == period then Some(invoice) else InvoiceFor(invoices, period)
  {
    assert (invoices + [invoice])[..|invoices|] == invoices;
  }

  lemma IssueKeepsMatched(periods: seq<Period>, invoices: seq<Invoice>, invoice: Invoice)
    requires Matched(periods, invoices) && invoice.period < |periods| && InvoiceFor(invoices, invoice.period).None?
    requires periods[invoice.period].tenant == invoice.tenant
    ensures Matched(periods[invoice.period := periods[invoice.period].(closed := true)], invoices + [invoice])
  {
    hide InvoiceFor;
    forall i: nat
      ensures InvoiceFor(invoices + [invoice], i) == if invoice.period == i then Some(invoice) else InvoiceFor(invoices, i)
    {
      InvoiceForAppended(invoices, invoice, i);
    }
  }

  lemma IssueKeepsShape(db: Database, pid: nat, plan: Plan, registry: Registry, seen: Rows)
    requires Shape(db) && CloseOf(db, pid, plan, registry, seen).Issued?
    ensures Shape(CloseOf(db, pid, plan, registry, seen).db)
  {
    hide CloseOf, Issue, Mark, InvoiceFor, Matched, Gathered, RateOf;
    IssuedIs(db, pid, plan, registry, seen);
    var r := CloseOf(db, pid, plan, registry, seen);
    IssueKeepsMatched(db.periods, db.invoices, r.invoice);
  }

  lemma PeriodKeepsMatched(periods: seq<Period>, invoices: seq<Invoice>, p: Period)
    requires Matched(periods, invoices) && !p.closed
    ensures Matched(periods + [p], invoices)
  {
    hide InvoiceFor;
    assert InvoiceFor(invoices, |periods|).None?;
  }

  lemma PeriodKeepsShape(db: Database, p: Period)
    requires Shape(db) && !p.closed && FindPeriod(db.periods, p.tenant, p.name).None?
    ensures Shape(db.(periods := db.periods + [p]))
  {
    hide FindPeriod, Matched;
    PeriodKeepsMatched(db.periods, db.invoices, p);
  }

  lemma StepKeepsShape(s: State, step: Step, registry: Registry)
    requires Shape(s.db)
    ensures Shape(Effect(s, step, registry))
  {
    hide CloseOf, Shape, FindPeriod;
    if Issues(s, step, registry) {
      IssueKeepsShape(s.db, step.pid, step.plan, registry, s.gathering[step.pid]);
    } else if step.NewPeriod? && EnsurePeriodOf(s.db.periods, step.tenant, step.name, step.start, step.end).Some? {
      if FindPeriod(s.db.periods, step.tenant, step.name).None? {
        PeriodKeepsShape(s.db, Period(step.tenant, step.name, step.start, step.end, false));
      }
    } else if step.Insert? {
      InsertKeepsShape(s.db, step.event);
    }
  }

  lemma InsertKeepsShape(db: Database, event: Consumer.Event)
    requires Shape(db)
    ensures Shape(db.(events := db.events + [EventTable.Row(event, None)]))
  {
    hide Matched;
  }

  lemma {:induction false} RunKeepsShape(states: seq<State>, steps: seq<Step>, i: nat, registry: Registry)
    requires Run(states, steps, registry) && i < |states|
    ensures Shape(states[i].db)
  {
    hide Effect;
    if i > 0 {
      RunKeepsShape(states, steps, i - 1, registry);
      assert Next(states[i - 1], steps[i - 1], states[i], registry);
      StepKeepsShape(states[i - 1], steps[i - 1], registry);
    }
  }

  // ---- usage is conserved --------------------------------------------------------------------

  /** What a tenant's invoices carry for a meter. */
  function Invoiced(invoices: seq<Invoice>, tenant: string, meter: string): int {
    if invoices == [] then 0
    else
      var invoice := invoices[|invoices| - 1];
      Invoiced(invoices[..|invoices| - 1], tenant, meter) + if invoice.tenant == tenant then OnLines(invoice.lines, meter) else 0
  }

  /** How much more is invoiced or still to bill than was ever stored. */
  function Excess(db: Database, tenant: string, meter: string): int {
    Invoiced(db.invoices, tenant, meter) + Unbilled(db.events, tenant, meter) - Stored(db.events, tenant, meter)
  }

  /** Every unit of usage is on exactly one invoice or still to be billed. */
  ghost predicate Conserved(db: Database) {
    forall tenant, meter :: Excess(db, tenant, meter) == 0
  }

  /**
   * A close is out by the difference between what it gathered and what it marked,
   * for its own tenant and for each meter, and by nothing else.
   */
  lemma IssueExcess(db: Database, pid: nat, plan: Plan, registry: Registry, seen: Rows, tenant: string, meter: string)
    requires CloseOf(db, pid, plan, registry, seen).Issued?
    ensures pid < |db.periods|
    ensures var p := db.periods[pid];
            Excess(CloseOf(db, pid, plan, registry, seen).db, tenant, meter) ==
            Excess(db, tenant, meter)
            + if tenant == p.tenant then SumDue(seen, tenant, p.end, meter) - SumDue(db.events, tenant, p.end, meter) else 0
  {
    hide CloseOf, Issue, Mark, InvoiceFor, Gathered, RateOf, OnLines, SumDue, Unbilled, Stored;
    IssuedIs(db, pid, plan, registry, seen);
    var p, r := db.periods[pid], CloseOf(db, pid, plan, registry, seen);
    MarkMovesDue(db.events, p.tenant, p.end, |db.invoices|, tenant, meter);
    assert r.db.invoices[..|db.invoices|] == db.invoices;
    LinesCarryWhatWasSeen(seen, p, plan, registry, r.invoice.lines, meter);
  }

  lemma LinesCarryWhatWasSeen(seen: Rows, p: Period, plan: Plan, registry: Registry, lines: seq<LineItem>, meter: string)
    requires Gathered(seen, p.tenant, p.end).Some?
    requires RateOf(Gathered(seen, p.tenant, p.end).value, plan, registry) == Rated(lines)
    ensures OnLines(lines, meter) == SumDue(seen, p.tenant, p.end, meter)
  {
    hide Gathered, RateOf, IsBill, Priceable, OnLines, SumDue;
    var usages := Gathered(seen, p.tenant, p.end).value;
    RateIsBill(usages, plan, registry);
    BillConserves(lines, usages, plan, meter);
    GatherConserves(seen, p.tenant, p.end, meter);
  }

  /** Gather and mark agree: for every meter the rows seen and the rows marked hold the same usage. */
  ghost predicate Agrees(s: State, step: Step, registry: Registry) {
    Issues(s, step, registry) && step.pid < |s.db.periods| ==>
      var p := s.db.periods[step.pid];
      forall meter :: SumDue(s.gathering[step.pid], p.tenant, p.end, meter) == SumDue(s.db.events, p.tenant, p.end, meter)
  }

  lemma StepExcess(s: State, step: Step, registry: Registry, tenant: string, meter: string)
    requires !Issues(s, step, registry)
    ensures Excess(Effect(s, step, registry), tenant, meter) == Excess(s.db, tenant, meter)
  {
    hide CloseOf, Invoiced;
    if step.Insert? {
      assert (s.db.events + [EventTable.Row(step.event, None)])[..|s.db.events|] == s.db.events;
    }
  }

  /** A step keeps usage conserved exactly when it is not a close whose gather and mark disagree. */
  lemma StepConservesIff(s: State, step: Step, registry: Registry)
    requires Conserved(s.db)
    ensures Conserved(Effect(s, step, registry)) <==> Agrees(s, step, registry)
  {
    hide CloseOf, Excess, SumDue;
    if Issues(s, step, registry) {
      IssueConservesIff(s, step, registry);
    } else {
      forall tenant, meter
        ensures Excess(Effect(s, step, registry), tenant, meter) == 0
      {
        StepExcess(s, step, registry, tenant, meter);
      }
    }
  }

  lemma IssueConservesIff(s: State, step: Step, registry: Registry)
    requires Conserved(s.db) && Issues(s, step, registry)
    ensures Conserved(Effect(s, step, registry)) <==> Agrees(s, step, registry)
  {
    hide CloseOf, Excess, SumDue;
    var seen := s.gathering[step.pid];
    IssueExcess(s.db, step.pid, step.plan, registry, seen, "", "");
    var p, now := s.db.periods[step.pid], Effect(s, step, registry);
    forall tenant, meter
      ensures Excess(now, tenant, meter) ==
              if tenant == p.tenant then SumDue(seen, p.tenant, p.end, meter) - SumDue(s.db.events, p.tenant, p.end, meter) else 0
    {
      IssueExcess(s.db, step.pid, step.plan, registry, seen, tenant, meter);
    }
    if Conserved(now) {
      forall meter
        ensures SumDue(seen, p.tenant, p.end, meter) == SumDue(s.db.events, p.tenant, p.end, meter)
      {
        assert Excess(now, p.tenant, meter) == 0;
      }
    }
  }

  /**
   * Over any run of inserts and closes, of any periods, even overlapping ones:
   * usage is conserved at every point exactly when every close that issued an
   * invoice marked what it gathered.
   */
  lemma {:induction false} UsageConservedIff(states: seq<State>, steps: seq<Step>, n: nat, registry: Registry)
    requires Run(states, steps, registry) && n < |states|
    ensures (forall i :: 0 <= i <= n ==> Conserved(states[i].db)) <==> (forall i :: 0 <= i < n ==> Agrees(states[i], steps[i], registry))
  {
    hide Effect, Conserved, Agrees;
    if n == 0 {
      StartConserved();
    } else {
      UsageConservedIff(states, steps, n - 1, registry);
      assert Next(states[n - 1], steps[n - 1], states[n], registry);
      if Conserved(states[n - 1].db) {
        StepConservesIff(states[n - 1], steps[n - 1], registry);
      }
    }
  }

  lemma StartConserved()
    ensures Conserved(START.db)
  {
  }
}
