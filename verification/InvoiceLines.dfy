/** Invoice by invoice: its lines are the events stamped with it. */
module InvoiceLines {
  import opened Options
  import Consumer
  import opened Rating
  import opened Ledger
  import opened EventTable
  import opened Invoicing
  import opened InvoicingRuns

  /** The usage of a meter on the rows stamped with one invoice. */
  function StampedSum(rows: Rows, invoice: nat, meter: string): int {
    if rows == [] then 0
    else
      var row := rows[|rows| - 1];
      StampedSum(rows[..|rows| - 1], invoice, meter)
      + if row.invoice == Some(invoice) && row.event.meter == meter then row.event.quantity else 0
  }

  /** Every invoice carries, meter by meter, exactly the events stamped with it. */
  ghost predicate Itemised(db: Database) {
    forall k, meter :: 0 <= k < |db.invoices| ==> StampedSum(db.events, k, meter) == OnLines(db.invoices[k].lines, meter)
  }

  /** Marking stamps what is due with the new invoice and restamps nothing. */
  lemma {:induction false} MarkStamps(rows: Rows, tenant: string, end: Instant, invoice: nat, k: nat, meter: string)
    ensures StampedSum(Mark(rows, tenant, end, invoice), k, meter) ==
            StampedSum(rows, k, meter) + if k == invoice then SumDue(rows, tenant, end, meter) else 0
  {
    if rows != [] {
      MarkSnoc(rows, tenant, end, invoice);
      MarkStamps(rows[..|rows| - 1], tenant, end, invoice, k, meter);
    }
  }

  lemma {:induction false} NoneStamped(rows: Rows, invoice: nat, meter: string)
    requires forall i :: 0 <= i < |rows| && rows[i].invoice.Some? ==> rows[i].invoice.value < invoice
    ensures StampedSum(rows, invoice, meter) == 0
  {
    if rows != [] {
      NoneStamped(rows[..|rows| - 1], invoice, meter);
    }
  }

  lemma IssueStamps(db: Database, pid: nat, plan: Plan, registry: Registry, seen: Rows, k: nat, meter: string)
    requires Shape(db) && CloseOf(db, pid, plan, registry, seen).Issued? && k <= |db.invoices|
    ensures pid < |db.periods|
    ensures var p, r := db.periods[pid], CloseOf(db, pid, plan, registry, seen);
            && |r.db.invoices| == |db.invoices| + 1
            && StampedSum(r.db.events, k, meter) - OnLines(r.db.invoices[k].lines, meter) ==
               if k < |db.invoices| then StampedSum(db.events, k, meter) - OnLines(db.invoices[k].lines, meter)
               else SumDue(db.events, p.tenant, p.end, meter) - SumDue(seen, p.tenant, p.end, meter)
  {
    hide CloseOf, Issue, Mark, InvoiceFor, Gathered, RateOf, OnLines, SumDue, StampedSum, Matched, NamesUnique;
    IssuedIs(db, pid, plan, registry, seen);
    var p, r := db.periods[pid], CloseOf(db, pid, plan, registry, seen);
    MarkStamps(db.events, p.tenant, p.end, |db.invoices|, k, meter);
    if k == |db.invoices| {
      NoneStamped(db.events, k, meter);
      LinesCarryWhatWasSeen(seen, p, plan, registry, r.invoice.lines, meter);
    }
  }

  lemma IssueItemisedIff(s: State, step: Step, registry: Registry)
    requires Shape(s.db) && Itemised(s.db) && Issues(s, step, registry)
    ensures Itemised(Effect(s, step, registry)) <==> Agrees(s, step, registry)
  {
    hide CloseOf, SumDue, StampedSum, OnLines, Shape;
    var db, seen, last := s.db, s.gathering[step.pid], |s.db.invoices|;
    var now := Effect(s, step, registry);
    IssueStamps(db, step.pid, step.plan, registry, seen, last, "");
    var p := db.periods[step.pid];
    forall k, meter | 0 <= k <= last
      ensures StampedSum(now.events, k, meter) - OnLines(now.invoices[k].lines, meter) ==
              if k < last then 0 else SumDue(db.events, p.tenant, p.end, meter) - SumDue(seen, p.tenant, p.end, meter)
    {
      IssueStamps(db, step.pid, step.plan, registry, seen, k, meter);
    }
    if Itemised(now) {
      forall meter
        ensures SumDue(seen, p.tenant, p.end, meter) == SumDue(db.events, p.tenant, p.end, meter)
      {
        assert StampedSum(now.events, last, meter) == OnLines(now.invoices[last].lines, meter);
      }
    }
  }

  lemma InsertItemised(db: Database, event: Consumer.Event)
    requires Itemised(db)
    ensures Itemised(db.(events := db.events + [EventTable.Row(event, None)]))
  {
    hide OnLines;
    var rows := db.events + [EventTable.Row(event, None)];
    assert rows[..|db.events|] == db.events;
  }

  lemma StepItemisedIff(s: State, step: Step, registry: Registry)
    requires Shape(s.db) && Itemised(s.db)
    ensures Itemised(Effect(s, step, registry)) <==> Agrees(s, step, registry)
  {
    hide CloseOf, SumDue, StampedSum, OnLines, Shape;
    if Issues(s, step, registry) {
      IssueItemisedIff(s, step, registry);
    } else if step.Insert? {
      InsertItemised(s.db, step.event);
    }
  }

  /**
   * Over any run: at every point each invoice carries exactly the events stamped
   * with it, if and only if every issuing close marked what it gathered.
   */
  lemma {:induction false} InvoicesItemisedIff(states: seq<State>, steps: seq<Step>, n: nat, registry: Registry)
    requires Run(states, steps, registry) && n < |states|
    ensures (forall i :: 0 <= i <= n ==> Itemised(states[i].db)) <==> (forall i :: 0 <= i < n ==> Agrees(states[i], steps[i], registry))
  {
    hide Effect, Itemised, Agrees, Shape;
    if n == 0 {
      StartItemised();
    } else {
      InvoicesItemisedIff(states, steps, n - 1, registry);
      RunKeepsShape(states, steps, n - 1, registry);
      assert Next(states[n - 1], steps[n - 1], states[n], registry);
      if Itemised(states[n - 1].db) {
        StepItemisedIff(states[n - 1], steps[n - 1], registry);
      }
    }
  }

  lemma StartItemised()
    ensures Itemised(START.db)
  {
  }
}
