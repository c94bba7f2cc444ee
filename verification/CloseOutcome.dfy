/** Exactly when a close issues an invoice, what closing again does, and what can come between. */
module CloseOutcome {
  import opened Int64
  import opened Options
  import opened Amounts
  import Consumer
  import opened Rating
  import opened Ledger
  import opened LedgerStore
  import opened EventTable
  import opened Invoicing
  import opened InvoicingEntry
  import opened InvoicingRuns
  import opened InvoicingMoney

  // ---- the entry always succeeds on lines that are not negative --------------------------------

  /** Every account under a billing name has the kind billing gives it. */
  ghost predicate Charted(books: Books) {
    && (forall tenant :: ReceivableAccount(tenant) in books.accounts ==> books.accounts[ReceivableAccount(tenant)].kind == Asset)
    && (forall meter :: RevenueAccount(meter) in books.accounts ==> books.accounts[RevenueAccount(meter)].kind == Revenue)
  }

  lemma RevenueOpens(books: Books, meter: string)
    requires Charted(books)
    ensures EnsureAccount(books, RevenueAccount(meter), Revenue).Ensured?
    ensures Charted(EnsureAccount(books, RevenueAccount(meter), Revenue).books)
  {
    forall tenant: string
      ensures ReceivableAccount(tenant) != RevenueAccount(meter)
    {
      NamesApart(tenant, meter);
    }
  }

  lemma ReceivableOpens(books: Books, tenant: string)
    requires Charted(books)
    ensures EnsureAccount(books, ReceivableAccount(tenant), Asset).Ensured?
    ensures Charted(EnsureAccount(books, ReceivableAccount(tenant), Asset).books)
  {
    forall meter: string
      ensures ReceivableAccount(tenant) != RevenueAccount(meter)
    {
      NamesApart(tenant, meter);
    }
  }

  ghost predicate Holds(books: Books, id: AccountId) {
    exists name :: name in books.accounts && books.accounts[name].id == id
  }

  /** Transfers that can be posted as they stand. */
  ghost predicate Postable(books: Books, transfers: seq<Transfer>) {
    forall i :: 0 <= i < |transfers| ==>
      ValidTransfer(transfers[i]) && Holds(books, transfers[i].debit) && Holds(books, transfers[i].credit)
  }

  lemma PostableOpens(before: Books, after: Books, transfers: seq<Transfer>)
    requires Opens(before, after) && Postable(before, transfers)
    ensures Postable(after, transfers)
  {
    hide Kept;
    forall id | Holds(before, id)
      ensures Holds(after, id)
    {
      var name :| name in before.accounts && before.accounts[name].id == id;
      assert name in after.accounts && after.accounts[name].id == id;
    }
  }

  ghost predicate Priced(items: seq<LineItem>) {
    forall i :: 0 <= i < |items| ==> items[i].amount >= 0
  }

  lemma LineSucceeds(books: Books, transfers: seq<Transfer>, total: Amount, tenant: string, receivable: AccountId, item: LineItem)
    requires Kept(books) && Charted(books) && Postable(books, transfers)
    requires ReceivableAccount(tenant) in books.accounts && books.accounts[ReceivableAccount(tenant)].id == receivable
    requires item.amount >= 0 && total as int + item.amount as int <= MAX_INT
    ensures var e := AddLine(books, transfers, total, receivable, item);
            e.Entry? && Opens(books, e.books) && Charted(e.books) && Postable(e.books, e.transfers)
  {
    hide EnsureAccount, CheckedAdd, Charted, Kept, Opens, ReceivableAccount, RevenueAccount;
    if item.amount == 0 {
      OpensSelf(books);
    } else {
      var revenue := EnsureAccount(books, RevenueAccount(item.meter), Revenue);
      RevenueOpens(books, item.meter);
      EnsureAccountKeeps(books, RevenueAccount(item.meter), Revenue);
      EnsureOpens(books, RevenueAccount(item.meter), Revenue);
      CheckedAddExact(total, item.amount);
      NamesApart(tenant, item.meter);
      PostableOpens(books, revenue.books, transfers);
      PairPostable(revenue.books, ReceivableAccount(tenant), RevenueAccount(item.meter), item.amount);
    }
  }

  lemma PairPostable(books: Books, debit: string, credit: string, amount: Amount)
    requires Kept(books) && debit in books.accounts && credit in books.accounts && debit != credit && amount > 0
    ensures var t := Transfer(books.accounts[debit].id, books.accounts[credit].id, amount);
            ValidTransfer(t) && Holds(books, t.debit) && Holds(books, t.credit)
  {
  }

  lemma {:induction false} SumAmountsRises(items: seq<LineItem>)
    requires Priced(items)
    ensures SumAmounts(items) >= 0
  {
    if items != [] {
      SumAmountsRises(items[..|items| - 1]);
    }
  }

  lemma {:induction false} EntrySucceeds(books: Books, tenant: string, receivable: AccountId, items: seq<LineItem>)
    requires Kept(books) && Charted(books) && Priced(items) && SumAmounts(items) <= MAX_INT
    requires ReceivableAccount(tenant) in books.accounts && books.accounts[ReceivableAccount(tenant)].id == receivable
    ensures var e := EntryLoop(books, receivable, items);
            e.Entry? && Opens(books, e.books) && Charted(e.books) && Postable(e.books, e.transfers)
  {
    hide Kept, Charted, Opens, AddLine, ReceivableAccount;
    if items == [] {
      OpensSelf(books);
    } else {
      var init, item := items[..|items| - 1], items[|items| - 1];
      SumAmountsRises(init);
      EntrySucceeds(books, tenant, receivable, init);
      var so := EntryLoop(books, receivable, init);
      KeptRange(books, ReceivableAccount(tenant));
      EntryOpens(books, receivable, init);
      OpensBounds(books, so.books);
      OpensFinds(books, so.books, ReceivableAccount(tenant));
      LineSucceeds(so.books, so.transfers, so.total, tenant, receivable, item);
      OpensTwice(books, so.books, EntryLoop(books, receivable, items).books);
    }
  }

  lemma OpensFinds(before: Books, after: Books, name: string)
    requires Opens(before, after) && name in before.accounts
    ensures name in after.accounts && after.accounts[name] == before.accounts[name]
  {
  }

  /** No line is negative when every transfer is valid. */
  lemma {:induction false} ValidMeansPriced(books: Books, receivable: AccountId, items: seq<LineItem>)
    requires EntryLoop(books, receivable, items).Entry?
    requires var ts := EntryLoop(books, receivable, items).transfers;
             forall i :: 0 <= i < |ts| ==> ValidTransfer(ts[i])
    ensures Priced(items)
  {
    hide EnsureAccount, CheckedAdd;
    if items != [] {
      var so, e := EntryLoop(books, receivable, items[..|items| - 1]), EntryLoop(books, receivable, items);
      assert so.transfers <= e.transfers;
      ValidMeansPriced(books, receivable, items[..|items| - 1]);
      if items[|items| - 1].amount != 0 {
        assert ValidTransfer(e.transfers[|so.transfers|]);
      }
    }
  }

  /** A transaction that can be posted is. */
  lemma PostSucceeds(books: Books, key: string, at: Instant, transfers: seq<Transfer>)
    requires Ledger.Acceptable(key, at, transfers) && Postable(books, transfers)
    ensures PostOf(books, Transaction(key, at, PostingsOf(transfers))).Posted?
  {
    hide BalanceOf, PostingsOf;
    var ps := PostingsOf(transfers);
    RunningTotalAlternates(transfers, |ps|);
    assert ps[..|ps|] == ps;
    PostingsInsertable(books, transfers);
  }

  lemma {:induction false} PostingsInsertable(books: Books, transfers: seq<Transfer>)
    requires Postable(books, transfers)
    ensures var ps := PostingsOf(transfers);
            forall i :: 0 <= i < |ps| ==> Insertable(books, ps[i])
  {
    if transfers != [] {
      var init, t := transfers[..|transfers| - 1], transfers[|transfers| - 1];
      PostingsInsertable(books, init);
      assert ValidTransfer(t) && Holds(books, t.debit) && Holds(books, t.credit);
      assert PostingsOf(transfers) == PostingsOf(init) + [Posting(t.debit, t.amount), Posting(t.credit, -t.amount)];
    }
  }

  // ---- when a close issues an invoice ----------------------------------------------------------

  /** The lines fit an invoice: none negative, not all zero, and their sum in range. */
  ghost predicate Billable(items: seq<LineItem>) {
    Priced(items) && 0 < SumAmounts(items) <= MAX_INT
  }

  lemma IssueSucceeds(db: Database, pid: nat, items: seq<LineItem>)
    requires Kept(db.books) && Charted(db.books) && pid < |db.periods| && InvoiceFor(db.invoices, pid).None?
    requires Billable(items) && db.periods[pid].start != NEVER
    ensures Issue(db, pid, items).Issued?
    ensures EntryOf(db.books, db.periods[pid].tenant, items).Entry? && Charted(EntryOf(db.books, db.periods[pid].tenant, items).books)
  {
    hide EnsureAccount, EntryLoop, InvoiceFor, Mark, PostOf, Kept, Charted, PostingsOf, ReceivableAccount;
    var p := db.periods[pid];
    ReceivableOpens(db.books, p.tenant);
    EnsureAccountKeeps(db.books, ReceivableAccount(p.tenant), Asset);
    var ensured := EnsureAccount(db.books, ReceivableAccount(p.tenant), Asset);
    EntrySucceeds(ensured.books, p.tenant, ensured.id, items);
    EntryTotal(ensured.books, ensured.id, items);
    EntryIsExact(db.books, p.tenant, items, "");
    var e := EntryOf(db.books, p.tenant, items);
    PostSucceeds(e.books, TransactionKey(p.tenant, p.name), p.start, e.transfers);
  }

  lemma IssueNeeds(db: Database, pid: nat, items: seq<LineItem>)
    requires Kept(db.books) && pid < |db.periods| && Issue(db, pid, items).Issued?
    ensures Billable(items) && db.periods[pid].start != NEVER && InvoiceFor(db.invoices, pid).None?
  {
    hide EnsureAccount, EntryLoop, InvoiceFor, Mark, PostOf, Kept, PostingsOf, ReceivableAccount;
    var p := db.periods[pid];
    var ensured := EnsureAccount(db.books, ReceivableAccount(p.tenant), Asset);
    ValidMeansPriced(ensured.books, ensured.id, items);
    IssueTotal(db, pid, items);
  }

  /** Every sum can be read, every meter priced, and the lines fit an invoice. */
  ghost predicate Chargeable(seen: Rows, p: Period, plan: Plan, registry: Registry) {
    Readable(seen, p.tenant, p.end)
    && (GatherIsExact(seen, p.tenant, p.end);
        var usages := Gathered(seen, p.tenant, p.end).value;
        Priceable(usages, plan, registry)
        && (RateIsBill(usages, plan, registry);
            Billable(RateOf(usages, plan, registry).items)))
  }

  /**
   * An open period is closed into an invoice exactly when its sums can be read
   * and priced, no line is negative, the lines do not all come to nothing, and
   * their total fits an amount.
   */
  lemma CloseIssuesIff(db: Database, pid: nat, plan: Plan, registry: Registry, seen: Rows)
    requires Shape(db) && Kept(db.books) && Charted(db.books) && pid < |db.periods| && !db.periods[pid].closed
    ensures var p := db.periods[pid];
            CloseOf(db, pid, plan, registry, seen).Issued? <==> p.start != NEVER && Chargeable(seen, p, plan, registry)
  {
    hide Issue, Gathered, RateOf, InvoiceFor, Kept, Charted, Readable, Priceable, Billable;
    var p := db.periods[pid];
    OpenHasNoInvoice(db, pid);
    GatherIsExact(seen, p.tenant, p.end);
    if Readable(seen, p.tenant, p.end) {
      var usages := Gathered(seen, p.tenant, p.end).value;
      RateIsBill(usages, plan, registry);
      if Priceable(usages, plan, registry) {
        var items := RateOf(usages, plan, registry).items;
        if usages == [] {
          NoUsageNoLines(items, plan);
        } else if Billable(items) && p.start != NEVER {
          IssueSucceeds(db, pid, items);
        } else if Issue(db, pid, items).Issued? {
          IssueNeeds(db, pid, items);
        }
      }
    }
  }

  predicate AllZero(items: seq<LineItem>) {
    forall i :: 0 <= i < |items| ==> items[i].amount == 0
  }

  /** A line that is not zero makes a transfer, or the entry fails. */
  lemma {:induction false} NoTransfersIff(books: Books, receivable: AccountId, items: seq<LineItem>)
    ensures var e := EntryLoop(books, receivable, items);
            e.Entry? && e.transfers == [] <==> AllZero(items)
  {
    hide EnsureAccount, CheckedAdd;
    if items != [] {
      NoTransfersIff(books, receivable, items[..|items| - 1]);
    }
  }

  lemma IssueNothingIff(db: Database, pid: nat, items: seq<LineItem>)
    requires Kept(db.books) && Charted(db.books) && pid < |db.periods|
    ensures Issue(db, pid, items) == Stopped(NothingToBill) <==> AllZero(items)
  {
    hide EnsureAccount, EntryLoop, InvoiceFor, Mark, PostOf, Kept, Charted, PostingsOf, AllZero;
    var tenant := db.periods[pid].tenant;
    ReceivableOpens(db.books, tenant);
    var ensured := EnsureAccount(db.books, ReceivableAccount(tenant), Asset);
    NoTransfersIff(ensured.books, ensured.id, items);
  }

  /** Closing an open period finds nothing to bill exactly when no usage is due, or all that is due costs nothing. */
  lemma NothingToBillIff(db: Database, pid: nat, plan: Plan, registry: Registry, seen: Rows)
    requires Kept(db.books) && Charted(db.books) && pid < |db.periods| && !db.periods[pid].closed
    ensures var p := db.periods[pid];
            CloseOf(db, pid, plan, registry, seen) == Stopped(NothingToBill) <==>
              && Gathered(seen, p.tenant, p.end).Some?
              && (|| (forall i :: 0 <= i < |seen| ==>
                        !(seen[i].event.tenant == p.tenant && seen[i].event.occurred < p.end && seen[i].invoice.None?))
                  || (RateOf(Gathered(seen, p.tenant, p.end).value, plan, registry).Rated?
                      && AllZero(RateOf(Gathered(seen, p.tenant, p.end).value, plan, registry).items)))
  {
    hide Issue, Gathered, RateOf, InvoiceFor, Kept, Charted, Readable, AllZero, MetersDue;
    var p := db.periods[pid];
    GatherIsExact(seen, p.tenant, p.end);
    if Readable(seen, p.tenant, p.end) {
      var usages := Gathered(seen, p.tenant, p.end).value;
      NoneDueIff(seen, p.tenant, p.end);
      NoneNamedIff(usages);
      if RateOf(usages, plan, registry).Rated? {
        IssueNothingIff(db, pid, RateOf(usages, plan, registry).items);
      }
    }
  }

  lemma NoneDueIff(rows: Rows, tenant: string, end: Instant)
    ensures MetersDue(rows, tenant, end) == {} <==>
            forall i :: 0 <= i < |rows| ==>
              !(rows[i].event.tenant == tenant && rows[i].event.occurred < end && rows[i].invoice.None?)
  {
    if i :| 0 <= i < |rows| && Due(rows[i], tenant, end) {
      assert rows[i] in rows;
      assert rows[i].event.meter in MetersDue(rows, tenant, end);
    }
  }

  lemma NoneNamedIff(usages: seq<Usage>)
    ensures Named(usages) == {} <==> usages == []
  {
    if usages != [] {
      assert usages[0] in usages;
      assert usages[0].meter in Named(usages);
    }
  }

  lemma NoUsageNoLines(items: seq<LineItem>, plan: Plan)
    requires IsBill(items, [], plan)
    ensures !Billable(items)
  {
    assert forall i :: 0 <= i < |items| ==> items[i].meter in Named([]);
  }

  lemma OpenHasNoInvoice(db: Database, pid: nat)
    requires Shape(db) && pid < |db.periods| && !db.periods[pid].closed
    ensures InvoiceFor(db.invoices, pid).None?
  {
    hide InvoiceFor;
  }

  // ---- closing again -----------------------------------------------------------------------------

  /** A closed period gives back the one invoice it has and writes nothing, whatever it is closed with. */
  lemma CloseAgain(db: Database, pid: nat, plan: Plan, registry: Registry, seen: Rows, again: Plan, later: Rows)
    requires CloseOf(db, pid, plan, registry, seen).Issued?
    ensures var r := CloseOf(db, pid, plan, registry, seen);
            CloseOf(r.db, pid, again, registry, later) == AlreadyClosed(r.invoice)
  {
    hide Issue, Gathered, RateOf, InvoiceFor, Mark;
    IssuedIs(db, pid, plan, registry, seen);
    InvoiceForAppended(db.invoices, CloseOf(db, pid, plan, registry, seen).invoice, pid);
  }

  /** And so it does at any later point of any run. */
  lemma ClosedStaysClosed(states: seq<State>, steps: seq<Step>, i: nat, j: nat, registry: Registry, k: nat, plan: Plan, seen: Rows)
    requires Run(states, steps, registry) && i <= j < |states| && k < |states[i].db.invoices|
    ensures var invoice := states[i].db.invoices[k];
            CloseOf(states[j].db, invoice.period, plan, registry, seen) == AlreadyClosed(invoice)
  {
    hide Effect, Next, InvoiceFor, Issue, Gathered, RateOf, Mark;
    RunGrows(states, steps, i, j, registry);
    RunKeepsShape(states, steps, j, registry);
    var db, invoice := states[j].db, states[i].db.invoices[k];
    assert db.invoices[k] == invoice;
    TheInvoice(db, k);
  }

  lemma TheInvoice(db: Database, k: nat)
    requires Shape(db) && k < |db.invoices|
    ensures db.invoices[k].period < |db.periods| && db.periods[db.invoices[k].period].closed
    ensures InvoiceFor(db.invoices, db.invoices[k].period) == Some(db.invoices[k])
  {
    hide InvoiceFor, Stamped, NamesUnique;
    var r := InvoiceFor(db.invoices, db.invoices[k].period);
    assert r.Some?;
    var j :| 0 <= j < |db.invoices| && db.invoices[j] == r.value;
  }

  /** A successful close bills every unbilled event of the tenant from before the period's end, and touches no other. */
  lemma NothingLeftDue(db: Database, pid: nat, plan: Plan, registry: Registry, seen: Rows)
    requires CloseOf(db, pid, plan, registry, seen).Issued?
    ensures pid < |db.periods|
    ensures var p, r := db.periods[pid], CloseOf(db, pid, plan, registry, seen);
            && |r.db.events| == |db.events|
            && forall i :: 0 <= i < |r.db.events| ==>
                 var row, now := db.events[i], r.db.events[i];
                 && now.event == row.event
                 && now.invoice == if row.event.tenant == p.tenant && row.event.occurred < p.end && row.invoice.None?
                                   then Some(|db.invoices|) else row.invoice
  {
    hide CloseOf, Issue, Gathered, RateOf, InvoiceFor;
    IssuedIs(db, pid, plan, registry, seen);
  }

  // ---- the books in every run ----------------------------------------------------------------------

  lemma IssueKeepsChart(db: Database, pid: nat, items: seq<LineItem>)
    requires Kept(db.books) && Charted(db.books) && pid < |db.periods| && Issue(db, pid, items).Issued?
    ensures Kept(Issue(db, pid, items).db.books) && Charted(Issue(db, pid, items).db.books)
  {
    hide EntryOf, InvoiceFor, Mark, Kept, PostingsOf, BalanceOf, Billable, Charted;
    IssueNeeds(db, pid, items);
    IssueSucceeds(db, pid, items);
    IssueMoves(db, pid, items, "");
    IssueAccounts(db, pid, items);
    SameChart(EntryOf(db.books, db.periods[pid].tenant, items).books, Issue(db, pid, items).db.books);
  }

  lemma IssueAccounts(db: Database, pid: nat, items: seq<LineItem>)
    requires pid < |db.periods| && Issue(db, pid, items).Issued?
    ensures EntryOf(db.books, db.periods[pid].tenant, items).Entry?
    ensures Issue(db, pid, items).db.books.accounts == EntryOf(db.books, db.periods[pid].tenant, items).books.accounts
  {
    hide EntryOf, InvoiceFor, Mark, PostingsOf, BalanceOf;
  }

  lemma SameChart(a: Books, b: Books)
    requires Charted(a) && a.accounts == b.accounts
    ensures Charted(b)
  {
  }

  lemma {:induction false} RunKeepsBooks(states: seq<State>, steps: seq<Step>, n: nat, registry: Registry)
    requires Run(states, steps, registry) && n < |states|
    ensures Kept(states[n].db.books) && Charted(states[n].db.books)
  {
    hide CloseOf, Issue, Kept, Charted, Gathered, RateOf, InvoiceFor, Mark, EnsurePeriodOf;
    if n == 0 {
      StartCharted();
    } else {
      RunKeepsBooks(states, steps, n - 1, registry);
      var s, step := states[n - 1], steps[n - 1];
      assert Next(s, step, states[n], registry);
      if Issues(s, step, registry) {
        IssuedIs(s.db, step.pid, step.plan, registry, s.gathering[step.pid]);
        IssueKeepsChart(s.db, step.pid, CloseOf(s.db, step.pid, step.plan, registry, s.gathering[step.pid]).invoice.lines);
      }
    }
  }

  /** In every run each invoice can be traced to its ledger transaction by its period's key. */
  lemma {:induction false} RunIsTraced(states: seq<State>, steps: seq<Step>, n: nat, registry: Registry)
    requires Run(states, steps, registry) && n < |states|
    ensures Traced(states[n].db)
  {
    hide Effect, Kept, Charted, Traced, Grown;
    if n == 0 {
      StartTraced();
    } else {
      RunIsTraced(states, steps, n - 1, registry);
      RunKeepsBooks(states, steps, n - 1, registry);
      assert Next(states[n - 1], steps[n - 1], states[n], registry);
      StepGrows(states[n - 1], steps[n - 1], registry);
      StepKeepsTrace(states[n - 1], steps[n - 1], registry);
    }
  }

  lemma StartTraced()
    ensures Traced(START.db)
  {
  }

  lemma StartCharted()
    ensures Kept(START.db.books) && Charted(START.db.books)
  {
  }

  // ---- what can come between gathering and marking -----------------------------------------------------

  /** No row that is due has come, gone or changed since it was gathered. */
  ghost predicate Undisturbed(seen: Rows, now: Rows, tenant: string, end: Instant) {
    && |seen| <= |now|
    && (forall i :: 0 <= i < |seen| ==> seen[i] == now[i] || (!Due(seen[i], tenant, end) && !Due(now[i], tenant, end)))
    && (forall i :: |seen| <= i < |now| ==> !Due(now[i], tenant, end))
  }

  lemma {:induction false} UndisturbedSums(seen: Rows, now: Rows, tenant: string, end: Instant, meter: string)
    requires Undisturbed(seen, now, tenant, end)
    ensures SumDue(seen, tenant, end, meter) == SumDue(now, tenant, end, meter)
  {
    if |seen| < |now| {
      UndisturbedSums(seen, now[..|now| - 1], tenant, end, meter);
    } else if seen != [] {
      UndisturbedSums(seen[..|seen| - 1], now[..|now| - 1], tenant, end, meter);
    }
  }

  /** A close that nothing came between conserves usage. */
  lemma UndisturbedAgrees(s: State, step: Step, registry: Registry)
    requires Issues(s, step, registry) && step.pid < |s.db.periods|
    requires var p := s.db.periods[step.pid]; Undisturbed(s.gathering[step.pid], s.db.events, p.tenant, p.end)
    ensures Agrees(s, step, registry)
  {
    hide CloseOf, Undisturbed, SumDue;
    var p := s.db.periods[step.pid];
    forall meter
      ensures SumDue(s.gathering[step.pid], p.tenant, p.end, meter) == SumDue(s.db.events, p.tenant, p.end, meter)
    {
      UndisturbedSums(s.gathering[step.pid], s.db.events, p.tenant, p.end, meter);
    }
  }

  /** An event that lands between gathering and marking is marked and billed to nobody. */
  lemma ArrivalIsLost(db: Database, event: Consumer.Event, pid: nat, plan: Plan, registry: Registry)
    requires pid < |db.periods| && event.tenant == db.periods[pid].tenant && event.occurred < db.periods[pid].end
    requires CloseOf(db.(events := db.events + [EventTable.Row(event, None)]), pid, plan, registry, db.events).Issued?
    ensures var r := CloseOf(db.(events := db.events + [EventTable.Row(event, None)]), pid, plan, registry, db.events);
            Excess(r.db, event.tenant, event.meter) == Excess(db, event.tenant, event.meter) - event.quantity
  {
    hide CloseOf, Invoiced;
    var row := EventTable.Row(event, None);
    var now := db.(events := db.events + [row]);
    assert now.events[..|db.events|] == db.events;
    IssueExcess(now, pid, plan, registry, db.events, event.tenant, event.meter);
  }

  lemma {:induction false} MarkedNotDue(rows: Rows, tenant: string, end: Instant, invoice: nat, sooner: Instant, meter: string)
    requires sooner <= end
    ensures SumDue(Mark(rows, tenant, end, invoice), tenant, sooner, meter) == 0
  {
    if rows != [] {
      MarkSnoc(rows, tenant, end, invoice);
      MarkedNotDue(rows[..|rows| - 1], tenant, end, invoice, sooner, meter);
    }
  }

  /**
   * Two closes of one tenant that gather the same rows: the period lock is not
   * shared, so the one that commits second bills over again all it gathered.
   */
  lemma OverlappingClosesBillTwice(db: Database, a: nat, planA: Plan, b: nat, planB: Plan, registry: Registry, meter: string)
    requires CloseOf(db, a, planA, registry, db.events).Issued?
    requires CloseOf(CloseOf(db, a, planA, registry, db.events).db, b, planB, registry, db.events).Issued?
    requires a < |db.periods| && b < |db.periods| && db.periods[a].tenant == db.periods[b].tenant && db.periods[b].end <= db.periods[a].end
    ensures var p, first := db.periods[b], CloseOf(db, a, planA, registry, db.events);
            var second := CloseOf(first.db, b, planB, registry, db.events);
            Excess(second.db, p.tenant, meter) == Excess(db, p.tenant, meter) + SumDue(db.events, p.tenant, p.end, meter)
  {
    hide CloseOf, Issue, Excess, SumDue, Mark, Gathered, RateOf, InvoiceFor;
    var first := CloseOf(db, a, planA, registry, db.events);
    var p := db.periods[a];
    IssuedIs(db, a, planA, registry, db.events);
    IssuedIs(first.db, b, planB, registry, db.events);
    IssueExcess(db, a, planA, registry, db.events, p.tenant, meter);
    IssueExcess(first.db, b, planB, registry, db.events, p.tenant, meter);
    MarkedNotDue(db.events, p.tenant, p.end, |db.invoices|, db.periods[b].end, meter);
  }
}
