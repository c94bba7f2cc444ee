/** Over whole runs, the ledger agrees with the invoices. */
module InvoicingMoney {
  import opened Int64
  import opened Options
  import opened Amounts
  import opened Rating
  import opened Ledger
  import opened LedgerStore
  import opened EventTable
  import opened Invoicing
  import opened InvoicingEntry
  import opened InvoicingRuns

  // ---- transaction keys ------------------------------------------------------------------

  predicate ColonFree(s: string) {
    ':' !in s
  }

  /**
   * Two periods share a transaction key exactly when they are the same or one
   * tenant is the other with a colon and more after it, made up for in the name.
   */
  lemma KeysCollideIff(a: string, x: string, b: string, y: string)
    requires |a| <= |b|
    ensures TransactionKey(a, x) == TransactionKey(b, y) <==>
            (a == b && x == y) || (|a| < |b| && a == b[..|a|] && b[|a|] == ':' && x == b[|a| + 1..] + ":" + y)
  {
    var s, t := a + ":" + x, b + ":" + y;
    assert TransactionKey(a, x) == "usage:" + s && TransactionKey(b, y) == "usage:" + t;
    assert TransactionKey(a, x)[6..] == s && TransactionKey(b, y)[6..] == t;
    if s == t {
      assert s[..|a|] == a && t[..|a|] == b[..|a|];
      assert s[|a|] == ':' && s[|a| + 1..] == x;
      if |a| == |b| {
        assert t[|a| + 1..] == y;
      } else {
        assert t[|a|] == b[|a|] && t[|a| + 1..] == b[|a| + 1..] + ":" + y;
      }
    }
    if |a| < |b| && a == b[..|a|] && b[|a|] == ':' {
      assert b == a + ":" + b[|a| + 1..];
      assert t == a + ":" + (b[|a| + 1..] + ":" + y);
    }
  }

  lemma KeysInjective(a: string, x: string, b: string, y: string)
    requires ColonFree(a) && ColonFree(b) && TransactionKey(a, x) == TransactionKey(b, y)
    ensures a == b && x == y
  {
    hide TransactionKey;
    if |a| <= |b| {
      KeysCollideIff(a, x, b, y);
    } else {
      KeysCollideIff(b, y, a, x);
    }
  }

  lemma KeysCanCollide()
    ensures TransactionKey("a", "b:c") == TransactionKey("a:b", "c")
  {
    KeysCollideIff("a", "b:c", "a:b", "c");
  }

  // ---- one close -------------------------------------------------------------------------

  function SumTransfers(transfers: seq<Transfer>): int {
    if transfers == [] then 0 else SumTransfers(transfers[..|transfers| - 1]) + transfers[|transfers| - 1].amount as int
  }

  lemma {:induction false} SumTransfersPositive(transfers: seq<Transfer>)
    requires forall i :: 0 <= i < |transfers| ==> ValidTransfer(transfers[i])
    ensures SumTransfers(transfers) >= |transfers|
  {
    if transfers != [] {
      SumTransfersPositive(transfers[..|transfers| - 1]);
      assert ValidTransfer(transfers[|transfers| - 1]);
    }
  }

  lemma {:induction false} EntryTotal(books: Books, receivable: AccountId, items: seq<LineItem>)
    requires EntryLoop(books, receivable, items).Entry?
    ensures SumTransfers(EntryLoop(books, receivable, items).transfers) == EntryLoop(books, receivable, items).total
  {
    hide EnsureAccount, CheckedAdd;
    if items != [] {
      var so, item := EntryLoop(books, receivable, items[..|items| - 1]), items[|items| - 1];
      EntryTotal(books, receivable, items[..|items| - 1]);
      if item.amount != 0 {
        CheckedAddExact(so.total, item.amount);
        var e := EntryLoop(books, receivable, items);
        assert e.transfers[..|so.transfers|] == so.transfers;
      }
    }
  }

  ghost function KeyOf(p: Period): string {
    TransactionKey(p.tenant, p.name)
  }

  /** Posting on top of an entry: each named account moves by its due, if the key is new, else not at all. */
  lemma PostNamed(books: Books, key: string, at: Instant, transfers: seq<Transfer>, name: string)
    requires Kept(books) && Within(transfers, |books.accounts|) && Ledger.Acceptable(key, at, transfers)
    requires PostOf(books, Transaction(key, at, PostingsOf(transfers))).Posted?
    ensures var r := PostOf(books, Transaction(key, at, PostingsOf(transfers)));
            && r.books.accounts == books.accounts && r.books.keys.Keys == books.keys.Keys + {key}
            && LedgerStore.Balance(r.books, name) ==
               LedgerStore.Balance(books, name) + if key in books.keys then 0 else NetNamed(books, transfers, name)
  {
    hide BalanceOf, Kept, Within, PostingsOf, AccountBalance, Net;
    if key !in books.keys && name in books.accounts {
      PostMoves(books, key, at, transfers, books.accounts[name].id);
    }
  }

  lemma PostKept(books: Books, key: string, at: Instant, transfers: seq<Transfer>)
    requires Kept(books) && Within(transfers, |books.accounts|) && Ledger.Acceptable(key, at, transfers)
    requires PostOf(books, Transaction(key, at, PostingsOf(transfers))).Posted?
    ensures Kept(PostOf(books, Transaction(key, at, PostingsOf(transfers))).books)
  {
    hide BalanceOf, Insertable, PostingsOf, RowsOf;
    var ps := PostingsOf(transfers);
    var r := PostOf(books, Transaction(key, at, ps));
    if key !in books.keys {
      RowsAre(r.id, ps);
      PostingsWithin(transfers, |books.accounts|);
      assert r.books.rows == books.rows + RowsOf(r.id, ps);
    }
  }

  lemma {:induction false} RowsAre(id: nat, ps: seq<Posting>)
    ensures forall i :: 0 <= i < |ps| ==> RowsOf(id, ps)[i] == LedgerStore.Row(id, ps[i].account, ps[i].amount)
  {
    if ps != [] {
      RowsAre(id, ps[..|ps| - 1]);
    }
  }

  lemma {:induction false} PostingsWithin(transfers: seq<Transfer>, n: nat)
    requires Within(transfers, n) && forall i :: 0 <= i < |transfers| ==> ValidTransfer(transfers[i])
    ensures var ps := PostingsOf(transfers);
            forall i :: 0 <= i < |ps| ==> 1 <= ps[i].account <= n
  {
    if transfers != [] {
      var init, t := transfers[..|transfers| - 1], transfers[|transfers| - 1];
      PostingsWithin(init, n);
      assert ValidTransfer(t);
      assert PostingsOf(transfers) == PostingsOf(init) + [Posting(t.debit, t.amount), Posting(t.credit, -t.amount)];
    }
  }

  /** What issuing does to the books: the whole charge under a new key, nothing under an old one. */
  lemma IssueMoves(db: Database, pid: nat, items: seq<LineItem>, name: string)
    requires Kept(db.books) && pid < |db.periods| && Issue(db, pid, items).Issued?
    ensures var p, r := db.periods[pid], Issue(db, pid, items);
            && Kept(r.db.books) && r.db.books.keys.Keys == db.books.keys.Keys + {KeyOf(p)}
            && TrialBalance(r.db.books.rows) == TrialBalance(db.books.rows)
            && LedgerStore.Balance(r.db.books, name) ==
               LedgerStore.Balance(db.books, name) + if KeyOf(p) in db.books.keys then 0 else Charge(p.tenant, items, name)
  {
    hide EntryOf, PostOf, InvoiceFor, TransactionKey, Mark, PostingsOf, Kept, Within, NetNamed, Charge, Opens;
    var p := db.periods[pid];
    var e := EntryOf(db.books, p.tenant, items);
    EntryIsExact(db.books, p.tenant, items, name);
    OpensKeepsBalance(db.books, e.books, name);
    OpensBounds(db.books, e.books);
    OpensTables(db.books, e.books);
    PostNamed(e.books, KeyOf(p), p.start, e.transfers, name);
    PostKept(e.books, KeyOf(p), p.start, e.transfers);
    PostKeepsTrialBalance(e.books, Transaction(KeyOf(p), p.start, PostingsOf(e.transfers)));
  }

  lemma OpensTables(before: Books, after: Books)
    requires Opens(before, after)
    ensures after.rows == before.rows && after.keys == before.keys
  {
  }

  /** An invoice is for more than nothing, and its total is the sum of its lines. */
  lemma IssueTotal(db: Database, pid: nat, items: seq<LineItem>)
    requires Kept(db.books) && pid < |db.periods| && Issue(db, pid, items).Issued?
    ensures var r := Issue(db, pid, items);
            r.invoice.lines == items && r.invoice.total == SumAmounts(items) && r.invoice.total > 0
  {
    hide PostOf, InvoiceFor, TransactionKey, Mark, PostingsOf, Kept, EntryLoop, EnsureAccount;
    var p := db.periods[pid];
    EntryIsExact(db.books, p.tenant, items, "");
    var ensured := EnsureAccount(db.books, ReceivableAccount(p.tenant), Asset);
    EntryTotal(ensured.books, ensured.id, items);
    SumTransfersPositive(EntryOf(db.books, p.tenant, items).transfers);
  }

  // ---- the ledger and the invoices -----------------------------------------------------------

  function AmountOn(items: seq<LineItem>, meter: string): int {
    if items == [] then 0
    else
      var item := items[|items| - 1];
      AmountOn(items[..|items| - 1], meter) + if item.meter == meter then item.amount as int else 0
  }

  lemma {:induction false} ShareIsAmountOn(items: seq<LineItem>, meter: string)
    ensures Share(items, RevenueAccount(meter)) == AmountOn(items, meter)
  {
    if items != [] {
      ShareIsAmountOn(items[..|items| - 1], meter);
      NamesInjective(items[|items| - 1].meter, meter);
    }
  }

  /** The totals of a tenant's invoices. */
  function Owed(invoices: seq<Invoice>, tenant: string): int {
    if invoices == [] then 0
    else
      var invoice := invoices[|invoices| - 1];
      Owed(invoices[..|invoices| - 1], tenant) + if invoice.tenant == tenant then invoice.total as int else 0
  }

  /** The amounts of a meter's lines, on all invoices. */
  function Earned(invoices: seq<Invoice>, meter: string): int {
    if invoices == [] then 0
    else Earned(invoices[..|invoices| - 1], meter) + AmountOn(invoices[|invoices| - 1].lines, meter)
  }

  ghost predicate ReceivablesAgree(db: Database) {
    forall tenant :: LedgerStore.Balance(db.books, ReceivableAccount(tenant)) == Owed(db.invoices, tenant)
  }

  ghost predicate RevenuesAgree(db: Database) {
    forall meter :: LedgerStore.Balance(db.books, RevenueAccount(meter)) == -Earned(db.invoices, meter)
  }

  ghost predicate TotalsAgree(db: Database) {
    forall k :: 0 <= k < |db.invoices| ==> db.invoices[k].total == SumAmounts(db.invoices[k].lines)
  }

  /** The books are kept and balance, and account by account they say what the invoices say. */
  ghost predicate Agree(db: Database) {
    Kept(db.books) && TrialBalance(db.books.rows) == 0 && ReceivablesAgree(db) && RevenuesAgree(db) && TotalsAgree(db)
  }

  lemma OwedSnoc(invoices: seq<Invoice>, invoice: Invoice, tenant: string)
    ensures Owed(invoices + [invoice], tenant) == Owed(invoices, tenant) + if invoice.tenant == tenant then invoice.total as int else 0
  {
    assert (invoices + [invoice])[..|invoices|] == invoices;
  }

  lemma EarnedSnoc(invoices: seq<Invoice>, invoice: Invoice, meter: string)
    ensures Earned(invoices + [invoice], meter) == Earned(invoices, meter) + AmountOn(invoice.lines, meter)
  {
    assert (invoices + [invoice])[..|invoices|] == invoices;
  }

  /** Under a new key a close keeps each receivable equal to what its tenant was invoiced. */
  lemma IssueReceivable(db: Database, pid: nat, items: seq<LineItem>, tenant: string)
    requires Kept(db.books) && pid < |db.periods| && Issue(db, pid, items).Issued?
    ensures var p, r := db.periods[pid], Issue(db, pid, items);
            LedgerStore.Balance(r.db.books, ReceivableAccount(tenant)) - Owed(r.db.invoices, tenant) ==
            LedgerStore.Balance(db.books, ReceivableAccount(tenant)) - Owed(db.invoices, tenant)
            - if tenant == p.tenant && KeyOf(p) in db.books.keys then r.invoice.total as int else 0
  {
    hide EntryOf, PostOf, InvoiceFor, TransactionKey, Mark, PostingsOf, Kept, LedgerStore.Balance, Share, SumAmounts,
      ReceivableAccount, Ledger.Acceptable;
    var r := Issue(db, pid, items);
    IssueMoves(db, pid, items, ReceivableAccount(tenant));
    IssueTotal(db, pid, items);
    NoShare(items, tenant);
    NamesInjective(tenant, db.periods[pid].tenant);
    OwedSnoc(db.invoices, r.invoice, tenant);
  }

  lemma IssueRevenue(db: Database, pid: nat, items: seq<LineItem>, meter: string)
    requires Kept(db.books) && pid < |db.periods| && Issue(db, pid, items).Issued? && KeyOf(db.periods[pid]) !in db.books.keys
    ensures var r := Issue(db, pid, items);
            LedgerStore.Balance(r.db.books, RevenueAccount(meter)) + Earned(r.db.invoices, meter) ==
            LedgerStore.Balance(db.books, RevenueAccount(meter)) + Earned(db.invoices, meter)
  {
    hide EntryOf, PostOf, InvoiceFor, TransactionKey, Mark, PostingsOf, Kept, LedgerStore.Balance, Share, SumAmounts,
      RevenueAccount, Ledger.Acceptable;
    var r := Issue(db, pid, items);
    IssueMoves(db, pid, items, RevenueAccount(meter));
    IssueTotal(db, pid, items);
    NamesApart(db.periods[pid].tenant, meter);
    ShareIsAmountOn(items, meter);
    EarnedSnoc(db.invoices, r.invoice, meter);
  }

  /** A close keeps ledger and invoices in agreement exactly when its transaction key is new. */
  lemma IssueAgreesIff(db: Database, pid: nat, items: seq<LineItem>)
    requires Agree(db) && pid < |db.periods| && Issue(db, pid, items).Issued?
    ensures Agree(Issue(db, pid, items).db) <==> KeyOf(db.periods[pid]) !in db.books.keys
  {
    hide Issue, KeyOf, Kept, LedgerStore.Balance, Owed, Earned, TrialBalance, SumAmounts;
    var p, r := db.periods[pid], Issue(db, pid, items);
    IssueMoves(db, pid, items, "");
    IssueTotal(db, pid, items);
    IssueAppends(db, pid, items);
    if KeyOf(p) !in db.books.keys {
      forall tenant
        ensures LedgerStore.Balance(r.db.books, ReceivableAccount(tenant)) == Owed(r.db.invoices, tenant)
      {
        IssueReceivable(db, pid, items, tenant);
      }
      forall meter
        ensures LedgerStore.Balance(r.db.books, RevenueAccount(meter)) == -Earned(r.db.invoices, meter)
      {
        IssueRevenue(db, pid, items, meter);
      }
    } else {
      IssueReceivable(db, pid, items, p.tenant);
    }
  }

  lemma IssueAppends(db: Database, pid: nat, items: seq<LineItem>)
    requires pid < |db.periods| && Issue(db, pid, items).Issued?
    ensures Issue(db, pid, items).db.invoices == db.invoices + [Issue(db, pid, items).invoice]
  {
  }

  // ---- whole runs --------------------------------------------------------------------------

  /** The step posts under a key that is not in the ledger yet, if it posts at all. */
  ghost predicate Fresh(s: State, step: Step, registry: Registry) {
    Issues(s, step, registry) && step.pid < |s.db.periods| ==> KeyOf(s.db.periods[step.pid]) !in s.db.books.keys
  }

  lemma StepAgreesIff(s: State, step: Step, registry: Registry)
    requires Agree(s.db)
    ensures Agree(Effect(s, step, registry)) <==> Fresh(s, step, registry)
  {
    hide CloseOf, Issue, Kept, LedgerStore.Balance, Owed, Earned, TrialBalance, SumAmounts, KeyOf, Gathered, RateOf,
      InvoiceFor, Mark;
    if Issues(s, step, registry) {
      var seen := s.gathering[step.pid];
      IssuedIs(s.db, step.pid, step.plan, registry, seen);
      IssueAgreesIff(s.db, step.pid, CloseOf(s.db, step.pid, step.plan, registry, seen).invoice.lines);
    }
  }

  /** Over any run: ledger and invoices agree at every point exactly when no close reuses a key. */
  lemma {:induction false} LedgerAgreesIff(states: seq<State>, steps: seq<Step>, n: nat, registry: Registry)
    requires Run(states, steps, registry) && n < |states|
    ensures (forall i :: 0 <= i <= n ==> Agree(states[i].db)) <==> (forall i :: 0 <= i < n ==> Fresh(states[i], steps[i], registry))
  {
    hide Effect, Agree, Fresh;
    if n == 0 {
      StartAgrees();
    } else {
      LedgerAgreesIff(states, steps, n - 1, registry);
      assert Next(states[n - 1], steps[n - 1], states[n], registry);
      if Agree(states[n - 1].db) {
        StepAgreesIff(states[n - 1], steps[n - 1], registry);
      }
    }
  }

  lemma StartAgrees()
    ensures Agree(START.db)
  {
  }

  /** Every key in the ledger is that of a closed period. */
  ghost predicate KeysKnown(db: Database) {
    forall key :: key in db.books.keys ==> exists i :: 0 <= i < |db.periods| && db.periods[i].closed && KeyOf(db.periods[i]) == key
  }

  ghost predicate TenantsColonFree(db: Database) {
    forall i :: 0 <= i < |db.periods| ==> ColonFree(db.periods[i].tenant)
  }

  /** With colon-free tenants a period still open has a key of its own. */
  lemma OpenKeyIsNew(db: Database, pid: nat)
    requires Shape(db) && KeysKnown(db) && TenantsColonFree(db) && pid < |db.periods| && !db.periods[pid].closed
    ensures KeyOf(db.periods[pid]) !in db.books.keys
  {
    hide TransactionKey, Matched, Stamped;
    var p := db.periods[pid];
    if KeyOf(p) in db.books.keys {
      var i :| 0 <= i < |db.periods| && db.periods[i].closed && KeyOf(db.periods[i]) == KeyOf(p);
      KeysInjective(db.periods[i].tenant, db.periods[i].name, p.tenant, p.name);
    }
  }

  lemma IssueKeepsKeys(db: Database, pid: nat, items: seq<LineItem>)
    requires KeysKnown(db) && Kept(db.books) && pid < |db.periods| && Issue(db, pid, items).Issued?
    requires Issue(db, pid, items).db.periods == db.periods[pid := db.periods[pid].(closed := true)]
    ensures KeysKnown(Issue(db, pid, items).db)
  {
    hide Issue, Kept, LedgerStore.Balance, TrialBalance, TransactionKey;
    var r := Issue(db, pid, items);
    IssueMoves(db, pid, items, "");
    forall key | key in r.db.books.keys
      ensures exists i :: 0 <= i < |r.db.periods| && r.db.periods[i].closed && KeyOf(r.db.periods[i]) == key
    {
      if key in db.books.keys {
        var i :| 0 <= i < |db.periods| && db.periods[i].closed && KeyOf(db.periods[i]) == key;
        assert r.db.periods[i].closed && KeyOf(r.db.periods[i]) == key;
      } else {
        assert key == KeyOf(db.periods[pid]) == KeyOf(r.db.periods[pid]);
      }
    }
  }

  lemma PeriodKeepsKeys(db: Database, p: Period)
    requires KeysKnown(db)
    ensures KeysKnown(db.(periods := db.periods + [p]))
  {
    hide TransactionKey;
    var longer := db.periods + [p];
    forall key | key in db.books.keys
      ensures exists i :: 0 <= i < |longer| && longer[i].closed && KeyOf(longer[i]) == key
    {
      var i :| 0 <= i < |db.periods| && db.periods[i].closed && KeyOf(db.periods[i]) == key;
      assert longer[i].closed && KeyOf(longer[i]) == key;
    }
  }

  lemma StepKeepsKeys(s: State, step: Step, registry: Registry)
    requires KeysKnown(s.db) && Kept(s.db.books)
    ensures KeysKnown(Effect(s, step, registry))
  {
    hide CloseOf, Issue, Kept, FindPeriod, Gathered, RateOf, InvoiceFor, Mark, KeyOf;
    if Issues(s, step, registry) {
      var seen := s.gathering[step.pid];
      IssuedIs(s.db, step.pid, step.plan, registry, seen);
      IssueKeepsKeys(s.db, step.pid, CloseOf(s.db, step.pid, step.plan, registry, seen).invoice.lines);
    } else if step.NewPeriod? && Effect(s, step, registry) != s.db {
      PeriodKeepsKeys(s.db, Period(step.tenant, step.name, step.start, step.end, false));
    }
  }

  lemma StepKeepsColonFree(s: State, step: Step, registry: Registry)
    requires TenantsColonFree(s.db) && (step.NewPeriod? ==> ColonFree(step.tenant))
    ensures TenantsColonFree(Effect(s, step, registry))
  {
    hide CloseOf, Issue, FindPeriod, Gathered, RateOf, InvoiceFor, Mark, ColonFree;
    if Issues(s, step, registry) {
      IssuedIs(s.db, step.pid, step.plan, registry, s.gathering[step.pid]);
    }
  }

  lemma StepIsFresh(s: State, step: Step, registry: Registry)
    requires Shape(s.db) && KeysKnown(s.db) && TenantsColonFree(s.db)
    ensures Fresh(s, step, registry)
  {
    hide CloseOf, Issue, Shape, KeysKnown, TenantsColonFree, Gathered, RateOf, InvoiceFor, Mark, KeyOf;
    if Issues(s, step, registry) {
      IssuedIs(s.db, step.pid, step.plan, registry, s.gathering[step.pid]);
      OpenKeyIsNew(s.db, step.pid);
    }
  }

  /**
   * With colon-free tenants, in every run of closes, repeated closes and
   * abandoned ones: the trial balance is zero, each receivable is the sum of its
   * tenant's invoice totals, each meter's revenue is minus the sum of its line
   * amounts, and each total is the sum of its lines.
   */
  lemma {:induction false} LedgerAgrees(states: seq<State>, steps: seq<Step>, n: nat, registry: Registry)
    requires Run(states, steps, registry) && n < |states|
    requires forall i :: 0 <= i < |steps| && steps[i].NewPeriod? ==> ColonFree(steps[i].tenant)
    ensures Agree(states[n].db) && KeysKnown(states[n].db) && TenantsColonFree(states[n].db)
  {
    hide Effect, Agree, KeysKnown, TenantsColonFree, ColonFree;
    if n == 0 {
      StartAgrees();
      StartKnown();
    } else {
      var s, step := states[n - 1], steps[n - 1];
      LedgerAgrees(states, steps, n - 1, registry);
      RunKeepsShape(states, steps, n - 1, registry);
      assert Next(s, step, states[n], registry);
      StepIsFresh(s, step, registry);
      StepAgreesIff(s, step, registry);
      AgreeKept(s.db);
      StepKeepsKeys(s, step, registry);
      StepKeepsColonFree(s, step, registry);
    }
  }

  lemma AgreeKept(db: Database)
    requires Agree(db)
    ensures Kept(db.books)
  {
  }

  lemma StartKnown()
    ensures KeysKnown(START.db) && TenantsColonFree(START.db)
  {
  }

  // ---- tracing an invoice to its transaction --------------------------------------------------

  /** Each invoice names the ledger transaction under its own period's key. */
  ghost predicate Traced(db: Database) {
    forall k :: 0 <= k < |db.invoices| ==>
      && db.invoices[k].period < |db.periods|
      && KeyOf(db.periods[db.invoices[k].period]) in db.books.keys
      && db.books.keys[KeyOf(db.periods[db.invoices[k].period])] == db.invoices[k].transaction
  }

  lemma IssueTraced(db: Database, pid: nat, items: seq<LineItem>)
    requires Kept(db.books) && pid < |db.periods| && Issue(db, pid, items).Issued?
    ensures var p, r := db.periods[pid], Issue(db, pid, items);
            && KeyOf(p) in r.db.books.keys && r.db.books.keys[KeyOf(p)] == r.invoice.transaction && r.invoice.period == pid
            && forall key :: key in db.books.keys ==> key in r.db.books.keys && r.db.books.keys[key] == db.books.keys[key]
  {
    hide EntryOf, InvoiceFor, TransactionKey, Mark, PostingsOf, BalanceOf, Kept, Insertable;
    EntryIsExact(db.books, db.periods[pid].tenant, items, "");
    OpensTables(db.books, EntryOf(db.books, db.periods[pid].tenant, items).books);
  }

  lemma StepKeepsTrace(s: State, step: Step, registry: Registry)
    requires Traced(s.db) && Kept(s.db.books) && Grown(s.db, Effect(s, step, registry))
    ensures Traced(Effect(s, step, registry))
  {
    hide CloseOf, Issue, Kept, FindPeriod, Gathered, RateOf, InvoiceFor, Mark, TransactionKey;
    var t := Effect(s, step, registry);
    forall i | 0 <= i < |s.db.periods|
      ensures KeyOf(t.periods[i]) == KeyOf(s.db.periods[i])
    {
      assert t.periods[i] == s.db.periods[i] || t.periods[i] == s.db.periods[i].(closed := true);
    }
    if Issues(s, step, registry) {
      var seen := s.gathering[step.pid];
      IssuedIs(s.db, step.pid, step.plan, registry, seen);
      IssueTraced(s.db, step.pid, CloseOf(s.db, step.pid, step.plan, registry, seen).invoice.lines);
    }
  }
}
