/** What the entry a close posts does to each account, by name. */
module InvoicingEntry {
  import opened Int64
  import opened Options
  import opened Amounts
  import opened Rating
  import opened Ledger
  import opened LedgerStore
  import opened Invoicing

  function SumAmounts(items: seq<LineItem>): int {
    if items == [] then 0 else SumAmounts(items[..|items| - 1]) + items[|items| - 1].amount as int
  }

  /** The revenue credited to the account of that name. */
  function Share(items: seq<LineItem>, name: string): int {
    if items == [] then 0
    else
      var item := items[|items| - 1];
      Share(items[..|items| - 1], name) + if RevenueAccount(item.meter) == name then item.amount as int else 0
  }

  /** What billing these lines to a tenant should do to a named account. */
  function Charge(tenant: string, items: seq<LineItem>, name: string): int {
    (if name == ReceivableAccount(tenant) then SumAmounts(items) else 0) - Share(items, name)
  }

  lemma NamesApart(tenant: string, meter: string)
    ensures ReceivableAccount(tenant) != RevenueAccount(meter)
  {
    assert ReceivableAccount(tenant)[2] == 'c' && RevenueAccount(meter)[2] == 'v';
  }

  /** A kind of account, a colon, and whose it is. */
  lemma NamesSay(tenant: string, meter: string)
    ensures ReceivableAccount(tenant)[..11] == "receivable:" && ReceivableAccount(tenant)[11..] == tenant
    ensures RevenueAccount(meter)[..8] == "revenue:" && RevenueAccount(meter)[8..] == meter
  {
  }

  lemma KeySays(tenant: string, name: string)
    ensures var key, n := TransactionKey(tenant, name), |tenant|;
            |key| == n + |name| + 7 && key[..6] == "usage:" && key[6..6 + n] == tenant && key[6 + n] == ':' && key[7 + n..] == name
  {
  }

  lemma NamesInjective(a: string, b: string)
    ensures ReceivableAccount(a) == ReceivableAccount(b) <==> a == b
    ensures RevenueAccount(a) == RevenueAccount(b) <==> a == b
  {
    NamesSay(a, a);
    NamesSay(b, b);
  }

  lemma {:induction false} NoShare(items: seq<LineItem>, tenant: string)
    ensures Share(items, ReceivableAccount(tenant)) == 0
  {
    if items != [] {
      NoShare(items[..|items| - 1], tenant);
      NamesApart(tenant, items[|items| - 1].meter);
    }
  }

  /** Accounts only multiply: ids, postings and keys stay. */
  ghost predicate Opens(before: Books, after: Books) {
    && Kept(after) && after.rows == before.rows && after.keys == before.keys
    && |before.accounts| <= |after.accounts|
    && (forall name :: name in before.accounts ==> name in after.accounts && after.accounts[name] == before.accounts[name])
    && (forall name :: name in after.accounts && name !in before.accounts ==> after.accounts[name].id > |before.accounts|)
  }

  lemma EnsureOpens(books: Books, name: string, kind: Kind)
    requires Kept(books) && EnsureAccount(books, name, kind).Ensured?
    ensures Opens(books, EnsureAccount(books, name, kind).books)
  {
    EnsureAccountKeeps(books, name, kind);
  }

  lemma OpensTwice(a: Books, b: Books, c: Books)
    requires Opens(a, b) && Opens(b, c)
    ensures Opens(a, c)
  {
    hide Kept;
  }

  ghost predicate Within(transfers: seq<Transfer>, n: nat) {
    forall i :: 0 <= i < |transfers| ==> 1 <= transfers[i].debit <= n && 1 <= transfers[i].credit <= n
  }

  lemma {:induction false} EntryOpens(books: Books, receivable: AccountId, items: seq<LineItem>)
    requires Kept(books) && 1 <= receivable <= |books.accounts|
    requires EntryLoop(books, receivable, items).Entry?
    ensures var e := EntryLoop(books, receivable, items);
            && Opens(books, e.books) && |books.accounts| <= |e.books.accounts|
            && Within(e.transfers, |e.books.accounts|) && e.total == SumAmounts(items)
  {
    hide EnsureAccount, Kept, Opens;
    if items == [] {
      OpensSelf(books);
    } else {
      var so, item := EntryLoop(books, receivable, items[..|items| - 1]), items[|items| - 1];
      EntryOpens(books, receivable, items[..|items| - 1]);
      OpensBounds(books, so.books);
      LineOpens(books, so.books, so.transfers, so.total, receivable, item);
    }
  }

  lemma OpensBounds(before: Books, after: Books)
    requires Opens(before, after)
    ensures Kept(after) && |before.accounts| <= |after.accounts|
  {
  }

  lemma OpensSelf(books: Books)
    requires Kept(books)
    ensures Opens(books, books)
  {
  }

  lemma LineOpens(start: Books, books: Books, transfers: seq<Transfer>, total: Amount, receivable: AccountId, item: LineItem)
    requires Opens(start, books) && Within(transfers, |books.accounts|) && 1 <= receivable <= |books.accounts|
    requires AddLine(books, transfers, total, receivable, item).Entry?
    ensures var e := AddLine(books, transfers, total, receivable, item);
            && Opens(start, e.books) && |books.accounts| <= |e.books.accounts|
            && Within(e.transfers, |e.books.accounts|) && e.total == total as int + item.amount as int
  {
    hide EnsureAccount, CheckedAdd, Opens, Kept;
    OpensBounds(start, books);
    if item.amount != 0 {
      var revenue := EnsureAccount(books, RevenueAccount(item.meter), Revenue);
      EnsureAccountKeeps(books, RevenueAccount(item.meter), Revenue);
      EnsureOpens(books, RevenueAccount(item.meter), Revenue);
      OpensTwice(start, books, revenue.books);
      OpensBounds(books, revenue.books);
      KeptRange(revenue.books, RevenueAccount(item.meter));
      CheckedAddExact(total, item.amount);
    }
  }

  /** What transfers do to the account of that name; nothing, if there is no such account. */
  function NetNamed(books: Books, transfers: seq<Transfer>, name: string): int {
    if name in books.accounts then Net(transfers, books.accounts[name].id) else 0
  }

  lemma {:induction false} NetOutside(transfers: seq<Transfer>, n: nat, account: AccountId)
    requires Within(transfers, n) && account > n
    ensures Net(transfers, account) == 0
  {
    if transfers != [] {
      NetOutside(transfers[..|transfers| - 1], n, account);
    }
  }

  /** Opening an account moves nothing. */
  lemma NetNamedEnsured(books: Books, transfers: seq<Transfer>, ensured: string, kind: Kind, name: string)
    requires Kept(books) && Within(transfers, |books.accounts|) && EnsureAccount(books, ensured, kind).Ensured?
    ensures NetNamed(EnsureAccount(books, ensured, kind).books, transfers, name) == NetNamed(books, transfers, name)
  {
    hide Kept, Within;
    if name == ensured && name !in books.accounts {
      NetOutside(transfers, |books.accounts|, |books.accounts| + 1);
    }
  }

  lemma LineNet(books: Books, transfers: seq<Transfer>, total: Amount, tenant: string, receivable: AccountId, item: LineItem, name: string)
    requires Kept(books) && Within(transfers, |books.accounts|)
    requires ReceivableAccount(tenant) in books.accounts && books.accounts[ReceivableAccount(tenant)].id == receivable
    requires AddLine(books, transfers, total, receivable, item).Entry?
    ensures var e := AddLine(books, transfers, total, receivable, item);
            NetNamed(e.books, e.transfers, name) ==
            NetNamed(books, transfers, name)
            + (if name == ReceivableAccount(tenant) then item.amount as int else 0)
            - (if name == RevenueAccount(item.meter) then item.amount as int else 0)
  {
    hide EnsureAccount, CheckedAdd, Within, ReceivableAccount, RevenueAccount;
    if item.amount != 0 {
      var revenue := EnsureAccount(books, RevenueAccount(item.meter), Revenue);
      EnsureAccountKeeps(books, RevenueAccount(item.meter), Revenue);
      NetNamedEnsured(books, transfers, RevenueAccount(item.meter), Revenue, name);
      NamesApart(tenant, item.meter);
      NetSnoc(transfers, Transfer(receivable, revenue.id, item.amount), if name in revenue.books.accounts then revenue.books.accounts[name].id else 0);
    }
  }

  lemma NetSnoc(transfers: seq<Transfer>, t: Transfer, account: AccountId)
    ensures Net(transfers + [t], account) ==
            Net(transfers, account) + (if t.debit == account then t.amount as int else 0) - (if t.credit == account then t.amount as int else 0)
  {
    assert (transfers + [t])[..|transfers|] == transfers;
  }

  lemma {:induction false} EntryNet(books: Books, tenant: string, receivable: AccountId, items: seq<LineItem>, name: string)
    requires Kept(books) && EntryLoop(books, receivable, items).Entry?
    requires ReceivableAccount(tenant) in books.accounts && books.accounts[ReceivableAccount(tenant)].id == receivable
    ensures var e := EntryLoop(books, receivable, items);
            NetNamed(e.books, e.transfers, name) == Charge(tenant, items, name)
  {
    hide EnsureAccount, AddLine, Within, ReceivableAccount, RevenueAccount, Kept;
    if items != [] {
      var init, item := items[..|items| - 1], items[|items| - 1];
      var so := EntryLoop(books, receivable, init);
      EntryNet(books, tenant, receivable, init, name);
      KeptRange(books, ReceivableAccount(tenant));
      EntryOpens(books, receivable, init);
      LineNet(so.books, so.transfers, so.total, tenant, receivable, item, name);
    }
  }

  lemma KeptRange(books: Books, name: string)
    requires Kept(books) && name in books.accounts
    ensures 1 <= books.accounts[name].id <= |books.accounts|
  {
  }

  /** buildEntry: accounts opened as needed, the total of the lines, and each account's due change. */
  lemma EntryIsExact(books: Books, tenant: string, items: seq<LineItem>, name: string)
    requires Kept(books) && EntryOf(books, tenant, items).Entry?
    ensures var e := EntryOf(books, tenant, items);
            && Opens(books, e.books) && Within(e.transfers, |e.books.accounts|)
            && e.total == SumAmounts(items)
            && NetNamed(e.books, e.transfers, name) == Charge(tenant, items, name)
  {
    hide EnsureAccount, EntryLoop, Within, Kept, Charge, ReceivableAccount, NetNamed, Opens;
    var ensured := EnsureAccount(books, ReceivableAccount(tenant), Asset);
    EnsureAccountKeeps(books, ReceivableAccount(tenant), Asset);
    EnsureOpens(books, ReceivableAccount(tenant), Asset);
    KeptRange(ensured.books, ReceivableAccount(tenant));
    EntryOpens(ensured.books, ensured.id, items);
    EntryNet(ensured.books, tenant, ensured.id, items, name);
    OpensTwice(books, ensured.books, EntryOf(books, tenant, items).books);
  }

  lemma {:induction false} NothingPosted(rows: seq<LedgerStore.Row>, n: nat, account: AccountId)
    requires forall i :: 0 <= i < |rows| ==> rows[i].account <= n
    requires account > n
    ensures AccountBalance(rows, account) == 0
  {
    if rows != [] {
      NothingPosted(rows[..|rows| - 1], n, account);
    }
  }

  /** Opening accounts changes no named balance. */
  lemma OpensKeepsBalance(before: Books, after: Books, name: string)
    requires Kept(before) && Opens(before, after)
    ensures LedgerStore.Balance(after, name) == LedgerStore.Balance(before, name)
  {
    if name in after.accounts && name !in before.accounts {
      NothingPosted(before.rows, |before.accounts|, after.accounts[name].id);
    }
  }
}
