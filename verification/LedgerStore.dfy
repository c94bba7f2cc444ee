/** The ledger's tables and what is written to them (billing/ledger/store.go, migration 000004). */
module LedgerStore {
  import opened Int64
  import opened Amounts
  import opened Ledger

  datatype Kind = Asset | Liability | Revenue | Expense | Equity

  datatype Account = Account(id: AccountId, kind: Kind)

  datatype Row = Row(transaction: nat, account: AccountId, amount: Amount)

  /** Accounts by name, transaction ids by idempotency key, and every posting. */
  datatype Books = Books(accounts: map<string, Account>, keys: map<string, nat>, rows: seq<Row>)

  /** Account ids are positive and no two names share one. */
  ghost predicate Kept(books: Books) {
    && (forall name :: name in books.accounts ==> 1 <= books.accounts[name].id <= |books.accounts|)
    && (forall a, b :: a in books.accounts && b in books.accounts && a != b ==>
         books.accounts[a].id != books.accounts[b].id)
    && (forall i :: 0 <= i < |books.rows| ==> 1 <= books.rows[i].account <= |books.accounts|)
  }

  // ---- accounts --------------------------------------------------------------------

  datatype Ensured = Ensured(books: Books, id: AccountId) | NameRequired | KindMismatch

  /** ensureAccount. */
  function EnsureAccount(books: Books, name: string, kind: Kind): Ensured {
    if name == "" then NameRequired
    else if name !in books.accounts then
      var id := |books.accounts| + 1;
      Ensured(books.(accounts := books.accounts[name := Account(id, kind)]), id)
    else if books.accounts[name].kind != kind then KindMismatch
    else Ensured(books, books.accounts[name].id)
  }

  /** An account made on demand is new, clashes with none, and asking again finds it. */
  lemma EnsureAccountKeeps(books: Books, name: string, kind: Kind)
    requires Kept(books) && EnsureAccount(books, name, kind).Ensured?
    ensures var r := EnsureAccount(books, name, kind);
            && Kept(r.books) && r.books.rows == books.rows && r.books.keys == books.keys
            && name in r.books.accounts && r.books.accounts[name] == Account(r.id, kind) && r.id > 0
            && (forall other :: other in books.accounts ==> other in r.books.accounts && r.books.accounts[other] == books.accounts[other])
            && (forall other :: other in r.books.accounts ==> other == name || other in books.accounts)
            && EnsureAccount(r.books, name, kind) == r
  {
    var r := EnsureAccount(books, name, kind);
    if name !in books.accounts {
      assert |r.books.accounts| == |books.accounts| + 1;
    }
  }

  // ---- balances --------------------------------------------------------------------

  /** SUM(amount) over one account's rows. */
  function AccountBalance(rows: seq<Row>, account: AccountId): int {
    if rows == [] then 0
    else
      var row := rows[|rows| - 1];
      AccountBalance(rows[..|rows| - 1], account) + if row.account == account then row.amount as int else 0
  }

  /** SUM(amount) over every row. */
  function TrialBalance(rows: seq<Row>): int {
    if rows == [] then 0 else TrialBalance(rows[..|rows| - 1]) + rows[|rows| - 1].amount as int
  }

  /** The balance of a named account; an account not yet made holds nothing. */
  function Balance(books: Books, name: string): int {
    if name in books.accounts then AccountBalance(books.rows, books.accounts[name].id) else 0
  }

  // ---- posting -----------------------------------------------------------------------

  /** What the posting table's constraints let in. */
  predicate Insertable(books: Books, p: Posting) {
    p.amount != 0 && exists name :: name in books.accounts && books.accounts[name].id == p.account
  }

  function RowsOf(id: nat, ps: seq<Posting>): (rows: seq<Row>)
    ensures |rows| == |ps|
  {
    if ps == [] then []
    else
      var p := ps[|ps| - 1];
      RowsOf(id, ps[..|ps| - 1]) + [Row(id, p.account, p.amount)]
  }

  datatype Posted = Posted(books: Books, id: nat, already: bool) | NotBalanced | BalanceOverflowed | RowRefused

  /** What PostTx leaves: nothing new for a key already there, else the key and its rows. */
  function PostOf(books: Books, tx: Transaction): Posted {
    match BalanceOf(tx.postings)
    case Overflow => BalanceOverflowed
    case Fits(total) =>
      if total != 0 then NotBalanced
      else if tx.key in books.keys then Posted(books, books.keys[tx.key], true)
      else if exists i :: 0 <= i < |tx.postings| && !Insertable(books, tx.postings[i]) then RowRefused
      else
        var id := |books.keys| + 1;
        Posted(books.(keys := books.keys[tx.key := id], rows := books.rows + RowsOf(id, tx.postings)), id, false)
  }

  /** PostTx. */
  method PostTx(books: Books, tx: Transaction) returns (r: Posted)
    ensures r == PostOf(books, tx)
  {
    hide BalanceOf, Insertable;
    var total := Ledger.Balance(tx.postings);
    if total.Overflow? {
      return BalanceOverflowed;
    }
    if total.value != 0 {
      return NotBalanced;
    }
    if tx.key in books.keys {
      return Posted(books, books.keys[tx.key], true);
    }
    var id := |books.keys| + 1;
    var rows: seq<Row> := [];
    for i := 0 to |tx.postings|
      invariant rows == RowsOf(id, tx.postings[..i])
      invariant forall k :: 0 <= k < i ==> Insertable(books, tx.postings[k])
    {
      var p := tx.postings[i];
      if !Insertable(books, p) {
        return RowRefused;
      }
      assert tx.postings[..i + 1][..i] == tx.postings[..i];
      rows := rows + [Row(id, p.account, p.amount)];
    }
    assert tx.postings[..|tx.postings|] == tx.postings;
    return Posted(books.(keys := books.keys[tx.key := id], rows := books.rows + rows), id, false);
  }

  /**
   * A transaction is posted exactly when its postings come to nothing and either
   * its key is known, which changes nothing and gives back its id, or every
   * posting moves something on an account there is.
   */
  lemma PostedIff(books: Books, tx: Transaction)
    ensures var r := PostOf(books, tx);
            && (r.Posted? <==> BalanceOf(tx.postings) == Fits(0)
                               && (tx.key in books.keys || forall i :: 0 <= i < |tx.postings| ==>
                                     tx.postings[i].amount != 0
                                     && exists name :: name in books.accounts && books.accounts[name].id == tx.postings[i].account))
            && (r.Posted? && tx.key in books.keys ==> r == Posted(books, books.keys[tx.key], true))
            && (r.Posted? && tx.key !in books.keys ==>
                  !r.already && tx.key in r.books.keys && r.books.keys[tx.key] == r.id && r.books.accounts == books.accounts)
  {
    hide BalanceOf;
  }

  /** Posting the same transaction twice stores it once. */
  lemma PostIdempotent(books: Books, tx: Transaction)
    requires PostOf(books, tx).Posted?
    ensures var once := PostOf(books, tx);
            PostOf(once.books, tx) == Posted(once.books, once.id, true)
  {
  }

  lemma {:induction false} TrialConcat(a: seq<Row>, b: seq<Row>)
    ensures TrialBalance(a + b) == TrialBalance(a) + TrialBalance(b)
  {
    if b == [] {
      assert a + b == a;
    } else {
      assert (a + b)[..|a + b| - 1] == a + b[..|b| - 1];
      TrialConcat(a, b[..|b| - 1]);
    }
  }

  lemma {:induction false} AccountConcat(a: seq<Row>, b: seq<Row>, account: AccountId)
    ensures AccountBalance(a + b, account) == AccountBalance(a, account) + AccountBalance(b, account)
  {
    if b == [] {
      assert a + b == a;
    } else {
      assert (a + b)[..|a + b| - 1] == a + b[..|b| - 1];
      AccountConcat(a, b[..|b| - 1], account);
    }
  }

  lemma {:induction false} TrialOfRows(id: nat, ps: seq<Posting>)
    ensures TrialBalance(RowsOf(id, ps)) == Ledger.Sum(ps)
  {
    if ps != [] {
      TrialOfRows(id, ps[..|ps| - 1]);
      assert RowsOf(id, ps)[..|ps| - 1] == RowsOf(id, ps[..|ps| - 1]);
    }
  }

  /** However a transaction was made, posting it leaves the trial balance where it was. */
  lemma PostKeepsTrialBalance(books: Books, tx: Transaction)
    requires PostOf(books, tx).Posted?
    ensures TrialBalance(PostOf(books, tx).books.rows) == TrialBalance(books.rows)
  {
    var r := PostOf(books, tx);
    BalanceIsSum(tx.postings);
    if !r.already {
      TrialConcat(books.rows, RowsOf(r.id, tx.postings));
      TrialOfRows(r.id, tx.postings);
    }
  }

  /** What a list of transfers does to one account. */
  function Net(transfers: seq<Transfer>, account: AccountId): int {
    if transfers == [] then 0
    else
      var t := transfers[|transfers| - 1];
      Net(transfers[..|transfers| - 1], account)
      + (if t.debit == account then t.amount as int else 0) - (if t.credit == account then t.amount as int else 0)
  }

  lemma {:induction false} AccountOfRows(id: nat, transfers: seq<Transfer>, account: AccountId)
    requires forall i :: 0 <= i < |transfers| ==> ValidTransfer(transfers[i])
    ensures AccountBalance(RowsOf(id, PostingsOf(transfers)), account) == Net(transfers, account)
  {
    hide ValidTransfer;
    if transfers != [] {
      var init, t := transfers[..|transfers| - 1], transfers[|transfers| - 1];
      AccountOfRows(id, init, account);
      PairOfRows(id, PostingsOf(init), t, account);
    }
  }

  lemma PairOfRows(id: nat, ps: seq<Posting>, t: Transfer, account: AccountId)
    requires ValidTransfer(t)
    ensures AccountBalance(RowsOf(id, ps + [Posting(t.debit, t.amount), Posting(t.credit, -t.amount)]), account)
            == AccountBalance(RowsOf(id, ps), account)
               + (if t.debit == account then t.amount as int else 0) - (if t.credit == account then t.amount as int else 0)
  {
    var up := ps + [Posting(t.debit, t.amount)];
    var both := up + [Posting(t.credit, -t.amount)];
    assert both == ps + [Posting(t.debit, t.amount), Posting(t.credit, -t.amount)];
    assert both[..|both| - 1] == up && up[..|up| - 1] == ps;
    assert RowsOf(id, both) == RowsOf(id, up) + [Row(id, t.credit, -t.amount)];
    assert RowsOf(id, up) == RowsOf(id, ps) + [Row(id, t.debit, t.amount)];
  }

  /** Under a key not yet used, a built transaction moves each account by exactly its transfers. */
  lemma PostMoves(books: Books, key: string, at: Instant, transfers: seq<Transfer>, account: AccountId)
    requires Ledger.Acceptable(key, at, transfers) && key !in books.keys
    requires PostOf(books, Transaction(key, at, PostingsOf(transfers))).Posted?
    ensures var r := PostOf(books, Transaction(key, at, PostingsOf(transfers)));
            AccountBalance(r.books.rows, account) == AccountBalance(books.rows, account) + Net(transfers, account)
  {
    hide BalanceOf;
    var r := PostOf(books, Transaction(key, at, PostingsOf(transfers)));
    AccountConcat(books.rows, RowsOf(r.id, PostingsOf(transfers)), account);
    AccountOfRows(r.id, transfers, account);
  }
}
