/** Double-entry transactions and the tables they are posted to (billing/ledger/ledger.go, store.go). */
module Ledger {
  import opened Int64
  import opened Options
  import opened Amounts

  type AccountId = int
  type Instant = int

  /** The zero time. */
  const NEVER: Instant := 0

  datatype Transfer = Transfer(debit: AccountId, credit: AccountId, amount: Amount)

  datatype Posting = Posting(account: AccountId, amount: Amount)

  datatype Transaction = Transaction(key: string, occurredAt: Instant, postings: seq<Posting>)

  // ---- building a transaction ----------------------------------------------------

  predicate ValidTransfer(t: Transfer) {
    t.amount > 0 && t.debit != t.credit && t.debit != 0 && t.credit != 0
  }

  /** Each transfer is a debit and the equal and opposite credit, in that order. */
  function PostingsOf(transfers: seq<Transfer>): (ps: seq<Posting>)
    requires forall i :: 0 <= i < |transfers| ==> ValidTransfer(transfers[i])
    ensures |ps| == 2 * |transfers|
  {
    if transfers == [] then []
    else
      var t := transfers[|transfers| - 1];
      assert ValidTransfer(t);
      PostingsOf(transfers[..|transfers| - 1]) + [Posting(t.debit, t.amount), Posting(t.credit, -t.amount)]
  }

  function Sum(ps: seq<Posting>): int {
    if ps == [] then 0 else Sum(ps[..|ps| - 1]) + ps[|ps| - 1].amount as int
  }

  /** Transaction.Balance: the checked running total. */
  function BalanceOf(ps: seq<Posting>): Int64.Sum {
    if ps == [] then Fits(0)
    else
      match BalanceOf(ps[..|ps| - 1])
      case Overflow => Overflow
      case Fits(total) => CheckedAdd(total, ps[|ps| - 1].amount)
  }

  method Balance(ps: seq<Posting>) returns (r: Int64.Sum)
    ensures r == BalanceOf(ps)
  {
    hide CheckedAdd;
    var total: Amount := 0;
    for i := 0 to |ps|
      invariant BalanceOf(ps[..i]) == Fits(total)
    {
      assert ps[..i + 1][..i] == ps[..i];
      var next := CheckedAdd(total, ps[i].amount);
      if next.Overflow? {
        StaysOver(ps, i + 1);
        return Overflow;
      }
      total := next.value;
    }
    assert ps[..|ps|] == ps;
    return Fits(total);
  }

  lemma {:induction false} StaysOver(ps: seq<Posting>, i: nat)
    requires i <= |ps| && BalanceOf(ps[..i]).Overflow?
    ensures BalanceOf(ps).Overflow?
  {
    if i < |ps| {
      assert ps[..|ps| - 1][..i] == ps[..i];
      StaysOver(ps[..|ps| - 1], i);
    } else {
      assert ps[..i] == ps;
    }
  }

  lemma {:induction false} BalanceIsSum(ps: seq<Posting>)
    ensures BalanceOf(ps).Fits? ==> BalanceOf(ps).value == Sum(ps)
  {
    if ps != [] {
      BalanceIsSum(ps[..|ps| - 1]);
      if BalanceOf(ps[..|ps| - 1]).Fits? {
        CheckedAddExact(BalanceOf(ps[..|ps| - 1]).value, ps[|ps| - 1].amount);
      }
    }
  }

  /**
   * The running total alternates between one transfer's amount and zero: at no
   * point does it exceed the transfer being posted, however many there are.
   */
  lemma {:induction false} RunningTotalAlternates(transfers: seq<Transfer>, k: nat)
    requires forall i :: 0 <= i < |transfers| ==> ValidTransfer(transfers[i])
    requires k <= 2 * |transfers|
    ensures BalanceOf(PostingsOf(transfers)[..k]) ==
            Fits(if k % 2 == 0 then 0 else transfers[k / 2].amount)
  {
    hide BalanceOf, ValidTransfer;
    if k == 0 {
      NothingBalances(PostingsOf(transfers)[..0]);
    } else {
      var n := |transfers| - 1;
      var init, t := transfers[..n], transfers[n];
      var before, up := PostingsOf(init), [Posting(t.debit, t.amount)];
      AmountHasOpposite(t);
      var ps := before + up + [Posting(t.credit, -t.amount)];
      assert PostingsOf(transfers) == ps;
      if k <= 2 * n {
        RunningTotalAlternates(init, k);
        assert ps[..k] == before[..k];
      } else {
        RunningTotalAlternates(init, 2 * n);
        assert before[..2 * n] == before;
        AlternatesOnce(before, t);
        assert ps[..2 * n + 1] == before + up && ps[..2 * n + 2] == ps;
      }
    }
  }

  lemma NothingBalances(ps: seq<Posting>)
    requires ps == []
    ensures BalanceOf(ps) == Fits(0)
  {
  }

  lemma AmountHasOpposite(t: Transfer)
    requires ValidTransfer(t)
    ensures MIN_INT <= -t.amount <= MAX_INT
  {
  }

  lemma AlternatesOnce(ps: seq<Posting>, t: Transfer)
    requires BalanceOf(ps) == Fits(0) && ValidTransfer(t)
    ensures var up := ps + [Posting(t.debit, t.amount)];
            BalanceOf(up) == Fits(t.amount) && BalanceOf(up + [Posting(t.credit, -t.amount)]) == Fits(0)
  {
    var up := ps + [Posting(t.debit, t.amount)];
    assert up[..|ps|] == ps;
    CheckedAddExact(0, t.amount);
    assert (up + [Posting(t.credit, -t.amount)])[..|up|] == up;
    CheckedAddExact(t.amount, -t.amount);
  }

  datatype Built = Built(tx: Transaction) | InvalidTransfer | NoTransfers | BalanceOverflow | Unbalanced

  /** What the fields of a transaction must be for NewTransaction to accept them. */
  predicate Acceptable(key: string, occurredAt: Instant, transfers: seq<Transfer>) {
    && key != "" && transfers != [] && occurredAt != NEVER
    && forall i :: 0 <= i < |transfers| ==> ValidTransfer(transfers[i])
  }

  /**
   * NewTransaction. It succeeds exactly on acceptable input, whatever the size
   * and number of the transfers: neither the overflow error nor the unbalanced
   * error is ever returned.
   */
  method NewTransaction(key: string, occurredAt: Instant, transfers: seq<Transfer>) returns (r: Built)
    ensures r.Built? <==> Acceptable(key, occurredAt, transfers)
    ensures r.Built? ==> r.tx == Transaction(key, occurredAt, PostingsOf(transfers))
    ensures r.Built? <==>
              && key != "" && transfers != [] && occurredAt != NEVER
              && forall i :: 0 <= i < |transfers| ==>
                   var t := transfers[i];
                   t.amount > 0 && t.debit != t.credit && t.debit != 0 && t.credit != 0
    ensures r.NoTransfers? <==> key != "" && transfers == []
    ensures !r.BalanceOverflow? && !r.Unbalanced?
  {
    hide BalanceOf;
    if key == "" {
      return InvalidTransfer;
    }
    if |transfers| == 0 {
      return NoTransfers;
    }
    if occurredAt == NEVER {
      return InvalidTransfer;
    }
    var postings: seq<Posting> := [];
    for i := 0 to |transfers|
      invariant forall k :: 0 <= k < i ==> ValidTransfer(transfers[k])
      invariant postings == PostingsOf(transfers[..i])
    {
      var t := transfers[i];
      if t.amount <= 0 {
        return InvalidTransfer;
      }
      if t.debit == t.credit {
        return InvalidTransfer;
      }
      if t.debit == 0 || t.credit == 0 {
        return InvalidTransfer;
      }
      var credit := Negate(t.amount);
      assert transfers[..i + 1][..i] == transfers[..i];
      postings := postings + [Posting(t.debit, t.amount), Posting(t.credit, credit.value)];
    }
    assert transfers[..|transfers|] == transfers;
    RunningTotalAlternates(transfers, |postings|);
    assert postings[..|postings|] == postings;
    var total := Balance(postings);
    if total.Overflow? {
      return BalanceOverflow;
    }
    if total.value != 0 {
      return Unbalanced;
    }
    return Built(Transaction(key, occurredAt, postings));
  }
}
