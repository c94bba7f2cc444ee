/** Closing a billing period (billing/invoicing/invoicing.go, accounts.go, migration 000006). */
module Invoicing {
  import opened Int64
  import opened Options
  import opened Decimal
  import opened FixedPoint
  import opened Amounts
  import opened Quantities
  import opened Meters
  import opened Pricing
  import opened Rating
  import opened Ledger
  import opened LedgerStore
  import opened EventTable

  datatype Period = Period(tenant: string, name: string, start: Instant, end: Instant, closed: bool)

  datatype Invoice = Invoice(period: nat, tenant: string, total: Amount, transaction: nat, lines: seq<LineItem>)

  /** The tables a close reads and writes; a row's id is its place. */
  datatype Database = Database(events: seq<EventTable.Row>, periods: seq<Period>, invoices: seq<Invoice>, books: Books)

  // ---- names ---------------------------------------------------------------------------

  function ReceivableAccount(tenant: string): string {
    "receivable:" + tenant
  }

  function RevenueAccount(meter: string): string {
    "revenue:" + meter
  }

  function TransactionKey(tenant: string, name: string): string {
    "usage:" + tenant + ":" + name
  }

  // ---- gathering -----------------------------------------------------------------------

  /** SUM(quantity)::text on a NUMERIC(38, 9) column. */
  function SumText(n: int): string {
    if n < 0 then "-" + Print(-n, QUANTITY_SCALE) else Print(n, QUANTITY_SCALE)
  }

  /** Reading a sum back is exact, and fails on one that is negative or too large. */
  lemma SumTextParses(n: int)
    ensures ParseQuantity(SumText(n)).Ok? <==> 0 <= n <= MAX_INT
    ensures 0 <= n <= MAX_INT ==> ParseQuantity(SumText(n)) == Ok(n)
  {
    hide Print, ParseText, Units, HasAny, Digits, Padded, Pow10;
    if n >= 0 {
      PrintIsPlain(n, QUANTITY_SCALE);
      ParseQuantityExact(Digits(Whole(n, Pow10(9))), Padded(Part(n, Pow10(9)), 9));
    } else {
      assert SumText(n)[0] == '-';
    }
  }

  /** The loop of gatherUsage over the groups, in order. */
  function UsageOf(meters: seq<string>, rows: seq<EventTable.Row>, tenant: string, end: Instant): Option<seq<Usage>> {
    if meters == [] then Some([])
    else
      match UsageOf(meters[..|meters| - 1], rows, tenant, end)
      case None => None
      case Some(usages) =>
        var meter := meters[|meters| - 1];
        match ParseQuantity(SumText(SumDue(rows, tenant, end, meter)))
        case Ok(quantity) => Some(usages + [Usage(meter, quantity)])
        case Malformed => None
        case TooLarge => None
  }

  ghost function Gathered(rows: seq<EventTable.Row>, tenant: string, end: Instant): Option<seq<Usage>> {
    UsageOf(InOrder(MetersDue(rows, tenant, end)), rows, tenant, end)
  }

  method GatherUsage(rows: seq<EventTable.Row>, tenant: string, end: Instant) returns (r: Option<seq<Usage>>)
    ensures r == Gathered(rows, tenant, end)
  {
    hide UsageOf, MetersDue;
    var meters := SortedKeys(MetersDue(rows, tenant, end));
    r := ReadSums(meters, rows, tenant, end);
  }

  method ReadSums(meters: seq<string>, rows: seq<EventTable.Row>, tenant: string, end: Instant) returns (r: Option<seq<Usage>>)
    ensures r == UsageOf(meters, rows, tenant, end)
  {
    hide ParseQuantity, SumText, SumDue;
    var usages: seq<Usage> := [];
    for i := 0 to |meters|
      invariant UsageOf(meters[..i], rows, tenant, end) == Some(usages)
    {
      assert meters[..i + 1][..i] == meters[..i];
      var quantity := ParseQuantity(SumText(SumDue(rows, tenant, end, meters[i])));
      if !quantity.Ok? {
        StaysUnread(meters, i + 1, rows, tenant, end);
        return None;
      }
      usages := usages + [Usage(meters[i], quantity.value)];
    }
    assert meters[..|meters|] == meters;
    return Some(usages);
  }

  lemma {:induction false} StaysUnread(meters: seq<string>, i: nat, rows: seq<EventTable.Row>, tenant: string, end: Instant)
    requires i <= |meters| && UsageOf(meters[..i], rows, tenant, end).None?
    ensures UsageOf(meters, rows, tenant, end).None?
  {
    if i < |meters| {
      assert meters[..|meters| - 1][..i] == meters[..i];
      StaysUnread(meters[..|meters| - 1], i, rows, tenant, end);
    } else {
      assert meters[..i] == meters;
    }
  }

  /** The gathered usage of a list of meters, each named once. */
  lemma {:induction false} UsageExact(meters: seq<string>, rows: seq<EventTable.Row>, tenant: string, end: Instant)
    requires Sorted(meters)
    ensures var r := UsageOf(meters, rows, tenant, end);
            && (r.Some? <==> forall i :: 0 <= i < |meters| ==> 0 <= SumDue(rows, tenant, end, meters[i]) <= MAX_INT)
            && (r.Some? ==>
                  && |r.value| == |meters|
                  && forall i :: 0 <= i < |meters| ==> r.value[i] == Usage(meters[i], SumDue(rows, tenant, end, meters[i])))
  {
    hide ParseQuantity, SumText, SumDue;
    if meters != [] {
      UsageExact(meters[..|meters| - 1], rows, tenant, end);
      SumTextParses(SumDue(rows, tenant, end, meters[|meters| - 1]));
    }
  }

  lemma {:induction false} TotalOfOne(usages: seq<Usage>, i: nat)
    requires i < |usages| && forall j :: 0 <= j < |usages| && j != i ==> usages[j].meter != usages[i].meter
    ensures Total(usages, usages[i].meter) == usages[i].quantity
  {
    var last := |usages| - 1;
    if i == last {
      assert forall u :: u in usages[..last] ==> u.meter != usages[i].meter;
      NotNamed(usages[..last], usages[i].meter);
    } else {
      TotalOfOne(usages[..last], i);
    }
  }

  /** Every sum the query returns can be read. */
  ghost predicate Readable(rows: seq<EventTable.Row>, tenant: string, end: Instant) {
    forall meter :: meter in MetersDue(rows, tenant, end) ==> 0 <= SumDue(rows, tenant, end, meter) <= MAX_INT
  }

  /** Gathering reads exactly what is due, meter by meter, or fails because a sum does not fit. */
  lemma GatherIsExact(rows: seq<EventTable.Row>, tenant: string, end: Instant)
    ensures Gathered(rows, tenant, end).Some? <==> Readable(rows, tenant, end)
    ensures Readable(rows, tenant, end) ==> Named(Gathered(rows, tenant, end).value) == MetersDue(rows, tenant, end)
  {
    hide SumDue, UsageOf, MetersDue;
    var meters := InOrder(MetersDue(rows, tenant, end));
    UsageExact(meters, rows, tenant, end);
    forall meter | meter in MetersDue(rows, tenant, end)
      ensures exists i :: 0 <= i < |meters| && meters[i] == meter
    {
      assert meter in meters;
    }
    forall i | 0 <= i < |meters|
      ensures meters[i] in MetersDue(rows, tenant, end)
    {
      assert meters[i] in meters;
    }
    if Readable(rows, tenant, end) {
      var usages := Gathered(rows, tenant, end).value;
      forall meter | meter in MetersDue(rows, tenant, end)
        ensures meter in Named(usages)
      {
        var i :| 0 <= i < |meters| && meters[i] == meter;
        assert usages[i] in usages;
      }
    }
  }

  lemma GatherConserves(rows: seq<EventTable.Row>, tenant: string, end: Instant, meter: string)
    requires Gathered(rows, tenant, end).Some?
    ensures Total(Gathered(rows, tenant, end).value, meter) == SumDue(rows, tenant, end, meter)
  {
    hide SumDue, UsageOf, MetersDue, Total, Named;
    var meters, usages := InOrder(MetersDue(rows, tenant, end)), Gathered(rows, tenant, end).value;
    UsageExact(meters, rows, tenant, end);
    if meter in meters {
      var i :| 0 <= i < |meters| && meters[i] == meter;
      forall j | 0 <= j < |usages| && j != i
        ensures usages[j].meter != usages[i].meter
      {
        LessIsStrict(meters[i], meters[j]);
      }
      TotalOfOne(usages, i);
    } else {
      NotDue(rows, tenant, end, meter);
      GatherIsExact(rows, tenant, end);
      NotNamed(usages, meter);
    }
  }

  // ---- the ledger entry ------------------------------------------------------------------

  datatype Entry = Entry(books: Books, transfers: seq<Transfer>, total: Amount) | NoAccount | TotalOverflow

  /** The loop of buildEntry: a transfer for every line that is not zero, and the checked total. */
  function EntryLoop(books: Books, receivable: AccountId, items: seq<LineItem>): Entry {
    if items == [] then Entry(books, [], 0)
    else
      var so := EntryLoop(books, receivable, items[..|items| - 1]);
      if !so.Entry? then so else AddLine(so.books, so.transfers, so.total, receivable, items[|items| - 1])
  }

  function AddLine(books: Books, transfers: seq<Transfer>, total: Amount, receivable: AccountId, item: LineItem): Entry {
    if item.amount == 0 then Entry(books, transfers, total)
    else
      var revenue := EnsureAccount(books, RevenueAccount(item.meter), Revenue);
      if !revenue.Ensured? then NoAccount
      else
        match CheckedAdd(total, item.amount)
        case Overflow => TotalOverflow
        case Fits(sum) => Entry(revenue.books, transfers + [Transfer(receivable, revenue.id, item.amount)], sum)
  }

  function EntryOf(books: Books, tenant: string, items: seq<LineItem>): Entry {
    match EnsureAccount(books, ReceivableAccount(tenant), Asset)
    case Ensured(ensured, receivable) => EntryLoop(ensured, receivable, items)
    case NameRequired => NoAccount
    case KindMismatch => NoAccount
  }

  method BuildEntry(books: Books, tenant: string, items: seq<LineItem>) returns (r: Entry)
    ensures r == EntryOf(books, tenant, items)
  {
    hide EnsureAccount, AddLine;
    var receivable := EnsureAccount(books, ReceivableAccount(tenant), Asset);
    if !receivable.Ensured? {
      return NoAccount;
    }
    var now, transfers, total := receivable.books, [], 0;
    for i := 0 to |items|
      invariant EntryLoop(receivable.books, receivable.id, items[..i]) == Entry(now, transfers, total)
    {
      assert items[..i + 1][..i] == items[..i];
      var next := BuildLine(now, transfers, total, receivable.id, items[i]);
      if !next.Entry? {
        StaysFailed(receivable.books, receivable.id, items, i + 1);
        return next;
      }
      now, transfers, total := next.books, next.transfers, next.total;
    }
    assert items[..|items|] == items;
    return Entry(now, transfers, total);
  }

  /** One turn of the loop of buildEntry. */
  method BuildLine(books: Books, transfers: seq<Transfer>, total: Amount, receivable: AccountId, item: LineItem)
    returns (r: Entry)
    ensures r == AddLine(books, transfers, total, receivable, item)
  {
    hide EnsureAccount, CheckedAdd;
    if item.amount == 0 {
      return Entry(books, transfers, total);
    }
    var revenue := EnsureAccount(books, RevenueAccount(item.meter), Revenue);
    if !revenue.Ensured? {
      return NoAccount;
    }
    var sum := CheckedAdd(total, item.amount);
    if sum.Overflow? {
      return TotalOverflow;
    }
    return Entry(revenue.books, transfers + [Transfer(receivable, revenue.id, item.amount)], sum.value);
  }

  lemma {:induction false} StaysFailed(books: Books, receivable: AccountId, items: seq<LineItem>, i: nat)
    requires i <= |items| && !EntryLoop(books, receivable, items[..i]).Entry?
    ensures EntryLoop(books, receivable, items) == EntryLoop(books, receivable, items[..i])
  {
    if i < |items| {
      assert items[..|items| - 1][..i] == items[..i];
      StaysFailed(books, receivable, items[..|items| - 1], i);
    } else {
      assert items[..i] == items;
    }
  }

  // ---- periods and the close -------------------------------------------------------------

  function FindPeriod(periods: seq<Period>, tenant: string, name: string): (r: Option<nat>)
    ensures r.Some? ==> r.value < |periods| && periods[r.value].tenant == tenant && periods[r.value].name == name
    ensures r.None? ==> forall i :: 0 <= i < |periods| ==> periods[i].tenant != tenant || periods[i].name != name
  {
    if periods == [] then None
    else
      var last := |periods| - 1;
      if periods[last].tenant == tenant && periods[last].name == name then Some(last)
      else FindPeriod(periods[..last], tenant, name)
  }

  /** EnsurePeriod: the period of that name, made open if there is none. */
  function EnsurePeriodOf(periods: seq<Period>, tenant: string, name: string, start: Instant, end: Instant): Option<(seq<Period>, nat)> {
    if end <= start || tenant == "" || name == "" then None
    else
      match FindPeriod(periods, tenant, name)
      case Some(id) => Some((periods, id))
      case None => Some((periods + [Period(tenant, name, start, end, false)], |periods|))
  }

  /**
   * Bad bounds and empty names are refused; else a period of that tenant and name
   * is found as it stands, and made open with these bounds if there is none.
   */
  lemma EnsurePeriodIs(periods: seq<Period>, tenant: string, name: string, start: Instant, end: Instant)
    ensures var r := EnsurePeriodOf(periods, tenant, name, start, end);
            var known := exists i :: 0 <= i < |periods| && periods[i].tenant == tenant && periods[i].name == name;
            && (r.None? <==> end <= start || tenant == "" || name == "")
            && (r.Some? && known ==> r.value.0 == periods && r.value.1 < |periods|
                                     && periods[r.value.1].tenant == tenant && periods[r.value.1].name == name)
            && (r.Some? && !known ==> r.value == (periods + [Period(tenant, name, start, end, false)], |periods|))
  {
    hide FindPeriod;
    var found := FindPeriod(periods, tenant, name);
    if found.Some? {
      var i := found.value;
      assert 0 <= i < |periods| && periods[i].tenant == tenant && periods[i].name == name;
    }
  }

  /** Asking again finds the period made the first time, whatever bounds are given. */
  lemma EnsurePeriodAgain(periods: seq<Period>, tenant: string, name: string, start: Instant, end: Instant, s: Instant, e: Instant)
    requires EnsurePeriodOf(periods, tenant, name, start, end).Some? && s < e
    ensures var r := EnsurePeriodOf(periods, tenant, name, start, end).value;
            && EnsurePeriodOf(r.0, tenant, name, s, e) == Some(r)
            && periods <= r.0 && r.1 < |r.0| && r.0[r.1].tenant == tenant && r.0[r.1].name == name
  {
  }

  function InvoiceFor(invoices: seq<Invoice>, period: nat): (r: Option<Invoice>)
    ensures r.Some? ==> r.value in invoices && r.value.period == period
    ensures r.None? ==> forall i :: 0 <= i < |invoices| ==> invoices[i].period != period
  {
    if invoices == [] then None
    else
      var last := |invoices| - 1;
      if invoices[last].period == period then Some(invoices[last]) else InvoiceFor(invoices[..last], period)
  }

  datatype Why =
    | NoPeriod | NoInvoice | NothingToBill | Unreadable | Unrated | NoEntry | BadTransaction | NotPosted | SecondInvoice

  datatype Outcome = Issued(db: Database, invoice: Invoice) | AlreadyClosed(invoice: Invoice) | Stopped(why: Why)

  /** From priced lines to a committed invoice: the entry, its transaction, the marks, the state. */
  function Issue(db: Database, pid: nat, items: seq<LineItem>): Outcome
    requires pid < |db.periods|
  {
    var p := db.periods[pid];
    var entry := EntryOf(db.books, p.tenant, items);
    var key := TransactionKey(p.tenant, p.name);
    if !entry.Entry? then Stopped(NoEntry)
    else if entry.transfers == [] then Stopped(NothingToBill)
    else if !Ledger.Acceptable(key, p.start, entry.transfers) then Stopped(BadTransaction)
    else
      var posted := PostOf(entry.books, Transaction(key, p.start, PostingsOf(entry.transfers)));
      if !posted.Posted? then Stopped(NotPosted)
      else if InvoiceFor(db.invoices, pid).Some? then Stopped(SecondInvoice)
      else
        var invoice := Invoice(pid, p.tenant, entry.total, posted.id, items);
        Issued(Database(Mark(db.events, p.tenant, p.end, |db.invoices|), db.periods[pid := p.(closed := true)],
                        db.invoices + [invoice], posted.books),
               invoice)
  }

  /**
   * Close. The rows gathered are those of seen, the rows marked those of the
   * database: each statement sees what has been committed by then.
   */
  ghost function CloseOf(db: Database, pid: nat, plan: Plan, registry: Registry, seen: seq<EventTable.Row>): Outcome {
    if pid >= |db.periods| then Stopped(NoPeriod)
    else
      var p := db.periods[pid];
      if p.closed then
        match InvoiceFor(db.invoices, pid)
        case None => Stopped(NoInvoice)
        case Some(invoice) => AlreadyClosed(invoice)
      else
        match Gathered(seen, p.tenant, p.end)
        case None => Stopped(Unreadable)
        case Some(usages) =>
          if usages == [] then Stopped(NothingToBill)
          else
            match RateOf(usages, plan, registry)
            case Refused(_) => Stopped(Unrated)
            case Rated(items) => Issue(db, pid, items)
  }

  class Service {
    const registry: Registry
    var db: Database

    constructor (registry: Registry)
      ensures this.registry == registry && db == Database([], [], [], Books(map[], map[], []))
    {
      this.registry := registry;
      db := Database([], [], [], Books(map[], map[], []));
    }

    method EnsurePeriod(tenant: string, name: string, start: Instant, end: Instant) returns (id: Option<nat>)
      modifies this
      ensures var r := EnsurePeriodOf(old(db).periods, tenant, name, start, end);
              if r.None? then id.None? && db == old(db)
              else id == Some(r.value.1) && db == old(db).(periods := r.value.0)
    {
      var r := EnsurePeriodOf(db.periods, tenant, name, start, end);
      if r.None? {
        return None;
      }
      db := db.(periods := r.value.0);
      return Some(r.value.1);
    }

    /** Close, undisturbed: one transaction, committed only when an invoice is issued. */
    method Close(pid: nat, plan: Plan) returns (r: Outcome)
      modifies this
      ensures r == CloseOf(old(db), pid, plan, registry, old(db).events)
      ensures db == if r.Issued? then r.db else old(db)
    {
      hide Gathered, RateOf, EntryOf, PostOf, InvoiceFor, TransactionKey, Mark;
      if pid >= |db.periods| {
        return Stopped(NoPeriod);
      }
      var p := db.periods[pid];
      if p.closed {
        var invoice := InvoiceFor(db.invoices, pid);
        return if invoice.None? then Stopped(NoInvoice) else AlreadyClosed(invoice.value);
      }
      var usages := GatherUsage(db.events, p.tenant, p.end);
      if usages.None? {
        return Stopped(Unreadable);
      }
      if |usages.value| == 0 {
        return Stopped(NothingToBill);
      }
      var items := Rate(usages.value, plan, registry);
      if items.Refused? {
        return Stopped(Unrated);
      }
      r := IssueInvoice(pid, items.items);
    }

    /** The second half of Close. */
    method IssueInvoice(pid: nat, items: seq<LineItem>) returns (r: Outcome)
      requires pid < |db.periods|
      modifies this
      ensures r == Issue(old(db), pid, items)
      ensures db == if r.Issued? then r.db else old(db)
    {
      hide EntryOf, PostOf, InvoiceFor, TransactionKey, Mark, PostingsOf;
      var p := db.periods[pid];
      var entry := BuildEntry(db.books, p.tenant, items);
      if !entry.Entry? {
        return Stopped(NoEntry);
      }
      if |entry.transfers| == 0 {
        return Stopped(NothingToBill);
      }
      var built := NewTransaction(TransactionKey(p.tenant, p.name), p.start, entry.transfers);
      if !built.Built? {
        return Stopped(BadTransaction);
      }
      var posted := PostTx(entry.books, built.tx);
      if !posted.Posted? {
        return Stopped(NotPosted);
      }
      if InvoiceFor(db.invoices, pid).Some? {
        return Stopped(SecondInvoice);
      }
      var invoice := Invoice(pid, p.tenant, entry.total, posted.id, items);
      var marked := Mark(db.events, p.tenant, p.end, |db.invoices|);
      db := Database(marked, db.periods[pid := p.(closed := true)], db.invoices + [invoice], posted.books);
      return Issued(db, invoice);
    }
  }
}
