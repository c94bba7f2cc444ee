/** Pricing a set of usage against a plan: Rate in billing/pricing/pricing.go. */
module Rating {
  import opened Int64
  import opened Options
  import opened Amounts
  import opened Quantities
  import opened Meters
  import opened Pricing

  datatype Usage = Usage(meter: string, quantity: Quantity)

  datatype LineItem = LineItem(meter: string, quantity: Quantity, amount: Amount)

  type Registry = set<string>

  type Plan = seq<Price>

  datatype Problem = UnknownMeter | NegativeUsage | QuantityOverflow | NoPrice | BadPrice

  datatype Rating = Rated(items: seq<LineItem>) | Refused(problem: Problem)

  // ---- totals per meter --------------------------------------------------------

  datatype Totals = Totals(sums: map<string, Quantity>) | Rejected(problem: Problem)

  function Lookup(sums: map<string, Quantity>, meter: string): Quantity {
    if meter in sums then sums[meter] else 0
  }

  /** One usage added to its meter's total. */
  function AddUsage(sums: map<string, Quantity>, u: Usage, registry: Registry): Totals {
    if u.meter !in registry then Rejected(UnknownMeter)
    else if u.quantity < 0 then Rejected(NegativeUsage)
    else
      match CheckedAdd(Lookup(sums, u.meter), u.quantity)
      case Overflow => Rejected(QuantityOverflow)
      case Fits(sum) => Totals(sums[u.meter := sum])
  }

  /** The accumulating loop of Rate. */
  function Gather(usages: seq<Usage>, registry: Registry): Totals {
    if usages == [] then Totals(map[])
    else
      match Gather(usages[..|usages| - 1], registry)
      case Rejected(problem) => Rejected(problem)
      case Totals(sums) => AddUsage(sums, usages[|usages| - 1], registry)
  }

  /** All the usage of one meter. */
  function Total(usages: seq<Usage>, meter: string): int {
    if usages == [] then 0
    else
      var u := usages[|usages| - 1];
      Total(usages[..|usages| - 1], meter) + if u.meter == meter then u.quantity as int else 0
  }

  function Named(usages: seq<Usage>): set<string> {
    set u | u in usages :: u.meter
  }

  /** Every usage is of a known meter and not negative, and every meter's total fits. */
  ghost predicate Acceptable(usages: seq<Usage>, registry: Registry) {
    && (forall u :: u in usages ==> u.meter in registry && u.quantity >= 0)
    && (forall meter :: meter in Named(usages) ==> Total(usages, meter) <= MAX_INT)
  }

  /** The sums are those of the usage, meter by meter. */
  ghost predicate SumsOf(sums: map<string, Quantity>, usages: seq<Usage>) {
    sums.Keys == Named(usages) && forall meter :: meter in sums ==> sums[meter] == Total(usages, meter)
  }

  /** Per meter the sums are exact, and the loop refuses exactly what is not acceptable. */
  lemma {:induction false} GatherExact(usages: seq<Usage>, registry: Registry)
    ensures Gather(usages, registry).Totals? <==> Acceptable(usages, registry)
    ensures Acceptable(usages, registry) ==> SumsOf(Gather(usages, registry).sums, usages)
  {
    hide Acceptable, AddUsage;
    if usages == [] {
      NothingAcceptable(registry);
    } else {
      var init, last := usages[..|usages| - 1], usages[|usages| - 1];
      assert usages == init + [last];
      GatherExact(init, registry);
      if Gather(init, registry).Totals? {
        AddUsageExact(Gather(init, registry).sums, init, last, registry);
      } else if Acceptable(usages, registry) {
        AcceptableInit(init, last, registry);
      }
    }
  }

  lemma NothingAcceptable(registry: Registry)
    ensures Acceptable([], registry)
  {
  }

  lemma AddUsageExact(sums: map<string, Quantity>, init: seq<Usage>, last: Usage, registry: Registry)
    requires Acceptable(init, registry) && SumsOf(sums, init)
    ensures AddUsage(sums, last, registry).Totals? <==> Acceptable(init + [last], registry)
    ensures Acceptable(init + [last], registry) ==> SumsOf(AddUsage(sums, last, registry).sums, init + [last])
  {
    hide Acceptable, CheckedAdd, Total, Named;
    NamedSnoc(init, last);
    if last.meter !in Named(init) {
      NotNamed(init, last.meter);
    }
    CheckedAddExact(Lookup(sums, last.meter), last.quantity);
    TotalSnoc(init, last, last.meter);
    if Acceptable(init + [last], registry) {
      AcceptableInit(init, last, registry);
      AcceptableTotal(init + [last], registry, last.meter);
      forall meter | meter in Named(init)
        ensures Total(init + [last], meter) == Total(init, meter) + if last.meter == meter then last.quantity as int else 0
      {
        TotalSnoc(init, last, meter);
      }
    } else if last.meter in registry && last.quantity >= 0 && Total(init + [last], last.meter) <= MAX_INT {
      AcceptableSnoc(init, last, registry);
    }
  }

  lemma AcceptableTotal(usages: seq<Usage>, registry: Registry, meter: string)
    requires Acceptable(usages, registry) && meter in Named(usages)
    ensures Total(usages, meter) <= MAX_INT
  {
  }

  lemma NamedSnoc(init: seq<Usage>, last: Usage)
    ensures Named(init + [last]) == Named(init) + {last.meter}
  {
    assert last in init + [last];
    assert forall u :: u in init ==> u in init + [last];
  }

  lemma {:induction false} NotNamed(usages: seq<Usage>, meter: string)
    requires meter !in Named(usages)
    ensures Total(usages, meter) == 0
  {
    if usages != [] {
      var init, last := usages[..|usages| - 1], usages[|usages| - 1];
      assert usages == init + [last];
      NamedSnoc(init, last);
      NotNamed(init, meter);
    }
  }

  lemma TotalSnoc(init: seq<Usage>, last: Usage, meter: string)
    ensures Total(init + [last], meter) == Total(init, meter) + if last.meter == meter then last.quantity as int else 0
  {
    assert (init + [last])[..|init|] == init;
  }

  lemma AcceptableInit(init: seq<Usage>, last: Usage, registry: Registry)
    requires Acceptable(init + [last], registry)
    ensures Acceptable(init, registry) && last.meter in registry && last.quantity >= 0
  {
    assert last in init + [last];
    NamedSnoc(init, last);
    forall meter | meter in Named(init)
      ensures Total(init, meter) <= MAX_INT
    {
      TotalSnoc(init, last, meter);
    }
    forall u | u in init
      ensures u.meter in registry && u.quantity >= 0
    {
      assert u in init + [last];
    }
  }

  lemma AcceptableSnoc(init: seq<Usage>, last: Usage, registry: Registry)
    requires Acceptable(init, registry) && last.meter in registry && last.quantity >= 0
    requires Total(init + [last], last.meter) <= MAX_INT
    ensures Acceptable(init + [last], registry)
  {
    NamedSnoc(init, last);
    forall meter | meter in Named(init + [last])
      ensures Total(init + [last], meter) <= MAX_INT
    {
      TotalSnoc(init, last, meter);
    }
  }

  // ---- lines -----------------------------------------------------------------------

  /** priceFor: the plan's first price for the meter. */
  function PriceFor(plan: Plan, meter: string): (r: Option<Price>)
    ensures r.None? <==> forall i :: 0 <= i < |plan| ==> plan[i].meter != meter
    ensures r.Some? ==>
              exists i :: 0 <= i < |plan| && plan[i] == r.value && plan[i].meter == meter && forall j :: 0 <= j < i ==> plan[j].meter != meter
  {
    if plan == [] then None
    else if plan[0].meter == meter then Some(plan[0])
    else PriceFor(plan[1..], meter)
  }

  datatype Line = Line(item: LineItem) | NoLine(problem: Problem)

  /** One meter's line, if the plan has a price that applies. */
  function LineFor(plan: Plan, meter: string, quantity: Quantity): Line {
    match PriceFor(plan, meter)
    case None => NoLine(NoPrice)
    case Some(price) =>
      var priced := PriceOf(price, quantity);
      if priced.Priced? && priced.money.Charged? then Line(LineItem(meter, quantity, priced.money.amount))
      else NoLine(BadPrice)
  }

  /** The pricing loop of Rate, over the meters in order. */
  function Lines(meters: seq<string>, sums: map<string, Quantity>, plan: Plan): Rating {
    if meters == [] then Rated([])
    else
      match Lines(meters[..|meters| - 1], sums, plan)
      case Refused(problem) => Refused(problem)
      case Rated(items) =>
        var meter := meters[|meters| - 1];
        match LineFor(plan, meter, Lookup(sums, meter))
        case NoLine(problem) => Refused(problem)
        case Line(item) => Rated(items + [item])
  }

  ghost function RateOf(usages: seq<Usage>, plan: Plan, registry: Registry): Rating {
    match Gather(usages, registry)
    case Rejected(problem) => Refused(problem)
    case Totals(sums) => Lines(InOrder(sums.Keys), sums, plan)
  }

  method FindPrice(plan: Plan, meter: string) returns (r: Option<Price>)
    ensures r == PriceFor(plan, meter)
  {
    for i := 0 to |plan|
      invariant PriceFor(plan[i..], meter) == PriceFor(plan, meter)
    {
      if plan[i].meter == meter {
        return Some(plan[i]);
      }
    }
    return None;
  }

  /** Rate. */
  method Rate(usages: seq<Usage>, plan: Plan, registry: Registry) returns (r: Rating)
    ensures r == RateOf(usages, plan, registry)
  {
    hide PriceOf, CheckedAdd, PriceFor;
    var sums: map<string, Quantity> := map[];
    for i := 0 to |usages|
      invariant Gather(usages[..i], registry) == Totals(sums)
    {
      assert usages[..i + 1][..i] == usages[..i];
      var u := usages[i];
      if u.meter !in registry {
        StaysRejected(usages, i + 1, registry);
        return Refused(UnknownMeter);
      }
      if u.quantity < 0 {
        StaysRejected(usages, i + 1, registry);
        return Refused(NegativeUsage);
      }
      var sum := CheckedAdd(Lookup(sums, u.meter), u.quantity);
      if sum.Overflow? {
        StaysRejected(usages, i + 1, registry);
        return Refused(QuantityOverflow);
      }
      sums := sums[u.meter := sum.value];
    }
    assert usages[..|usages|] == usages;
    var meters := SortedKeys(sums.Keys);
    r := PriceLines(meters, sums, plan);
  }

  /** One turn of the pricing loop. */
  method PriceLine(plan: Plan, meter: string, quantity: Quantity) returns (r: Line)
    ensures r == LineFor(plan, meter, quantity)
  {
    hide PriceOf, PriceFor;
    var price := FindPrice(plan, meter);
    if price.None? {
      return NoLine(NoPrice);
    }
    var priced := ApplyPrice(price.value, quantity);
    if !priced.Priced? || priced.money.OutOfRange? {
      return NoLine(BadPrice);
    }
    return Line(LineItem(meter, quantity, priced.money.amount));
  }

  method PriceLines(meters: seq<string>, sums: map<string, Quantity>, plan: Plan) returns (r: Rating)
    ensures r == Lines(meters, sums, plan)
  {
    hide LineFor;
    var items := [];
    for i := 0 to |meters|
      invariant Lines(meters[..i], sums, plan) == Rated(items)
    {
      assert meters[..i + 1][..i] == meters[..i];
      var line := PriceLine(plan, meters[i], Lookup(sums, meters[i]));
      if line.NoLine? {
        StaysRefused(meters, i + 1, sums, plan);
        return Refused(line.problem);
      }
      items := items + [line.item];
    }
    assert meters[..|meters|] == meters;
    return Rated(items);
  }

  lemma {:induction false} StaysRejected(usages: seq<Usage>, i: nat, registry: Registry)
    requires i <= |usages| && Gather(usages[..i], registry).Rejected?
    ensures Gather(usages, registry) == Gather(usages[..i], registry)
  {
    if i < |usages| {
      var init := usages[..|usages| - 1];
      assert init[..i] == usages[..i];
      StaysRejected(init, i, registry);
    } else {
      assert usages[..i] == usages;
    }
  }

  lemma {:induction false} StaysRefused(meters: seq<string>, i: nat, sums: map<string, Quantity>, plan: Plan)
    requires i <= |meters| && Lines(meters[..i], sums, plan).Refused?
    ensures Lines(meters, sums, plan) == Lines(meters[..i], sums, plan)
  {
    if i < |meters| {
      var init := meters[..|meters| - 1];
      assert init[..i] == meters[..i];
      StaysRefused(init, i, sums, plan);
    } else {
      assert meters[..i] == meters;
    }
  }

  // ---- what a bill is --------------------------------------------------------------

  /** One line per meter used, in order, each for all its usage at its own price. */
  ghost predicate IsBill(items: seq<LineItem>, usages: seq<Usage>, plan: Plan) {
    && (forall i, j :: 0 <= i < j < |items| ==> Less(items[i].meter, items[j].meter))
    && (forall meter :: meter in Named(usages) <==> exists i :: 0 <= i < |items| && items[i].meter == meter)
    && (forall i :: 0 <= i < |items| ==>
         && items[i].quantity == Total(usages, items[i].meter)
         && LineFor(plan, items[i].meter, items[i].quantity) == Line(items[i]))
  }

  /** Every meter used has a price in the plan that applies to its total. */
  ghost predicate Priceable(usages: seq<Usage>, plan: Plan, registry: Registry) {
    && Acceptable(usages, registry)
    && forall meter :: meter in Named(usages) ==>
         (AcceptableRange(usages, registry, meter); LineFor(plan, meter, Total(usages, meter)).Line?)
  }

  lemma {:induction false} TotalNotNegative(usages: seq<Usage>, meter: string)
    requires forall u :: u in usages ==> u.quantity >= 0
    ensures Total(usages, meter) >= 0
  {
    if usages != [] {
      TotalNotNegative(usages[..|usages| - 1], meter);
    }
  }

  lemma AcceptableRange(usages: seq<Usage>, registry: Registry, meter: string)
    requires Acceptable(usages, registry) && meter in Named(usages)
    ensures 0 <= Total(usages, meter) <= MAX_INT
  {
    TotalNotNegative(usages, meter);
  }

  lemma {:induction false} LinesExact(meters: seq<string>, sums: map<string, Quantity>, plan: Plan)
    ensures Lines(meters, sums, plan).Rated? <==>
              forall i :: 0 <= i < |meters| ==> LineFor(plan, meters[i], Lookup(sums, meters[i])).Line?
    ensures Lines(meters, sums, plan).Rated? ==>
              var items := Lines(meters, sums, plan).items;
              && |items| == |meters|
              && forall i :: 0 <= i < |items| ==> LineFor(plan, meters[i], Lookup(sums, meters[i])) == Line(items[i])
  {
    hide LineFor;
    if meters != [] {
      LinesExact(meters[..|meters| - 1], sums, plan);
    }
  }

  lemma LineForIs(plan: Plan, meter: string, quantity: Quantity)
    requires LineFor(plan, meter, quantity).Line?
    ensures LineFor(plan, meter, quantity).item.meter == meter
    ensures LineFor(plan, meter, quantity).item.quantity == quantity
  {
  }

  /** Rate succeeds exactly when every meter used can be priced, and then returns the bill. */
  lemma RateIsBill(usages: seq<Usage>, plan: Plan, registry: Registry)
    ensures RateOf(usages, plan, registry).Rated? <==> Priceable(usages, plan, registry)
    ensures Priceable(usages, plan, registry) ==> IsBill(RateOf(usages, plan, registry).items, usages, plan)
  {
    hide LineFor, Acceptable, Gather, Lines, Named, Total;
    GatherExact(usages, registry);
    if Acceptable(usages, registry) {
      var sums := Gather(usages, registry).sums;
      var meters := InOrder(sums.Keys);
      LinesExact(meters, sums, plan);
      if Priceable(usages, plan, registry) {
        forall i | 0 <= i < |meters|
          ensures LineFor(plan, meters[i], Lookup(sums, meters[i])).Line?
        {
          assert meters[i] in meters;
        }
      }
      if Lines(meters, sums, plan).Rated? {
        RatedIsBill(meters, sums, usages, plan);
        RatedIsPriceable(meters, sums, usages, plan, registry);
      }
    }
  }

  lemma RatedIsPriceable(meters: seq<string>, sums: map<string, Quantity>, usages: seq<Usage>, plan: Plan, registry: Registry)
    requires Acceptable(usages, registry) && SumsOf(sums, usages)
    requires forall x :: x in meters <==> x in sums
    requires Lines(meters, sums, plan).Rated?
    ensures Priceable(usages, plan, registry)
  {
    hide LineFor, Acceptable, Lines, Named, Total;
    LinesExact(meters, sums, plan);
    forall meter | meter in Named(usages)
      ensures meter in sums && LineFor(plan, meter, sums[meter]).Line?
    {
      var i :| 0 <= i < |meters| && meters[i] == meter;
    }
  }

  lemma RatedIsBill(meters: seq<string>, sums: map<string, Quantity>, usages: seq<Usage>, plan: Plan)
    requires SumsOf(sums, usages) && Sorted(meters)
    requires forall x :: x in meters <==> x in sums
    requires Lines(meters, sums, plan).Rated?
    ensures IsBill(Lines(meters, sums, plan).items, usages, plan)
  {
    hide LineFor, Lines, Named, Total;
    LinesExact(meters, sums, plan);
    var items := Lines(meters, sums, plan).items;
    forall i | 0 <= i < |items|
      ensures items[i].meter == meters[i] && items[i].quantity == Lookup(sums, meters[i]) && meters[i] in sums
    {
      LineForIs(plan, meters[i], Lookup(sums, meters[i]));
      assert meters[i] in meters;
    }
    forall meter | meter in Named(usages)
      ensures exists i :: 0 <= i < |items| && items[i].meter == meter
    {
      var i :| 0 <= i < |meters| && meters[i] == meter;
      assert items[i].meter == meter;
    }
  }

  /** The plan's first price for the meter is the k-th. */
  ghost predicate FirstPrice(plan: Plan, meter: string, k: nat) {
    k < |plan| && plan[k].meter == meter && forall j :: 0 <= j < k ==> plan[j].meter != meter
  }

  /** The meter's first price reaches an amount for the quantity. */
  ghost predicate Chargeable(plan: Plan, meter: string, q: int) {
    exists k: nat :: FirstPrice(plan, meter, k) && Reachable(plan[k], q)
  }

  /** The amount is what the meter's first price sets on the quantity. */
  ghost predicate ChargedAt(plan: Plan, meter: string, q: int, amount: int) {
    exists k: nat :: FirstPrice(plan, meter, k) && Costs(plan[k], q, amount)
  }

  lemma LineMeans(plan: Plan, meter: string, q: Quantity)
    requires q >= 0
    ensures LineFor(plan, meter, q).Line? <==> Chargeable(plan, meter, q as int)
    ensures LineFor(plan, meter, q).Line? ==>
              var item := LineFor(plan, meter, q).item;
              item.meter == meter && item.quantity == q && ChargedAt(plan, meter, q as int, item.amount as int)
  {
    hide PriceOf, Costs, Reachable, PriceFor, FirstPrice;
    if PriceFor(plan, meter).Some? {
      var k := PriceForFirst(plan, meter);
      PriceMeans(plan[k], q);
      OnlyFirst(plan, meter, k);
    } else {
      NoFirst(plan, meter);
    }
  }

  lemma PriceForFirst(plan: Plan, meter: string) returns (k: nat)
    requires PriceFor(plan, meter).Some?
    ensures FirstPrice(plan, meter, k) && k < |plan| && plan[k] == PriceFor(plan, meter).value
  {
    hide PriceFor;
    k :| 0 <= k < |plan| && plan[k] == PriceFor(plan, meter).value && plan[k].meter == meter
         && forall j :: 0 <= j < k ==> plan[j].meter != meter;
  }

  lemma OnlyFirst(plan: Plan, meter: string, k: nat)
    requires FirstPrice(plan, meter, k)
    ensures forall j: nat :: FirstPrice(plan, meter, j) ==> j == k
  {
  }

  lemma NoFirst(plan: Plan, meter: string)
    requires PriceFor(plan, meter).None?
    ensures forall k: nat :: !FirstPrice(plan, meter, k)
  {
    hide PriceFor;
  }

  /**
   * Rate, told from the plan: it succeeds exactly when the usage is acceptable and
   * each meter's first price reaches an amount for its total, and then each line
   * costs what that price sets.
   */
  lemma RateCharges(usages: seq<Usage>, plan: Plan, registry: Registry)
    ensures RateOf(usages, plan, registry).Rated? <==>
              && Acceptable(usages, registry)
              && forall meter :: meter in Named(usages) ==> Chargeable(plan, meter, Total(usages, meter))
    ensures RateOf(usages, plan, registry).Rated? ==>
              forall i :: 0 <= i < |RateOf(usages, plan, registry).items| ==>
                var item := RateOf(usages, plan, registry).items[i];
                ChargedAt(plan, item.meter, Total(usages, item.meter), item.amount as int)
  {
    hide LineFor, Acceptable, Named, Total, RateOf, Chargeable, ChargedAt;
    RateIsBill(usages, plan, registry);
    if Acceptable(usages, registry) {
      forall meter | meter in Named(usages)
        ensures 0 <= Total(usages, meter) <= MAX_INT
        ensures LineFor(plan, meter, Total(usages, meter)).Line? <==> Chargeable(plan, meter, Total(usages, meter))
      {
        AcceptableRange(usages, registry, meter);
        LineMeans(plan, meter, Total(usages, meter));
      }
    }
    if RateOf(usages, plan, registry).Rated? {
      var items := RateOf(usages, plan, registry).items;
      forall i | 0 <= i < |items|
        ensures ChargedAt(plan, items[i].meter, Total(usages, items[i].meter), items[i].amount as int)
      {
        assert items[i].meter in Named(usages);
        AcceptableRange(usages, registry, items[i].meter);
        LineMeans(plan, items[i].meter, items[i].quantity);
      }
    }
  }

  /** Usage is refused for the first usage that makes it unacceptable, and says why. */
  lemma {:induction false} RejectionNames(usages: seq<Usage>, registry: Registry) returns (i: nat)
    requires Gather(usages, registry).Rejected?
    ensures i < |usages| && Acceptable(usages[..i], registry) && !Acceptable(usages[..i + 1], registry)
    ensures Gather(usages, registry).problem ==
            if usages[i].meter !in registry then UnknownMeter
            else if usages[i].quantity < 0 then NegativeUsage
            else QuantityOverflow
  {
    hide Acceptable;
    var init := usages[..|usages| - 1];
    if Gather(init, registry).Rejected? {
      i := RejectionNames(init, registry);
      assert init[..i] == usages[..i] && init[..i + 1] == usages[..i + 1];
    } else {
      i := |usages| - 1;
      GatherExact(init, registry);
      GatherExact(usages, registry);
      assert usages[..i + 1] == usages;
    }
  }

  /** Pricing is refused for the first meter in order that has no price, or one that does not apply. */
  lemma {:induction false} RefusalNames(meters: seq<string>, sums: map<string, Quantity>, plan: Plan) returns (i: nat)
    requires Lines(meters, sums, plan).Refused?
    ensures i < |meters| && Lines(meters[..i], sums, plan).Rated?
    ensures Lines(meters, sums, plan).problem ==
            if forall k :: 0 <= k < |plan| ==> plan[k].meter != meters[i] then NoPrice else BadPrice
  {
    hide PriceOf;
    var init := meters[..|meters| - 1];
    if Lines(init, sums, plan).Refused? {
      i := RefusalNames(init, sums, plan);
      assert init[..i] == meters[..i];
    } else {
      i := |meters| - 1;
    }
  }

  /** A bill depends on nothing but each meter's total: there is only one. */
  lemma BillIsUnique(a: seq<LineItem>, b: seq<LineItem>, u: seq<Usage>, v: seq<Usage>, plan: Plan)
    requires IsBill(a, u, plan) && IsBill(b, v, plan)
    requires Named(u) == Named(v) && forall meter :: meter in Named(u) ==> Total(u, meter) == Total(v, meter)
    ensures a == b
  {
    hide LineFor, Named, Total;
    var p := seq(|a|, i requires 0 <= i < |a| => a[i].meter);
    var q := seq(|b|, i requires 0 <= i < |b| => b[i].meter);
    forall x
      ensures x in p <==> x in Named(u)
      ensures x in q <==> x in Named(u)
    {
      if x in p {
        var i :| 0 <= i < |p| && p[i] == x;
        assert a[i].meter == x;
      }
      if x in q {
        var i :| 0 <= i < |q| && q[i] == x;
        assert b[i].meter == x;
      }
      if x in Named(u) {
        var i :| 0 <= i < |a| && a[i].meter == x;
        assert p[i] == x;
        var j :| 0 <= j < |b| && b[j].meter == x;
        assert q[j] == x;
      }
    }
    SortedOnce(p, q);
    forall i | 0 <= i < |a|
      ensures a[i] == b[i]
    {
      assert p[i] == q[i];
      assert a[i].meter in Named(u);
    }
  }

  /** What Rate returns, and whether it fails, follows from the totals alone. */
  lemma SameTotalsSameBill(u: seq<Usage>, v: seq<Usage>, plan: Plan, registry: Registry)
    requires Named(u) == Named(v) && forall meter :: meter in Named(u) ==> Total(u, meter) == Total(v, meter)
    requires Acceptable(u, registry) <==> Acceptable(v, registry)
    ensures RateOf(u, plan, registry).Rated? <==> RateOf(v, plan, registry).Rated?
    ensures RateOf(u, plan, registry).Rated? ==> RateOf(u, plan, registry) == RateOf(v, plan, registry)
  {
    hide LineFor, Named, Total, RateOf, IsBill, Acceptable;
    RateIsBill(u, plan, registry);
    RateIsBill(v, plan, registry);
    if Priceable(u, plan, registry) && Priceable(v, plan, registry) {
      BillIsUnique(RateOf(u, plan, registry).items, RateOf(v, plan, registry).items, u, v, plan);
    }
  }

  // ---- reordering, splitting, conservation -----------------------------------------

  lemma {:induction false} TotalConcat(a: seq<Usage>, b: seq<Usage>, meter: string)
    ensures Total(a + b, meter) == Total(a, meter) + Total(b, meter)
  {
    if b == [] {
      assert a + b == a;
    } else {
      var init, last := b[..|b| - 1], b[|b| - 1];
      assert a + b == (a + init) + [last] && b == init + [last];
      TotalConcat(a, init, meter);
      TotalSnoc(a + init, last, meter);
    }
  }

  /** Taking one usage out of the middle takes out its quantity. */
  lemma TotalWithout(usages: seq<Usage>, i: nat, meter: string)
    requires i < |usages|
    ensures Total(usages, meter) ==
            Total(usages[..i] + usages[i + 1..], meter) + if usages[i].meter == meter then usages[i].quantity as int else 0
  {
    assert usages == (usages[..i] + [usages[i]]) + usages[i + 1..];
    TotalConcat(usages[..i] + [usages[i]], usages[i + 1..], meter);
    TotalSnoc(usages[..i], usages[i], meter);
    TotalConcat(usages[..i], usages[i + 1..], meter);
  }

  lemma WithoutOne(init: seq<Usage>, v: seq<Usage>, i: nat)
    requires i < |v| && multiset(init + [v[i]]) == multiset(v)
    ensures multiset(init) == multiset(v[..i] + v[i + 1..])
  {
    assert v == v[..i] + [v[i]] + v[i + 1..];
    assert multiset(v) == multiset(v[..i]) + multiset{v[i]} + multiset(v[i + 1..]);
    assert multiset(init) == multiset(init + [v[i]]) - multiset{v[i]};
    assert multiset(v) - multiset{v[i]} == multiset(v[..i]) + multiset(v[i + 1..]);
  }

  lemma {:induction false} TotalPermuted(u: seq<Usage>, v: seq<Usage>, meter: string)
    requires multiset(u) == multiset(v)
    ensures Total(u, meter) == Total(v, meter)
  {
    hide Total;
    if u == [] {
      assert |multiset(v)| == 0;
    } else {
      var init, last := u[..|u| - 1], u[|u| - 1];
      assert u == init + [last];
      assert last in multiset(v);
      var i :| 0 <= i < |v| && v[i] == last;
      WithoutOne(init, v, i);
      TotalPermuted(init, v[..i] + v[i + 1..], meter);
      TotalWithout(v, i, meter);
      TotalSnoc(init, last, meter);
    }
  }

  /** Reordering the usage never changes whether Rate succeeds, nor what it returns. */
  lemma RateIgnoresOrder(u: seq<Usage>, v: seq<Usage>, plan: Plan, registry: Registry)
    requires multiset(u) == multiset(v)
    ensures RateOf(u, plan, registry).Rated? <==> RateOf(v, plan, registry).Rated?
    ensures RateOf(u, plan, registry).Rated? ==> RateOf(u, plan, registry) == RateOf(v, plan, registry)
  {
    hide RateOf, Total;
    forall x: Usage
      ensures x in u <==> x in v
    {
      assert x in multiset(u) <==> x in multiset(v);
    }
    assert Named(u) == Named(v);
    forall meter: string
      ensures Total(u, meter) == Total(v, meter)
    {
      TotalPermuted(u, v, meter);
    }
    SameTotalsSameBill(u, v, plan, registry);
  }

  /** Nor does splitting one usage into non-negative parts of the same meter. */
  lemma RateIgnoresSplits(a: seq<Usage>, meter: string, x: Quantity, y: Quantity, b: seq<Usage>, plan: Plan, registry: Registry)
    requires x >= 0 && y >= 0 && x as int + y as int <= MAX_INT
    ensures var whole := a + [Usage(meter, x as int + y as int)] + b;
            var split := a + [Usage(meter, x), Usage(meter, y)] + b;
            && (RateOf(whole, plan, registry).Rated? <==> RateOf(split, plan, registry).Rated?)
            && (RateOf(whole, plan, registry).Rated? ==> RateOf(whole, plan, registry) == RateOf(split, plan, registry))
  {
    hide RateOf, Total, Named, Acceptable;
    var one, two := [Usage(meter, x as int + y as int)], [Usage(meter, x), Usage(meter, y)];
    var whole, split := a + one + b, a + two + b;
    forall m: string
      ensures Total(whole, m) == Total(split, m)
    {
      SplitTotal(meter, x, y, m);
      TotalConcat(a + one, b, m);
      TotalConcat(a, one, m);
      TotalConcat(a + two, b, m);
      TotalConcat(a, two, m);
    }
    SplitAcceptable(a, meter, x, y, b, registry);
    SameTotalsSameBill(whole, split, plan, registry);
  }

  lemma SplitTotal(meter: string, x: Quantity, y: Quantity, m: string)
    requires x >= 0 && y >= 0 && x as int + y as int <= MAX_INT
    ensures Total([Usage(meter, x as int + y as int)], m) == Total([Usage(meter, x), Usage(meter, y)], m)
  {
    TotalSnoc([], Usage(meter, x as int + y as int), m);
    TotalSnoc([], Usage(meter, x), m);
    TotalSnoc([Usage(meter, x)], Usage(meter, y), m);
    assert [] + [Usage(meter, x)] == [Usage(meter, x)];
    assert [Usage(meter, x)] + [Usage(meter, y)] == [Usage(meter, x), Usage(meter, y)];
  }

  lemma NamedConcat(a: seq<Usage>, b: seq<Usage>)
    ensures Named(a + b) == Named(a) + Named(b)
  {
    assert forall u :: u in a || u in b <==> u in a + b;
  }

  lemma SplitAcceptable(a: seq<Usage>, meter: string, x: Quantity, y: Quantity, b: seq<Usage>, registry: Registry)
    requires x >= 0 && y >= 0 && x as int + y as int <= MAX_INT
    requires var whole := a + [Usage(meter, x as int + y as int)] + b;
             var split := a + [Usage(meter, x), Usage(meter, y)] + b;
             forall m :: Total(whole, m) == Total(split, m)
    ensures var whole := a + [Usage(meter, x as int + y as int)] + b;
            var split := a + [Usage(meter, x), Usage(meter, y)] + b;
            Named(whole) == Named(split) && (Acceptable(whole, registry) <==> Acceptable(split, registry))
  {
    hide Total;
    var one, two := [Usage(meter, x as int + y as int)], [Usage(meter, x), Usage(meter, y)];
    var whole, split := a + one + b, a + two + b;
    assert one[0] in one && two[0] in two && two[1] in two;
    assert Named(one) == {meter} && Named(two) == {meter};
    NamedConcat(a + one, b);
    NamedConcat(a, one);
    NamedConcat(a + two, b);
    NamedConcat(a, two);
    assert forall u :: u in whole <==> u in a || u in b || u == one[0];
    assert forall u :: u in split <==> u in a || u in b || u == two[0] || u == two[1];
  }

  /** The quantity the lines carry for a meter. */
  function OnLines(items: seq<LineItem>, meter: string): int {
    if items == [] then 0
    else
      var item := items[|items| - 1];
      OnLines(items[..|items| - 1], meter) + if item.meter == meter then item.quantity as int else 0
  }

  lemma {:induction false} OnNoLine(items: seq<LineItem>, meter: string)
    requires forall i :: 0 <= i < |items| ==> items[i].meter != meter
    ensures OnLines(items, meter) == 0
  {
    if items != [] {
      OnNoLine(items[..|items| - 1], meter);
    }
  }

  lemma {:induction false} OnOneLine(items: seq<LineItem>, i: nat)
    requires i < |items|
    requires forall j :: 0 <= j < |items| && j != i ==> items[j].meter != items[i].meter
    ensures OnLines(items, items[i].meter) == items[i].quantity
  {
    if i == |items| - 1 {
      OnNoLine(items[..|items| - 1], items[i].meter);
    } else {
      OnOneLine(items[..|items| - 1], i);
    }
  }

  /** No usage is lost and none is counted twice: for every meter, used or not. */
  lemma BillConserves(items: seq<LineItem>, usages: seq<Usage>, plan: Plan, meter: string)
    requires IsBill(items, usages, plan)
    ensures OnLines(items, meter) == Total(usages, meter)
  {
    hide LineFor, Total, Named, OnLines;
    if i :| 0 <= i < |items| && items[i].meter == meter {
      forall j | 0 <= j < |items| && j != i
        ensures items[j].meter != items[i].meter
      {
        LessIsStrict(items[i].meter, items[j].meter);
      }
      OnOneLine(items, i);
    } else {
      OnNoLine(items, meter);
      NotNamed(usages, meter);
    }
  }
}
