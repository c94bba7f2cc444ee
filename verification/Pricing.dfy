/** What one meter's usage costs (billing/pricing/pricing.go). */
module Pricing {
  import opened Int64
  import opened Options
  import opened Amounts
  import opened Quantities

  const FACTOR := 1_000_000_000

  datatype Money = Charged(amount: Amount) | OutOfRange

  datatype Tier = Tier(upTo: Option<Quantity>, unitPrice: Amount, flatFee: Amount)

  // ---- rounding ------------------------------------------------------------

  /** quotient and remainder of a product in nano-micro-units, rounded half away from zero. */
  function Round(product: int): int {
    var quotient, remainder := Quo(product, FACTOR), Rem(product, FACTOR);
    var doubled := 2 * if remainder < 0 then -remainder else remainder;
    if doubled < FACTOR then quotient
    else if product < 0 then quotient - 1
    else quotient + 1
  }

  /** multiply: exact product, one rounding, checked back into an int64. */
  function Multiply(quantity: Quantity, unitPrice: Amount): Money {
    if quantity == 0 || unitPrice == 0 then Charged(0)
    else Fit(Round(quantity as int * unitPrice as int))
  }

  function Fit(x: int): Money {
    if MIN_INT <= x <= MAX_INT then Charged(x) else OutOfRange
  }

  /** Rounding is off by at most half a unit, keeps the sign, and never reverses an order. */
  lemma RoundNearest(x: int)
    ensures -FACTOR <= 2 * (Round(x) * FACTOR - x) <= FACTOR
    ensures x >= 0 ==> Round(x) >= 0
    ensures Round(-x) == -Round(x)
  {
  }

  lemma RoundMonotone(x: int, y: int)
    requires x <= y
    ensures Round(x) <= Round(y)
  {
    RoundNearest(x);
    RoundNearest(y);
  }

  /** Ties go away from zero: nothing else is as near and larger in magnitude. */
  lemma RoundTiesAway(x: int, n: int)
    requires -FACTOR <= 2 * (n * FACTOR - x) <= FACTOR
    ensures x >= 0 ==> n <= Round(x)
    ensures x <= 0 ==> Round(x) <= n
  {
    RoundNearest(x);
  }

  lemma MultiplyRounds(quantity: Quantity, unitPrice: Amount)
    ensures Multiply(quantity, unitPrice) == Fit(Round(quantity as int * unitPrice as int))
  {
  }

  /** What multiply returns is the nearest amount to the exact product; it fails only when no amount is nearer. */
  lemma MultiplyNearest(quantity: Quantity, unitPrice: Amount, a: Amount)
    ensures var x, r := quantity as int * unitPrice as int, Multiply(quantity, unitPrice);
            && (r.Charged? ==> -FACTOR <= 2 * (r.amount * FACTOR - x) <= FACTOR)
            && (r.OutOfRange? ==> 2 * (a * FACTOR - x) <= -FACTOR || FACTOR <= 2 * (a * FACTOR - x))
  {
    hide Round;
    var x := quantity as int * unitPrice as int;
    MultiplyRounds(quantity, unitPrice);
    RoundNearest(x);
  }

  // ---- tiers -----------------------------------------------------------------

  /** What validateTiers lets through: strictly rising positive bounds, then one unbounded tier. */
  predicate ValidTiers(tiers: seq<Tier>) {
    && |tiers| > 0 && tiers[|tiers| - 1].upTo.None?
    && (forall i :: 0 <= i < |tiers| - 1 ==> tiers[i].upTo.Some? && tiers[i].upTo.value > Floor(tiers, i))
  }

  /** The bound below tier i: where the one before it ends. */
  function Floor(tiers: seq<Tier>, i: nat): int
    requires i <= |tiers|
  {
    if i == 0 || tiers[i - 1].upTo.None? then 0 else tiers[i - 1].upTo.value
  }

  /** Some tiers, only the last unbounded, the others' bounds positive and each above all before it. */
  lemma ValidTiersIff(tiers: seq<Tier>)
    ensures ValidTiers(tiers) <==>
              && tiers != [] && tiers[|tiers| - 1].upTo.None?
              && (forall i :: 0 <= i < |tiers| - 1 ==> tiers[i].upTo.Some? && tiers[i].upTo.value > 0)
              && (forall i, j :: 0 <= i < j < |tiers| - 1 ==> tiers[i].upTo.value < tiers[j].upTo.value)
  {
    if ValidTiers(tiers) {
      forall i, j | 0 <= i < j < |tiers| - 1
        ensures tiers[i].upTo.value < tiers[j].upTo.value
      {
        FloorRises(tiers, i + 1, j);
      }
      forall i | 0 <= i < |tiers| - 1
        ensures tiers[i].upTo.value > 0
      {
        FloorRises(tiers, i, i);
      }
    }
  }

  /** validateTiers. */
  method ValidateTiers(tiers: seq<Tier>) returns (ok: bool)
    ensures ok <==> ValidTiers(tiers)
  {
    if |tiers| == 0 {
      return false;
    }
    var previous: Quantity := 0;
    var i := 0;
    while i < |tiers|
      invariant 0 <= i <= |tiers|
      invariant forall k :: 0 <= k < i && k < |tiers| - 1 ==> tiers[k].upTo.Some? && tiers[k].upTo.value > Floor(tiers, k)
      invariant i < |tiers| ==> previous == Floor(tiers, i)
      invariant i == |tiers| ==> tiers[|tiers| - 1].upTo.None?
    {
      var last := i == |tiers| - 1;
      if tiers[i].upTo.None? {
        if !last {
          return false;
        }
      } else {
        if last || tiers[i].upTo.value <= previous {
          return false;
        }
        previous := tiers[i].upTo.value;
      }
      i := i + 1;
    }
    return true;
  }

  /** How much of the quantity tier i is charged for. */
  function Portion(tiers: seq<Tier>, q: int, i: nat): (p: nat)
    requires i < |tiers|
  {
    var top := if tiers[i].upTo.Some? && tiers[i].upTo.value < q then tiers[i].upTo.value as int else q;
    if top > Floor(tiers, i) then top - Floor(tiers, i) else 0
  }

  /** Tier i's charge: its portion at its price, rounded, and its fee if it is reached. */
  function Charge(tiers: seq<Tier>, q: int, i: nat): int
    requires i < |tiers|
  {
    if Portion(tiers, q, i) == 0 then 0
    else Round(Portion(tiers, q, i) * tiers[i].unitPrice as int) + tiers[i].flatFee as int
  }

  function Charges(tiers: seq<Tier>, q: int, n: nat): int
    requires n <= |tiers|
  {
    if n == 0 then 0 else Charges(tiers, q, n - 1) + Charge(tiers, q, n - 1)
  }

  function Portions(tiers: seq<Tier>, q: int, n: nat): nat
    requires n <= |tiers|
  {
    if n == 0 then 0 else Portions(tiers, q, n - 1) + Portion(tiers, q, n - 1)
  }

  /** How many tiers the quantity reaches. */
  function Reached(tiers: seq<Tier>, q: int, n: nat): nat
    requires n <= |tiers|
  {
    if n == 0 then 0 else Reached(tiers, q, n - 1) + if Portion(tiers, q, n - 1) > 0 then 1 else 0
  }

  /** The exact charge, in billionths of a micro-unit. */
  function Exact(tiers: seq<Tier>, q: int, n: nat): int
    requires n <= |tiers|
  {
    if n == 0 then 0
    else
      Exact(tiers, q, n - 1)
      + if Portion(tiers, q, n - 1) == 0 then 0
        else Portion(tiers, q, n - 1) * tiers[n - 1].unitPrice as int + FACTOR * tiers[n - 1].flatFee as int
  }

  lemma {:induction false} FloorRises(tiers: seq<Tier>, i: nat, j: nat)
    requires ValidTiers(tiers) && i <= j < |tiers|
    ensures 0 <= Floor(tiers, i) <= Floor(tiers, j)
    ensures i < j ==> Floor(tiers, i) < Floor(tiers, j)
    decreases j
  {
    if j > 0 && i < j {
      FloorRises(tiers, i, j - 1);
    } else if j > 0 {
      FloorRises(tiers, i - 1, j - 1);
    }
  }

  /** The portions taken so far are the quantity, up to the next tier's floor. */
  lemma {:induction false} PortionsSoFar(tiers: seq<Tier>, q: int, n: nat)
    requires ValidTiers(tiers) && n < |tiers| && q >= 0
    ensures Portions(tiers, q, n) == if q < Floor(tiers, n) then q else Floor(tiers, n)
  {
    if n > 0 {
      PortionsSoFar(tiers, q, n - 1);
      FloorRises(tiers, n - 1, n);
    }
  }

  /** The portions partition the quantity. */
  lemma PortionsPartition(tiers: seq<Tier>, q: int)
    requires ValidTiers(tiers) && q >= 0
    ensures Portions(tiers, q, |tiers|) == q
  {
    PortionsSoFar(tiers, q, |tiers| - 1);
  }

  /** Rounding once per tier leaves the charge within half a unit per tier reached. */
  lemma {:induction false} GraduatedErrorBound(tiers: seq<Tier>, q: int, n: nat)
    requires n <= |tiers|
    ensures var error := 2 * (Charges(tiers, q, n) * FACTOR - Exact(tiers, q, n));
            -FACTOR * Reached(tiers, q, n) <= error <= FACTOR * Reached(tiers, q, n)
  {
    if n > 0 {
      GraduatedErrorBound(tiers, q, n - 1);
      RoundNearest(Portion(tiers, q, n - 1) * tiers[n - 1].unitPrice as int);
    }
  }

  predicate NonNegative(tiers: seq<Tier>) {
    forall i :: 0 <= i < |tiers| ==> tiers[i].unitPrice >= 0 && tiers[i].flatFee >= 0
  }

  lemma ScaleUp(a: int, b: int, price: int)
    requires 0 <= a <= b && price >= 0
    ensures 0 <= a * price <= b * price
  {
  }

  /** More usage never costs less. */
  lemma {:induction false} GraduatedMonotone(tiers: seq<Tier>, q: int, r: int, n: nat)
    requires NonNegative(tiers) && n <= |tiers| && q <= r
    ensures 0 <= Charges(tiers, q, n) <= Charges(tiers, r, n)
  {
    if n > 0 {
      GraduatedMonotone(tiers, q, r, n - 1);
      var price := tiers[n - 1].unitPrice as int;
      ScaleUp(Portion(tiers, q, n - 1), Portion(tiers, r, n - 1), price);
      RoundMonotone(Portion(tiers, q, n - 1) * price, Portion(tiers, r, n - 1) * price);
      RoundNearest(Portion(tiers, q, n - 1) * price);
    }
  }

  /** Add with CheckedAdd's verdict, on a total that may already be lost. */
  function Plus(total: Money, x: int): Money {
    if total.OutOfRange? then total else Fit(total.amount + x)
  }

  /** One turn of the loop: the portion's rounded price, then the fee. */
  function Turn(total: Money, portion: int, tier: Tier): Money {
    if portion == 0 then total
    else
      match Fit(Round(portion * tier.unitPrice as int))
      case OutOfRange => OutOfRange
      case Charged(amount) => Plus(Plus(total, amount), tier.flatFee)
  }

  function Running(tiers: seq<Tier>, q: int, n: nat): Money
    requires n <= |tiers|
  {
    if n == 0 then Charged(0)
    else if Running(tiers, q, n - 1).OutOfRange? then OutOfRange
    else Turn(Running(tiers, q, n - 1), Portion(tiers, q, n - 1), tiers[n - 1])
  }

  /** Whenever the running total stays in range it is the sum of the charges. */
  lemma {:induction false} RunningIsCharges(tiers: seq<Tier>, q: int, n: nat)
    requires n <= |tiers|
    ensures Running(tiers, q, n).Charged? ==> Running(tiers, q, n).amount == Charges(tiers, q, n)
  {
    hide Round, Portion;
    if n > 0 {
      RunningIsCharges(tiers, q, n - 1);
    }
  }

  /** With no negative price or fee the loop fails exactly when the charge itself does not fit. */
  lemma {:induction false} NonNegativeFits(tiers: seq<Tier>, q: int, n: nat)
    requires NonNegative(tiers) && n <= |tiers|
    ensures Running(tiers, q, n) == Fit(Charges(tiers, q, n)) && Charges(tiers, q, n) >= 0
  {
    hide Round, Portion;
    if n > 0 {
      NonNegativeFits(tiers, q, n - 1);
      ScaleUp(0, Portion(tiers, q, n - 1), tiers[n - 1].unitPrice as int);
      RoundNearest(Portion(tiers, q, n - 1) * tiers[n - 1].unitPrice as int);
    }
  }

  /** A total that is lost stays lost, and past the last tier reached nothing changes. */
  lemma {:induction false} RunningBeyond(tiers: seq<Tier>, q: int, i: nat, n: nat)
    requires i <= n <= |tiers|
    requires Running(tiers, q, i).OutOfRange? || (ValidTiers(tiers) && i < |tiers| && q <= Floor(tiers, i))
    ensures Running(tiers, q, n) == Running(tiers, q, i)
    decreases n
  {
    hide Round, ValidTiers, Turn, Portion, Floor;
    if i < n {
      RunningBeyond(tiers, q, i, n - 1);
      if Running(tiers, q, i).Charged? {
        FloorRises(tiers, i, n - 1);
        NoPortion(tiers, q, n - 1);
        NoTurn(Running(tiers, q, n - 1), tiers[n - 1]);
      }
    }
  }

  lemma NoTurn(total: Money, tier: Tier)
    ensures Turn(total, 0, tier) == total
  {
  }

  lemma NoPortion(tiers: seq<Tier>, q: int, i: nat)
    requires i < |tiers| && q <= Floor(tiers, i)
    ensures Portion(tiers, q, i) == 0
  {
  }

  /** Tier i's portion starts at its floor, and reaches the next floor unless the quantity runs out. */
  lemma PortionFills(tiers: seq<Tier>, q: int, i: nat)
    requires ValidTiers(tiers) && i < |tiers| && Floor(tiers, i) < q
    ensures Portion(tiers, q, i) > 0
    ensures tiers[i].upTo.None? ==> Portion(tiers, q, i) == q - Floor(tiers, i)
    ensures tiers[i].upTo.Some? ==> Floor(tiers, i + 1) == tiers[i].upTo.value
    ensures tiers[i].upTo.Some? ==>
              Floor(tiers, i) + Portion(tiers, q, i) == if Floor(tiers, i + 1) > q then q else Floor(tiers, i + 1)
  {
  }

  /** One turn of the loop of applyGraduated, on checked int64s. */
  method AddTier(total: Amount, portion: Quantity, tier: Tier) returns (next: Money)
    requires portion > 0
    ensures next == Turn(Charged(total), portion as int, tier)
  {
    hide Round;
    MultiplyRounds(portion, tier.unitPrice);
    var amount := Multiply(portion, tier.unitPrice);
    if amount.OutOfRange? {
      return OutOfRange;
    }
    CheckedAddExact(total, amount.amount);
    var sum := CheckedAdd(total, amount.amount);
    if sum.Overflow? {
      return OutOfRange;
    }
    CheckedAddExact(sum.value, tier.flatFee);
    sum := CheckedAdd(sum.value, tier.flatFee);
    if sum.Overflow? {
      return OutOfRange;
    }
    return Charged(sum.value);
  }

  datatype Priced = Priced(money: Money) | BadTiers | BadModel | FellThrough

  /**
   * applyGraduated: what the loop returns is the running total of portion times
   * price, rounded, plus the fee, over the tiers reached.
   */
  method ApplyGraduated(tiers: seq<Tier>, quantity: Quantity) returns (r: Priced)
    ensures r == if ValidTiers(tiers) then Priced(Running(tiers, quantity, |tiers|)) else BadTiers
  {
    hide Round, Turn, Portion, ValidTiers, Floor;
    var ok := ValidateTiers(tiers);
    if !ok {
      return BadTiers;
    }
    var total: Amount := 0;
    var consumed: Quantity := 0;
    var i := 0;
    FloorZero(tiers);
    while i < |tiers|
      invariant 0 <= i <= |tiers| && consumed >= 0
      invariant Running(tiers, quantity, i) == Charged(total)
      invariant i < |tiers| ==> if consumed < quantity then consumed == Floor(tiers, i) else quantity <= Floor(tiers, i)
    {
      if consumed >= quantity {
        RunningBeyond(tiers, quantity, i, |tiers|);
        break;
      }
      PortionFills(tiers, quantity, i);
      var portion: Quantity;
      if tiers[i].upTo.None? {
        portion := quantity - consumed;
        UnboundedIsLast(tiers, i);
      } else {
        var upper := if tiers[i].upTo.value > quantity then quantity else tiers[i].upTo.value;
        portion := upper - consumed;
      }
      var next := AddTier(total, portion, tiers[i]);
      if next.OutOfRange? {
        RunningBeyond(tiers, quantity, i + 1, |tiers|);
        return Priced(OutOfRange);
      }
      total := next.amount;
      consumed := consumed + portion;
      i := i + 1;
    }
    return Priced(Charged(total));
  }

  lemma FloorZero(tiers: seq<Tier>)
    ensures Floor(tiers, 0) == 0
  {
  }

  lemma UnboundedIsLast(tiers: seq<Tier>, i: nat)
    requires ValidTiers(tiers) && i < |tiers| && tiers[i].upTo.None?
    ensures i == |tiers| - 1
  {
  }

  /** The tier a total quantity lands in. */
  ghost predicate LandsIn(tiers: seq<Tier>, q: int, i: nat) {
    i < |tiers| && Floor(tiers, i) < q && (tiers[i].upTo.Some? ==> q <= tiers[i].upTo.value)
  }

  lemma LandsInOne(tiers: seq<Tier>, q: int, i: nat, j: nat)
    requires ValidTiers(tiers) && LandsIn(tiers, q, i) && LandsIn(tiers, q, j)
    ensures i == j
  {
    if i < j {
      FloorRises(tiers, i + 1, j);
    } else if j < i {
      FloorRises(tiers, j + 1, i);
    }
  }

  /** The first tier from i on that a total quantity fits. */
  function Landing(tiers: seq<Tier>, q: int, i: nat): (tier: nat)
    requires ValidTiers(tiers) && i < |tiers|
    ensures tier < |tiers|
    ensures Floor(tiers, i) < q ==> LandsIn(tiers, q, tier)
    decreases |tiers| - i
  {
    if tiers[i].upTo.None? || q <= tiers[i].upTo.value then i else Landing(tiers, q, i + 1)
  }

  /** A volume price: every unit at the rate of the tier the total lands in, plus that tier's fee. */
  function VolumePrice(tiers: seq<Tier>, q: Quantity): Money
    requires ValidTiers(tiers)
  {
    if q == 0 then Charged(0) else Turn(Charged(0), q as int, tiers[Landing(tiers, q, 0)])
  }

  /** The whole quantity at the rate of the tier it lands in, plus that tier's fee, wherever that fits. */
  lemma VolumeExact(tiers: seq<Tier>, q: Quantity, i: nat)
    requires ValidTiers(tiers) && q > 0 && LandsIn(tiers, q, i)
    ensures var exact := Round(q as int * tiers[i].unitPrice as int) + tiers[i].flatFee as int;
            && (VolumePrice(tiers, q).Charged? ==> VolumePrice(tiers, q).amount == exact)
            && (tiers[i].unitPrice >= 0 && tiers[i].flatFee >= 0 ==> VolumePrice(tiers, q) == Fit(exact))
  {
    hide Round, ValidTiers;
    FloorZero(tiers);
    LandsInOne(tiers, q, Landing(tiers, q, 0), i);
    if tiers[i].unitPrice >= 0 {
      ScaleUp(0, q as int, tiers[i].unitPrice as int);
      RoundNearest(q as int * tiers[i].unitPrice as int);
    }
  }

  /**
   * applyVolume: the loop finds the one tier the total lands in. The error after
   * the loop is never returned.
   */
  method ApplyVolume(tiers: seq<Tier>, quantity: Quantity) returns (r: Priced)
    ensures r == if ValidTiers(tiers) then Priced(VolumePrice(tiers, quantity)) else BadTiers
  {
    hide Round;
    var ok := ValidateTiers(tiers);
    if !ok {
      return BadTiers;
    }
    if quantity == 0 {
      return Priced(Charged(0));
    }
    var i := 0;
    while i < |tiers|
      invariant 0 <= i <= |tiers|
      invariant if i < |tiers| then Landing(tiers, quantity, i) == Landing(tiers, quantity, 0) else false
    {
      if tiers[i].upTo.None? || quantity <= tiers[i].upTo.value {
        MultiplyRounds(quantity, tiers[i].unitPrice);
        var amount := Multiply(quantity, tiers[i].unitPrice);
        if amount.OutOfRange? {
          return Priced(OutOfRange);
        }
        CheckedAddExact(amount.amount, tiers[i].flatFee);
        var total := CheckedAdd(amount.amount, tiers[i].flatFee);
        return Priced(if total.Overflow? then OutOfRange else Charged(total.value));
      }
      i := i + 1;
    }
    r := FellThrough;
  }

  /** A graduated price. */
  function GraduatedPrice(tiers: seq<Tier>, q: Quantity): Money {
    Running(tiers, q, |tiers|)
  }

  datatype Model = Flat | Graduated | Volume | UnknownModel

  datatype Price = Price(meter: string, model: Model, unitPrice: Amount, tiers: seq<Tier>)

  /** What a price makes of a quantity. */
  function PriceOf(price: Price, q: Quantity): Priced {
    match price.model
    case Flat => Priced(Multiply(q, price.unitPrice))
    case Graduated => if ValidTiers(price.tiers) then Priced(GraduatedPrice(price.tiers, q)) else BadTiers
    case Volume => if ValidTiers(price.tiers) then Priced(VolumePrice(price.tiers, q)) else BadTiers
    case UnknownModel => BadModel
  }

  /** applyPrice. */
  method ApplyPrice(price: Price, quantity: Quantity) returns (r: Priced)
    ensures r == PriceOf(price, quantity)
  {
    hide Multiply, ValidTiers, Running, VolumePrice;
    match price.model {
      case Flat => r := Priced(Multiply(quantity, price.unitPrice));
      case Graduated => r := ApplyGraduated(price.tiers, quantity);
      case Volume => r := ApplyVolume(price.tiers, quantity);
      case UnknownModel => r := BadModel;
    }
  }

  /** Nothing costs nothing, whatever the model: no tier is reached, so no fee is due. */
  lemma NothingCostsNothing(price: Price)
    requires PriceOf(price, 0).Priced?
    ensures PriceOf(price, 0) == Priced(Charged(0))
  {
    if price.model == Graduated {
      FloorZero(price.tiers);
      RunningBeyond(price.tiers, 0, 0, |price.tiers|);
    }
  }

  // ---- what a price means ------------------------------------------------------------------

  /** How many of the first q units land in tier i. */
  ghost function Landed(tiers: seq<Tier>, q: nat, i: nat): nat {
    if q == 0 then 0 else Landed(tiers, q - 1, i) + if LandsIn(tiers, q, i) then 1 else 0
  }

  /** A tier's portion is the units that land in it. */
  lemma {:induction false} PortionIsLanded(tiers: seq<Tier>, q: nat, i: nat)
    requires ValidTiers(tiers) && i < |tiers|
    ensures Portion(tiers, q, i) == Landed(tiers, q, i)
  {
    FloorRises(tiers, i, i);
    if q > 0 {
      PortionIsLanded(tiers, q - 1, i);
    }
  }

  predicate InRange(x: int) {
    MIN_INT <= x <= MAX_INT
  }

  /** The amount a price sets on a quantity, by its model. An unknown model and bad tiers set none. */
  ghost predicate Costs(price: Price, q: int, amount: int) {
    match price.model
    case Flat => amount == Round(q * price.unitPrice as int)
    case Graduated => ValidTiers(price.tiers) && amount == Charges(price.tiers, q, |price.tiers|)
    case Volume =>
      && ValidTiers(price.tiers)
      && if q == 0 then amount == 0
         else exists i: nat :: LandsIn(price.tiers, q, i) && amount == AtTier(price.tiers[i], q)
    case UnknownModel => false
  }

  /** The whole quantity at one tier's rate, and its fee. */
  function AtTier(tier: Tier, q: int): int {
    Round(q * tier.unitPrice as int) + tier.flatFee as int
  }

  /** Every amount met on the way fits an int64. */
  ghost predicate Reachable(price: Price, q: int) {
    match price.model
    case Flat => InRange(Round(q * price.unitPrice as int))
    case Graduated => ValidTiers(price.tiers) && forall k :: 0 <= k < |price.tiers| ==> StepFits(price.tiers, q, k)
    case Volume =>
      && ValidTiers(price.tiers)
      && (q == 0 || exists i: nat :: LandsIn(price.tiers, q, i)
                                     && InRange(Round(q * price.tiers[i].unitPrice as int)) && InRange(AtTier(price.tiers[i], q)))
    case UnknownModel => false
  }

  /** The charge of tier k, the total with it, and the total with its fee. */
  ghost predicate StepFits(tiers: seq<Tier>, q: int, k: nat)
    requires k < |tiers|
  {
    Portion(tiers, q, k) > 0 ==>
      var charge := Round(Portion(tiers, q, k) * tiers[k].unitPrice as int);
      InRange(charge) && InRange(Charges(tiers, q, k) + charge) && InRange(Charges(tiers, q, k + 1))
  }

  /** The running total is lost exactly when some amount on the way does not fit. */
  lemma {:induction false} RunningFitsIff(tiers: seq<Tier>, q: int, n: nat)
    requires n <= |tiers|
    ensures Running(tiers, q, n).Charged? <==> forall k :: 0 <= k < n ==> StepFits(tiers, q, k)
  {
    hide Round, Portion, StepFits;
    if n > 0 {
      RunningFitsIff(tiers, q, n - 1);
      RunningIsCharges(tiers, q, n - 1);
      if Running(tiers, q, n - 1).Charged? {
        TurnFitsIff(tiers, q, n - 1);
      }
    }
  }

  lemma TurnFitsIff(tiers: seq<Tier>, q: int, k: nat)
    requires k < |tiers| && InRange(Charges(tiers, q, k))
    ensures Turn(Charged(Charges(tiers, q, k)), Portion(tiers, q, k), tiers[k]).Charged? <==> StepFits(tiers, q, k)
  {
    hide Round, Portion;
  }

  lemma VolumeFitsIff(tiers: seq<Tier>, q: Quantity)
    requires ValidTiers(tiers) && q > 0
    ensures var i := Landing(tiers, q, 0);
            && LandsIn(tiers, q, i) && (forall j :: LandsIn(tiers, q, j) ==> j == i)
            && (VolumePrice(tiers, q).Charged? <==>
                  InRange(Round(q as int * tiers[i].unitPrice as int)) && InRange(AtTier(tiers[i], q as int)))
            && (VolumePrice(tiers, q).Charged? ==> VolumePrice(tiers, q).amount == AtTier(tiers[i], q as int))
  {
    hide Round, LandsIn;
    FloorZero(tiers);
    var i := Landing(tiers, q, 0);
    forall j | LandsIn(tiers, q, j)
      ensures j == i
    {
      LandsInOne(tiers, q, i, j);
    }
  }

  /**
   * A price applies to a quantity exactly when every amount met on the way fits,
   * and then charges what its model says.
   */
  lemma PriceMeans(price: Price, q: Quantity)
    requires q >= 0
    ensures PriceOf(price, q).Priced? && PriceOf(price, q).money.Charged? <==> Reachable(price, q as int)
    ensures Reachable(price, q as int) ==> Costs(price, q as int, PriceOf(price, q).money.amount)
  {
    hide Round, Multiply, Running, VolumePrice, StepFits, ValidTiers, LandsIn, Landing;
    match price.model
    case Flat => MultiplyRounds(q, price.unitPrice);
    case Graduated =>
      RunningFitsIff(price.tiers, q, |price.tiers|);
      RunningIsCharges(price.tiers, q, |price.tiers|);
    case Volume =>
      if ValidTiers(price.tiers) && q > 0 {
        VolumeFitsIff(price.tiers, q);
        var i := Landing(price.tiers, q, 0);
        assert LandsIn(price.tiers, q, i);
      } else {
        VolumeOfNothing(price.tiers);
      }
    case UnknownModel =>
  }

  lemma VolumeOfNothing(tiers: seq<Tier>)
    ensures ValidTiers(tiers) ==> VolumePrice(tiers, 0) == Charged(0)
  {
  }
}
