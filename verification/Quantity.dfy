/**
 * Quantities of usage: parsing and printing (billing/pricing/quantity.go), what
 * ingest accepts (billing/ingest/validate.go), and the canonical form a
 * fingerprint is taken over (billing/event/event.go).
 */
module Quantities {
  import opened Int64
  import opened Decimal
  import opened FixedPoint

  type Quantity = int64

  const QUANTITY_SCALE := 9
  const MAX_INTEGER_DIGITS := 29

  predicate HasAny(s: string, chars: string) {
    exists i :: 0 <= i < |s| && s[i] in chars
  }

  /** ParseQuantity. */
  function ParseQuantity(s: string): Parsed {
    if s == "" || s[0] == '-' || HasAny(s, "eE+_ ") then Malformed
    else ParseText(s, QUANTITY_SCALE)
  }

  /** %d, and %0*d with the sign counted in the width, for numbers of either sign. */
  function Signed(n: int, width: nat): string {
    if n < 0 then "-" + Padded(-n, if width > 0 then width - 1 else 0) else Padded(n, width)
  }

  /** Quantity.String. */
  function QuantityString(q: Quantity): string {
    Signed(Quo(q, 1_000_000_000), 0) + "." + Signed(Rem(q, 1_000_000_000), QUANTITY_SCALE)
  }

  lemma PlainHasNone(integer: string, fraction: string)
    requires Plain(integer, fraction, QUANTITY_SCALE)
    ensures var s := Text(integer, fraction);
            s != "" && s[0] != '-' && !HasAny(s, "eE+_ ")
  {
    var s := Text(integer, fraction);
    forall i | 0 <= i < |s|
      ensures IsDigit(s[i]) || s[i] == '.'
    {
      if i > |integer| {
        assert s[i] == fraction[i - |integer| - 1];
      }
    }
  }

  /** A plain decimal yields its exact number of nano-units, or is refused as too large. */
  lemma ParseQuantityExact(integer: string, fraction: string)
    requires Plain(integer, fraction, QUANTITY_SCALE)
    ensures var n := Units(integer, fraction, QUANTITY_SCALE);
            ParseQuantity(Text(integer, fraction)) == if n <= MAX_INT then Ok(n) else TooLarge
  {
    hide ParseText, Units, HasAny;
    PlainHasNone(integer, fraction);
    TextExact(integer, fraction, QUANTITY_SCALE);
  }

  /** Nothing but a plain decimal is accepted. */
  lemma OnlyPlainQuantities(s: string)
    requires ParseQuantity(s).Ok?
    ensures Plain(Before(s), After(s), QUANTITY_SCALE) && s == Text(Before(s), After(s))
  {
    hide ParseText;
    OnlyPlainParses(s, QUANTITY_SCALE);
  }

  /** A quantity that is not negative prints as its whole units, a point and all nine decimals. */
  lemma QuantityStringSpells(q: Quantity) returns (integer: string, fraction: string)
    requires q >= 0
    ensures Spells(QuantityString(q), integer, fraction, q, QUANTITY_SCALE)
  {
    hide Digits, Padded, Pow10, Value;
    Billion();
    PaddedToNothing(q / 1_000_000_000);
    assert QuantityString(q) == Print(q, QUANTITY_SCALE);
    integer, fraction := PrintSpells(q, QUANTITY_SCALE);
  }

  /** Parsing undoes printing exactly for the quantities that are not negative. */
  lemma ParseQuantityString(q: Quantity)
    ensures ParseQuantity(QuantityString(q)) == Ok(q) <==> q >= 0
  {
    hide ParseText, Units, HasAny, Digits, Padded, Pow10;
    if q >= 0 {
      Billion();
      PrintIsPlain(q, QUANTITY_SCALE);
      PaddedToNothing(q / 1_000_000_000);
      assert QuantityString(q) == Print(q, QUANTITY_SCALE);
      ParseQuantityExact(Digits(Whole(q, Pow10(9))), Padded(Part(q, Pow10(9)), 9));
    } else {
      NegativeText(q);
    }
  }

  lemma Billion()
    ensures Pow10(9) == 1_000_000_000
  {
  }

  lemma PaddedToNothing(n: nat)
    ensures Padded(n, 0) == Digits(n)
  {
  }

  lemma NegativeText(q: Quantity)
    requires q < 0
    ensures !ParseQuantity(QuantityString(q)).Ok?
  {
    hide ParseText, HasAny, Digits, Padded;
    var s := QuantityString(q);
    var w, r := Quo(q, 1_000_000_000), Rem(q, 1_000_000_000);
    if w >= 0 {
      assert w == 0 && r < 0;
      var whole, part := Signed(w, 0), Signed(r, QUANTITY_SCALE);
      assert s == Text(whole, part);
      CutText(whole, part);
      assert !IsDigit(part[0]);
      if ParseQuantity(s).Ok? {
        OnlyPlainQuantities(s);
      }
    }
  }

  // ---- what ingest accepts -----------------------------------------------------

  /** allDigits. */
  method AllDigitsLoop(s: string) returns (ok: bool)
    ensures ok <==> s != "" && AllDigits(s)
  {
    var i := 0;
    while i < |s|
      invariant 0 <= i <= |s| && AllDigits(s[..i])
    {
      if s[i] < '0' || s[i] > '9' {
        return false;
      }
      i := i + 1;
      assert s[..i] == s[..i - 1] + [s[i - 1]];
    }
    assert s[..i] == s;
    return |s| > 0;
  }

  /** How many zeros a text starts with. */
  function Leading(s: string): (k: nat)
    ensures k <= |s| && (k < |s| ==> s[k] != '0')
    ensures forall i :: 0 <= i < k ==> s[i] == '0'
  {
    if s == "" || s[0] != '0' then 0 else 1 + Leading(s[1..])
  }

  /** strings.TrimLeft(s, "0"). */
  function TrimLeft(s: string): string {
    s[Leading(s)..]
  }

  /** The length of a text without the zeros it ends with. */
  function Significant(s: string): (k: nat)
    ensures k <= |s| && (k > 0 ==> s[k - 1] != '0')
    ensures forall i :: k <= i < |s| ==> s[i] == '0'
  {
    if s == "" || s[|s| - 1] != '0' then |s| else Significant(s[..|s| - 1])
  }

  /** strings.TrimRight(s, "0"). */
  function TrimRight(s: string): string {
    s[..Significant(s)]
  }

  /** validateQuantity, as the texts it lets through. */
  predicate Accepted(s: string) {
    && s != "" && !HasAny(s, "eE") && s[0] != '-' && s[0] != '+'
    && Before(s) != "" && (HasPoint(s) ==> After(s) != "")
    && AllDigits(Before(s)) && (HasPoint(s) ==> AllDigits(After(s)))
    && |TrimLeft(Before(s))| <= MAX_INTEGER_DIGITS && |After(s)| <= QUANTITY_SCALE
  }

  lemma AcceptedIsPlain(s: string)
    requires Accepted(s)
    ensures Plain(Before(s), After(s), QUANTITY_SCALE) && s == Text(Before(s), After(s))
  {
    hide Leading, HasAny, PointAt;
  }

  /** The nano-units an accepted quantity stands for. */
  function NanoUnits(s: string): (n: nat)
    requires Accepted(s)
  {
    AcceptedIsPlain(s);
    Units(Before(s), After(s), QUANTITY_SCALE)
  }

  /** What ingest lets through, pricing can always read: at worst it is too large, never malformed. */
  lemma AcceptedNeverMalformed(s: string)
    requires Accepted(s)
    ensures ParseQuantity(s) == if NanoUnits(s) <= MAX_INT then Ok(NanoUnits(s)) else TooLarge
  {
    hide ParseQuantity;
    AcceptedIsPlain(s);
    ParseQuantityExact(Before(s), After(s));
  }

  /** What ingest lets through is exactly the plain decimals of at most nine places below ten to the 29th. */
  lemma AcceptedIff(s: string)
    ensures Accepted(s) <==>
              && Plain(Before(s), After(s), QUANTITY_SCALE) && s == Text(Before(s), After(s))
              && Value(Before(s)) < Pow10(MAX_INTEGER_DIGITS)
  {
    hide Leading, HasAny, PointAt, Value, Pow10;
    if Plain(Before(s), After(s), QUANTITY_SCALE) && s == Text(Before(s), After(s)) {
      PlainHasNone(Before(s), After(s));
      PlainHasNoSign(Before(s), After(s));
      ShortIsSmall(Before(s), MAX_INTEGER_DIGITS);
    }
    if Accepted(s) {
      AcceptedIsPlain(s);
    }
  }

  lemma PlainHasNoSign(integer: string, fraction: string)
    requires Plain(integer, fraction, QUANTITY_SCALE)
    ensures var s := Text(integer, fraction);
            s[0] != '+' && !HasAny(s, "eE")
  {
    hide HasAny;
    PlainHasNone(integer, fraction);
    assert IsDigit(integer[0]);
    FewerNone(Text(integer, fraction));
  }

  lemma FewerNone(s: string)
    requires !HasAny(s, "eE+_ ")
    ensures !HasAny(s, "eE")
  {
    assert forall c :: c in "eE" ==> c in "eE+_ ";
  }

  /** At most k digits without the leading zeros means a value below ten to the k. */
  lemma ShortIsSmall(s: string, k: nat)
    requires s != "" && AllDigits(s)
    ensures |TrimLeft(s)| <= k <==> Value(s) < Pow10(k)
  {
    hide Leading, Value, Pow10, AllDigits;
    var t, z := TrimLeft(s), Leading(s);
    assert s == Zeros(z) + t;
    AllDigitsConcat(Zeros(z), t);
    ValueZeros(z);
    ValueConcat(Zeros(z), t);
    ValueBound(t);
    if t != "" {
      ValueAtLeast(t);
      if |t| <= k {
        Pow10Monotone(|t|, k);
      } else {
        Pow10Monotone(k, |t| - 1);
      }
    } else {
      ZeroText();
    }
  }

  lemma {:induction false} ValueAtLeast(s: string)
    requires s != "" && AllDigits(s) && s[0] != '0'
    ensures Value(s) >= Pow10(|s| - 1)
  {
    var n := |s| - 1;
    if n > 0 {
      ValueAtLeast(s[..n]);
    }
  }

  // ---- canonical form ------------------------------------------------------------

  /** CanonicalQuantity. */
  function Canonical(s: string): string {
    var trimmed := TrimLeft(Before(s));
    var integer := if trimmed == "" then "0" else trimmed;
    if !HasPoint(s) then integer
    else
      var fraction := TrimRight(After(s));
      if fraction == "" then integer else integer + "." + fraction
  }

  lemma DigitsSnoc(v: nat, c: char)
    requires v > 0 && IsDigit(c)
    ensures Digits(10 * v + DigitOf(c)) == Digits(v) + [c]
  {
    var n := 10 * v + DigitOf(c);
    assert n / 10 == v && n % 10 == DigitOf(c);
    assert DigitChar(DigitOf(c)) == c;
  }

  /** Digits with no leading zero are the digits of their value. */
  lemma {:induction false} DigitsOfValue(s: string)
    requires s != "" && AllDigits(s) && s[0] != '0'
    ensures Digits(Value(s)) == s && Value(s) > 0
  {
    var n := |s| - 1;
    assert s == s[..n] + [s[n]];
    if n > 0 {
      hide Digits;
      DigitsOfValue(s[..n]);
      DigitsSnoc(Value(s[..n]), s[n]);
    } else {
      assert s[..n] == "" && DigitChar(DigitOf(s[0])) == s[0];
    }
  }

  /** Dropping leading zeros, keeping one digit: exactly the digits of the value. */
  lemma TrimLeftIsDigits(s: string)
    requires s != "" && AllDigits(s)
    ensures (if TrimLeft(s) == "" then "0" else TrimLeft(s)) == Digits(Value(s))
  {
    hide Leading, Value, Digits, Pow10, AllDigits;
    var t, k := TrimLeft(s), Leading(s);
    assert s == Zeros(k) + t;
    AllDigitsConcat(Zeros(k), t);
    ValueZeros(k);
    ValueConcat(Zeros(k), t);
    if t != "" {
      DigitsOfValue(t);
    } else {
      ZeroText();
    }
  }

  lemma ZeroText()
    ensures Value("") == 0 && Digits(0) == "0"
  {
  }

  lemma SignificantIs(s: string, k: nat)
    requires k <= |s| && (k > 0 ==> s[k - 1] != '0')
    requires forall i :: k <= i < |s| ==> s[i] == '0'
    ensures Significant(s) == k
  {
  }

  lemma TrimRightPadded(s: string, k: nat)
    ensures TrimRight(s + Zeros(k)) == TrimRight(s)
  {
    hide Significant;
    SignificantIs(s + Zeros(k), Significant(s));
  }

  /** The one canonical text of a number of nano-units. */
  function CanonicalOf(n: nat): string {
    Text(Digits(Whole(n, Pow10(QUANTITY_SCALE))), TrimRight(Padded(Part(n, Pow10(QUANTITY_SCALE)), QUANTITY_SCALE)))
  }

  /** The canonical form depends on the value alone. */
  lemma CanonicalIsOfValue(s: string)
    requires Accepted(s)
    ensures Canonical(s) == CanonicalOf(NanoUnits(s))
  {
    hide Digits, Value, Pow10, TrimLeft, TrimRight, HasAny, PointAt, Padded, AllDigits;
    AcceptedIsPlain(s);
    var i, f := Before(s), After(s);
    var p, padded := Pow10(QUANTITY_SCALE), PadRight(f, QUANTITY_SCALE);
    AllDigitsConcat(f, Zeros(QUANTITY_SCALE - |f|));
    TrimLeftIsDigits(i);
    TrimRightPadded(f, QUANTITY_SCALE - |f|);
    ValueBound(padded);
    SplitUnits(Value(i), Value(padded), p);
    ValuePadded(Value(padded), QUANTITY_SCALE);
    ValueInjective(Padded(Value(padded), QUANTITY_SCALE), padded);
    TrimRightOfNothing();
  }

  lemma TrimRightFacts(f: string)
    ensures var g := TrimRight(f);
            |g| <= |f| && g == f[..|g|] && f[|g|..] == Zeros(|f| - |g|)
  {
    hide Significant;
  }

  lemma TrimRightOfNothing()
    ensures TrimRight("") == ""
  {
  }

  lemma SplitUnits(w: nat, r: nat, p: nat)
    requires r < p
    ensures Whole(w * p + r, p) == w && Part(w * p + r, p) == r
  {
    var x := w * p + r;
    assert x == x / p * p + x % p;
    assert (w - x / p) * p == x % p - r;
    SmallMultiple(w - x / p, p);
  }

  lemma CanonicalOfUnits(n: nat)
    ensures var i, f := Digits(Whole(n, Pow10(QUANTITY_SCALE))), TrimRight(Padded(Part(n, Pow10(QUANTITY_SCALE)), QUANTITY_SCALE));
            Plain(i, f, QUANTITY_SCALE) && CanonicalOf(n) == Text(i, f) && Units(i, f, QUANTITY_SCALE) == n
  {
    hide Digits, Value, Pow10, TrimRight, Padded;
    PrintIsPlain(n, QUANTITY_SCALE);
    var i, f := Digits(Whole(n, Pow10(QUANTITY_SCALE))), Padded(Part(n, Pow10(QUANTITY_SCALE)), QUANTITY_SCALE);
    var g := TrimRight(f);
    assert f[|g|..] == Zeros(|f| - |g|) && |g| <= |f| && g == f[..|g|] by { TrimRightFacts(f); }
    ValuePadded(Part(n, Pow10(QUANTITY_SCALE)), QUANTITY_SCALE);
    assert f == g + f[|g|..];
    AllDigitsConcat(g, f[|g|..]);
    assert PadRight(g, QUANTITY_SCALE) == f;
    assert PadRight(f, QUANTITY_SCALE) == f;
  }

  /** Canonical forms are equal exactly when the values are. */
  lemma CanonicalDecidesEquality(a: string, b: string)
    requires Accepted(a) && Accepted(b)
    ensures Canonical(a) == Canonical(b) <==> NanoUnits(a) == NanoUnits(b)
  {
    hide Canonical, CanonicalOf, NanoUnits, Units, Accepted, Digits, Padded, TrimRight, Pow10;
    CanonicalIsOfValue(a);
    CanonicalIsOfValue(b);
    CanonicalOfUnits(NanoUnits(a));
    CanonicalOfUnits(NanoUnits(b));
    var p := Pow10(QUANTITY_SCALE);
    CutText(Digits(Whole(NanoUnits(a), p)), TrimRight(Padded(Part(NanoUnits(a), p), QUANTITY_SCALE)));
    CutText(Digits(Whole(NanoUnits(b), p)), TrimRight(Padded(Part(NanoUnits(b), p), QUANTITY_SCALE)));
  }

  /** Canonicalising first changes nothing about what is billed. */
  lemma CanonicalParsesTheSame(s: string)
    requires Accepted(s)
    ensures ParseQuantity(Canonical(s)) == ParseQuantity(s)
  {
    hide Canonical, CanonicalOf, NanoUnits, Units, Accepted, Digits, Padded, TrimRight, Pow10, ParseQuantity;
    CanonicalIsOfValue(s);
    AcceptedNeverMalformed(s);
    var n, p := NanoUnits(s), Pow10(QUANTITY_SCALE);
    CanonicalOfUnits(n);
    ParseQuantityExact(Digits(Whole(n, p)), TrimRight(Padded(Part(n, p), QUANTITY_SCALE)));
  }
}
