/**
 * Fixed-point decimals over int64: the parsing that ledger.ParseAmount and
 * pricing.ParseQuantity share, and what it is exact about.
 */
module FixedPoint {
  import opened Int64
  import opened Decimal

  /** strings.Cut at the first point. */
  function PointAt(s: string): (i: nat)
    ensures i <= |s|
    ensures i < |s| ==> s[i] == '.'
    ensures forall k :: 0 <= k < i ==> s[k] != '.'
  {
    if s == "" || s[0] == '.' then 0 else 1 + PointAt(s[1..])
  }

  function Before(s: string): string {
    s[..PointAt(s)]
  }

  function After(s: string): string {
    if PointAt(s) < |s| then s[PointAt(s) + 1..] else ""
  }

  predicate HasPoint(s: string) {
    PointAt(s) < |s|
  }

  /** A plain decimal: an integer part and, after a point, a fraction. */
  function Text(integer: string, fraction: string): string {
    integer + if fraction == "" then "" else "." + fraction
  }

  predicate Plain(integer: string, fraction: string, scale: nat) {
    integer != "" && AllDigits(integer) && AllDigits(fraction) && |fraction| <= scale
  }

  function PadRight(fraction: string, scale: nat): (s: string)
    requires |fraction| <= scale
    ensures |s| == scale
  {
    fraction + Zeros(scale - |fraction|)
  }

  /** The exact number of smallest units a plain decimal denotes. */
  function Units(integer: string, fraction: string, scale: nat): (n: nat)
    requires Plain(integer, fraction, scale)
  {
    AllDigitsConcat(fraction, Zeros(scale - |fraction|));
    Value(integer) * Pow10(scale) + Value(PadRight(fraction, scale))
  }

  /** The part both parsers share once the text has been cut at its point. */
  function ParseParts(integer: string, fraction: string, scale: nat): Parsed
    requires |fraction| <= scale
  {
    var factor := Pow10(scale);
    match ParseDigits(integer)
    case Ok(whole) =>
      (match ParseDigits(PadRight(fraction, scale))
       case Ok(part) =>
         var scaled := Wrap(whole as int * factor);
         if whole != 0 && Quo(scaled, factor) != whole then TooLarge
         else
           var total := Wrap(scaled as int + part as int);
           if total < scaled then TooLarge else Ok(total)
       case error => error)
    case error => error
  }

  /** Cut, refuse the shapes that are not plain decimals, then parse the parts. */
  function ParseText(s: string, scale: nat): Parsed {
    if Before(s) == "" || (HasPoint(s) && After(s) == "") || |After(s)| > scale then Malformed
    else ParseParts(Before(s), After(s), scale)
  }

  // ---- exactness -------------------------------------------------------------

  lemma BigMultiple(k: int, f: int)
    requires f > 0 && (k >= 1 || k <= -1)
    ensures k >= 1 ==> k * f >= f
    ensures k <= -1 ==> k * f <= -f
  {
  }

  lemma SmallMultiple(k: int, f: int)
    requires f > 0 && -f < k * f < f
    ensures k == 0
  {
    if k != 0 {
      BigMultiple(k, f);
    }
  }

  lemma DivideBack(w: int, factor: int)
    requires w >= 0 && factor > 0
    ensures w * factor >= 0 && w * factor / factor == w
  {
    var x := w * factor;
    assert x == x / factor * factor + x % factor;
    assert (w - x / factor) * factor == x % factor;
    SmallMultiple(w - x / factor, factor);
  }

  lemma QuotientBelow(scaled: int, w: int, factor: int)
    requires factor > 0 && 0 <= scaled < w * factor
    ensures scaled / factor < w
  {
    assert scaled == scaled / factor * factor + scaled % factor;
    var k := scaled / factor - w;
    assert k * factor == scaled / factor * factor - w * factor;
    if k >= 0 {
      NonNegativeProduct(k, factor);
    }
  }

  lemma NonNegativeProduct(k: int, f: int)
    requires k >= 0 && f > 0
    ensures k * f >= 0
  {
  }

  /** A product too large for an int64 does not divide back, however it wraps. */
  lemma ProductCheck(w: int, factor: int)
    requires w >= 0 && factor > 0
    ensures var scaled := Wrap(w * factor);
            (w == 0 || Quo(scaled, factor) == w) <==> w * factor <= MAX_INT
  {
    var x := w * factor;
    var scaled := Wrap(x);
    NonNegativeProduct(w, factor);
    DivideBack(w, factor);
    if x > MAX_INT {
      if scaled >= 0 {
        QuotientBelow(scaled, w, factor);
      } else {
        NegativeQuotient(scaled, factor);
      }
    }
  }

  lemma NegativeQuotient(x: int, factor: int)
    requires x < 0 && factor > 0
    ensures Quo(x, factor) <= 0
  {
    var q := -x / factor;
    assert -x == q * factor + -x % factor;
    if q < 0 {
      BigMultiple(q, factor);
    }
  }

  lemma ScaledUp(n: int, factor: int)
    requires n >= CEILING && factor >= 1_000_000
    ensures n * factor > MAX_INT
  {
    assert n * factor >= CEILING * factor;
    assert CEILING * factor >= CEILING * 1_000_000;
  }

  lemma {:induction false} Pow10Monotone(a: nat, b: nat)
    requires a <= b
    ensures Pow10(a) <= Pow10(b)
  {
    if a < b {
      Pow10Monotone(a, b - 1);
    }
  }

  /** Parsing the parts of a plain decimal gives its exact value, or refuses it as too large. */
  lemma PartsExact(integer: string, fraction: string, scale: nat)
    requires Plain(integer, fraction, scale) && 6 <= scale <= 9
    ensures var n := Units(integer, fraction, scale);
            ParseParts(integer, fraction, scale) == if n <= MAX_INT then Ok(n) else TooLarge
  {
    hide ParseDigits, Value, Pow10, Digits;
    var padded, factor := PadRight(fraction, scale), Pow10(scale);
    AllDigitsConcat(fraction, Zeros(scale - |fraction|));
    Scales(scale);
    ParseDigitsExact(integer);
    ParseDigitsExact(padded);
    ValueBound(padded);
    var v, part := Value(integer), Value(padded);
    assert ParseDigits(padded) == Ok(part);
    if ParseDigits(integer).Ok? {
      var whole := ParseDigits(integer).value;
      ProductCheck(whole, factor);
      if v > MAX_INT {
        ScaledUp(whole, factor);
        ScaledUp(v, factor);
      }
    } else {
      ScaledUp(v, factor);
    }
  }

  lemma Scales(scale: nat)
    requires 6 <= scale <= 9
    ensures 1_000_000 <= Pow10(scale) <= 1_000_000_000
  {
    Pow10Monotone(6, scale);
    Pow10Monotone(scale, 9);
    assert Pow10(6) == 1_000_000 && Pow10(9) == 1_000_000_000;
  }

  lemma NotPlainNotOk(integer: string, fraction: string, scale: nat)
    requires |fraction| <= scale
    ensures ParseParts(integer, fraction, scale).Ok? ==> Plain(integer, fraction, scale)
  {
    hide ParseDigits;
    ParseDigitsExact(integer);
    ParseDigitsExact(PadRight(fraction, scale));
    AllDigitsConcat(fraction, Zeros(scale - |fraction|));
  }

  lemma {:induction false} PointAtIs(s: string, i: nat)
    requires i <= |s| && (forall k :: 0 <= k < i ==> s[k] != '.') && (i < |s| ==> s[i] == '.')
    ensures PointAt(s) == i
  {
  }

  lemma CutText(integer: string, fraction: string)
    requires AllDigits(integer)
    ensures var s := Text(integer, fraction);
            Before(s) == integer && After(s) == fraction && (HasPoint(s) <==> fraction != "")
  {
    hide PointAt;
    var s := Text(integer, fraction);
    PointAtIs(s, |integer|);
  }

  /** Every plain decimal parses to its exact value when that fits, and is refused when it does not. */
  lemma TextExact(integer: string, fraction: string, scale: nat)
    requires Plain(integer, fraction, scale) && 6 <= scale <= 9
    ensures var n := Units(integer, fraction, scale);
            ParseText(Text(integer, fraction), scale) == if n <= MAX_INT then Ok(n) else TooLarge
  {
    hide ParseParts, Units, PointAt;
    CutText(integer, fraction);
    PartsExact(integer, fraction, scale);
  }

  /** And nothing else parses. */
  lemma OnlyPlainParses(s: string, scale: nat)
    requires ParseText(s, scale).Ok?
    ensures Plain(Before(s), After(s), scale) && s == Text(Before(s), After(s))
  {
    hide ParseParts;
    NotPlainNotOk(Before(s), After(s), scale);
  }

  function Whole(n: nat, p: nat): (w: nat)
    requires p > 0
  {
    n / p
  }

  function Part(n: nat, p: nat): (r: nat)
    requires p > 0
    ensures r < p
  {
    n % p
  }

  /** The text of n units, as fmt prints it: whole part, point, zero-padded fraction. */
  function Print(n: nat, scale: nat): string {
    Digits(Whole(n, Pow10(scale))) + "." + Padded(Part(n, Pow10(scale)), scale)
  }

  lemma PrintIsPlain(n: nat, scale: nat)
    requires scale > 0
    ensures var i, f := Digits(Whole(n, Pow10(scale))), Padded(Part(n, Pow10(scale)), scale);
            Plain(i, f, scale) && Print(n, scale) == Text(i, f) && Units(i, f, scale) == n
  {
    hide Digits, Value, Pow10;
    var p := Pow10(scale);
    ValueDigits(Whole(n, p));
    ValuePadded(Part(n, p), scale);
    var f := Padded(Part(n, p), scale);
    assert PadRight(f, scale) == f;
    assert n / p * p + n % p == n;
  }

  /** Parsing undoes printing for every number an int64 holds. */
  lemma ParsePrint(n: nat, scale: nat)
    requires 6 <= scale <= 9
    ensures ParseText(Print(n, scale), scale) == if n <= MAX_INT then Ok(n) else TooLarge
  {
    hide ParseText, Print, Units, Digits, Padded, Pow10;
    PrintIsPlain(n, scale);
    TextExact(Digits(Whole(n, Pow10(scale))), Padded(Part(n, Pow10(scale)), scale), scale);
  }

  /** What is printed: no leading zero but a lone one, a point, all the decimals, and the number exactly. */
  ghost predicate Spells(s: string, integer: string, fraction: string, n: nat, scale: nat) {
    && s == integer + "." + fraction && integer != "" && AllDigits(integer) && AllDigits(fraction) && |fraction| == scale
    && (integer == "0" || integer[0] != '0')
    && Value(integer) * Pow10(scale) + Value(fraction) == n
  }

  lemma {:induction false} DigitsLead(n: nat)
    ensures Digits(n) == "0" || Digits(n)[0] != '0'
  {
    if n >= 10 {
      DigitsLead(n / 10);
      if n / 10 < 10 {
        assert Digits(n / 10) == [DigitChar(n / 10)] && DigitChar(n / 10) != '0';
      }
    }
  }

  lemma PrintSpells(n: nat, scale: nat) returns (integer: string, fraction: string)
    requires scale > 0
    ensures Spells(Print(n, scale), integer, fraction, n, scale)
  {
    hide Digits, Value, Pow10;
    var p := Pow10(scale);
    integer, fraction := Digits(Whole(n, p)), Padded(Part(n, p), scale);
    ValueDigits(Whole(n, p));
    ValuePadded(Part(n, p), scale);
    DigitsLead(Whole(n, p));
    assert n / p * p + n % p == n;
  }
}
