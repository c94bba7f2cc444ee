/** Money in micro-units (billing/ledger/amount.go). */
module Amounts {
  import opened Int64
  import opened Decimal
  import opened FixedPoint

  type Amount = int64

  const SCALE := 6

  datatype Neg = Negated(value: Amount) | NegOverflow

  function Negate(a: Amount): Neg {
    if a == MIN_INT then NegOverflow else Negated(-a as int)
  }

  /** What negating gives adds up with the amount to nothing; it is refused just when no amount does. */
  lemma NegateIsOpposite(a: Amount)
    ensures Negate(a).Negated? ==> CheckedAdd(a, Negate(a).value) == Fits(0)
    ensures Negate(a).NegOverflow? <==> forall b: Amount :: CheckedAdd(a, b) != Fits(0)
  {
    hide CheckedAdd;
    forall b: Amount
      ensures CheckedAdd(a, b) == Fits(0) <==> a as int + b as int == 0
    {
      CheckedAddExact(a, b);
    }
  }

  /** ParseAmount. */
  function ParseAmount(s: string): Parsed {
    if s == "" then Malformed
    else
      var negative := s[0] == '-';
      var body := if negative then s[1..] else s;
      if body == "" then Malformed
      else
        match ParseText(body, SCALE)
        case Ok(total) => Ok(if negative then Wrap(-(total as int)) else total)
        case error => error
  }

  /** Amount.String. */
  function AmountString(a: Amount): string {
    if a == MIN_INT then "-9223372036854.775808"
    else if a < 0 then "-" + Print(-a as int, SCALE)
    else Print(a, SCALE)
  }

  /**
   * Parsing is exact despite the incomplete digit guard: a well-formed amount
   * yields its exact signed value when the magnitude fits, and an overflow when
   * it does not.
   */
  lemma ParseAmountExact(negative: bool, integer: string, fraction: string)
    requires Plain(integer, fraction, SCALE)
    ensures var n: int := Units(integer, fraction, SCALE);
            ParseAmount((if negative then "-" else "") + Text(integer, fraction))
            == if n > MAX_INT then TooLarge else Ok(if negative then -n else n)
  {
    hide ParseText, Units;
    var body := Text(integer, fraction);
    assert body[0] == integer[0] && IsDigit(integer[0]);
    TextExact(integer, fraction, SCALE);
    if negative {
      assert ("-" + body)[1..] == body;
    } else {
      assert "" + body == body;
    }
  }

  /** And only a well-formed amount is accepted: the parts of any accepted text. */
  lemma OnlyWellFormedAmounts(s: string) returns (negative: bool, integer: string, fraction: string)
    requires ParseAmount(s).Ok?
    ensures Plain(integer, fraction, SCALE)
    ensures s == (if negative then "-" else "") + Text(integer, fraction)
  {
    hide ParseText;
    negative := s[0] == '-';
    var body := if negative then s[1..] else s;
    OnlyPlainParses(body, SCALE);
    integer, fraction := Before(body), After(body);
    assert s == (if negative then "-" else "") + body;
  }

  /** Every amount, the most negative too, prints as its sign, its whole units and all six decimals. */
  lemma AmountStringSpells(a: Amount) returns (integer: string, fraction: string)
    ensures var magnitude := if a < 0 then -(a as int) else a;
            var sign := if a < 0 then "-" else "";
            AmountString(a) == sign + (integer + "." + fraction)
            && Spells(integer + "." + fraction, integer, fraction, magnitude, SCALE)
  {
    hide Print, Value;
    if a == MIN_INT {
      integer, fraction := "9223372036854", "775808";
      ValueOfMostNegative();
      assert Pow10(6) == 1_000_000;
      assert AmountString(a) == "-" + (integer + "." + fraction);
    } else {
      integer, fraction := PrintSpells(if a < 0 then -(a as int) else a, SCALE);
      assert a >= 0 ==> "" + (integer + "." + fraction) == integer + "." + fraction;
    }
  }

  /** Parsing undoes printing for every amount except the one with no positive counterpart. */
  lemma ParseAmountString(a: Amount)
    ensures ParseAmount(AmountString(a)) == Ok(a) <==> a != MIN_INT
  {
    hide ParseText, Print;
    if a == MIN_INT {
      MostNegative();
    } else {
      var n: nat := if a < 0 then -a as int else a;
      ParsePrint(n, SCALE);
      PrintStarts(n);
      if a < 0 {
        assert ("-" + Print(n, SCALE))[1..] == Print(n, SCALE);
      }
    }
  }

  lemma PrintStarts(n: nat)
    ensures Print(n, SCALE) != "" && IsDigit(Print(n, SCALE)[0])
  {
    hide Digits, Padded, Pow10;
    assert Print(n, SCALE)[0] == Digits(Whole(n, Pow10(SCALE)))[0];
  }

  lemma MostNegative()
    ensures !ParseAmount("-9223372036854.775808").Ok?
  {
    hide ParseText, Units, Value;
    var i, f := "9223372036854", "775808";
    assert "-9223372036854.775808" == "-" + Text(i, f);
    ValueOfMostNegative();
    assert PadRight(f, SCALE) == f;
    assert Units(i, f, SCALE) > MAX_INT by { UnitsAre(i, f); }
    ParseAmountExact(true, i, f);
  }

  lemma UnitsAre(i: string, f: string)
    requires Plain(i, f, SCALE) && |f| == SCALE
    ensures Units(i, f, SCALE) == Value(i) * 1_000_000 + Value(f)
  {
    assert PadRight(f, SCALE) == f;
    assert Pow10(6) == 1_000_000;
  }

  lemma Value3(a: char, b: char, c: char)
    requires IsDigit(a) && IsDigit(b) && IsDigit(c)
    ensures Value([a, b, c]) == 100 * DigitOf(a) + 10 * DigitOf(b) + DigitOf(c)
  {
    assert [a][..0] == "" && [a, b][..1] == [a] && [a, b, c][..2] == [a, b];
    assert Value("") == 0;
    assert Value([a]) == DigitOf(a);
    assert Value([a, b]) == 10 * DigitOf(a) + DigitOf(b);
  }

  lemma Append3(s: string, t: string)
    requires AllDigits(s) && AllDigits(t) && |t| == 3
    ensures AllDigits(s + t) && Value(s + t) == 1000 * Value(s) + Value(t)
  {
    hide Value;
    ValueConcat(s, t);
    assert Pow10(3) == 1000;
  }

  lemma ValueOfMostNegative()
    ensures AllDigits("9223372036854") && Value("9223372036854") == 9_223_372_036_854
    ensures AllDigits("775808") && Value("775808") == 775_808
  {
    hide Value;
    Value3('0', '0', '9');
    Value3('2', '2', '3');
    Value3('3', '7', '2');
    Value3('0', '3', '6');
    Value3('8', '5', '4');
    Value3('7', '7', '5');
    Value3('8', '0', '8');
    ValueZeros(2);
    ValueConcat("00", "9");
    assert "00" == Zeros(2) && "00" + "9" == "009";
    Append3("9", "223");
    assert "9" + "223" == "9223";
    Append3("9223", "372");
    assert "9223" + "372" == "9223372";
    Append3("9223372", "036");
    assert "9223372" + "036" == "9223372036";
    Append3("9223372036", "854");
    assert "9223372036" + "854" == "9223372036854";
    Append3("775", "808");
    assert "775" + "808" == "775808";
  }
}
