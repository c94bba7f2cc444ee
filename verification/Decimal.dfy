/**
 * Decimal text: digit strings and their values, and the digit loop that both
 * ledger.parseDigits and pricing.parseQuantityDigits run over wrapping int64.
 */
module Decimal {
  import opened Int64

  predicate IsDigit(c: char) {
    '0' <= c <= '9'
  }

  predicate AllDigits(s: string) {
    forall i :: 0 <= i < |s| ==> IsDigit(s[i])
  }

  function DigitOf(c: char): (d: nat)
    requires IsDigit(c)
    ensures d < 10
  {
    c as int - '0' as int
  }

  function DigitChar(d: nat): (c: char)
    requires d < 10
    ensures IsDigit(c) && DigitOf(c) == d
  {
    ('0' as int + d) as char
  }

  /** The number a digit string denotes, however large. */
  function Value(s: string): (n: nat)
    requires AllDigits(s)
  {
    if s == "" then 0 else 10 * Value(s[..|s| - 1]) + DigitOf(s[|s| - 1])
  }

  function Pow10(k: nat): (p: nat)
    ensures p > 0
  {
    if k == 0 then 1 else 10 * Pow10(k - 1)
  }

  function Zeros(k: nat): (z: string)
    ensures |z| == k && AllDigits(z)
    ensures forall i :: 0 <= i < k ==> z[i] == '0'
  {
    seq(k, _ => '0')
  }

  /** The decimal digits of a number, with no leading zero. */
  function Digits(n: nat): (s: string)
    ensures s != "" && AllDigits(s)
  {
    if n < 10 then [DigitChar(n)] else Digits(n / 10) + [DigitChar(n % 10)]
  }

  /** %0*d for a number that is not negative. */
  function Padded(n: nat, width: nat): (s: string)
    ensures s != "" && AllDigits(s)
  {
    var d := Digits(n);
    if |d| < width then Zeros(width - |d|) + d else d
  }

  // ---- the digit loop ----------------------------------------------------

  datatype Parsed = Ok(value: int64) | Malformed | TooLarge

  /** One turn of the loop: n*10 + digit, both operations wrapping, refused if it went down. */
  function Accumulate(n: int64, c: char): Parsed
  {
    if !IsDigit(c) then Malformed
    else
      var next := Wrap(Wrap(n as int * 10) as int + DigitOf(c));
      if next < n then TooLarge else Ok(next)
  }

  /** The loop, from the first character on. */
  function LoopFrom(n: int64, s: string): Parsed
    decreases |s|
  {
    if s == "" then Ok(n)
    else
      match Accumulate(n, s[0])
      case Ok(next) => LoopFrom(next, s[1..])
      case error => error
  }

  function ParseDigits(s: string): Parsed {
    if s == "" then Malformed else LoopFrom(0, s)
  }

  /** parseDigits and parseQuantityDigits. */
  method ParseDigitsLoop(s: string) returns (r: Parsed)
    ensures r == ParseDigits(s)
  {
    if s == "" {
      return Malformed;
    }
    var n: int64 := 0;
    var i := 0;
    while i < |s|
      invariant 0 <= i <= |s|
      invariant LoopFrom(n, s[i..]) == LoopFrom(0, s)
    {
      assert s[i..][1..] == s[i + 1..];
      if s[i] < '0' || s[i] > '9' {
        return Malformed;
      }
      var next := Wrap(Wrap(n as int * 10) as int + (s[i] as int - '0' as int));
      if next < n {
        return TooLarge;
      }
      n := next;
      i := i + 1;
    }
    return Ok(n);
  }

  // ---- values ------------------------------------------------------------

  lemma AllDigitsConcat(a: string, b: string)
    ensures AllDigits(a + b) <==> AllDigits(a) && AllDigits(b)
  {
    assert forall i :: 0 <= i < |a| ==> (a + b)[i] == a[i];
    assert forall i :: 0 <= i < |b| ==> (a + b)[|a| + i] == b[i];
  }

  lemma Regroup(v: nat, p: nat)
    ensures 10 * (v * p) == v * (10 * p)
  {
  }

  lemma {:induction false} ValueConcat(a: string, b: string)
    requires AllDigits(a) && AllDigits(b)
    ensures AllDigits(a + b) && Value(a + b) == Value(a) * Pow10(|b|) + Value(b)
  {
    AllDigitsConcat(a, b);
    if b == "" {
      assert a + b == a;
    } else {
      var n := |b| - 1;
      assert (a + b)[..|a + b| - 1] == a + b[..n] && (a + b)[|a + b| - 1] == b[n];
      ValueConcat(a, b[..n]);
      Regroup(Value(a), Pow10(n));
    }
  }

  lemma {:induction false} ValueBound(s: string)
    requires AllDigits(s)
    ensures Value(s) < Pow10(|s|)
  {
    if s != "" {
      ValueBound(s[..|s| - 1]);
    }
  }

  /** Digit strings of one length are told apart by their values. */
  lemma LastDigit(x: nat, c: nat, y: nat, d: nat)
    requires c < 10 && d < 10 && 10 * x + c == 10 * y + d
    ensures x == y && c == d
  {
  }

  lemma {:induction false} ValueInjective(a: string, b: string)
    requires AllDigits(a) && AllDigits(b) && |a| == |b| && Value(a) == Value(b)
    ensures a == b
  {
    if a != "" {
      var n := |a| - 1;
      LastDigit(Value(a[..n]), DigitOf(a[n]), Value(b[..n]), DigitOf(b[n]));
      ValueInjective(a[..n], b[..n]);
      assert a == a[..n] + [a[n]] && b == b[..n] + [b[n]];
    }
  }

  lemma {:induction false} ValueZeros(k: nat)
    ensures Value(Zeros(k)) == 0
  {
    if k > 0 {
      assert Zeros(k)[..k - 1] == Zeros(k - 1);
      ValueZeros(k - 1);
    }
  }

  lemma {:induction false} ValueDigits(n: nat)
    ensures Value(Digits(n)) == n
  {
    if n >= 10 {
      ValueDigits(n / 10);
      assert Digits(n)[..|Digits(n)| - 1] == Digits(n / 10);
    }
  }

  lemma {:induction false} DigitsLength(n: nat, w: nat)
    requires n < Pow10(w) && w > 0
    ensures |Digits(n)| <= w
  {
    if n >= 10 {
      DigitsLength(n / 10, w - 1);
    }
  }

  lemma ValuePadded(n: nat, width: nat)
    ensures Value(Padded(n, width)) == n
    ensures n < Pow10(width) && width > 0 ==> |Padded(n, width)| == width
  {
    var d := Digits(n);
    ValueDigits(n);
    if |d| < width {
      ValueZeros(width - |d|);
      ValueConcat(Zeros(width - |d|), d);
    }
    if n < Pow10(width) && width > 0 {
      DigitsLength(n, width);
    }
  }

  // ---- the loop is exact where it succeeds in range ------------------------

  /** The largest value the loop can hold and still be sure to take another digit. */
  const CEILING := MAX_INT / 10

  lemma StepExact(n: int64, c: char)
    requires 0 <= n && IsDigit(c)
    ensures var x := 10 * n as int + DigitOf(c);
            && (x <= MAX_INT ==> Accumulate(n, c) == Ok(x))
            && (x > MAX_INT ==> n >= CEILING)
            && (Accumulate(n, c).Ok? ==> Accumulate(n, c).value >= n)
  {
  }

  /** Once past the ceiling the loop stays there: a wrapped value can only be a large one. */
  lemma {:induction false} LoopStaysHigh(n: int64, s: string)
    requires n >= CEILING
    ensures LoopFrom(n, s).Ok? ==> LoopFrom(n, s).value >= CEILING
    decreases |s|
  {
    if s != "" && Accumulate(n, s[0]).Ok? {
      LoopStaysHigh(Accumulate(n, s[0]).value, s[1..]);
    }
  }

  lemma {:induction false} LoopExact(done: string, rest: string)
    requires AllDigits(done) && AllDigits(rest) && Value(done) <= MAX_INT
    ensures AllDigits(done + rest)
    ensures var v := Value(done + rest);
            if v <= MAX_INT then LoopFrom(Value(done), rest) == Ok(v)
            else LoopFrom(Value(done), rest) == TooLarge
                 || (LoopFrom(Value(done), rest).Ok? && LoopFrom(Value(done), rest).value >= CEILING)
    decreases |rest|
  {
    AllDigitsConcat(done, rest);
    if rest == "" {
      assert done + rest == done;
    } else {
      var more := done + [rest[0]];
      assert more[..|more| - 1] == done;
      assert done + rest == more + rest[1..];
      StepExact(Value(done), rest[0]);
      assert Value(more) == 10 * Value(done) + DigitOf(rest[0]);
      if Value(more) <= MAX_INT {
        LoopExact(more, rest[1..]);
      } else {
        ValueGrows(more, rest[1..]);
        StillDigits(Value(done), rest);
      }
    }
  }

  /** Past the ceiling, on digits, the loop overflows or ends above it. */
  lemma StillDigits(n: int64, s: string)
    requires AllDigits(s) && n >= CEILING
    ensures LoopFrom(n, s) == TooLarge || (LoopFrom(n, s).Ok? && LoopFrom(n, s).value >= CEILING)
  {
    LoopStaysHigh(n, s);
    NeverMalformed(n, s);
  }

  lemma {:induction false} NeverMalformed(n: int64, s: string)
    ensures LoopFrom(n, s) == Malformed ==> !AllDigits(s)
    ensures LoopFrom(n, s).Ok? ==> AllDigits(s)
    decreases |s|
  {
    if s != "" && Accumulate(n, s[0]).Ok? {
      NeverMalformed(Accumulate(n, s[0]).value, s[1..]);
      assert AllDigits(s) <==> IsDigit(s[0]) && AllDigits(s[1..]) by {
        AllDigitsConcat([s[0]], s[1..]);
        assert s == [s[0]] + s[1..];
      }
    }
  }

  lemma ValueGrows(a: string, b: string)
    requires AllDigits(a) && AllDigits(b)
    ensures AllDigits(a + b) && Value(a + b) >= Value(a)
  {
    hide Value, Pow10;
    ValueConcat(a, b);
    AtLeast(Value(a), Pow10(|b|));
  }

  lemma AtLeast(v: nat, p: nat)
    requires p > 0
    ensures v * p >= v
  {
  }

  /**
   * What the guard `next < n` buys: exact on every value an int64 holds; beyond
   * that, an overflow or a wrapped value that is still enormous.
   */
  lemma ParseDigitsExact(s: string)
    ensures ParseDigits(s).Ok? ==> s != "" && AllDigits(s)
    ensures s != "" && AllDigits(s) ==>
              if Value(s) <= MAX_INT then ParseDigits(s) == Ok(Value(s))
              else ParseDigits(s) == TooLarge || (ParseDigits(s).Ok? && ParseDigits(s).value >= CEILING)
  {
    if s != "" {
      NeverMalformed(0, s);
      if AllDigits(s) {
        LoopExact("", s);
        assert "" + s == s;
      }
    }
  }

  /** Reducing x by k turns of the int64 circle lands at or above n, and not below zero. */
  predicate Unnoticed(n: int, x: int, k: int) {
    k >= 1 && k * SPAN + n <= x <= k * SPAN + MAX_INT
  }

  /** n*10 + digit, wrapping twice, is the exact value wrapped once. */
  lemma WrapsOnce(n: int64, d: nat)
    requires d <= 9
    ensures Wrap(Wrap(n as int * 10) as int + d) == Wrap(10 * n as int + d)
  {
    var m := n as int * 10;
    WrapTurns(m);
    WrapTurns(Wrap(m) as int + d);
    var j, k := Turns(m), Turns(Wrap(m) as int + d);
    assert m + d - (j + k) * SPAN == Wrap(Wrap(m) as int + d);
    WrapIs(m + d, j + k);
  }

  function Turns(x: int): int {
    (x - MIN_INT) / SPAN
  }

  lemma WrapTurns(x: int)
    ensures Wrap(x) == x - Turns(x) * SPAN
  {
  }

  lemma WrapIs(x: int, k: int)
    requires MIN_INT <= x - k * SPAN <= MAX_INT
    ensures Wrap(x) == x - k * SPAN
  {
    WrapTurns(x);
  }

  /** One digit more. */
  function Longer(n: int, c: char): int
    requires IsDigit(c)
  {
    10 * n + DigitOf(c)
  }

  /** Exactly which overflows of one step the guard lets through, and as what. */
  lemma GuardPassesIff(n: int64, c: char)
    requires n >= 0 && IsDigit(c) && Longer(n as int, c) > MAX_INT
    ensures var x := Longer(n as int, c);
            && (Accumulate(n, c).Ok? <==> exists k :: Unnoticed(n, x, k))
            && (forall k :: Unnoticed(n, x, k) ==> Accumulate(n, c) == Ok(x - k * SPAN))
  {
    hide Wrap, Unnoticed, Longer, Accumulate;
    var x := Longer(n as int, c);
    AccumulateWraps(n, c);
    WrapNoticedIff(n as int, x);
    forall k | Unnoticed(n as int, x, k)
      ensures Accumulate(n, c) == Ok(x - k * SPAN)
    {
    }
  }

  lemma AccumulateWraps(n: int64, c: char)
    requires n >= 0 && IsDigit(c)
    ensures var x := Longer(n as int, c);
            Accumulate(n, c) == if Wrap(x) < n as int then TooLarge else Ok(Wrap(x))
  {
    hide Wrap;
    WrapsOnce(n, DigitOf(c));
  }

  /** A value too large wraps to no less than n in exactly these ranges. */
  lemma WrapNoticedIff(n: int, x: int)
    requires 0 <= n <= MAX_INT < x
    ensures Wrap(x) >= n <==> exists k :: Unnoticed(n, x, k)
    ensures forall k :: Unnoticed(n, x, k) ==> Wrap(x) == x - k * SPAN
  {
    hide Wrap, Turns;
    WrapTurns(x);
    if Wrap(x) >= n {
      assert Unnoticed(n, x, Turns(x));
    }
    forall k | Unnoticed(n, x, k)
      ensures Wrap(x) == x - k * SPAN && Wrap(x) >= n
    {
      WrapIs(x, k);
    }
  }

  /**
   * The same for a whole string, at the first of its prefixes that is too large:
   * refused there for good, or read on from the wrapped value.
   */
  lemma FirstOverflow(a: string, c: char, b: string)
    requires AllDigits(a) && IsDigit(c) && AllDigits(b)
    requires Value(a) <= MAX_INT < Longer(Value(a), c)
    ensures var x, s := Longer(Value(a), c), a + [c] + b;
            && (ParseDigits(s) == TooLarge || exists k :: Unnoticed(Value(a), x, k))
            && (forall k :: Unnoticed(Value(a), x, k) ==> ParseDigits(s) == LoopFrom(x - k * SPAN, b))
  {
    hide Accumulate, LoopFrom, Value, Unnoticed, Longer, ParseDigits;
    var n := Value(a);
    var x, r, s := Longer(n, c), Accumulate(n, c), a + [c] + b;
    GuardPassesIff(n, c);
    ReadsTo(a, c, b);
    DigitNotMalformed(n, c);
    if r.Ok? {
      var k :| Unnoticed(n, x, k);
    } else {
      assert ParseDigits(s) == TooLarge;
    }
    forall k | Unnoticed(n, x, k)
      ensures ParseDigits(s) == LoopFrom(x - k * SPAN, b)
    {
      assert r == Ok(x - k * SPAN);
    }
  }

  /** A string read through its longest prefix that fits, and one digit more. */
  lemma ReadsTo(a: string, c: char, b: string)
    requires AllDigits(a) && Value(a) <= MAX_INT
    ensures var r := Accumulate(Value(a), c);
            ParseDigits(a + [c] + b) == if r.Ok? then LoopFrom(r.value, b) else r
  {
    hide Accumulate;
    ValueOfNothing();
    LoopExact("", a);
    assert "" + a == a && a + [c] + b == a + ([c] + b);
    LoopSplit(0, a, [c] + b);
    LoopStep(Value(a), c, b);
  }

  lemma LoopStep(n: int64, c: char, b: string)
    ensures LoopFrom(n, [c] + b) == if Accumulate(n, c).Ok? then LoopFrom(Accumulate(n, c).value, b) else Accumulate(n, c)
  {
    hide Accumulate;
    assert ([c] + b)[0] == c && ([c] + b)[1..] == b;
  }

  lemma ValueOfNothing()
    ensures Value("") == 0 && AllDigits("")
  {
  }

  lemma DigitNotMalformed(n: int64, c: char)
    requires IsDigit(c)
    ensures Accumulate(n, c) != Malformed
  {
  }

  /** The guard alone does miss overflows: 21 followed by eighteen zeros wraps right round unnoticed. */
  lemma GuardMissesAnOverflow()
    ensures ParseDigits("21" + Zeros(18)).Ok?
  {
    hide LoopFrom, Value;
    var head := "21" + Zeros(17);
    assert "21" + Zeros(18) == head + ['0'];
    ValueZeros(17);
    ValueOf21();
    ValueConcat("21", Zeros(17));
    assert Pow10(17) == 100_000_000_000_000_000 by { assert Pow10(9) == 1_000_000_000; }
    ParseDigitsExact(head);
    LoopSplit(0, head, ['0']);
    LoopOne(2_100_000_000_000_000_000, '0');
  }

  lemma ValueOf21()
    ensures Value("21") == 21
  {
    assert "21"[..1] == "2" && "2"[..0] == "";
  }

  lemma LoopOne(n: int64, c: char)
    ensures LoopFrom(n, [c]) == Accumulate(n, c)
  {
    assert [c][1..] == "";
  }

  lemma {:induction false} LoopSplit(n: int64, a: string, b: string)
    requires LoopFrom(n, a).Ok?
    ensures LoopFrom(n, a + b) == LoopFrom(LoopFrom(n, a).value, b)
    decreases |a|
  {
    hide Accumulate;
    if a == "" {
      assert a + b == b;
    } else {
      assert (a + b)[1..] == a[1..] + b && (a + b)[0] == a[0];
      LoopSplit(Accumulate(n, a[0]).value, a[1..], b);
    }
  }
}
