/**
 * CRC-32C as section 12.1 of RFC 3720 defines it: the message, its first 32 bits
 * complemented and 32 zero bits appended, divided by the generator over the
 * integers modulo two; the checksum is the complemented remainder.
 */
module Castagnoli {
  import opened Bytes
  import opened Crc

  /** The exponents of the generator's terms. */
  const GENERATOR: set<int> := {32, 28, 27, 26, 25, 23, 22, 20, 19, 18, 14, 13, 11, 10, 9, 8, 6, 0}

  /** Bit i of a number, bit 0 the least significant. */
  predicate Bit(n: nat, i: nat) {
    if i == 0 then n % 2 == 1 else Bit(n / 2, i - 1)
  }

  /** Bit i of a message: each byte goes out least significant bit first. */
  predicate MessageBit(s: seq<byte>, i: nat)
    requires i < 8 * |s|
  {
    Bit(s[i / 8], i % 8)
  }

  /**
   * The dividend's coefficient of x^e. The message's first bit has the highest
   * exponent, 32 zeros follow its last, and the 32 highest are complemented.
   */
  predicate Dividend(s: seq<byte>, e: int) {
    var n := 8 * |s|;
    (32 <= e < n + 32 && MessageBit(s, n + 31 - e)) != (n <= e < n + 32)
  }

  /** The coefficient of x^e in q times the generator; q[k] is the coefficient of x^k. */
  predicate Product(q: seq<bool>, e: int)
    decreases |q|
  {
    if q == [] then false else (q[0] && e in GENERATOR) != Product(q[1..], e - 1)
  }

  predicate Term(r: seq<bool>, e: int) {
    0 <= e < |r| && r[e]
  }

  /** Dividing the message leaves the quotient q and the remainder r, of degree below 32. */
  ghost predicate Divided(s: seq<byte>, q: seq<bool>, r: seq<bool>) {
    |r| == 32 && forall e: int :: Dividend(s, e) == (Product(q, e) != Term(r, e))
  }

  // ---- bits of numbers ----------------------------------------------------------------

  lemma {:induction false} BitsAre(n: nat, k: nat, i: nat)
    requires i < k
    ensures Bits(n, k)[i] == Bit(n, i)
  {
    if i > 0 {
      BitsAre(n / 2, k - 1, i - 1);
    }
  }

  lemma {:induction false} BitsOfValue(s: seq<bool>)
    ensures Bits(Value(s), |s|) == s
  {
    if s != [] {
      BitsOfValue(s[1..]);
      assert s == [s[0]] + s[1..];
    }
  }

  lemma ValueBit(s: seq<bool>, i: nat)
    requires i < |s|
    ensures Bit(Value(s), i) == s[i]
  {
    BitsOfValue(s);
    BitsAre(Value(s), |s|, i);
  }

  lemma {:induction false} BitsOfAre(s: seq<byte>, i: nat)
    requires i < 8 * |s|
    ensures BitsOf(s)[i] == MessageBit(s, i)
  {
    hide Bits, Bit;
    var n := |s| - 1;
    if i < 8 * n {
      BitsOfAre(s[..n], i);
    } else {
      BitsAre(s[n], 8, i - 8 * n);
    }
  }

  // ---- the register is the remainder ----------------------------------------------------

  /** The dividend of a run of bits. */
  predicate BitDividend(bits: seq<bool>, e: int) {
    var n := |bits|;
    (32 <= e < n + 32 && bits[n + 31 - e]) != (n <= e < n + 32)
  }

  /** A register as a remainder: its lowest bit is the coefficient of x^31. */
  predicate Coefficient(c: Register, e: int) {
    0 <= e < 32 && c[31 - e]
  }

  ghost predicate Tracks(bits: seq<bool>, q: seq<bool>, c: Register) {
    forall e: int :: BitDividend(bits, e) == (Product(q, e) != Coefficient(c, e))
  }

  /** The register's polynomial is the generator without x^32. */
  lemma PolyIsGenerator(e: int)
    ensures (e in GENERATOR) == (e == 32 || (0 <= e < 32 && Poly()[31 - e]))
  {
  }

  /** One bit more is one step of long division. */
  lemma StepDivides(bits: seq<bool>, bit: bool, q: seq<bool>, c: Register)
    requires Tracks(bits, q, c)
    ensures Tracks(bits + [bit], [c[0] != bit] + q, Step(c, bit))
  {
    hide Poly, Shift;
    var more, top, d := bits + [bit], c[0] != bit, c[0 := c[0] != bit];
    forall e: int
      ensures BitDividend(more, e) == (Product([top] + q, e) != Coefficient(Step(c, bit), e))
    {
      assert ([top] + q)[1..] == q;
      assert BitDividend(bits, e - 1) == (Product(q, e - 1) != Coefficient(c, e - 1));
      assert BitDividend(more, e) == (BitDividend(bits, e - 1) != (e == 32 && bit));
      PolyIsGenerator(e);
      if 0 <= e < 32 {
        ShiftedBit(d, 31 - e);
      }
    }
  }

  lemma FeedSnoc(c: Register, bits: seq<bool>, bit: bool)
    ensures Feed(c, bits + [bit]) == Step(Feed(c, bits), bit)
  {
    hide Step;
    FeedConcat(c, bits, [bit]);
    FeedNothing(Step(Feed(c, bits), bit));
  }

  lemma {:induction false} FeedDivides(bits: seq<bool>) returns (q: seq<bool>)
    ensures Tracks(bits, q, Feed(Start(), bits))
  {
    hide Step, Feed;
    if bits == [] {
      q := [];
      FeedNothing(Start());
    } else {
      var init, bit := bits[..|bits| - 1], bits[|bits| - 1];
      assert bits == init + [bit];
      var before := FeedDivides(init);
      StepDivides(init, bit, before, Feed(Start(), init));
      FeedSnoc(Start(), init, bit);
      q := [Feed(Start(), init)[0] != bit] + before;
    }
  }

  lemma SameDividend(s: seq<byte>, e: int)
    ensures Dividend(s, e) == BitDividend(BitsOf(s), e)
  {
    hide MessageBit, BitsOf;
    var n := 8 * |s|;
    if 32 <= e < n + 32 {
      BitsOfAre(s, n + 31 - e);
    }
  }

  /** Every message can be divided, and the checksum is the complemented remainder, highest exponent lowest. */
  lemma DivisionExists(s: seq<byte>) returns (q: seq<bool>, r: seq<bool>)
    ensures Divided(s, q, r) && forall i :: 0 <= i < 32 ==> Bit(Sum32(s), i) == !r[31 - i]
  {
    hide Feed, BitsOf, Run, Bit, Dividend, BitDividend, Product, Value;
    var c := Run(Start(), s);
    RunIsFeed(Start(), s);
    q := FeedDivides(BitsOf(s));
    r := seq(32, e requires 0 <= e < 32 => c[31 - e]);
    forall e: int
      ensures Dividend(s, e) == (Product(q, e) != Term(r, e))
    {
      SameDividend(s, e);
      assert Coefficient(c, e) == Term(r, e);
      assert BitDividend(BitsOf(s), e) == (Product(q, e) != Coefficient(c, e));
    }
    forall i | 0 <= i < 32
      ensures Bit(Sum32(s), i) == !r[31 - i]
    {
      ValueBit(Complement(c), i);
    }
  }

  // ---- there is only one remainder ---------------------------------------------------------

  /** The highest term of a product is that of the quotient times x^32. */
  lemma {:induction false} HighestTerm(q: seq<bool>, e: int)
    requires e >= |q| + 31
    ensures Product(q, e) == (q != [] && e == |q| + 31 && q[|q| - 1])
    decreases |q|
  {
    if q != [] {
      HighestTerm(q[1..], e - 1);
    }
  }

  lemma {:induction false} ProductShortens(q: seq<bool>, e: int)
    requires q != [] && !q[|q| - 1]
    ensures Product(q, e) == Product(q[..|q| - 1], e)
    decreases |q|
  {
    var init := q[..|q| - 1];
    if |q| > 1 {
      ProductShortens(q[1..], e - 1);
      assert q[1..][..|q| - 2] == init[1..];
    } else {
      assert q[1..] == [];
    }
  }

  function Sum(p: seq<bool>, q: seq<bool>): seq<bool>
    decreases |p|
  {
    if p == [] then q else if q == [] then p else [p[0] != q[0]] + Sum(p[1..], q[1..])
  }

  lemma {:induction false} ProductOfSum(p: seq<bool>, q: seq<bool>, e: int)
    ensures Product(Sum(p, q), e) == (Product(p, e) != Product(q, e))
    decreases |p|
  {
    if p != [] && q != [] {
      ProductOfSum(p[1..], q[1..], e - 1);
      assert Sum(p, q)[1..] == Sum(p[1..], q[1..]);
    }
  }

  /** A product with no term of degree 32 or more has none at all. */
  lemma {:induction false} ProductIsLong(q: seq<bool>, e: int)
    requires forall d: int :: d >= 32 ==> !Product(q, d)
    ensures !Product(q, e)
    decreases |q|
  {
    hide Product;
    if q == [] {
      NoProduct(e);
    } else {
      var init := q[..|q| - 1];
      HighestTerm(q, |q| + 31);
      forall d: int
        ensures Product(q, d) == Product(init, d)
      {
        ProductShortens(q, d);
      }
      ProductIsLong(init, e);
    }
  }

  lemma NoProduct(e: int)
    ensures !Product([], e)
  {
  }

  /** Two divisions of one dividend leave one remainder. */
  lemma RemainderUnique(p: seq<bool>, a: seq<bool>, q: seq<bool>, b: seq<bool>)
    requires |a| == |b| == 32 && forall e: int :: (Product(p, e) != Term(a, e)) == (Product(q, e) != Term(b, e))
    ensures a == b
  {
    hide Product, Sum;
    forall e: int
      ensures Product(Sum(p, q), e) == (Term(a, e) != Term(b, e))
    {
      ProductOfSum(p, q, e);
      assert (Product(p, e) != Term(a, e)) == (Product(q, e) != Term(b, e));
    }
    forall e | 0 <= e < 32
      ensures a[e] == b[e]
    {
      ProductIsLong(Sum(p, q), e);
      assert Term(a, e) == a[e] && Term(b, e) == b[e];
    }
  }

  /** The checksum is the complemented remainder of any division of the message by the generator. */
  lemma ChecksumIsRemainder(s: seq<byte>, q: seq<bool>, r: seq<bool>)
    requires Divided(s, q, r)
    ensures forall i :: 0 <= i < 32 ==> Bit(Sum32(s), i) == !r[31 - i]
  {
    hide Product, Dividend, Bit, Sum32;
    var p, a := DivisionExists(s);
    forall e: int
      ensures (Product(p, e) != Term(a, e)) == (Product(q, e) != Term(r, e))
    {
      assert Dividend(s, e) == (Product(p, e) != Term(a, e));
      assert Dividend(s, e) == (Product(q, e) != Term(r, e));
    }
    RemainderUnique(p, a, q, r);
  }
}
