/**
 * CRC-32C (section 12.1 of RFC 3720), the checksum of broker/log/record.go, and
 * why it catches any change confined to 32 consecutive bits: after j bits two
 * registers can only meet if they agreed above their j low bits, and the first
 * bit that differs makes them differ in the highest.
 *
 * A register is 32 bits, least significant first: index 0 is the bit that
 * falls out on the right of a right shift.
 */
module Crc {
  import opened Bytes

  type Register = c: seq<bool> | |c| == 32 witness seq(32, _ => false)

  /** The reflected Castagnoli polynomial 0x82F63B78. */
  function Poly(): Register {
    [ false, false, false, true, true, true, true, false,
      true, true, false, true, true, true, false, false,
      false, true, true, false, true, true, true, true,
      false, true, false, false, false, false, false, true]
  }

  function Xor(a: Register, b: Register): (c: Register)
    ensures forall i :: 0 <= i < 32 ==> c[i] == (a[i] != b[i])
  {
    seq(32, i requires 0 <= i < 32 => a[i] != b[i])
  }

  function Complement(a: Register): (c: Register)
    ensures forall i :: 0 <= i < 32 ==> c[i] == !a[i]
  {
    seq(32, i requires 0 <= i < 32 => !a[i])
  }

  /** Shift right by one, adding the polynomial when a one falls out. */
  function Shift(c: Register): Register {
    var shifted := c[1..] + [false];
    if c[0] then Xor(shifted, Poly()) else shifted
  }

  function ShiftBy(c: Register, n: nat): Register {
    if n == 0 then c else Shift(ShiftBy(c, n - 1))
  }

  function Pow2(k: nat): (p: nat)
    ensures p > 0
  {
    if k == 0 then 1 else 2 * Pow2(k - 1)
  }

  /** The `k` low bits of `n`, least significant first. */
  function Bits(n: nat, k: nat): (s: seq<bool>)
    ensures |s| == k
  {
    if k == 0 then [] else [n % 2 == 1] + Bits(n / 2, k - 1)
  }

  /** The number a bit string denotes. */
  function Value(s: seq<bool>): (n: nat)
    ensures n < Pow2(|s|)
  {
    if s == [] then 0 else (if s[0] then 1 else 0) + 2 * Value(s[1..])
  }

  /** A byte in the eight low bits of a register. */
  function Widen(b: byte): Register {
    Bits(b, 8) + seq(24, _ => false)
  }

  /** One byte into the register: the update step of a table-driven CRC. */
  function Absorb(c: Register, b: byte): Register {
    ShiftBy(Xor(c, Widen(b)), 8)
  }

  /** The register after `s`, starting from `c`. */
  function Run(c: Register, s: seq<byte>): Register {
    if s == [] then c else Absorb(Run(c, s[..|s| - 1]), s[|s| - 1])
  }

  function Start(): Register {
    Complement(seq(32, _ => false))
  }

  /** crc32.Checksum: all-ones start, complemented at the end. */
  function Sum32(s: seq<byte>): (n: nat)
    ensures n < U32
  {
    assert Pow2(8) == 0x100 && Pow2(16) == 0x1_0000 && Pow2(24) == 0x100_0000 && Pow2(32) == U32;
    Value(Complement(Run(Start(), s)))
  }

  lemma {:induction false} BitsInjective(m: nat, n: nat, k: nat)
    requires m < Pow2(k) && n < Pow2(k)
    requires Bits(m, k) == Bits(n, k)
    ensures m == n
  {
    if k > 0 {
      var r, t := Bits(m, k), Bits(n, k);
      assert r[0] == (m % 2 == 1) && t[0] == (n % 2 == 1);
      assert r[1..] == Bits(m / 2, k - 1) && t[1..] == Bits(n / 2, k - 1);
      BitsInjective(m / 2, n / 2, k - 1);
    }
  }

  lemma {:induction false} ValueInjective(s: seq<bool>, t: seq<bool>)
    requires |s| == |t| && Value(s) == Value(t)
    ensures s == t
  {
    if s != [] {
      ValueInjective(s[1..], t[1..]);
      assert s == [s[0]] + s[1..] && t == [t[0]] + t[1..];
    }
  }

  // ---- bit by bit --------------------------------------------------------------------

  /** One bit into the register. */
  function Step(c: Register, bit: bool): Register {
    Shift(c[0 := c[0] != bit])
  }

  function Feed(c: Register, bits: seq<bool>): Register
    decreases |bits|
  {
    if bits == [] then c else Feed(Step(c, bits[0]), bits[1..])
  }

  /** A message as the bits the register takes in, least significant first within each byte. */
  function BitsOf(s: seq<byte>): (bits: seq<bool>)
    ensures |bits| == 8 * |s|
  {
    if s == [] then [] else BitsOf(s[..|s| - 1]) + Bits(s[|s| - 1], 8)
  }

  lemma {:induction false} ShiftByFirst(c: Register, n: nat)
    ensures ShiftBy(c, n + 1) == ShiftBy(Shift(c), n)
  {
    hide Shift;
    if n > 0 {
      ShiftByFirst(c, n - 1);
    }
  }

  /** Some low bits of a register, zeros above. */
  function Low(bits: seq<bool>): (c: Register)
    requires |bits| <= 32
    ensures c == bits + seq(32 - |bits|, _ => false)
  {
    bits + seq(32 - |bits|, _ => false)
  }

  lemma StepTakesLowest(c: Register, bits: seq<bool>)
    requires 0 < |bits| <= 32
    ensures Shift(Xor(c, Low(bits))) == Xor(Step(c, bits[0]), Low(bits[1..]))
  {
    var x, y, d := Xor(c, Low(bits)), Low(bits[1..]), c[0 := c[0] != bits[0]];
    var l, r := Shift(x), Xor(Shift(d), y);
    assert x[0] == d[0];
    forall i | 0 <= i < 32
      ensures l[i] == r[i]
    {
      ShiftedBit(x, i);
      ShiftedBit(d, i);
      if i < 31 {
        assert x[i + 1] == (c[i + 1] != Low(bits)[i + 1]) && Low(bits)[i + 1] == y[i];
      }
    }
  }

  lemma ShiftedBit(c: Register, i: nat)
    requires i < 32
    ensures Shift(c)[i] == ((i < 31 && c[i + 1]) != (c[0] && Poly()[i]))
    ensures Shift(c)[31] == c[0]
  {
  }

  lemma {:induction false} ShiftsTakeBits(c: Register, bits: seq<bool>)
    requires |bits| <= 32
    ensures ShiftBy(Xor(c, Low(bits)), |bits|) == Feed(c, bits)
    decreases |bits|
  {
    hide Shift, Xor;
    if bits == [] {
      XorNothing(c);
    } else {
      StepTakesLowest(c, bits);
      ShiftByFirst(Xor(c, Low(bits)), |bits| - 1);
      ShiftsTakeBits(Step(c, bits[0]), bits[1..]);
    }
  }

  lemma XorNothing(c: Register)
    ensures Xor(c, Low([])) == c
  {
  }

  /** A byte at a time or a bit at a time is the same. */
  lemma AbsorbIsFeed(c: Register, b: byte)
    ensures Absorb(c, b) == Feed(c, Bits(b, 8))
  {
    hide Shift, Xor, ShiftBy, Feed, Bits;
    assert Widen(b) == Low(Bits(b, 8));
    ShiftsTakeBits(c, Bits(b, 8));
  }

  lemma {:induction false} FeedConcat(c: Register, a: seq<bool>, b: seq<bool>)
    ensures Feed(c, a + b) == Feed(Feed(c, a), b)
    decreases |a|
  {
    hide Step;
    if a == [] {
      assert a + b == b;
    } else {
      assert (a + b)[0] == a[0] && (a + b)[1..] == a[1..] + b;
      FeedConcat(Step(c, a[0]), a[1..], b);
    }
  }

  lemma {:induction false} RunIsFeed(c: Register, s: seq<byte>)
    ensures Run(c, s) == Feed(c, BitsOf(s))
  {
    hide Absorb, Feed, Bits;
    if s == [] {
      FeedNothing(c);
    } else {
      RunIsFeed(c, s[..|s| - 1]);
      AbsorbIsFeed(Feed(c, BitsOf(s[..|s| - 1])), s[|s| - 1]);
      FeedConcat(c, BitsOf(s[..|s| - 1]), Bits(s[|s| - 1], 8));
    }
  }

  lemma FeedNothing(c: Register)
    ensures Feed(c, []) == c
  {
  }

  // ---- bursts --------------------------------------------------------------------------

  lemma StepMeets(x: Register, y: Register, a: bool, b: bool, j: nat)
    requires j < 32 && forall i :: j <= i < 32 ==> Step(x, a)[i] == Step(y, b)[i]
    ensures (x[0] != a) == (y[0] != b)
    ensures forall i :: j < i < 32 ==> x[i] == y[i]
  {
    var c, d := x[0 := x[0] != a], y[0 := y[0] != b];
    ShiftedBit(c, 31);
    ShiftedBit(d, 31);
    assert Step(x, a)[31] == Step(y, b)[31];
    forall i | j < i < 32
      ensures x[i] == y[i]
    {
      ShiftedBit(c, i - 1);
      ShiftedBit(d, i - 1);
      assert Step(x, a)[i - 1] == Step(y, b)[i - 1];
    }
  }

  /** Registers that meet after j bits agreed above their j low bits. */
  lemma {:induction false} MeetAbove(x: Register, y: Register, p: seq<bool>, q: seq<bool>)
    requires |p| == |q| <= 32 && Feed(x, p) == Feed(y, q)
    ensures forall i :: |p| <= i < 32 ==> x[i] == y[i]
    decreases |p|
  {
    hide Step;
    if p != [] {
      MeetAbove(Step(x, p[0]), Step(y, q[0]), p[1..], q[1..]);
      StepMeets(x, y, p[0], q[0], |p| - 1);
    }
  }

  /** Different runs of at most 32 bits take one register to different ones. */
  lemma {:induction false} FeedDistinguishes(c: Register, p: seq<bool>, q: seq<bool>)
    requires |p| == |q| <= 32 && p != q
    ensures Feed(c, p) != Feed(c, q)
    decreases |p|
  {
    hide Step;
    if p[0] == q[0] {
      assert p == [p[0]] + p[1..] && q == [q[0]] + q[1..];
      FeedDistinguishes(Step(c, p[0]), p[1..], q[1..]);
    } else if Feed(c, p) == Feed(c, q) {
      MeetAbove(Step(c, p[0]), Step(c, q[0]), p[1..], q[1..]);
      HighBit(c, p[0], q[0]);
    }
  }

  lemma HighBit(c: Register, a: bool, b: bool)
    requires a != b
    ensures Step(c, a)[31] != Step(c, b)[31]
  {
    ShiftedBit(c[0 := c[0] != a], 31);
    ShiftedBit(c[0 := c[0] != b], 31);
  }

  /** What differs goes on differing: one step is injective. */
  lemma {:induction false} FeedKeepsDifference(c: Register, d: Register, bits: seq<bool>)
    requires c != d
    ensures Feed(c, bits) != Feed(d, bits)
    decreases |bits|
  {
    hide Step;
    if bits != [] {
      if Step(c, bits[0]) == Step(d, bits[0]) {
        StepInjective(c, d, bits[0]);
      }
      FeedKeepsDifference(Step(c, bits[0]), Step(d, bits[0]), bits[1..]);
    }
  }

  lemma StepInjective(c: Register, d: Register, bit: bool)
    requires Step(c, bit) == Step(d, bit)
    ensures c == d
  {
    StepMeets(c, d, bit, bit, 0);
  }

  lemma {:induction false} BitsOfInjective(s: seq<byte>, t: seq<byte>)
    requires |s| == |t| && BitsOf(s) == BitsOf(t)
    ensures s == t
  {
    hide Bits;
    if s != [] {
      var n := |s| - 1;
      assert BitsOf(s)[..8 * n] == BitsOf(s[..n]) && BitsOf(t)[..8 * n] == BitsOf(t[..n]);
      assert BitsOf(s)[8 * n..] == Bits(s[n], 8) && BitsOf(t)[8 * n..] == Bits(t[n], 8);
      BitsOfInjective(s[..n], t[..n]);
      ByteBits(s[n], t[n]);
    }
  }

  lemma ByteBits(x: byte, y: byte)
    requires Bits(x, 8) == Bits(y, 8)
    ensures x == y
  {
    assert Pow2(8) == 256;
    BitsInjective(x, y, 8);
  }

  /** Two messages of one length differ only within the w bits from bit i on. */
  ghost predicate Burst(s: seq<byte>, t: seq<byte>, i: nat, w: nat) {
    && |s| == |t| && s != t && i + w <= 8 * |s|
    && BitsOf(s)[..i] == BitsOf(t)[..i] && BitsOf(s)[i + w..] == BitsOf(t)[i + w..]
  }

  lemma RunDetectsBurst(c: Register, s: seq<byte>, t: seq<byte>, i: nat, w: nat)
    requires Burst(s, t, i, w) && w <= 32
    ensures Run(c, s) != Run(c, t)
  {
    hide BitsOf, Feed, Run;
    var a, b := BitsOf(s), BitsOf(t);
    var p, q, head, tail := a[i..i + w], b[i..i + w], a[..i], a[i + w..];
    assert a == head + p + tail && b == head + q + tail;
    if p == q {
      BitsOfInjective(s, t);
    }
    FeedDistinguishes(Feed(c, head), p, q);
    FeedKeepsDifference(Feed(Feed(c, head), p), Feed(Feed(c, head), q), tail);
    FeedConcat(c, head + p, tail);
    FeedConcat(c, head, p);
    FeedConcat(c, head + q, tail);
    FeedConcat(c, head, q);
    RunIsFeed(c, s);
    RunIsFeed(c, t);
  }

  lemma FinishInjective(c: Register, d: Register)
    requires Value(Complement(c)) == Value(Complement(d))
    ensures c == d
  {
    ValueInjective(Complement(c), Complement(d));
    assert forall i :: 0 <= i < 32 ==> c[i] == !Complement(c)[i] && d[i] == !Complement(d)[i];
  }

  /** Changing any bits within 32 consecutive ones changes the checksum. */
  lemma ChecksumDetectsBursts(s: seq<byte>, t: seq<byte>, i: nat, w: nat)
    requires Burst(s, t, i, w) && w <= 32
    ensures Sum32(s) != Sum32(t)
  {
    hide Burst;
    RunDetectsBurst(Start(), s, t, i, w);
    if Sum32(s) == Sum32(t) {
      FinishInjective(Run(Start(), s), Run(Start(), t));
    }
  }

  lemma {:induction false} BitsOfConcat(s: seq<byte>, t: seq<byte>)
    ensures BitsOf(s + t) == BitsOf(s) + BitsOf(t)
  {
    hide Bits;
    if t == [] {
      assert s + t == s;
    } else {
      var n := |t| - 1;
      assert (s + t)[..|s + t| - 1] == s + t[..n];
      BitsOfConcat(s, t[..n]);
    }
  }

  /** A burst behind a common front is a burst. */
  lemma BurstBehind(front: seq<byte>, s: seq<byte>, t: seq<byte>, i: nat, w: nat)
    requires Burst(s, t, i, w)
    ensures Burst(front + s, front + t, 8 * |front| + i, w)
  {
    hide BitsOf;
    BitsOfConcat(front, s);
    BitsOfConcat(front, t);
    var a, b, f := BitsOf(s), BitsOf(t), BitsOf(front);
    assert (f + a)[..|f| + i] == f + a[..i] && (f + b)[..|f| + i] == f + b[..i];
    assert (f + a)[|f| + i + w..] == a[i + w..] && (f + b)[|f| + i + w..] == b[i + w..];
    assert s == (front + s)[|front|..] && t == (front + t)[|front|..];
  }

  /** One byte changed to another is a burst of eight bits. */
  lemma ByteIsBurst(s: seq<byte>, i: nat, b: byte)
    requires i < |s| && s[i] != b
    ensures Burst(s, s[i := b], 8 * i, 8)
  {
    hide BitsOf;
    var head, tail := s[..i], s[i + 1..];
    assert s == head + [s[i]] + tail && s[i := b] == head + [b] + tail;
    BitsOfConcat(head + [s[i]], tail);
    BitsOfConcat(head, [s[i]]);
    BitsOfConcat(head + [b], tail);
    BitsOfConcat(head, [b]);
    assert s[i := b][i] == b;
  }
}
