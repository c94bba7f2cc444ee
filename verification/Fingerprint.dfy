/** The bytes a usage event's fingerprint is taken over (billing/event/event.go). */
module Fingerprints {
  import opened Bytes
  import opened Decimal
  import opened FixedPoint
  import opened Quantities

  /** writeField: the length, then the bytes. */
  function Field(value: seq<byte>): (f: seq<byte>)
    ensures |f| == 8 + |value|
  {
    BE64(|value|) + value
  }

  /** Everything written to the hash, in order. */
  function Fields(values: seq<seq<byte>>): seq<byte> {
    if values == [] then [] else Field(values[0]) + Fields(values[1..])
  }

  lemma FieldInjective(a: seq<byte>, b: seq<byte>, x: seq<byte>, y: seq<byte>)
    requires |a| < U64 && |b| < U64 && Field(a) + x == Field(b) + y
    ensures a == b && x == y
  {
    hide BE64;
    var f := Field(a) + x;
    assert f[..8] == BE64(|a|) && f[..8] == BE64(|b|);
    RoundTrip64(|a|);
    RoundTrip64(|b|);
    assert f[8..8 + |a|] == a && f[8..8 + |b|] == b;
    assert f[8 + |a|..] == x && f[8 + |b|..] == y;
  }

  /** Length prefixes leave one way only to cut the preimage back into its fields. */
  lemma {:induction false} FieldsInjective(a: seq<seq<byte>>, b: seq<seq<byte>>)
    requires |a| == |b| && Fields(a) == Fields(b)
    requires forall i :: 0 <= i < |a| ==> |a[i]| < U64 && |b[i]| < U64
    ensures a == b
  {
    hide Field;
    if a != [] {
      FieldInjective(a[0], b[0], Fields(a[1..]), Fields(b[1..]));
      FieldsInjective(a[1..], b[1..]);
      assert a == [a[0]] + a[1..] && b == [b[0]] + b[1..];
    }
  }

  /** The bytes of a text of digits and points. */
  function Ascii(s: string): (b: seq<byte>)
    requires forall i :: 0 <= i < |s| ==> s[i] < 256 as char
    ensures |b| == |s|
  {
    seq(|s|, i requires 0 <= i < |s| => s[i] as int)
  }

  lemma AsciiInjective(s: string, t: string)
    requires forall i :: 0 <= i < |s| ==> s[i] < 256 as char
    requires forall i :: 0 <= i < |t| ==> t[i] < 256 as char
    requires Ascii(s) == Ascii(t)
    ensures s == t
  {
    forall i | 0 <= i < |s|
      ensures s[i] == t[i]
    {
      assert Ascii(s)[i] == s[i] as int && Ascii(t)[i] == t[i] as int;
    }
  }

  lemma CanonicalIsAscii(q: string)
    requires Accepted(q)
    ensures forall i :: 0 <= i < |Canonical(q)| ==> Canonical(q)[i] < 256 as char
  {
    hide Canonical, CanonicalOf, NanoUnits, Accepted, Digits, Padded, TrimRight, Pow10, Units;
    CanonicalIsOfValue(q);
    var n, p := NanoUnits(q), Pow10(QUANTITY_SCALE);
    CanonicalOfUnits(n);
    var i, f := Digits(Whole(n, p)), TrimRight(Padded(Part(n, p), QUANTITY_SCALE));
    forall k | 0 <= k < |Text(i, f)|
      ensures Text(i, f)[k] < 256 as char
    {
      if k < |i| {
        assert IsDigit(i[k]);
      } else if k > |i| {
        assert Text(i, f)[k] == f[k - |i| - 1] && IsDigit(f[k - |i| - 1]);
      }
    }
  }

  /** Fingerprint's preimage: tenant, meter, canonical quantity and timestamp text. */
  function Preimage(tenant: seq<byte>, meter: seq<byte>, quantity: string, time: seq<byte>): seq<byte>
    requires Accepted(quantity)
  {
    CanonicalIsAscii(quantity);
    Fields([tenant, meter, Ascii(Canonical(quantity)), time])
  }

  /** Tenant, meter, quantity and time, in that order, each behind its length in eight bytes. */
  lemma PreimageLayout(tenant: seq<byte>, meter: seq<byte>, quantity: string, time: seq<byte>)
    requires Accepted(quantity)
    ensures (CanonicalIsAscii(quantity);
             var text := Ascii(Canonical(quantity));
             Preimage(tenant, meter, quantity, time) ==
             (BE64(|tenant|) + tenant) + ((BE64(|meter|) + meter) + ((BE64(|text|) + text) + (BE64(|time|) + time))))
  {
    hide BE64, Canonical, Accepted, Ascii, Fields;
    CanonicalIsAscii(quantity);
    FieldsOfFour(tenant, meter, Ascii(Canonical(quantity)), time);
  }

  lemma FieldsOfFour(a: seq<byte>, b: seq<byte>, c: seq<byte>, d: seq<byte>)
    ensures Fields([a, b, c, d]) == Field(a) + (Field(b) + (Field(c) + Field(d)))
  {
    hide Field;
    var four: seq<seq<byte>>, three: seq<seq<byte>> := [a, b, c, d], [b, c, d];
    var two: seq<seq<byte>>, one: seq<seq<byte>> := [c, d], [d];
    assert four[1..] == three && three[1..] == two && two[1..] == one && |one[1..]| == 0;
    assert Fields(one) == Field(d);
    assert Fields(two) == Field(c) + Fields(one);
    assert Fields(three) == Field(b) + Fields(two);
  }

  /** Two events share a preimage exactly when tenant, meter and time agree and the quantities are numerically equal. */
  lemma PreimageDecidesContent(t1: seq<byte>, m1: seq<byte>, q1: string, d1: seq<byte>,
                               t2: seq<byte>, m2: seq<byte>, q2: string, d2: seq<byte>)
    requires Accepted(q1) && Accepted(q2)
    requires |t1| < U64 && |m1| < U64 && |d1| < U64 && |Canonical(q1)| < U64
    requires |t2| < U64 && |m2| < U64 && |d2| < U64 && |Canonical(q2)| < U64
    ensures Preimage(t1, m1, q1, d1) == Preimage(t2, m2, q2, d2)
            <==> t1 == t2 && m1 == m2 && d1 == d2 && NanoUnits(q1) == NanoUnits(q2)
  {
    hide Fields, Canonical, Accepted, NanoUnits, Ascii;
    CanonicalIsAscii(q1);
    CanonicalIsAscii(q2);
    CanonicalDecidesEquality(q1, q2);
    var a, b := [t1, m1, Ascii(Canonical(q1)), d1], [t2, m2, Ascii(Canonical(q2)), d2];
    if Fields(a) == Fields(b) {
      FieldsInjective(a, b);
      assert a[0] == b[0] && a[1] == b[1] && a[2] == b[2] && a[3] == b[3];
      AsciiInjective(Canonical(q1), Canonical(q2));
    }
  }
}
