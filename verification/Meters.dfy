/** Meter names in the order sort.Strings puts them. */
module Meters {
  /** Lexicographic order. */
  predicate Less(a: string, b: string) {
    if |b| == 0 then false
    else if |a| == 0 then true
    else if a[0] != b[0] then a[0] < b[0]
    else Less(a[1..], b[1..])
  }

  /** Up to some point the names are one; there a ends and b does not, or a's character is the lower. */
  ghost predicate PartAt(a: string, b: string, k: nat) {
    k <= |a| && k < |b| && a[..k] == b[..k] && (k == |a| || a[k] < b[k])
  }

  lemma {:induction false} LessIff(a: string, b: string)
    ensures Less(a, b) <==> exists k: nat :: PartAt(a, b, k)
  {
    if |a| > 0 && |b| > 0 && a[0] == b[0] {
      var x, y := a[1..], b[1..];
      LessIff(x, y);
      if Less(x, y) {
        var k: nat :| PartAt(x, y, k);
        assert a[..k + 1] == [a[0]] + x[..k] && b[..k + 1] == [b[0]] + y[..k];
        assert PartAt(a, b, k + 1);
      }
      if k: nat :| PartAt(a, b, k) {
        assert x[..k - 1] == a[..k][1..] && y[..k - 1] == b[..k][1..];
        assert PartAt(x, y, k - 1);
      }
    } else if Less(a, b) {
      assert PartAt(a, b, 0);
    } else if |a| > 0 && |b| > 0 {
      forall k: nat
        ensures !PartAt(a, b, k)
      {
        assert k > 0 && k <= |a| && k < |b| ==> a[..k][0] == a[0] && b[..k][0] == b[0];
      }
    }
  }

  lemma {:induction false} LessIsStrict(a: string, b: string)
    ensures !(Less(a, b) && Less(b, a))
  {
    if |a| > 0 && |b| > 0 {
      LessIsStrict(a[1..], b[1..]);
    }
  }

  lemma {:induction false} LessTransitive(a: string, b: string, c: string)
    requires Less(a, b) && Less(b, c)
    ensures Less(a, c)
  {
    if |a| > 0 && a[0] == b[0] == c[0] {
      LessTransitive(a[1..], b[1..], c[1..]);
    }
  }

  lemma {:induction false} LessTotal(a: string, b: string)
    ensures a == b || Less(a, b) || Less(b, a)
  {
    if |a| > 0 && |b| > 0 && a[0] == b[0] {
      LessTotal(a[1..], b[1..]);
      assert a == [a[0]] + a[1..] && b == [b[0]] + b[1..];
    }
  }

  predicate Sorted(names: seq<string>) {
    forall i, j :: 0 <= i < j < |names| ==> Less(names[i], names[j])
  }

  /** A name put where it belongs. */
  function Insert(name: string, names: seq<string>): (r: seq<string>)
    requires Sorted(names) && name !in names
    ensures Sorted(r) && forall x :: x in r <==> x == name || x in names
  {
    if |names| == 0 then [name]
    else if Less(name, names[0]) then
      InsertFirst(name, names);
      [name] + names
    else
      LessTotal(name, names[0]);
      var rest := Insert(name, names[1..]);
      InsertLater(names[0], names[1..], name, rest);
      [names[0]] + rest
  }

  lemma InsertFirst(name: string, names: seq<string>)
    requires Sorted(names) && |names| > 0 && Less(name, names[0])
    ensures Sorted([name] + names)
  {
    forall j | 0 < j < |names|
      ensures Less(name, names[j])
    {
      LessTransitive(name, names[0], names[j]);
    }
  }

  lemma InsertLater(first: string, rest: seq<string>, name: string, r: seq<string>)
    requires Sorted([first] + rest) && Sorted(r) && Less(first, name)
    requires forall x :: x in r <==> x == name || x in rest
    ensures Sorted([first] + r)
  {
    forall j | 0 <= j < |r|
      ensures Less(first, r[j])
    {
      assert r[j] in r;
      if r[j] != name {
        var k :| 0 <= k < |rest| && rest[k] == r[j];
        assert Less(([first] + rest)[0], ([first] + rest)[k + 1]);
      }
    }
  }

  /** Strictly sorted with the same members is the same sequence. */
  lemma {:induction false} SortedOnce(a: seq<string>, b: seq<string>)
    requires Sorted(a) && Sorted(b) && forall x :: x in a <==> x in b
    ensures a == b
  {
    assert |a| > 0 ==> a[0] in b;
    assert |b| > 0 ==> b[0] in a;
    if |a| > 0 {
      FirstIsLeast(a, b[0]);
      FirstIsLeast(b, a[0]);
      LessIsStrict(a[0], b[0]);
      RestMembers(a);
      RestMembers(b);
      SortedOnce(a[1..], b[1..]);
    }
  }

  lemma FirstIsLeast(a: seq<string>, x: string)
    requires Sorted(a) && x in a
    ensures a[0] == x || Less(a[0], x)
  {
  }

  lemma RestMembers(a: seq<string>)
    requires Sorted(a) && |a| > 0
    ensures forall x :: x in a[1..] <==> x in a && x != a[0]
  {
    forall i | 0 < i < |a|
      ensures a[i] != a[0]
    {
      LessIsStrict(a[0], a[i]);
    }
  }

  /** The members of a set, sorted. */
  ghost function InOrder(names: set<string>): (r: seq<string>)
    ensures Sorted(r) && forall x :: x in r <==> x in names
  {
    if names == {} then []
    else
      var name :| name in names;
      Insert(name, InOrder(names - {name}))
  }

  /** A map's keys pulled out in whatever order they come, then sorted. */
  method SortedKeys(names: set<string>) returns (r: seq<string>)
    ensures r == InOrder(names)
  {
    r := [];
    var left := names;
    while left != {}
      invariant left <= names
      invariant Sorted(r) && forall x :: x in r <==> x in names && x !in left
      decreases |left|
    {
      var name :| name in left;
      r := Insert(name, r);
      left := left - {name};
    }
    SortedOnce(r, InOrder(names));
  }
}
