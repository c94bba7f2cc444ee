/** How consecutive segments make one sequence of records. */
module LogShape {
  import opened Record
  import opened SparseIndex

  /** The records of consecutive segments, in order. */
  ghost function Flat(parts: seq<seq<Payload>>): seq<Payload> {
    if parts == [] then [] else Flat(parts[..|parts| - 1]) + parts[|parts| - 1]
  }

  /** Each segment starts where the one before it ends, and only the last may be empty. */
  ghost predicate Contiguous(bases: seq<nat>, parts: seq<seq<Payload>>) {
    && |bases| == |parts| > 0
    && (forall i :: 0 <= i < |parts| ==> bases[i] == |Flat(parts[..i])|)
    && (forall i :: 0 <= i < |parts| - 1 ==> parts[i] != [])
  }

  lemma FlatSnoc(parts: seq<seq<Payload>>, last: seq<Payload>)
    ensures Flat(parts + [last]) == Flat(parts) + last
  {
    assert (parts + [last])[..|parts|] == parts;
  }

  lemma FlatStep(parts: seq<seq<Payload>>, i: nat)
    requires i < |parts|
    ensures Flat(parts[..i + 1]) == Flat(parts[..i]) + parts[i]
  {
    assert parts[..i + 1] == parts[..i] + [parts[i]];
    FlatSnoc(parts[..i], parts[i]);
  }

  lemma {:induction false} FlatPrefix(parts: seq<seq<Payload>>, i: nat, j: nat)
    requires i <= j <= |parts|
    ensures Flat(parts[..i]) <= Flat(parts[..j])
    decreases j
  {
    if i < j {
      FlatPrefix(parts, i, j - 1);
      FlatStep(parts, j - 1);
    }
  }

  lemma BasesIncrease(bases: seq<nat>, parts: seq<seq<Payload>>)
    requires Contiguous(bases, parts)
    ensures Increasing(bases)
  {
    forall i, j | 0 <= i < j < |bases|
      ensures bases[i] < bases[j]
    {
      FlatStep(parts, i);
      FlatPrefix(parts, i + 1, j);
    }
  }

  /** The last segment based at or below an offset is the one that holds it, if any does. */
  lemma Locate(bases: seq<nat>, parts: seq<seq<Payload>>, i: nat, offset: nat)
    requires Contiguous(bases, parts) && i < |parts| && bases[i] <= offset
    requires i + 1 < |parts| ==> offset < bases[i + 1]
    ensures offset < bases[i] + |parts[i]| <==> offset < |Flat(parts)|
    ensures offset < |Flat(parts)| ==> Flat(parts)[offset] == parts[i][offset - bases[i]]
  {
    FlatStep(parts, i);
    FlatPrefix(parts, i + 1, |parts|);
    assert parts[..|parts|] == parts;
  }

  /** Growing the last segment grows the log at its end. */
  lemma GrowLast(bases: seq<nat>, parts: seq<seq<Payload>>, more: seq<Payload>)
    requires Contiguous(bases, parts)
    ensures var grown := parts[|parts| - 1 := parts[|parts| - 1] + more];
            Contiguous(bases, grown) && Flat(grown) == Flat(parts) + more
  {
    var n := |parts| - 1;
    var grown := parts[n := parts[n] + more];
    assert grown[..n] == parts[..n];
    forall i | 0 <= i < |parts|
      ensures grown[..i] == parts[..i]
    {
    }
  }

  /** A new segment at the end of the log leaves what is in it unchanged. */
  lemma AddEmpty(bases: seq<nat>, parts: seq<seq<Payload>>)
    requires Contiguous(bases, parts) && parts[|parts| - 1] != []
    ensures Contiguous(bases + [|Flat(parts)|], parts + [[]]) && Flat(parts + [[]]) == Flat(parts)
  {
    var longer := parts + [[]];
    FlatSnoc(parts, []);
    forall i | 0 <= i < |longer|
      ensures longer[..i] == if i < |parts| then parts[..i] else parts
    {
    }
  }

  /** Another last segment: the log up to its base is as it was. */
  lemma ReplaceLast(bases: seq<nat>, parts: seq<seq<Payload>>, last: seq<Payload>)
    requires Contiguous(bases, parts)
    ensures var n := |parts| - 1;
            var other := parts[n := last];
            && Contiguous(bases, other) && |Flat(parts[..n])| == bases[n]
            && Flat(parts) == Flat(parts[..n]) + parts[n] && Flat(other) == Flat(parts[..n]) + last
  {
    var n := |parts| - 1;
    var other := parts[n := last];
    FlatStep(parts, n);
    FlatStep(other, n);
    assert parts[..n + 1] == parts && other[..n + 1] == other;
    forall i | 0 <= i < |parts|
      ensures other[..i] == parts[..i]
    {
    }
  }
}
