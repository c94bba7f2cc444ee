/** The whole log (broker/log/log.go): rolling segments that behave as one sequence. */
module Logs {
  import opened Bytes
  import opened Record
  import opened SparseIndex
  import opened Scan
  import opened SegmentFiles
  import opened LogShape

  class Log {
    const maxSegmentBytes: nat
    var segments: seq<SegmentFile>

    ghost function Footprint(): set<object>
      reads this, segments
    {
      (set s | s in segments :: s as object) + (set s | s in segments :: s.index as object)
    }

    ghost function Parts(): seq<seq<Payload>>
      reads this, segments
    {
      seq(|segments|, i requires 0 <= i < |segments| reads this, segments => segments[i].recs)
    }

    ghost function Bases(): seq<nat>
      reads this, segments
    {
      seq(|segments|, i requires 0 <= i < |segments| reads this, segments => segments[i].base)
    }

    /** The sequence of records the log stands for. */
    ghost function Contents(): seq<Payload>
      reads this, segments
    {
      Flat(Parts())
    }

    ghost predicate Separate()
      reads this, segments
    {
      forall i, j :: 0 <= i < j < |segments| ==>
        segments[i] != segments[j] && segments[i].index != segments[j].index
    }

    ghost predicate Valid()
      reads this, segments, Footprint()
      ensures Valid() ==> |segments| > 0
    {
      && |segments| > 0
      && Separate()
      && (forall i :: 0 <= i < |segments| ==> segments[i].Valid())
      && (forall i :: 0 <= i < |segments| ==> segments[i].size <= maxSegmentBytes || |segments[i].recs| <= 1)
      && Contiguous(Bases(), Parts())
    }

    /** Open on a directory that holds no segments yet. */
    constructor (maxSegmentBytes: nat)
      ensures Valid() && Contents() == []
      ensures |segments| == 1 && fresh(segments[0]) && fresh(segments[0].index)
      ensures this.maxSegmentBytes == maxSegmentBytes
    {
      this.maxSegmentBytes := maxSegmentBytes;
      var first := new SegmentFile.Create(0);
      this.segments := [first];
      new;
      hide *;
      FirstSegment();
    }

    lemma FirstSegment()
      requires |segments| == 1 && segments[0].Valid() && segments[0].recs == [] && segments[0].base == 0
      ensures Valid() && Contents() == []
    {
      hide SegmentFile.Valid, SegmentFile.View, Flat, Contiguous;
      OneEmpty();
      assert Parts() == [[]] && Bases() == [0];
    }

    lemma ActiveFacts()
      requires Valid()
      ensures segments[|segments| - 1].next == |Contents()|
      ensures Parts()[|segments| - 1] == segments[|segments| - 1].recs
    {
      hide SegmentFile.Valid, Flat;
      var n := |segments| - 1;
      segments[n].Bounds();
      FlatStep(Parts(), n);
      assert Parts()[..n + 1] == Parts();
    }

    /** NextOffset. */
    method NextOffset() returns (n: nat)
      requires Valid()
      ensures n == |Contents()|
    {
      ActiveFacts();
      return segments[|segments| - 1].next;
    }

    /** The active segment holds a record, and this one would take it past its size. */
    ghost predicate Full(payload: Payload)
      requires |segments| > 0
      reads this, segments
    {
      var active := segments[|segments| - 1];
      active.recs != [] && active.size + RECORD_HEADER + |payload| > maxSegmentBytes
    }

    /** The first half of Append: start a fresh segment when this record would not fit. */
    method RollIfFull(payload: Payload)
      requires Valid()
      modifies this`segments
      ensures Valid() && Contents() == old(Contents())
      ensures !Full(payload)
      ensures segments != old(segments) <==> old(Full(payload))
      ensures segments != old(segments) ==>
                && segments == old(segments) + [segments[|segments| - 1]]
                && fresh(segments[|segments| - 1]) && fresh(segments[|segments| - 1].index)
    {
      hide SegmentFile.Valid, SegmentFile.View, Flat, Contiguous;
      var active := segments[|segments| - 1];
      ActiveFacts();
      active.Bounds();
      if active.next > active.base && active.size + RECORD_HEADER + |payload| > maxSegmentBytes {
        AddEmpty(Bases(), Parts());
        var newest := new SegmentFile.Create(active.next);
        segments := segments + [newest];
        assert Parts() == old(Parts()) + [[]];
        assert Bases() == old(Bases()) + [|old(Contents())|];
      }
    }

    /** The second half: the record goes at the end of the active segment. */
    method AppendActive(payload: Payload, fault: Fault) returns (r: AppendResult)
      requires Valid() && (fault.IndexWrite? ==> fault.n < ENTRY_SIZE) && !Full(payload)
      modifies segments[|segments| - 1], segments[|segments| - 1].index
      ensures Valid() && segments[|segments| - 1].index == old(segments[|segments| - 1].index)
      ensures r.Appended? ==> r.offset == |old(Contents())|
      ensures Contents() == if r.Appended? then old(Contents()) + [payload] else old(Contents())
      ensures r.RecordTooLarge? <==> |payload| > MAX_RECORD
      ensures r.IndexFull? ==> maxSegmentBytes > U32
      ensures r.WriteFailed? ==> !fault.NoFault?
    {
      hide SegmentFile.Valid, SegmentFile.View, Flat, Scan.Append, Contiguous, FailedAppend, Reached, Parts, Bases;
      var n := |segments| - 1;
      var active := segments[n];
      ActiveFacts();
      active.Bounds();
      ghost var parts, bases := Parts(), Bases();
      r := active.Append(payload, fault);
      OthersStay();
      var more := if r.Appended? then [payload] else [];
      GrowLast(bases, parts, more);
      ActiveGrew(more);
    }

    /** What happens to the active segment happens to no other. */
    twostate lemma OthersStay()
      requires old(Valid()) && segments == old(segments)
      requires var active := segments[|segments| - 1];
               && active.index == old(active.index)
               && forall i :: 0 <= i < |segments| - 1 ==>
                    segments[i] != active && old(segments[i].index) != old(active.index) ==> unchanged(segments[i], old(segments[i].index))
      ensures Separate()
      ensures forall i :: 0 <= i < |segments| - 1 ==>
                && unchanged(segments[i]) && segments[i].Valid()
                && (segments[i].size <= maxSegmentBytes || |segments[i].recs| <= 1)
    {
      hide SegmentFile.Valid, SegmentFile.View, Flat, Contiguous;
      forall i | 0 <= i < |segments| - 1
        ensures unchanged(segments[i], old(segments[i].index)) && segments[i].Valid()
      {
        assert old(segments[i].Valid());
      }
    }

    /** Records added to the active segment, every other left alone. */
    twostate lemma ActiveGrew(more: seq<Payload>)
      requires |segments| > 0 && segments == old(segments)
      requires forall i :: 0 <= i < |segments| - 1 ==> unchanged(segments[i])
      requires var active := segments[|segments| - 1];
               active.recs == old(active.recs) + more && active.base == old(active.base)
      ensures Bases() == old(Bases()) && |Parts()| == |segments| == |old(Parts())|
      ensures var n := |segments| - 1;
              Parts() == old(Parts())[n := old(Parts())[n] + more]
    {
      var n := |segments| - 1;
      forall i | 0 <= i < n
        ensures segments[i].recs == old(segments[i].recs) && segments[i].base == old(segments[i].base)
      {
        assert unchanged(segments[i]);
      }
    }

    /**
     * Append: the log grows by exactly this record at the offset returned. A
     * refused record leaves the sequence alone, even when it caused a roll.
     */
    method Append(payload: Payload, fault: Fault) returns (r: AppendResult)
      requires Valid() && (fault.IndexWrite? ==> fault.n < ENTRY_SIZE)
      modifies this`segments, segments[|segments| - 1], segments[|segments| - 1].index
      ensures Valid()
      ensures segments != old(segments) <==> old(Full(payload))
      ensures segments != old(segments) ==>
                && segments == old(segments) + [segments[|segments| - 1]]
                && fresh(segments[|segments| - 1]) && fresh(segments[|segments| - 1].index)
      ensures r.Appended? ==> r.offset == |old(Contents())|
      ensures Contents() == if r.Appended? then old(Contents()) + [payload] else old(Contents())
      ensures r.RecordTooLarge? <==> |payload| > MAX_RECORD
      ensures r.IndexFull? ==> maxSegmentBytes > U32
      ensures r.WriteFailed? ==> !fault.NoFault?
    {
      hide *;
      RollIfFull(payload);
      r := AppendActive(payload, fault);
    }

    /** Read: binary search for the segment, then read inside it. */
    method Read(offset: nat) returns (r: ReadOutcome)
      requires Valid()
      ensures r == if offset < |Contents()| then ReadOutcome.Read(Contents()[offset]) else OutOfRange
    {
      hide SegmentFile.Valid, SegmentFile.View, Flat, Contiguous, Separate;
      var keys := [];
      for k := 0 to |segments|
        invariant keys == Bases()[..k]
      {
        keys := keys + [segments[k].base];
      }
      assert keys == Bases();
      BasesIncrease(Bases(), Parts());
      var i := SearchAbove(keys, offset);
      BaseZero(Bases(), Parts());
      if i == 0 {
        return OutOfRange;
      }
      Locate(Bases(), Parts(), i - 1, offset);
      segments[i - 1].Bounds();
      ghost var skipped: nat;
      r, skipped := segments[i - 1].Read(offset);
    }
  }

  lemma OneEmpty()
    ensures Contiguous([0], [[]]) && Flat([[]]) == []
  {
    var none: seq<seq<Payload>> := [];
    FlatSnoc(none, []);
    assert none + [[]] == [[]];
  }

  lemma BaseZero(bases: seq<nat>, parts: seq<seq<Payload>>)
    requires Contiguous(bases, parts)
    ensures bases[0] == 0
  {
    assert parts[..0] == [];
  }
}
