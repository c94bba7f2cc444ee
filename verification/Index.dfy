/** The sparse index (broker/log/index.go): a derived file of eight-byte entries. */
module SparseIndex {
  import opened Options
  import opened Bytes

  const ENTRY_SIZE := 8
  const INTERVAL := 0x1000
  const MAX_INDEXABLE := U32

  datatype Entry = Entry(rel: nat, position: nat)

  function EncodeEntry(e: Entry): (s: seq<byte>)
    ensures |s| == ENTRY_SIZE
  {
    BE32(e.rel) + BE32(e.position)
  }

  /** Relative offset, then position, each most significant byte first. */
  lemma EntryLayout(e: Entry)
    ensures var rel, at := e.rel, e.position;
            EncodeEntry(e) == [rel / 0x100_0000 % 256, rel / 0x1_0000 % 256, rel / 0x100 % 256, rel % 256,
                               at / 0x100_0000 % 256, at / 0x1_0000 % 256, at / 0x100 % 256, at % 256]
  {
    hide BE32;
    BigEndian32(e.rel);
    BigEndian32(e.position);
  }

  function EntryAt(raw: seq<byte>, i: nat): (e: Entry)
    requires ENTRY_SIZE * i + ENTRY_SIZE <= |raw|
    ensures e.rel < U32 && e.position < U32
  {
    var at := ENTRY_SIZE * i;
    Entry(FromBE32(raw[at..at + 4]), FromBE32(raw[at + 4..at + 8]))
  }

  /** The whole entries of an index file; a trailing partial entry is ignored. */
  function DecodeEntries(raw: seq<byte>): (es: seq<Entry>)
    ensures |es| == |raw| / ENTRY_SIZE
  {
    seq(|raw| / ENTRY_SIZE, i requires 0 <= i < |raw| / ENTRY_SIZE => EntryAt(raw, i))
  }

  /** The entries before the first one at or beyond `position`. */
  function Before(es: seq<Entry>, position: nat): (r: seq<Entry>)
    ensures r <= es
    ensures forall i :: 0 <= i < |r| ==> r[i].position < position
    ensures |r| < |es| ==> es[|r|].position >= position
  {
    if es == [] || es[0].position >= position then []
    else [es[0]] + Before(es[1..], position)
  }

  lemma BeforeIs(es: seq<Entry>, k: nat, position: nat)
    requires k <= |es| && forall i :: 0 <= i < k ==> es[i].position < position
    requires k < |es| ==> es[k].position >= position
    ensures Before(es, position) == es[..k]
  {
    hide Before;
    assert |Before(es, position)| == k;
  }

  /** Writing an entry after the whole ones overwrites any partial one and is read back. */
  lemma DecodeAppended(raw: seq<byte>, e: Entry)
    requires e.rel < U32 && e.position < U32
    ensures var at := |DecodeEntries(raw)| * ENTRY_SIZE;
            DecodeEntries(WriteAt(raw, EncodeEntry(e), at)) == DecodeEntries(raw) + [e]
  {
    var k := |raw| / ENTRY_SIZE;
    var at := k * ENTRY_SIZE;
    var r := WriteAt(raw, EncodeEntry(e), at);
    assert r == raw[..at] + EncodeEntry(e);
    assert |r| / ENTRY_SIZE == k + 1;
    forall i | 0 <= i < k
      ensures EntryAt(r, i) == EntryAt(raw, i)
    {
      var b := ENTRY_SIZE * i;
      assert r[b..b + 4] == raw[b..b + 4] && r[b + 4..b + 8] == raw[b + 4..b + 8];
    }
    assert r[at..at + 4] == BE32(e.rel) && r[at + 4..at + 8] == BE32(e.position);
    RoundTrip32(e.rel);
    RoundTrip32(e.position);
  }

  /** Part of an entry after the whole ones is read back as nothing. */
  lemma DecodeTorn(raw: seq<byte>, part: seq<byte>)
    requires |part| < ENTRY_SIZE
    ensures DecodeEntries(WriteAt(raw, part, |DecodeEntries(raw)| * ENTRY_SIZE)) == DecodeEntries(raw)
  {
    var at := |raw| / ENTRY_SIZE * ENTRY_SIZE;
    var r := WriteAt(raw, part, at);
    assert |r| / ENTRY_SIZE == |raw| / ENTRY_SIZE;
    forall i | 0 <= i < |raw| / ENTRY_SIZE
      ensures EntryAt(r, i) == EntryAt(raw, i)
    {
      PrefixSlice(raw, at, ENTRY_SIZE * i, ENTRY_SIZE * i + 4);
      PrefixSlice(raw, at, ENTRY_SIZE * i + 4, ENTRY_SIZE * i + 8);
      PrefixSlice(r, at, ENTRY_SIZE * i, ENTRY_SIZE * i + 4);
      PrefixSlice(r, at, ENTRY_SIZE * i + 4, ENTRY_SIZE * i + 8);
    }
  }

  lemma PrefixSlice(raw: seq<byte>, n: nat, i: nat, j: nat)
    requires i <= j <= n <= |raw|
    ensures raw[..n][i..j] == raw[i..j]
  {
  }

  /** A file cut to any length keeps the whole entries before the cut and no others. */
  lemma DecodeCut(raw: seq<byte>, n: nat)
    requires n <= |raw|
    ensures DecodeEntries(raw[..n]) == DecodeEntries(raw)[..n / ENTRY_SIZE]
  {
    forall i | 0 <= i < n / ENTRY_SIZE
      ensures EntryAt(raw[..n], i) == EntryAt(raw, i)
    {
      PrefixSlice(raw, n, ENTRY_SIZE * i, ENTRY_SIZE * i + 4);
      PrefixSlice(raw, n, ENTRY_SIZE * i + 4, ENTRY_SIZE * i + 8);
    }
  }

  ghost predicate Increasing(keys: seq<nat>) {
    forall i, j :: 0 <= i < j < |keys| ==> keys[i] < keys[j]
  }

  /** sort.Search for the first key above `target`. */
  method SearchAbove(keys: seq<nat>, target: nat) returns (i: nat)
    requires Increasing(keys)
    ensures i <= |keys|
    ensures forall k :: 0 <= k < i ==> keys[k] <= target
    ensures forall k :: i <= k < |keys| ==> keys[k] > target
  {
    i := 0;
    var j := |keys|;
    while i < j
      invariant 0 <= i <= j <= |keys|
      invariant forall k :: 0 <= k < i ==> keys[k] <= target
      invariant forall k :: j <= k < |keys| ==> keys[k] > target
    {
      var h := (i + j) / 2;
      if keys[h] > target {
        j := h;
      } else {
        i := h + 1;
      }
    }
  }

  datatype Found = At(entry: Entry) | Nowhere

  class Index {
    var file: seq<byte>
    var entries: seq<Entry>

    /** What is in memory is what the file says. */
    ghost predicate Valid()
      reads this
    {
      entries == DecodeEntries(file)
    }

    /** openIndex on a file with these bytes. */
    constructor (raw: seq<byte>)
      ensures Valid() && file == raw
    {
      file := raw;
      entries := [];
      new;
      var i := 0;
      while i < |raw| / ENTRY_SIZE
        invariant 0 <= i <= |raw| / ENTRY_SIZE
        invariant file == raw && entries == DecodeEntries(raw)[..i]
      {
        entries := entries + [EntryAt(raw, i)];
        i := i + 1;
      }
    }

    /** append; torn says how much of the entry reached the file, when its write fails. */
    method Append(rel: nat, position: nat, torn: Option<nat>) returns (ok: bool)
      requires Valid() && rel < U32 && (torn.Some? ==> torn.value < ENTRY_SIZE)
      modifies this
      ensures Valid()
      ensures ok <==> position < MAX_INDEXABLE && torn.None?
      ensures entries == if ok then old(entries) + [Entry(rel, position)] else old(entries)
    {
      if position >= MAX_INDEXABLE {
        return false;
      }
      if torn.Some? {
        DecodeTorn(file, EncodeEntry(Entry(rel, position))[..torn.value]);
        file := WriteAt(file, EncodeEntry(Entry(rel, position))[..torn.value], |entries| * ENTRY_SIZE);
        return false;
      }
      DecodeAppended(file, Entry(rel, position));
      file := WriteAt(file, EncodeEntry(Entry(rel, position)), |entries| * ENTRY_SIZE);
      entries := entries + [Entry(rel, position)];
      return true;
    }

    /** The closest entry at or before `rel`. */
    method Lookup(rel: nat) returns (r: Found)
      requires Increasing(seq(|entries|, i requires 0 <= i < |entries| reads this => entries[i].rel))
      ensures r.Nowhere? <==> forall i :: 0 <= i < |entries| ==> entries[i].rel > rel
      ensures r.At? ==> r.entry in entries && r.entry.rel <= rel
                        && forall i :: 0 <= i < |entries| && entries[i].rel <= rel ==> entries[i].rel <= r.entry.rel
    {
      var es := entries;
      var keys := seq(|es|, i requires 0 <= i < |es| => es[i].rel);
      assert keys == seq(|entries|, i requires 0 <= i < |entries| reads this => entries[i].rel);
      var i := SearchAbove(keys, rel);
      assert forall k :: 0 <= k < |es| ==> es[k].rel == keys[k];
      if i == 0 {
        return Nowhere;
      }
      return At(es[i - 1]);
    }

    method Last() returns (r: Found)
      ensures r == if entries == [] then Nowhere else At(entries[|entries| - 1])
    {
      if |entries| == 0 {
        return Nowhere;
      }
      return At(entries[|entries| - 1]);
    }

    method TruncateFrom(position: nat)
      requires Valid()
      modifies this
      ensures Valid() && entries == Before(old(entries), position)
    {
      hide Before, DecodeEntries;
      var kept := 0;
      while kept < |entries| && entries[kept].position < position
        invariant 0 <= kept <= |entries|
        invariant forall i :: 0 <= i < kept ==> entries[i].position < position
      {
        kept := kept + 1;
      }
      BeforeIs(entries, kept, position);
      entries := entries[..kept];
      DecodeCut(file, kept * ENTRY_SIZE);
      file := file[..kept * ENTRY_SIZE];
    }

    method Reset()
      modifies this
      ensures Valid() && entries == []
    {
      entries := [];
      file := [];
    }
  }
}
