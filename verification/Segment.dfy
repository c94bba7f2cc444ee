/** One segment file with its index, updated in place (broker/log/segment.go). */
module SegmentFiles {
  import opened Bytes
  import opened Record
  import opened RecordRun
  import opened SparseIndex
  import opened Options
  import opened Scan
  import opened ReadBound

  datatype OpenResult = Opened(segment: SegmentFile) | ShortHeader | BadMagic | BadVersion | Unrecoverable

  datatype ReadOutcome = Read(payload: Payload) | OutOfRange | Damaged

  /** skipRecord: the size of the record at the front of `f`, its payload unread. */
  function SkipRecord(f: seq<byte>): (r: Option<nat>) {
    if |f| < RECORD_HEADER then None
    else
      var length := FromBE32(f[..4]);
      if length > MAX_RECORD || |f| - RECORD_HEADER < length then None
      else Some(RECORD_HEADER + length)
  }

  lemma SkipMatchesRead(f: seq<byte>)
    requires ReadRecord(f).Whole?
    ensures SkipRecord(f) == Some(ReadRecord(f).n)
  {
  }

  /** What the disk does to an append: nothing, or a write of the record or of its entry that fails part way. */
  datatype Fault = NoFault | RecordWrite(n: nat) | IndexWrite(n: nat)

  /** How much of the record is in the file once the append has failed. */
  function Reached(fault: Fault, payload: Payload): (n: nat)
    ensures n <= |Frame(payload)|
  {
    if fault.RecordWrite? && fault.n < |Frame(payload)| then fault.n else |Frame(payload)|
  }

  class SegmentFile {
    var file: seq<byte>
    var index: Index
    var base: nat
    var next: nat
    var size: nat
    var lastIndexed: nat

    /** The records held. */
    ghost var recs: seq<Payload>

    ghost function View(): Segment
      reads this, index
    {
      Segment(file, index.entries, base, next, size, lastIndexed)
    }

    ghost predicate Valid()
      reads this, index
    {
      index.Valid() && Holds(View(), recs)
    }

    lemma Bounds()
      requires Valid()
      ensures size <= |file| && next == base + |recs|
      ensures recs == [] ==> size == SEGMENT_HEADER
    {
      HoldsBounds(View(), recs);
    }

    /** createSegment. */
    constructor Create(base: nat)
      ensures Valid() && fresh(index)
      ensures View() == Created(base) && recs == []
      ensures this.base == base && size == SEGMENT_HEADER
    {
      this.file := SegmentHeader(base);
      var ix := new Index([]);
      this.index := ix;
      this.base := base;
      this.next := base;
      this.size := SEGMENT_HEADER;
      this.lastIndexed := SEGMENT_HEADER;
      this.recs := [];
      CreatedHolds(base);
    }

    /** The state openSegment builds before it recovers. */
    constructor Unscanned(file: seq<byte>, rawIndex: seq<byte>, base: nat)
      ensures index.Valid() && fresh(index) && index.entries == DecodeEntries(rawIndex)
      ensures this.file == file && this.base == base
      ensures this.recs == []
    {
      this.file := file;
      var ix := new Index(rawIndex);
      this.index := ix;
      this.base := base;
      this.next := base;
      this.size := SEGMENT_HEADER;
      this.lastIndexed := SEGMENT_HEADER;
      this.recs := [];
    }

    /** maybeIndex. */
    method MaybeIndex(rel: nat, position: nat, torn: Option<nat>) returns (ok: bool)
      requires index.Valid() && rel < U32 && (torn.Some? ==> torn.value < ENTRY_SIZE)
      modifies this`lastIndexed, index
      ensures index.Valid()
      ensures !ok ==> index.entries == old(index.entries) && lastIndexed == old(lastIndexed)
      ensures match Scan.MaybeIndex(Position(old(index.entries), old(lastIndexed)), rel, position)
              case None => !ok && position >= MAX_INDEXABLE
              case Some(ix) =>
                if ok then index.entries == ix.entries && lastIndexed == ix.lastIndexed
                else torn.Some? && position < MAX_INDEXABLE
    {
      if |index.entries| > 0 && position - lastIndexed < INTERVAL {
        return true;
      }
      ok := index.Append(rel, position, torn);
      if ok {
        lastIndexed := position;
      }
    }

    /** Where recover starts scanning: at the last entry, if it points inside the file. */
    method StartAt() returns (position: nat, rel: nat)
      requires index.Valid() && |file| >= SEGMENT_HEADER
      modifies this`lastIndexed, index
      ensures index.Valid() && rel < U32 && position <= |file|
      ensures Cursor(position, rel, Position(index.entries, lastIndexed)) == Resume(file, old(index.entries))
    {
      hide DecodeEntries;
      position, rel := SEGMENT_HEADER, 0;
      var last := index.Last();
      if last.At? {
        if SEGMENT_HEADER <= last.entry.position < |file| {
          position, rel := last.entry.position, last.entry.rel;
          EntriesNarrow(index);
        } else {
          index.Reset();
        }
      }
      lastIndexed := position;
    }

    /** recover, proved against the scan it is specified by. */
    method Recover() returns (ok: bool)
      requires index.Valid() && |file| >= SEGMENT_HEADER
      modifies this`file, this`size, this`next, this`lastIndexed, index
      ensures index.Valid()
      ensures match Scan.Recover(base, old(file), old(index.entries))
              case None => !ok
              case Some(s) => ok && View() == s
    {
      hide ReadRecord, Before, Scan.MaybeIndex, DecodeEntries, Resume;
      ghost var start := Resume(file, index.entries);
      var position: nat, rel: nat := StartAt();

      while true
        invariant index.Valid() && rel < U32
        invariant file == old(file) && position <= |file|
        invariant ScanFrom(file, Cursor(position, rel, Position(index.entries, lastIndexed))) == ScanFrom(file, start)
        decreases |file| - position
      {
        var record := ReadRecord(file[position..]);
        if !record.Whole? {
          EofMeansEnd(file[position..]);
          if position < |file| {
            file := file[..position];
            index.TruncateFrom(position);
          }
          break;
        }
        WholeIsFrame(file[position..]);
        var indexed := MaybeIndex(rel, position, None);
        if !indexed {
          return false;
        }
        position := position + record.n;
        rel := (rel + 1) % U32;
      }

      size := position;
      next := base + rel;
      return true;
    }

    /** openSegment: refuse a foreign file, then recover. */
    static method Open(raw: seq<byte>, rawIndex: seq<byte>) returns (r: OpenResult)
      ensures r.ShortHeader? <==> |raw| < SEGMENT_HEADER
      ensures r.Opened? ==>
                && fresh(r.segment) && fresh(r.segment.index)
                && raw[..SEGMENT_HEADER] == SegmentHeader(r.segment.base)
                && Scan.Recover(r.segment.base, raw, DecodeEntries(rawIndex)) == Some(r.segment.View())
      ensures r.Opened? && Survivor(DecodeEntries(rawIndex), raw) ==>
                r.segment.Valid() && r.segment.recs == FullScan(raw)
      ensures forall base: nat :: base < U64 && |raw| >= SEGMENT_HEADER && raw[..SEGMENT_HEADER] == SegmentHeader(base) ==>
                if Scan.Recover(base, raw, DecodeEntries(rawIndex)).Some? then r.Opened? && r.segment.base == base
                else r.Unrecoverable?
    {
      hide Scan.Recover, Survivor, Holds, DecodeEntries, FullScan;
      if |raw| < SEGMENT_HEADER {
        return ShortHeader;
      }
      HeaderFields(raw);
      if FromBE32(raw[..4]) != SEGMENT_MAGIC {
        return BadMagic;
      }
      if FromBE32(raw[4..8]) != SEGMENT_VERSION {
        return BadVersion;
      }
      var s := new SegmentFile.Unscanned(raw, rawIndex, FromBE64(raw[8..16]));
      var ok := s.Recover();
      if !ok {
        return Unrecoverable;
      }
      s.recs := FullScan(raw);
      if Survivor(DecodeEntries(rawIndex), raw) {
        RecoverRefinesFullScan(s.base, raw, DecodeEntries(rawIndex));
      }
      return Opened(s);
    }

    /** append. A write that fails leaves bytes nobody claims and every record as it was. */
    method Append(payload: Payload, fault: Fault) returns (r: AppendResult)
      requires Valid() && (fault.IndexWrite? ==> fault.n < ENTRY_SIZE)
      modifies this, index
      ensures Valid() && index == old(index)
      ensures if r.WriteFailed? then !fault.NoFault? && View() == FailedAppend(old(View()), payload, Reached(fault, payload))
              else (View(), r) == Scan.Append(old(View()), payload)
      ensures recs == if r.Appended? then old(recs) + [payload] else old(recs)
      ensures base == old(base)
      ensures size == if r.Appended? then old(size) + RECORD_HEADER + |payload| else old(size)
      ensures r.RecordTooLarge? <==> |payload| > MAX_RECORD
      ensures fault.RecordWrite? ==> r.RecordTooLarge? || r.WriteFailed?
      ensures r.Appended? ==> r.offset == old(next)
      ensures r.IndexFull? ==> size >= U32
    {
      hide Frame, Holds, Scan.MaybeIndex;
      AppendHolds(View(), recs, payload);
      HoldsBounds(View(), recs);
      FailedAppendHolds(View(), recs, payload, Reached(fault, payload));
      var encoded := EncodeRecord(payload);
      if encoded.TooLarge? {
        return RecordTooLarge;
      }
      var frame := encoded.buf[..];
      if fault.RecordWrite? {
        file := WriteAt(file, frame[..Reached(fault, payload)], size);
        return WriteFailed;
      }
      file := WriteAt(file, frame, size);
      var rel := (next - base) % U32;
      var ok := MaybeIndex(rel, size, if fault.IndexWrite? then Some(fault.n) else None);
      if !ok {
        assert frame[..|frame|] == frame;
        return if size >= MAX_INDEXABLE then IndexFull else WriteFailed;
      }
      var offset := next;
      size := size + |frame|;
      next := next + 1;
      recs := recs + [payload];
      return Appended(offset);
    }

    /** The nearest index entry at or before a record, and where it points. */
    method Seek(target: nat) returns (position: nat, rel: nat)
      requires Valid() && target < |recs|
      ensures rel <= target && position == Pos(recs, rel) == Anchor(index.entries, target)
    {
      hide Pos, Holds, Anchor;
      position, rel := SEGMENT_HEADER, 0;
      PosZero(recs);
      HoldsIndex(index, View(), recs);
      var found := index.Lookup(target);
      if found.At? {
        position, rel := found.entry.position, found.entry.rel;
        AnchorFound(index.entries, target, found.entry);
      } else {
        AnchorNone(index.entries, target);
      }
    }

    /** read: from the nearest index entry, skip forward to the record and check it. */
    method Read(offset: nat) returns (r: ReadOutcome, ghost skipped: nat)
      requires Valid()
      ensures r == if base <= offset < next then ReadOutcome.Read(recs[offset - base]) else OutOfRange
      ensures base <= offset < next && offset - base < |recs| ==>
                Anchor(index.entries, offset - base) + skipped == Pos(recs, offset - base)
    {
      hide Frame, ReadRecord, Pos, SkipRecord, Holds, Anchor;
      HoldsBounds(View(), recs);
      if offset < base || offset >= next {
        return OutOfRange, 0;
      }
      RelativeOffsetsFit(View(), recs);
      var target := (offset - base) % U32;
      var position: nat, rel: nat := Seek(target);
      skipped := 0;
      while rel < target
        invariant rel <= target < |recs| && position == Pos(recs, rel)
        invariant position == Anchor(index.entries, target) + skipped
      {
        ReadInFile(View(), recs, rel);
        var length := SkipRecord(file[position..size]);
        if length.None? {
          r := Damaged;
          return;
        }
        position := position + length.value;
        skipped := skipped + length.value;
        rel := rel + 1;
      }
      ReadInFile(View(), recs, rel);
      var record := ReadRecord(file[position..size]);
      r := if record.Whole? then ReadOutcome.Read(record.payload) else Damaged;
    }
  }

  lemma EofMeansEnd(f: seq<byte>)
    ensures ReadRecord(f).Eof? <==> f == []
  {
  }

  lemma EntriesNarrow(ix: Index)
    requires ix.Valid()
    ensures forall i :: 0 <= i < |ix.entries| ==> ix.entries[i].rel < U32 && ix.entries[i].position < U32
  {
    forall i | 0 <= i < |ix.entries|
      ensures ix.entries[i].rel < U32 && ix.entries[i].position < U32
    {
      assert ix.entries[i] == EntryAt(ix.file, i);
    }
  }

  lemma HoldsIndex(ix: Index, s: Segment, recs: seq<Payload>)
    requires Holds(s, recs) && s.entries == ix.entries
    ensures Increasing(seq(|ix.entries|, i requires 0 <= i < |ix.entries| reads ix => ix.entries[i].rel))
    ensures forall e :: e in ix.entries ==> e.rel < |recs| && e.position == Pos(recs, e.rel)
    ensures Sparse(ix.entries)
  {
    hide Pos, Frames;
  }

  /** The header's fields are right exactly when its bytes are. */
  lemma HeaderFields(raw: seq<byte>)
    requires |raw| >= SEGMENT_HEADER
    ensures FromBE32(raw[..4]) == SEGMENT_MAGIC && FromBE32(raw[4..8]) == SEGMENT_VERSION ==>
              raw[..SEGMENT_HEADER] == SegmentHeader(FromBE64(raw[8..16]))
    ensures forall base: nat :: base < U64 && raw[..SEGMENT_HEADER] == SegmentHeader(base) ==>
              FromBE32(raw[..4]) == SEGMENT_MAGIC && FromBE32(raw[4..8]) == SEGMENT_VERSION && FromBE64(raw[8..16]) == base
  {
    hide BE32, BE64, FromBE32, FromBE64;
    var header := raw[..SEGMENT_HEADER];
    assert header == raw[..4] + raw[4..8] + raw[8..16];
    Onto32(raw[..4]);
    Onto32(raw[4..8]);
    Onto64(raw[8..16]);
    RoundTrip32(SEGMENT_MAGIC);
    RoundTrip32(SEGMENT_VERSION);
    forall base: nat | base < U64 && header == SegmentHeader(base)
      ensures FromBE32(raw[..4]) == SEGMENT_MAGIC && FromBE32(raw[4..8]) == SEGMENT_VERSION && FromBE64(raw[8..16]) == base
    {
      RoundTrip64(base);
      assert raw[..4] == header[..4] == BE32(SEGMENT_MAGIC);
      assert raw[4..8] == header[4..8] == BE32(SEGMENT_VERSION);
      assert raw[8..16] == header[8..] == BE64(base);
    }
  }

  lemma HoldsBounds(s: Segment, recs: seq<Payload>)
    requires Holds(s, recs)
    ensures s.size <= |s.file| && s.next == s.base + |recs|
    ensures recs == [] ==> s.size == SEGMENT_HEADER
  {
    assert s.size == |s.file[..s.size]|;
  }

  /** Within the segment's own bytes, each boundary reads its record. */
  lemma ReadInFile(s: Segment, recs: seq<Payload>, i: nat)
    requires Holds(s, recs) && i < |recs|
    ensures Pos(recs, i) <= s.size
    ensures var f := s.file[Pos(recs, i)..s.size];
            && ReadRecord(f) == Whole(recs[i], RECORD_HEADER + |recs[i]|)
            && SkipRecord(f) == Some(Pos(recs, i + 1) - Pos(recs, i))
  {
    hide ReadRecord, SkipRecord, Pos, SegmentHeader, Frames, IndexTrue;
    PosStep(recs, i);
    ReadInRun(recs, i, SegmentHeader(s.base), []);
    PosEnd(recs);
    PosMonotone(recs, i, |recs|);
    var f := SegmentHeader(s.base) + Frames(recs) + [];
    assert f == s.file[..s.size];
    assert s.file[..s.size][Pos(recs, i)..] == s.file[Pos(recs, i)..s.size];
    SkipMatchesRead(s.file[Pos(recs, i)..s.size]);
  }
}
