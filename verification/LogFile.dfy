/** One segment of the Raft log: a data file, an index file, and what is remembered of them. */
module LogFile {
  import opened Options
  import opened Bytes
  import opened LogEntries

  ghost predicate Consecutive(es: seq<Entry>) {
    forall k :: 0 <= k < |es| ==> es[k].index == es[0].index + k
  }

  function First(es: seq<Entry>): int { if es == [] then 0 else es[0].index }

  function Last(es: seq<Entry>): int { if es == [] then 0 else es[|es| - 1].index }

  predicate Has(es: seq<Entry>, index: int) { es != [] && First(es) <= index <= Last(es) }

  function Min(a: int, b: int): int { if a <= b then a else b }

  // The indices are in a row, as far as the first and the last say.
  predicate LogKnown(es: seq<Entry>) { es != [] ==> Last(es) == First(es) + |es| - 1 }

  // The entries from an index on, at most count of them.
  function Slice(es: seq<Entry>, index: int, count: nat): seq<Entry>
    requires LogKnown(es)
  {
    if !Has(es, index) then []
    else es[index - First(es)..Min(index - First(es) + count, |es|)]
  }

  /** An index is in a segment or a log exactly when an entry has it. */
  lemma HasIff(es: seq<Entry>, index: int)
    requires Consecutive(es)
    ensures Has(es, index) <==> exists k :: 0 <= k < |es| && es[k].index == index
  {
    if Has(es, index) { assert es[index - es[0].index].index == index; }
  }

  /** A slice is all there is from an index on, in a row, up to as many as asked for; nothing when the index is not there. */
  lemma SliceMeans(es: seq<Entry>, index: int, count: nat)
    requires Consecutive(es) && LogKnown(es)
    ensures var got := Slice(es, index, count);
      && (forall k :: 0 <= k < |got| ==> got[k] in es && got[k].index == index + k)
      && |got| <= count
      && (|got| < count ==> forall e :: e in es ==> e.index != index + |got|)
  {
    var got := Slice(es, index, count);
    forall e | e in es && |got| < count ensures e.index != index + |got| {
      var k :| 0 <= k < |es| && es[k] == e;
      assert es[k].index == es[0].index + k;
    }
  }

  class File {
    var dataFile: Stream
    var indexFile: Stream
    var lastLogIndex: int
    var logIndexStart: int
    ghost var entries: seq<Entry>

    constructor ()
      ensures Valid() && entries == []
    {
      dataFile, indexFile, lastLogIndex, logIndexStart, entries := Stream([], 0), Stream([], 0), -1, -1, [];
    }

    /** The files hold the entries, both cursors are at the end of file, and what is remembered is right. */
    ghost predicate Valid()
      reads this
    {
      && AllOk(entries) && Consecutive(entries)
      && dataFile == Stream(Records(entries), |Records(entries)|)
      && indexFile == Stream(Positions(entries), |Positions(entries)|)
      && Remembered(entries, lastLogIndex, logIndexStart) && PositionsFit(entries)
    }

    function Tell(): nat
      reads this
    {
      dataFile.pos
    }

    method Write(index: int, data: seq<byte>, ghost e: Entry)
      requires Valid() && EntryOk(e) && index == e.index && data == ToString(e)
      requires entries != [] ==> index == Last(entries) + 1
      requires Tell() < INDEX_LIMIT
      modifies this
      ensures Valid() && entries == old(entries) + [e]
      ensures Tell() == |Records(entries)| && Tell() == old(Tell()) + 4 + |data|
    {
      hide Records, Positions, LE, ToString, EntryOk, AllOk, Consecutive;
      EntryIndex(e);
      var filePos := dataFile.pos;
      dataFile := dataFile.Write(LE(|data|, 4));
      dataFile := dataFile.Write(data);
      indexFile := indexFile.Write(LE(index, 8));
      indexFile := indexFile.Write(LE(filePos, 8));
      lastLogIndex := index;
      AppendRecords(entries, e);
      Joined(Records(entries), LE(|data|, 4), data);
      Joined(Positions(entries), LE(index, 8), LE(filePos, 8));
      GrowsBy(entries, e);
      entries := entries + [e];
    }

    method GetLogStart() returns (start: int)
      requires Valid()
      modifies this`indexFile, this`logIndexStart
      ensures Valid() && start == First(entries) && (entries == [] ==> start == 0)
    {
      hide Records, LE, FromLE, EntryOk;
      if logIndexStart == -1 {
        indexFile := Stream(indexFile.bytes, 0);
        var (buffer, s) := indexFile.Read(8);
        indexFile := s.AtEnd();
        IndexFileSize(entries);
        if |buffer| != 8 { return 0; }
        StartAt(entries);
        logIndexStart := FromLE(buffer);
      }
      start := logIndexStart;
    }

    method GetLastLogIndex() returns (last: int)
      requires Valid()
      ensures last == Last(entries) && (entries == [] ==> last == 0)
    {
      // the index file of a segment without entries is empty, so there is nothing to read in it
      if lastLogIndex == -1 { return 0; }
      last := lastLogIndex;
    }

    method GetDataFileOffset(index: int) returns (ok: bool, offset: nat)
      requires Valid() && index > 0
      modifies this`indexFile, this`logIndexStart
      ensures Valid() && (ok <==> Has(entries, index))
      ensures ok ==> var k := index - First(entries); k < |entries| && AllOk(entries[..k]) && offset == |Records(entries[..k])|
    {
      hide Records, LE, FromLE, EntryOk, Consecutive;
      LastIs(entries);
      IndexFileSize(entries);
      var start := GetLogStart();
      var at := (index - start) * 16;
      if at == 0 {
        FirstRecord(entries);
        return true, 0;
      }
      // in front of the file there is no seeking, and at its end or behind it nothing to read
      if at < 0 || at >= |indexFile.bytes| { return false, 0; }
      ok := true;
      IndexIs(entries, index - start);
      offset := ReadPosition(at, index, index - start);
    }

    method ReadPosition(at: nat, index: int, ghost k: nat) returns (offset: nat)
      requires AllOk(entries) && PositionsFit(entries) && indexFile == Stream(Positions(entries), |Positions(entries)|)
      requires k < |entries| && at == 16 * k && entries[k].index == index
      modifies this`indexFile
      ensures indexFile == old(indexFile) && AllOk(entries[..k]) && offset == |Records(entries[..k])|
    {
      hide Records, LE, FromLE, EntryOk, Positions, AllOk, PositionsFit;
      PositionRead(entries, k);
      indexFile := Stream(indexFile.bytes, at);
      var (buffer, s) := indexFile.Read(8);
      // the check of the index in the file cannot fail
      assert FromLE(buffer) == index;
      var (buffer', s') := s.Read(8);
      offset := FromLE(buffer');
      indexFile := s'.AtEnd();
    }

    // The record at the cursor, if there is one.
    method ReadRecord(ghost k: nat) returns (ok: bool, e: Entry)
      requires AllOk(entries) && k <= |entries| && AllOk(entries[..k])
      requires dataFile == Stream(Records(entries), |Records(entries[..k])|)
      modifies this`dataFile
      ensures ok <==> k < |entries|
      ensures ok ==> e == entries[k] && AllOk(entries[..k + 1])
      ensures ok ==> dataFile == Stream(Records(entries), |Records(entries[..k + 1])|)
      ensures !ok ==> dataFile == old(dataFile)
    {
      hide Records, LE, FromLE, EntryOk, FromString, ToString;
      if k < |entries| { RecordIs(entries, k); } else { assert entries[..k] == entries; }
      var (len, s) := dataFile.Read(4);
      if |len| != 4 { return false, NO_ENTRY; }
      var (buffer, s') := s.Read(FromLE(len));
      var entry := DecodeEntry(buffer);
      dataFile := s';
      ok, e := true, entry.value;
    }

    /** An entry of this segment, or an exception when the index is not in it; the cursors end where they were. */
    method GetEntry(index: int) returns (threw: bool, e: Entry)
      requires Valid() && index > 0
      modifies this`dataFile, this`indexFile, this`logIndexStart
      ensures Valid() && (threw <==> !Has(entries, index))
      ensures !threw ==> index - First(entries) < |entries| && e == entries[index - First(entries)]
    {
      hide Records, LE, FromLE, EntryOk, Consecutive, Positions;
      LastIs(entries);
      var ok, offset := GetDataFileOffset(index);
      if !ok { return true, NO_ENTRY; }
      dataFile := Stream(dataFile.bytes, offset);
      ok, e := ReadRecord(index - First(entries));
      dataFile := dataFile.AtEnd();
      threw := false;
    }

    /** Entries from an index on, until count of them are read or the segment ends. */
    method GetEntries(from: int, wanted: nat, list: seq<Entry>)
      returns (threw: bool, index: int, count: nat, out: seq<Entry>)
      requires Valid() && from > 0 && wanted > 0
      modifies this`dataFile, this`indexFile, this`logIndexStart
      ensures Valid() && (threw <==> !Has(entries, from))
      ensures LogKnown(entries)
      ensures !threw ==> out == list + Slice(entries, from, wanted)
      ensures !threw ==> index == from + |Slice(entries, from, wanted)| && count == wanted - |Slice(entries, from, wanted)|
    {
      hide Records, LE, FromLE, EntryOk, Consecutive, Positions;
      LastIs(entries);
      var ok, offset := GetDataFileOffset(from);
      if !ok { return true, from, wanted, list; }
      threw := false;
      dataFile := Stream(dataFile.bytes, offset);
      index, count, out := ReadOn(from, wanted, list, from - First(entries));
      dataFile := dataFile.AtEnd();
    }

    // The loop over the records from the cursor on.
    method ReadOn(from: int, wanted: nat, list: seq<Entry>, ghost k0: nat) returns (index: int, count: nat, out: seq<Entry>)
      requires AllOk(entries) && k0 < |entries| && AllOk(entries[..k0]) && wanted > 0
      requires dataFile == Stream(Records(entries), |Records(entries[..k0])|)
      modifies this`dataFile
      ensures dataFile.bytes == Records(entries)
      ensures var n := Min(wanted, |entries| - k0); index == from + n && count == wanted - n && out == list + entries[k0..k0 + n]
    {
      hide Records, EntryOk, AllOk;
      index, count, out := from, wanted, list;
      ghost var k := k0;
      assert entries[k0..k] == [] && list + [] == list;
      while count > 0
        invariant k0 <= k <= |entries| && index == from + (k - k0) && count == wanted - (k - k0)
        invariant out == list + entries[k0..k]
        invariant AllOk(entries[..k]) && dataFile == Stream(Records(entries), |Records(entries[..k])|)
        decreases count
      {
        var ok, entry := ReadRecord(k);
        if !ok { break; }
        OneMore(list, entries, k0, k);
        out := out + [entry];
        index := index + 1;
        count := count - 1;
        k := k + 1;
      }
    }
  }

  lemma OneMore(list: seq<Entry>, es: seq<Entry>, k0: nat, k: nat)
    requires k0 <= k < |es|
    ensures list + es[k0..k] + [es[k]] == list + es[k0..k + 1]
  {
    assert es[k0..k + 1] == es[k0..k] + [es[k]];
  }

  predicate Remembered(es: seq<Entry>, last: int, start: int) {
    if es == [] then last == -1 && start == -1
    else last == Last(es) && (start == -1 || start == First(es)) && First(es) > 0 && Last(es) > 0
  }

  // Every position is below 2^63.
  ghost predicate PositionsFit(es: seq<Entry>)
    requires AllOk(es)
  {
    forall k | 0 <= k < |es| :: AllOk(es[..k]) && |Records(es[..k])| < INDEX_LIMIT
  }

  lemma EntryIndex(e: Entry)
    requires EntryOk(e)
    ensures 0 < e.index < INDEX_LIMIT
  {
  }

  lemma LastIs(es: seq<Entry>)
    requires Consecutive(es)
    ensures LogKnown(es)
  {
  }

  lemma IndexIs(es: seq<Entry>, k: nat)
    requires Consecutive(es) && k < |es|
    ensures es[k].index == First(es) + k
  {
  }

  lemma SubSlice(all: seq<byte>, from: nat, to: nat, n: nat)
    requires from + n <= to <= |all|
    ensures all[from..to][..n] == all[from..from + n] && all[from..to][n..] == all[from + n..to]
  {
  }

  lemma Joined(a: seq<byte>, b: seq<byte>, c: seq<byte>)
    ensures a + b + c == a + (b + c)
  {
  }

  lemma GrowsBy(es: seq<Entry>, e: Entry)
    requires AllOk(es) && EntryOk(e) && Consecutive(es) && PositionsFit(es) && |Records(es)| < INDEX_LIMIT
    requires es != [] ==> e.index == Last(es) + 1
    ensures AllOk(es + [e]) && Consecutive(es + [e]) && PositionsFit(es + [e])
    ensures Last(es + [e]) == e.index && First(es + [e]) == if es == [] then e.index else First(es)
  {
    hide Records;
    AppendRecords(es, e);
    var all := es + [e];
    forall k | 0 <= k < |all| ensures AllOk(all[..k]) && |Records(all[..k])| < INDEX_LIMIT {
      assert all[..k] == es[..k];
      if k == |es| { assert es[..k] == es; }
    }
  }

  lemma IndexFileSize(es: seq<Entry>)
    requires AllOk(es)
    ensures |Positions(es)| == 16 * |es|
  {
    PositionsPrefix(es, 0);
  }

  lemma FirstRecord(es: seq<Entry>)
    ensures es[..0] == [] && AllOk(es[..0]) && Records(es[..0]) == []
  {
  }

  // The first eight bytes of the index file are the first index.
  lemma StartAt(es: seq<Entry>)
    requires AllOk(es) && es != []
    ensures |Positions(es)| >= 8 && FromLE(Positions(es)[0..8]) == First(es)
  {
    hide LE, FromLE, Records;
    PositionAt(es, 0);
    IndexValue(es[0].index);
  }

  lemma IndexValue(n: int)
    requires 0 <= n < INDEX_LIMIT
    ensures FromLE(LE(n, 8)) == n
  {
    PowValues();
    LERoundTrip(n, 8);
  }

  lemma PositionIs(es: seq<Entry>, k: nat)
    requires AllOk(es) && PositionsFit(es) && k < |es|
    ensures |Positions(es)| == 16 * |es| && AllOk(es[..k])
    ensures FromLE(Positions(es)[16 * k..16 * k + 8]) == es[k].index
    ensures FromLE(Positions(es)[16 * k + 8..16 * k + 16]) == |Records(es[..k])|
  {
    hide LE, FromLE, Records;
    PositionAt(es, k);
    EntryIndex(es[k]);
    IndexValue(es[k].index);
    IndexValue(|Records(es[..k])|);
  }

  // What reading the index file at the place of an entry finds.
  lemma PositionRead(es: seq<Entry>, k: nat)
    requires AllOk(es) && PositionsFit(es) && k < |es|
    ensures |Positions(es)| == 16 * |es| && AllOk(es[..k])
    ensures var (buffer, s) := Stream(Positions(es), 16 * k).Read(8); var (buffer', s') := s.Read(8);
      |buffer| == 8 && FromLE(buffer) == es[k].index && FromLE(buffer') == |Records(es[..k])| && s'.bytes == Positions(es)
  {
    PositionIs(es, k);
    hide LE, FromLE, Records, Positions, Stream.Read, AllOk, PositionsFit;
    ReadExact(Stream(Positions(es), 16 * k), 8);
    ReadExact(Stream(Positions(es), 16 * k + 8), 8);
  }

  // What reading at the position of an entry finds.
  lemma RecordIs(es: seq<Entry>, k: nat)
    requires AllOk(es) && k < |es|
    ensures AllOk(es[..k]) && AllOk(es[..k + 1]) && EntryOk(es[k])
    ensures var at, to, len := |Records(es[..k])|, |Records(es[..k + 1])|, |ToString(es[k])|;
      && at + 4 + len == to <= |Records(es)|
      && FromLE(Records(es)[at..at + 4]) == len
      && Records(es)[at + 4..to] == ToString(es[k])
      && len >= 24 && 21 + FromBE(ToString(es[k])[17..21]) <= len
      && FromString(ToString(es[k])) == Some(es[k])
  {
    hide LE, FromLE, Records, ToString, FromBE;
    RecordAt(es, k);
    var e := es[k];
    var at, to := |Records(es[..k])|, |Records(es[..k + 1])|;
    var all, r := Records(es), LE(|ToString(e)|, 4) + ToString(e);
    assert all[at..to] == r;
    assert r[..4] == LE(|ToString(e)|, 4) && r[4..] == ToString(e);
    SubSlice(all, at, to, 4);
    ToStringSize(e);
    PowValues();
    LERoundTrip(|ToString(e)|, 4);
    EntryRoundTrip(e);
  }
}
