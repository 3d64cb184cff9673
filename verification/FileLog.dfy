/**
 The Raft log: entries go to a cache that is cut to a budget and to a current segment, and a segment that has
 grown too long is put away.  The whole is proved to be one plain sequence of entries.
 */
module FileLog {
  import opened Options
  import opened Bytes
  import opened LogEntries
  import opened LogFile

  // --- Sequences of segments ---

  function Flatten(segs: seq<seq<Entry>>): seq<Entry> {
    if segs == [] then [] else Flatten(segs[..|segs| - 1]) + segs[|segs| - 1]
  }

  lemma {:induction false} FlattenPrefix(segs: seq<seq<Entry>>, j: nat)
    requires j <= |segs|
    ensures |Flatten(segs[..j])| <= |Flatten(segs)| && Flatten(segs)[..|Flatten(segs[..j])|] == Flatten(segs[..j])
    decreases |segs|
  {
    if j < |segs| {
      FlattenPrefix(segs[..|segs| - 1], j);
      assert segs[..|segs| - 1][..j] == segs[..j];
    } else {
      assert segs[..j] == segs;
    }
  }

  // A segment is a part of the log.
  lemma SegmentIsPart(segs: seq<seq<Entry>>, last: seq<Entry>, j: nat)
    requires j < |segs|
    ensures var log, a := Flatten(segs) + last, |Flatten(segs[..j])|;
      a + |segs[j]| <= |log| && log[a..a + |segs[j]|] == segs[j] && |Flatten(segs[..j + 1])| == a + |segs[j]|
  {
    FlattenPrefix(segs, j + 1);
    assert segs[..j + 1][..j] == segs[..j];
    var all, log, a := Flatten(segs), Flatten(segs) + last, |Flatten(segs[..j])|;
    var b := a + |segs[j]|;
    assert all[..b] == Flatten(segs[..j]) + segs[j];
    assert log[a..b] == all[..b][a..];
  }

  lemma FlattenMore(segs: seq<seq<Entry>>, seg: seq<Entry>)
    ensures Flatten(segs + [seg]) == Flatten(segs) + seg
  {
    assert (segs + [seg])[..|segs|] == segs;
  }

  // --- Slices of a log and of its parts ---

  lemma PartOf(log: seq<Entry>, a: nat, b: nat)
    requires Consecutive(log) && a < b <= |log|
    ensures var part := log[a..b]; Consecutive(part) && First(part) == First(log) + a && Last(part) == First(log) + b - 1
    ensures log != [] && Last(log) == First(log) + |log| - 1
  {
    var part := log[a..b];
    forall k | 0 <= k < |part| ensures part[k].index == part[0].index + k {
      assert part[k] == log[a + k] && part[0] == log[a];
    }
    assert part[|part| - 1] == log[b - 1];
  }

  // A part of the log, from position a on.
  ghost predicate PartAt(log: seq<Entry>, a: nat, part: seq<Entry>) {
    && a + |part| <= |log| && part == log[a..a + |part|] && LogKnown(part)
    && (part != [] ==> First(part) == First(log) + a)
  }

  // A slice whose place is known.
  lemma SliceIs(es: seq<Entry>, index: int, k: nat, count: nat)
    requires LogKnown(es) && index == First(es) + k && k < |es|
    ensures Slice(es, index, count) == es[k..Min(k + count, |es|)]
  {
  }

  /** What a part of the log has from an index on is the beginning of what the log has. */
  lemma PartGivesBeginning(log: seq<Entry>, a: nat, part: seq<Entry>, index: int, count: nat)
    requires LogKnown(log) && PartAt(log, a, part) && LogKnown(part) && Has(part, index) && count > 0
    ensures 0 < |Slice(part, index, count)| <= count
    ensures Slice(log, index, count)
      == Slice(part, index, count) + Slice(log, index + |Slice(part, index, count)|, count - |Slice(part, index, count)|)
    ensures |Slice(part, index, count)| == count || index + |Slice(part, index, count)| == First(log) + a + |part|
  {
    var k := index - First(log);
    var n := Min(count, a + |part| - k);
    assert First(part) == First(log) + a && a <= k < a + |part| && log != [];
    hide Slice, First, Last, Has, LogKnown;
    SliceIs(part, index, k - a, count);
    SubPart(log, a, a + |part|, k, n);
    SliceIs(log, index, k, count);
    SplitSlice(log, k, n, Min(k + count, |log|));
    if k + n < |log| {
      SliceIs(log, index + n, k + n, count - n);
    } else {
      PastTheEnd(log, index + n, count - n);
    }
  }

  lemma PastTheEnd(es: seq<Entry>, index: int, count: nat)
    requires es != [] && LogKnown(es) && index >= First(es) + |es|
    ensures Slice(es, index, count) == []
  {
  }

  lemma NothingThere(es: seq<Entry>, index: int, count: nat)
    requires LogKnown(es)
    requires !Has(es, index)
    ensures Slice(es, index, count) == []
  {
  }

  lemma SubPart(log: seq<Entry>, a: nat, b: nat, k: nat, n: nat)
    requires a <= k && k + n <= b <= |log|
    ensures log[a..b][k - a..k - a + n] == log[k..k + n]
  {
    var x, y := log[a..b][k - a..k - a + n], log[k..k + n];
    forall i | 0 <= i < n ensures x[i] == y[i] {
      assert log[a..b][k - a + i] == log[k + i];
    }
  }

  lemma SplitSlice(log: seq<Entry>, k: nat, n: nat, m: nat)
    requires k + n <= m <= |log|
    ensures log[k..m] == log[k..k + n] + log[k + n..m]
  {
  }

  lemma LogLast(log: seq<Entry>)
    requires Consecutive(log)
    ensures LogKnown(log)
  {
  }

  function SizeOf(es: seq<Entry>): nat {
    if es == [] then 0 else Size(es[0]) + SizeOf(es[1..])
  }

  lemma {:induction false} SizeOfMore(es: seq<Entry>, e: Entry)
    ensures SizeOf(es + [e]) == SizeOf(es) + Size(e)
  {
    if es == [] {
      assert es + [e] == [e] && [e][1..] == [];
    } else {
      assert (es + [e])[1..] == es[1..] + [e];
      SizeOfMore(es[1..], e);
    }
  }

  /** The longest end of a log that a budget allows to be kept. */
  function Kept(es: seq<Entry>, budget: nat): seq<Entry> {
    if SizeOf(es) <= budget then es else Kept(es[1..], budget)
  }

  /** What has been kept of the beginning is enough to know what is kept when the log grows. */
  lemma {:induction false} KeptGrows(es: seq<Entry>, e: Entry, budget: nat)
    ensures Kept(Kept(es, budget) + [e], budget) == Kept(es + [e], budget)
    decreases |es|
  {
    if SizeOf(es) > budget {
      SizeOfMore(es, e);
      assert (es + [e])[1..] == es[1..] + [e];
      KeptGrows(es[1..], e, budget);
    }
  }

  /** The last entry of a log is kept, as the last one, exactly when it alone is within the budget. */
  lemma {:induction false} LastIsKeptIff(es: seq<Entry>, budget: nat)
    requires es != []
    ensures Kept(es, budget) != [] <==> Size(es[|es| - 1]) <= budget
    ensures Kept(es, budget) != [] ==> Kept(es, budget)[|Kept(es, budget)| - 1] == es[|es| - 1]
    decreases |es|
  {
    var init, e := es[..|es| - 1], es[|es| - 1];
    assert es == init + [e];
    SizeOfMore(init, e);
    if SizeOf(es) > budget {
      if |es| == 1 {
        assert es[1..] == [] && init == [];
      } else {
        LastIsKeptIff(es[1..], budget);
      }
    }
  }

  // The state of a search: what is still wanted completes what has been found to the slice asked for.
  ghost predicate Searching(log: seq<Entry>, out: seq<Entry>, index: int, count: nat, from: int, wanted: nat)
    requires LogKnown(log)
  {
    out + Slice(log, index, count) == Slice(log, from, wanted)
  }

  // Everything in front of position a of the log has been searched.
  predicate Past(log: seq<Entry>, a: nat, index: int, count: nat) {
    count == 0 || index < First(log) || index >= First(log) + a
  }

  // A part of the log is searched: what it has is found, and in a part that comes next nothing stays behind.
  lemma SearchPart(log: seq<Entry>, a: nat, part: seq<Entry>, out: seq<Entry>, index: int, count: nat, from: int, wanted: nat)
    requires LogKnown(log) && PartAt(log, a, part) && LogKnown(part) && count > 0
    requires Searching(log, out, index, count, from, wanted)
    ensures var got := Slice(part, index, count);
      |got| <= count && Searching(log, out + got, index + |got|, count - |got|, from, wanted)
    ensures Past(log, a, index, count)
      ==> Past(log, a + |part|, index + |Slice(part, index, count)|, count - |Slice(part, index, count)|)
    ensures !Has(part, index) ==> Slice(part, index, count) == []
    ensures index < First(log) ==> Slice(part, index, count) == []
  {
    hide Slice, Searching, Past, First, Last, LogKnown, PartAt, Has;
    if Has(part, index) {
      PartGivesBeginning(log, a, part, index, count);
      SearchGoesOn(log, part, out, index, count, from, wanted);
      PastPart(log, a, |part|, index, count, |Slice(part, index, count)|);
      HasIsBehind(log, a, part, index);
    } else {
      NothingThere(part, index, count);
      assert out + [] == out;
      PastOver(log, a, part, index, count);
    }
  }

  lemma HasIsBehind(log: seq<Entry>, a: nat, part: seq<Entry>, index: int)
    requires PartAt(log, a, part) && Has(part, index)
    ensures index >= First(log)
  {
  }

  lemma PastPart(log: seq<Entry>, a: nat, n: nat, index: int, count: nat, got: nat)
    requires got <= count && (got == count || index + got == First(log) + a + n)
    ensures Past(log, a + n, index + got, count - got)
  {
  }

  lemma PastOver(log: seq<Entry>, a: nat, part: seq<Entry>, index: int, count: nat)
    requires PartAt(log, a, part) && !Has(part, index)
    ensures Past(log, a, index, count) ==> Past(log, a + |part|, index, count)
  {
  }

  // Going on never brings back what is past.
  lemma StaysPast(log: seq<Entry>, past: nat, index: int, count: nat, got: nat)
    requires Past(log, past, index, count) && got <= count && (index < First(log) ==> got == 0)
    ensures Past(log, past, index + got, count - got)
  {
  }

  lemma SearchGoesOn(log: seq<Entry>, part: seq<Entry>, out: seq<Entry>, index: int, count: nat, from: int, wanted: nat)
    requires LogKnown(log) && LogKnown(part)
    requires Searching(log, out, index, count, from, wanted)
    requires |Slice(part, index, count)| <= count
    requires Slice(log, index, count) == Slice(part, index, count)
      + Slice(log, index + |Slice(part, index, count)|, count - |Slice(part, index, count)|)
    ensures var got := Slice(part, index, count);
      Searching(log, out + got, index + |got|, count - |got|, from, wanted)
  {
    hide Slice, LogKnown;
    var got := Slice(part, index, count);
    Regroup(out, got, Slice(log, index + |got|, count - |got|));
  }

  lemma Regroup(a: seq<Entry>, b: seq<Entry>, c: seq<Entry>)
    ensures a + b + c == a + (b + c)
  {
  }

  lemma SearchDone(log: seq<Entry>, out: seq<Entry>, index: int, count: nat, from: int, wanted: nat)
    requires LogKnown(log)
    requires Searching(log, out, index, count, from, wanted) && Past(log, |log|, index, count)
    ensures out == Slice(log, from, wanted)
  {
    assert Slice(log, index, count) == [];
    assert out + [] == out;
  }

  // --- The log ---

  // The segments that were put away, with the entries in them.
  ghost predicate Sealed(files: seq<File>, segs: seq<seq<Entry>>)
    reads files
  {
    && |segs| == |files|
    && (forall i :: 0 <= i < |files| ==> files[i].Valid() && files[i].entries == segs[i] && segs[i] != [])
    && (forall i, j :: 0 <= i < j < |files| ==> files[i] != files[j])
  }

  ghost predicate LogIs(log: seq<Entry>, lastIndex: int) {
    Consecutive(log) && AllOk(log) && lastIndex == Last(log)
  }

  // The cache is the end of the log, and its size is what its entries take.
  ghost predicate CacheIs(log: seq<Entry>, cache: seq<Entry>, size: int) {
    |cache| <= |log| && cache == log[|log| - |cache|..] && size == SizeOf(cache)
  }

  // The cache as a part of the log that can be searched.
  ghost predicate CachePart(log: seq<Entry>, cache: seq<Entry>) {
    Consecutive(cache) && LogKnown(cache) && |cache| <= |log| && PartAt(log, |log| - |cache|, cache)
  }

  lemma CacheShrinks(log: seq<Entry>, cache: seq<Entry>, size: int)
    requires CacheIs(log, cache, size) && cache != []
    ensures CacheIs(log, cache[1..], size - Size(cache[0]))
  {
  }

  lemma CacheSize(log: seq<Entry>, cache: seq<Entry>, size: int)
    requires CacheIs(log, cache, size)
    ensures size == SizeOf(cache) && (cache == [] ==> size == 0)
  {
  }

  lemma SealedMore(files: seq<File>, segs: seq<seq<Entry>>, f: File)
    requires Sealed(files, segs) && f !in files && f.Valid() && f.entries != []
    ensures Sealed(files + [f], segs + [f.entries])
  {
  }

  lemma SealedNotEmpty(files: seq<File>, segs: seq<seq<Entry>>)
    requires Sealed(files, segs)
    ensures |files| == |segs| && forall i :: 0 <= i < |segs| ==> segs[i] != []
  {
  }

  class Filelog {
    var cache: seq<Entry>
    var cacheSize: int
    var maxCacheSize: nat
    var maxLogSize: int
    var lastIndex: int
    var isOpen: bool
    var current: File
    // the map of the segments that were put away, in the order of its keys
    var logfiles: seq<File>
    ghost var segs: seq<seq<Entry>>
    ghost var log: seq<Entry>

    constructor (maxCache: nat, maxLog: int)
      requires maxLog < INDEX_LIMIT
      ensures Valid() && log == [] && fresh(current)
    {
      cache, cacheSize, maxCacheSize, maxLogSize, lastIndex, isOpen := [], 0, maxCache, maxLog, 0, false;
      current := new File();
      logfiles, segs, log := [], [], [];
    }

    ghost predicate Valid()
      reads this, current, logfiles
    {
      FilesOk() && LogIs(log, lastIndex) && CacheIs(log, cache, cacheSize) && SizeOk() && cache == Kept(log, maxCacheSize)
    }

    ghost predicate SizeOk()
      reads this, current
    {
      (current.entries == [] || current.Tell() <= maxLogSize) && maxLogSize < INDEX_LIMIT
    }

    ghost predicate FilesOk()
      reads this, current, logfiles
    {
      && current !in logfiles && current.Valid() && Sealed(logfiles, segs)
      && log == Flatten(segs) + current.entries && (!isOpen ==> log == [])
    }

    /** Appending: whatever is evicted or put away, the log is longer by the one entry. */
    method Write(entry: Entry, given: int) returns (index: int)
      requires Valid() && lastIndex + 1 < INDEX_LIMIT && EntryOk(entry.(index := 1))
      requires entry.index == 0 || (if log == [] then 0 < entry.index < INDEX_LIMIT else entry.index == lastIndex + 1)
      modifies this, current, logfiles
      ensures Valid() && fresh({current} - {old(current)})
      ensures lastIndex == if entry.index == 0 then old(lastIndex) + 1 else entry.index
      ensures log == old(log) + [entry.(index := lastIndex)]
      ensures index == if entry.index == 0 then lastIndex else given
      ensures maxCacheSize == old(maxCacheSize) && (cache != [] <==> Size(entry) <= maxCacheSize)
      ensures |logfiles| == old(|logfiles|) + if old(current.Tell()) + 4 + Size(entry) > maxLogSize then 1 else 0
    {
      hide Kept, Sealed, Flatten, EntryOk, AllOk, Consecutive, File.Valid, LogIs, CacheIs, ToString;
      index := given;
      var e := entry;
      LogHas(log, lastIndex);
      if entry.index != 0 {
        lastIndex := entry.index;
      } else {
        lastIndex := lastIndex + 1;
        index := lastIndex;
        e := entry.(index := lastIndex);
      }
      NewEntry(log, entry, e);
      var buffer := EncodeEntry(e);
      ToStringSize(e);
      Store(e, buffer);
      LastIsKeptIff(log, maxCacheSize);
    }

    // The entry goes to the cache and to the current segment.
    method Store(e: Entry, buffer: seq<byte>)
      requires FilesOk() && SizeOk() && CacheIs(log, cache, cacheSize)
      requires EntryOk(e) && buffer == ToString(e) && e.index == lastIndex && Consecutive(log + [e])
      requires cache == Kept(log, maxCacheSize)
      modifies this`cache, this`cacheSize, this`current, this`isOpen, this`log, this`logfiles, this`segs, current
      ensures FilesOk() && SizeOk() && CacheIs(log, cache, cacheSize)
      ensures fresh({current} - {old(current)}) && log == old(log) + [e]
      ensures cache == Kept(log, maxCacheSize)
      ensures |logfiles| == old(|logfiles|) + if old(current.Tell()) + 4 + |buffer| > maxLogSize then 1 else 0
    {
      hide Kept, Sealed, Flatten, EntryOk, Consecutive, File.Valid, CacheIs, ToString;
      PutInCache(e, buffer);
      Append(e, buffer);
      CheckCurrentFileSize();
    }

    method PutInCache(e: Entry, buffer: seq<byte>)
      requires EntryOk(e) && buffer == ToString(e) && CacheIs(log, cache, cacheSize) && cache == Kept(log, maxCacheSize)
      modifies this`cache, this`cacheSize
      ensures CacheIs(log + [e], cache, cacheSize) && cache == Kept(log + [e], maxCacheSize)
    {
      hide Kept, EntryOk, CacheIs, ToString;
      ToStringSize(e);
      KeptGrows(log, e, maxCacheSize);
      CacheMore(log, cache, cacheSize, e);
      cacheSize := cacheSize + |buffer|;
      cache := cache + [e];
      CheckLogEntriesSize(log + [e]);
    }

    /** The term of the last entry, exactly when that entry alone is within the cache's budget; otherwise zero. */
    method GetLastLogEntryTerm() returns (term: int)
      requires Valid()
      ensures term == if log != [] && Size(log[|log| - 1]) <= maxCacheSize then log[|log| - 1].term else 0
    {
      hide FilesOk, SizeOk, LogIs, Sealed, Kept;
      if log != [] { LastIsKeptIff(log, maxCacheSize); }
      if |cache| == 0 { return 0; }
      return cache[|cache| - 1].term;
    }

    /** Evicting from the front leaves the longest end of the cache that the budget allows. */
    method CheckLogEntriesSize(ghost whole: seq<Entry>)
      requires CacheIs(whole, cache, cacheSize)
      modifies this`cache, this`cacheSize
      ensures CacheIs(whole, cache, cacheSize) && cacheSize <= maxCacheSize
      ensures cache == Kept(old(cache), maxCacheSize)
    {
      hide CacheIs, SizeOf;
      while |cache| > 0 && cacheSize > maxCacheSize
        invariant CacheIs(whole, cache, cacheSize)
        invariant Kept(cache, maxCacheSize) == Kept(old(cache), maxCacheSize)
        decreases |cache|
      {
        CacheShrinks(whole, cache, cacheSize);
        CacheSize(whole, cache, cacheSize);
        cacheSize := cacheSize - Size(cache[0]);
        cache := cache[1..];
      }
      CacheSize(whole, cache, cacheSize);
    }

    // The record goes to the current segment, which is opened first if need be.
    method Append(e: Entry, buffer: seq<byte>)
      requires FilesOk() && SizeOk() && EntryOk(e) && buffer == ToString(e) && e.index == lastIndex
      requires Consecutive(log + [e])
      modifies this`current, this`isOpen, this`log, current
      ensures FilesOk() && fresh({current} - {old(current)}) && log == old(log) + [e] && isOpen
      ensures current.entries != [] && maxLogSize < INDEX_LIMIT
      ensures current.Tell() == old(current.Tell()) + 4 + |buffer| && (old(isOpen) ==> current == old(current))
    {
      hide ToString, EntryOk, AllOk, Consecutive, Sealed, Flatten;
      if !isOpen {
        FlattenEmpty(segs, current.entries);
        current := new File();
        isOpen := true;
      }
      EndsWith(Flatten(segs), current.entries, e);
      NothingWritten(current);
      current.Write(lastIndex, buffer, e);
      Regroup(Flatten(segs), old(current.entries), [e]);
      log := log + [e];
      assert Flatten(segs) + current.entries == log by { FlattenEmpty(segs, [e]); }
    }

    method CheckCurrentFileSize()
      requires FilesOk() && current.entries != [] && Consecutive(log) && maxLogSize < INDEX_LIMIT && isOpen
      modifies this`current, this`logfiles, this`segs, current
      ensures FilesOk() && SizeOk() && fresh({current} - {old(current)})
      ensures old(current.Tell()) <= maxLogSize ==> current == old(current) && logfiles == old(logfiles) && segs == old(segs)
      ensures old(current.Tell()) > maxLogSize ==> logfiles == old(logfiles + [current]) && current.entries == []
    {
      hide AllOk, Consecutive, Sealed, Flatten;
      if current.Tell() > maxLogSize {
        var start := current.GetLogStart();
        PutAway(start);
      }
    }

    // The current segment goes into the map, and an empty one takes its place.
    method PutAway(start: int)
      requires FilesOk() && current.entries != [] && Consecutive(log) && maxLogSize < INDEX_LIMIT && isOpen
      requires start == First(current.entries)
      modifies this`current, this`logfiles, this`segs
      ensures FilesOk() && SizeOk() && fresh(current)
      ensures logfiles == old(logfiles + [current]) && current.entries == []
    {
      hide AllOk, Consecutive, Sealed, Flatten, File.Valid;
      // the map is in the order of the starts, and the new one is the greatest
      SealedNotEmpty(logfiles, segs);
      KeysAscend(segs, current.entries);
      SealedMore(logfiles, segs, current);
      FlattenMore(segs, current.entries);
      logfiles := logfiles + [current];
      segs := segs + [current.entries];
      assert log + [] == log;
      current := new File();
    }

    method GetEntriesFromCache(list: seq<Entry>, from: int, wanted: nat)
      returns (out: seq<Entry>, index: int, count: nat)
      requires Consecutive(cache) && wanted > 0
      ensures LogKnown(cache)
      ensures var got := Slice(cache, from, wanted);
        out == list + got && index == from + |got| && |got| <= wanted && count == wanted - |got|
    {
      LogLast(cache);
      out, index, count := list, from, wanted;
      assert list + [] == list;
      if |cache| > 0 && cache[0].index <= index {
        ghost var k0 := index - First(cache);
        for j := 0 to |cache|
          invariant count > 0 && index == from + Taken(j, k0) && count == wanted - Taken(j, k0)
          invariant out == list + (if j <= k0 then [] else cache[k0..j])
        {
          hide Consecutive;
          IndexIs(cache, j);
          if index == cache[j].index {
            OneMore(list, cache, k0, j);
            if j == k0 { assert cache[k0..k0] == []; }
            out := out + [cache[j]];
            index := index + 1;
            count := count - 1;
            if count == 0 {
              return;
            }
          }
        }
      }
    }

    method GetEntryFromCache(index: int) returns (found: bool, e: Entry)
      requires Consecutive(cache)
      ensures LogKnown(cache)
      ensures found <==> Has(cache, index)
      ensures found ==> e == cache[index - First(cache)]
    {
      LogLast(cache);
      if |cache| > 0 && cache[0].index <= index {
        for j := 0 to |cache|
          invariant forall i :: 0 <= i < j ==> cache[i].index != index
        {
          if index == cache[j].index {
            IndexIs(cache, j);
            return true, cache[j];
          }
        }
        if Has(cache, index) { IndexIs(cache, index - First(cache)); }
      }
      return false, NO_ENTRY;
    }

    /** One entry: the one of the log with that index, or an empty one. */
    method GetEntry(index: int) returns (e: Entry)
      requires Valid() && index > 0
      modifies current, logfiles
      ensures Valid() && LogKnown(log)
      ensures e == if Has(log, index) then log[index - First(log)] else NO_ENTRY
    {
      hide FilesOk, SizeOk, LogIs, CacheIs, Consecutive, PartAt, LogKnown;
      CacheKnown(log, cache, cacheSize, lastIndex);
      var found;
      found, e := GetEntryFromCache(index);
      if found {
        FoundInPart(log, |log| - |cache|, cache, index);
      } else {
        e := GetEntryFromFiles(index);
      }
    }

    method GetEntryFromFiles(index: int) returns (e: Entry)
      requires FilesOk() && SizeOk() && Consecutive(log) && LogKnown(log) && index > 0
      modifies current, logfiles
      ensures FilesOk() && SizeOk()
      ensures e == if Has(log, index) then log[index - First(log)] else NO_ENTRY
    {
      hide FilesOk, SizeOk, Consecutive;
      var found;
      found, e := GetEntryFromCurrent(index);
      if !found {
        e := GetEntryFromSegments(index);
      }
    }

    method GetEntryFromCurrent(index: int) returns (found: bool, e: Entry)
      requires FilesOk() && SizeOk() && Consecutive(log) && LogKnown(log) && index > 0
      modifies current
      ensures FilesOk() && SizeOk() && (found <==> Has(current.entries, index)) && current.entries == old(current.entries)
      ensures found ==> Has(log, index) && e == log[index - First(log)]
    {
      hide Sealed, Flatten, Consecutive, PartAt, File.Valid, Remembered;
      CurrentKnown();
      TellIs(current);
      found, e := false, NO_ENTRY;
      if isOpen {
        var start := current.GetLogStart();
        var last := current.GetLastLogIndex();
        if start <= index && index <= last {
          CurrentHas(current, index, start, last);
          var threw;
          threw, e := current.GetEntry(index);
          found := true;
          FoundInPart(log, |Flatten(segs)|, current.entries, index);
        }
        TellIs(current);
      }
    }

    method GetEntryFromSegments(index: int) returns (e: Entry)
      requires FilesOk() && SizeOk() && Consecutive(log) && LogKnown(log) && index > 0 && !Has(current.entries, index)
      modifies logfiles
      ensures FilesOk() && SizeOk()
      ensures e == if Has(log, index) then log[index - First(log)] else NO_ENTRY
    {
      hide Sealed, Flatten, Consecutive, PartAt, File.Valid, Has;
      CurrentKnown();
      FlattenNone();
      AllSegments();
      for j := 0 to |logfiles|
        invariant FilesOk() && SizeOk() && Past(log, |Flatten(segs[..j])|, index, 1)
        invariant current.entries == old(current.entries)
      {
        SegmentKnown(j);
        var start, last := SegmentBounds(j);
        if start <= index && index <= last {
          SegmentHas(segs[j], index);
          FoundInPart(log, |Flatten(segs[..j])|, segs[j], index);
          e := SegmentEntry(j, index);
          return;
        }
        SegmentHasNot(segs[j], index);
        NotInPart(log, |Flatten(segs[..j])|, segs[j], index);
      }
      SealedNotEmpty(logfiles, segs);
      assert segs[..|logfiles|] == segs;
      NotInPart(log, |Flatten(segs)|, current.entries, index);
      e := NO_ENTRY;
    }

    // The cache is a part of the log, and the log has its indices in a row.
    lemma CacheKnown(log: seq<Entry>, cache: seq<Entry>, size: int, lastIndex: int)
      requires LogIs(log, lastIndex) && CacheIs(log, cache, size)
      ensures Consecutive(log) && LogKnown(log) && CachePart(log, cache)
    {
      LogLast(log);
      assert log[|log| - |cache|..] == log[|log| - |cache|..|log|];
      if cache != [] { PartOf(log, |log| - |cache|, |log|); }
    }

    lemma CurrentKnown()
      requires FilesOk() && Consecutive(log)
      ensures PartAt(log, |Flatten(segs)|, current.entries)
    {
      hide Flatten, Sealed, Consecutive;
      var a := |Flatten(segs)|;
      assert log[a..a + |current.entries|] == current.entries;
      if current.entries != [] { PartOf(log, a, |log|); }
    }

    lemma SegmentKnown(j: nat)
      requires FilesOk() && Consecutive(log) && j < |logfiles|
      ensures |segs| == |logfiles| && PartAt(log, |Flatten(segs[..j])|, segs[j])
      ensures |Flatten(segs[..j + 1])| == |Flatten(segs[..j])| + |segs[j]|
    {
      hide Flatten, Consecutive;
      SegmentIsPart(segs, current.entries, j);
      var a := |Flatten(segs[..j])|;
      PartOf(log, a, a + |segs[j]|);
    }

    method SegmentBounds(j: nat) returns (start: int, last: int)
      requires Sealed(logfiles, segs) && j < |logfiles|
      modifies logfiles[j]
      ensures Sealed(logfiles, segs) && |segs| == |logfiles| && start == First(segs[j]) && last == Last(segs[j])
    {
      hide File.Valid, Consecutive;
      start := logfiles[j].GetLogStart();
      last := logfiles[j].GetLastLogIndex();
    }

    method SegmentEntry(j: nat, index: int) returns (e: Entry)
      requires Sealed(logfiles, segs) && j < |logfiles| && |segs| == |logfiles| && Has(segs[j], index) && index > 0
      modifies logfiles[j]
      ensures Sealed(logfiles, segs) && index - First(segs[j]) < |segs[j]| && e == segs[j][index - First(segs[j])]
    {
      var threw;
      threw, e := logfiles[j].GetEntry(index);
    }

    method SegmentEntries(j: nat, from: int, wanted: nat, list: seq<Entry>)
      returns (index: int, count: nat, out: seq<Entry>)
      requires Sealed(logfiles, segs) && j < |logfiles| && |segs| == |logfiles| && Has(segs[j], from) && from > 0 && wanted > 0
      modifies logfiles[j]
      ensures Sealed(logfiles, segs) && LogKnown(segs[j])
      ensures out == list + Slice(segs[j], from, wanted)
      ensures index == from + |Slice(segs[j], from, wanted)| && count == wanted - |Slice(segs[j], from, wanted)|
    {
      var threw;
      threw, index, count, out := logfiles[j].GetEntries(from, wanted, list);
    }

    /** Many entries: the slice of the log from an index on, of at most count entries. */
    method GetEntries(from: int, wanted: nat) returns (out: seq<Entry>)
      requires Valid() && from > 0 && wanted > 0
      modifies current, logfiles
      ensures Valid() && LogKnown(log)
      ensures out == Slice(log, from, wanted)
    {
      hide FilesOk, SizeOk, LogIs, CacheIs, CachePart, Slice, LogKnown, Consecutive;
      CacheKnown(log, cache, cacheSize, lastIndex);
      out := Search(from, wanted);
    }

    method Search(from: int, wanted: nat) returns (out: seq<Entry>)
      requires FilesOk() && SizeOk() && Consecutive(log) && LogKnown(log)
      requires CachePart(log, cache)
      requires from > 0 && wanted > 0
      modifies current, logfiles
      ensures FilesOk() && SizeOk() && out == Slice(log, from, wanted)
    {
      hide FilesOk, SizeOk, Flatten, Slice, Searching, Past, CachePart, Consecutive, LogKnown;
      SearchStarts(log, from, wanted);
      var index, count := from, wanted;
      out, index, count := SearchCache([], index, count, from, wanted, 0);
      if count != 0 {
        out, index, count := SearchSegments(out, index, count, from, wanted);
      }
      if count != 0 {
        out, index, count := SearchCache(out, index, count, from, wanted, |Flatten(segs)|);
      }
      if count == 0 {
        SearchFull(log, out, index, from, wanted);
      } else {
        out, index, count := SearchCurrent(out, index, count, from, wanted);
        SearchDone(log, out, index, count, from, wanted);
      }
    }

    // The loop over the segments that were put away; each is preceded by another look into the cache.
    method SearchSegments(list: seq<Entry>, at: int, left: nat, ghost from: int, ghost wanted: nat)
      returns (out: seq<Entry>, index: int, count: nat)
      requires FilesOk() && SizeOk() && Consecutive(log) && LogKnown(log)
      requires CachePart(log, cache)
      requires left > 0 && at > 0 && Searching(log, list, at, left, from, wanted) && Past(log, 0, at, left)
      modifies logfiles
      ensures FilesOk() && SizeOk() && index >= at
      ensures Searching(log, out, index, count, from, wanted) && Past(log, |Flatten(segs)|, index, count)
    {
      hide Sealed, Flatten, File.Valid, Slice, Searching, Past, CachePart, Consecutive, LogKnown, FilesOk, SizeOk;
      AllSegments();
      FlattenNone();
      out, index, count := list, at, left;
      for j := 0 to |logfiles|
        invariant FilesOk() && SizeOk() && count > 0 && index >= at && |segs| == |logfiles|
        invariant Searching(log, out, index, count, from, wanted) && Past(log, |Flatten(segs[..j])|, index, count)
      {
        out, index, count := SearchCache(out, index, count, from, wanted, |Flatten(segs[..j])|);
        if count != 0 {
          out, index, count := SearchSegment(j, out, index, count, from, wanted);
        }
        if count == 0 {
          FoundAll(log, |Flatten(segs)|, index);
          return;
        }
      }
    }

    method SearchCache(list: seq<Entry>, at: int, left: nat, ghost from: int, ghost wanted: nat, ghost past: nat)
      returns (out: seq<Entry>, index: int, count: nat)
      requires Consecutive(log) && LogKnown(log)
      requires CachePart(log, cache)
      requires Searching(log, list, at, left, from, wanted) && Past(log, past, at, left) && left > 0 && at > 0
      ensures Searching(log, out, index, count, from, wanted) && Past(log, past, index, count) && index >= at
    {
      hide Consecutive, Slice, Searching, Past;
      SearchPart(log, |log| - |cache|, cache, list, at, left, from, wanted);
      StaysPast(log, past, at, left, |Slice(cache, at, left)|);
      out, index, count := GetEntriesFromCache(list, at, left);
    }

    method SearchSegment(j: nat, list: seq<Entry>, at: int, left: nat, ghost from: int, ghost wanted: nat)
      returns (out: seq<Entry>, index: int, count: nat)
      requires FilesOk() && SizeOk() && Consecutive(log) && LogKnown(log) && left > 0 && at > 0
      requires j < |logfiles| == |segs|
      requires Searching(log, list, at, left, from, wanted) && Past(log, |Flatten(segs[..j])|, at, left)
      modifies logfiles[j]
      ensures FilesOk() && SizeOk() && index >= at && |segs| == |logfiles|
      ensures Searching(log, out, index, count, from, wanted) && Past(log, |Flatten(segs[..j + 1])|, index, count)
    {
      hide Sealed, Flatten, File.Valid, Consecutive, Slice, Searching, Past;
      SegmentKnown(j);
      SearchPart(log, |Flatten(segs[..j])|, segs[j], list, at, left, from, wanted);
      out, index, count := list, at, left;
      var start, last := SegmentBounds(j);
      if start <= index && index <= last {
        index, count, out := SegmentEntries(j, at, left, list);
      } else {
        NothingThere(segs[j], at, left);
        assert list + [] == list;
      }
    }

    method SearchCurrent(list: seq<Entry>, at: int, left: nat, ghost from: int, ghost wanted: nat)
      returns (out: seq<Entry>, index: int, count: nat)
      requires FilesOk() && SizeOk() && Consecutive(log) && LogKnown(log) && left > 0 && at > 0
      requires Searching(log, list, at, left, from, wanted) && Past(log, |Flatten(segs)|, at, left)
      modifies current
      ensures FilesOk() && SizeOk()
      ensures Searching(log, out, index, count, from, wanted) && Past(log, |log|, index, count)
    {
      hide Sealed, Flatten, Consecutive, Slice, Searching, Past, File.Valid, Remembered, PartAt;
      CurrentKnown();
      TellIs(current);
      SearchLast(log, |Flatten(segs)|, current.entries, list, at, left, from, wanted);
      out, index, count := list, at, left;
      if isOpen {
        var last := current.GetLastLogIndex();
        var start := current.GetLogStart();
        if index <= last && start <= index {
          CurrentHas(current, index, start, last);
          var threw;
          threw, index, count, out := current.GetEntries(at, left, list);
          TellIs(current);
          return;
        }
        TellIs(current);
      }
    }

    lemma AllSegments()
      requires FilesOk()
      ensures |segs| == |logfiles| && segs[..|logfiles|] == segs
    {
    }
  }

  lemma TellIs(f: File)
    requires f.Valid()
    ensures f.Tell() == |Records(f.entries)| && Consecutive(f.entries) && LogKnown(f.entries)
  {
    hide Records;
    LogLast(f.entries);
  }

  lemma CurrentHas(f: File, index: int, start: int, last: int)
    requires start == First(f.entries) && last == Last(f.entries) && start <= index <= last && index > 0
    ensures Has(f.entries, index)
  {
  }

  lemma SegmentHas(es: seq<Entry>, index: int)
    requires First(es) <= index <= Last(es) && index > 0
    ensures Has(es, index)
  {
  }

  lemma SegmentHasNot(es: seq<Entry>, index: int)
    requires !(First(es) <= index <= Last(es))
    ensures !Has(es, index)
  {
  }

  lemma FoundAll(log: seq<Entry>, past: nat, index: int)
    ensures Past(log, past, index, 0)
  {
  }

  lemma FlattenNone()
    ensures forall segs: seq<seq<Entry>> :: Flatten(segs[..0]) == []
  {
  }

  // The last part of the log is searched, or has nothing.
  lemma SearchLast(log: seq<Entry>, a: nat, part: seq<Entry>, list: seq<Entry>, at: int, left: nat, from: int, wanted: nat)
    requires Consecutive(log) && LogKnown(log) && PartAt(log, a, part) && a + |part| == |log| && left > 0
    requires Searching(log, list, at, left, from, wanted) && Past(log, a, at, left)
    ensures LogKnown(part) && |Slice(part, at, left)| <= left
    ensures Searching(log, list + Slice(part, at, left), at + |Slice(part, at, left)|, left - |Slice(part, at, left)|, from, wanted)
    ensures Past(log, |log|, at + |Slice(part, at, left)|, left - |Slice(part, at, left)|)
    ensures !Has(part, at) ==> Past(log, |log|, at, left)
  {
    SearchPart(log, a, part, list, at, left, from, wanted);
  }

  lemma FoundInPart(log: seq<Entry>, a: nat, part: seq<Entry>, index: int)
    requires LogKnown(log) && PartAt(log, a, part) && Has(part, index)
    ensures Has(log, index) && index - First(part) < |part|
    ensures part[index - First(part)] == log[index - First(log)]
  {
  }

  lemma NotInPart(log: seq<Entry>, a: nat, part: seq<Entry>, index: int)
    requires LogKnown(log) && PartAt(log, a, part) && !Has(part, index) && Past(log, a, index, 1)
    ensures Past(log, a + |part|, index, 1)
    ensures a + |part| == |log| ==> !Has(log, index)
  {
  }

  lemma SearchStarts(log: seq<Entry>, from: int, wanted: nat)
    requires LogKnown(log)
    ensures Searching(log, [], from, wanted, from, wanted) && Past(log, 0, from, wanted)
  {
    assert [] + Slice(log, from, wanted) == Slice(log, from, wanted);
  }

  lemma SearchFull(log: seq<Entry>, out: seq<Entry>, index: int, from: int, wanted: nat)
    requires LogKnown(log) && Searching(log, out, index, 0, from, wanted)
    ensures out == Slice(log, from, wanted)
  {
    SearchDone(log, out, index, 0, from, wanted);
  }

  function Taken(j: nat, k0: nat): nat { if j <= k0 then 0 else j - k0 }

  lemma LogHas(log: seq<Entry>, lastIndex: int)
    requires LogIs(log, lastIndex)
    ensures Consecutive(log) && AllOk(log) && lastIndex == Last(log)
    ensures log != [] ==> First(log) > 0
  {
    if log != [] { assert EntryOk(log[0]); }
  }

  lemma NewEntry(log: seq<Entry>, entry: Entry, e: Entry)
    requires Consecutive(log) && AllOk(log) && Last(log) + 1 < INDEX_LIMIT && EntryOk(entry.(index := 1))
    requires entry.index == 0 || (if log == [] then 0 < entry.index < INDEX_LIMIT else entry.index == Last(log) + 1)
    requires e == if entry.index == 0 then entry.(index := Last(log) + 1) else entry
    ensures EntryOk(e) && Consecutive(log + [e]) && LogIs(log + [e], e.index)
  {
    if log != [] { assert EntryOk(log[|log| - 1]) && EntryOk(log[0]); }
  }

  lemma CacheMore(log: seq<Entry>, cache: seq<Entry>, size: int, e: Entry)
    requires CacheIs(log, cache, size)
    ensures CacheIs(log + [e], cache + [e], size + Size(e))
  {
    SizeOfMore(cache, e);
  }

  lemma FlattenEmpty(segs: seq<seq<Entry>>, last: seq<Entry>)
    ensures Flatten(segs) + last == [] ==> Flatten(segs) == [] && last == []
    ensures [] + last == last
  {
  }

  // What the last segment ends with is what the log ends with.
  lemma EndsWith(front: seq<Entry>, last: seq<Entry>, e: Entry)
    requires Consecutive(front + last + [e])
    ensures last != [] ==> e.index == Last(last) + 1
  {
    var all := front + last + [e];
    assert all[|all| - 1] == e;
    if last != [] { assert all[|all| - 2] == last[|last| - 1]; }
  }

  lemma NothingWritten(f: File)
    requires f.Valid()
    ensures f.entries == [] ==> f.Tell() == 0
  {
  }

  lemma KeysAscend(segs: seq<seq<Entry>>, last: seq<Entry>)
    requires Consecutive(Flatten(segs) + last) && last != []
    requires forall i :: 0 <= i < |segs| ==> segs[i] != []
    ensures forall i :: 0 <= i < |segs| ==> First(segs[i]) < First(last)
  {
    forall i | 0 <= i < |segs| ensures First(segs[i]) < First(last) {
      KeyBefore(segs, last, i);
    }
  }

  lemma KeyBefore(segs: seq<seq<Entry>>, last: seq<Entry>, i: nat)
    requires Consecutive(Flatten(segs) + last) && last != [] && i < |segs| && segs[i] != []
    ensures First(segs[i]) < First(last)
  {
    SegmentIsPart(segs, last, i);
    FlattenPrefix(segs, i + 1);
    hide Flatten, Consecutive;
    var log, a, b := Flatten(segs) + last, |Flatten(segs[..i])|, |Flatten(segs)|;
    assert log[a] == log[a..a + |segs[i]|][0] == segs[i][0];
    assert log[b] == last[0];
    Ascends(log, a, b);
  }

  lemma Ascends(log: seq<Entry>, a: nat, b: nat)
    requires Consecutive(log) && a < b < |log|
    ensures log[a].index < log[b].index
  {
  }
}
