/** The metadata store as it runs: two maps, and two files as the bytes in them. */
module MetadataStore {
  import opened Options
  import opened Bytes
  import opened Buffers
  import M = Metadata

  // --- Building a record ---

  method PutText(data: array<byte>, offset: nat, s: M.Text, ghost bs: seq<byte>) returns (p: nat)
    requires |s| < M.LIMIT && offset + 4 + |s| <= data.Length && Filled(data[..], offset, bs)
    modifies data
    ensures p == offset + 4 + |s| && Filled(data[..], p, bs + M.PutString(s))
  {
    hide Filled, BE;
    Put32(data, offset, |s|, bs);
    p := CopyBytes(data, offset + 4, s, bs + BE(|s|, 4));
    assert bs + BE(|s|, 4) + s == bs + M.PutString(s);
  }

  // The two bytes in front, and the key.
  method PutHead(data: array<byte>, op: byte, t: byte, key: M.Text) returns (p: nat)
    requires |key| < M.LIMIT && 6 + |key| <= data.Length
    requires forall i :: 0 <= i < data.Length ==> data[i] == 0
    modifies data
    ensures p == 6 + |key| && Filled(data[..], p, [op, t] + M.PutString(key))
  {
    hide Filled, M.PutString;
    Fresh(data[..]);
    PutByte(data, 0, op, []);
    assert [] + [op] == [op];
    PutByte(data, 1, t, [op]);
    assert [op] + [t] == [op, t];
    p := PutText(data, 2, key, [op, t]);
  }

  method BuildLog(r: M.Record) returns (buffer: seq<byte>)
    requires M.RecordOk(r)
    ensures buffer == M.BuildLog(r)
  {
    hide Filled, M.PutString, BE;
    match r
    case SetString(key, value) =>
      var data := new byte[10 + |key| + |value|](_ => 0);
      var p := PutHead(data, 0, 0, key);
      p := PutText(data, p, value, [0, 0] + M.PutString(key));
      Cut(data[..], p, M.BuildLog(r));
      assert data[..p] == data[..];
      buffer := data[..];
    case SetInt(key, n) =>
      var data := new byte[14 + |key|](_ => 0);
      var p := PutHead(data, 0, 1, key);
      PowValues();
      Put64(data, p, ToUnsigned(n, 8), [0, 1] + M.PutString(key));
      Cut(data[..], p + 8, M.BuildLog(r));
      assert data[..p + 8] == data[..];
      buffer := data[..];
    case DelString(key) =>
      var data := new byte[6 + |key|](_ => 0);
      var p := PutHead(data, 1, 0, key);
      Cut(data[..], p, M.BuildLog(r));
      assert data[..p] == data[..];
      buffer := data[..];
    case DelInt(key) =>
      var data := new byte[6 + |key|](_ => 0);
      var p := PutHead(data, 1, 1, key);
      Cut(data[..], p, M.BuildLog(r));
      assert data[..p] == data[..];
      buffer := data[..];
  }

  method Length4(n: nat) returns (buffer: seq<byte>)
    ensures buffer == BE(n, 4)
  {
    hide Filled, BE;
    var data := new byte[4](_ => 0);
    Fresh(data[..]);
    Put32(data, 0, n, []);
    assert [] + BE(n, 4) == BE(n, 4);
    Cut(data[..], 4, BE(n, 4));
    assert data[..4] == data[..];
    buffer := data[..];
  }

  // --- Writing the maps ---

  method AppendRecord(file: seq<byte>, r: M.Record, ghost rs: seq<M.Record>) returns (file': seq<byte>)
    requires M.RecordsOk(rs) && file == M.Frames(rs) && M.RecordOk(r)
    ensures M.RecordsOk(rs + [r]) && file' == M.Frames(rs + [r])
  {
    hide M.BuildLog, M.RecordOk, M.RecordsOk, BE;
    var log := BuildLog(r);
    var length := Length4(|log|);
    file' := file + length;
    file' := file' + log;
    M.FramesOne(r);
    M.FramesBoth(rs, [r]);
    assert file + length + log == file + (length + log);
  }

  predicate StringsOk(m: map<M.Text, M.Text>) {
    forall key :: key in m ==> M.RecordOk(M.SetString(key, m[key]))
  }

  predicate IntsOk(m: map<M.Text, int>) {
    forall key :: key in m ==> M.RecordOk(M.SetInt(key, m[key]))
  }

  // The part of a map that is written when the keys in `keys` are still to come.
  ghost predicate Part<V(!new)>(done: map<M.Text, V>, m: map<M.Text, V>, keys: set<M.Text>) {
    keys <= m.Keys && done.Keys == m.Keys - keys && forall key :: key in done ==> done[key] == m[key]
  }

  lemma PartNone<V(!new)>(m: map<M.Text, V>, start: map<M.Text, V>)
    ensures Part(map[], m, m.Keys) && start + map[] == start
  {
  }

  lemma InPart<V(!new)>(done: map<M.Text, V>, m: map<M.Text, V>, keys: set<M.Text>)
    requires Part(done, m, keys)
    ensures keys <= m.Keys
  {
  }

  lemma PartMore<V(!new)>(done: map<M.Text, V>, m: map<M.Text, V>, keys: set<M.Text>, key: M.Text, start: map<M.Text, V>)
    requires Part(done, m, keys) && key in keys
    ensures Part(done[key := m[key]], m, keys - {key})
    ensures (start + done)[key := m[key]] == start + done[key := m[key]]
  {
  }

  lemma PartAll<V(!new)>(done: map<M.Text, V>, m: map<M.Text, V>)
    requires Part(done, m, {})
    ensures done == m
  {
    assert done.Keys == m.Keys;
  }

  method WriteStrings(file: seq<byte>, m: map<M.Text, M.Text>, ghost rs: seq<M.Record>, ghost base: M.Maps)
    returns (file': seq<byte>, ghost rs': seq<M.Record>)
    requires M.RecordsOk(rs) && file == M.Frames(rs) && StringsOk(m)
    ensures M.RecordsOk(rs') && file' == M.Frames(rs')
    ensures M.Load(file', base) == M.Loaded(M.Maps(M.ApplyAll(rs, base).strings + m, M.ApplyAll(rs, base).ints))
    ensures M.ApplyAll(rs', base) == M.Maps(M.ApplyAll(rs, base).strings + m, M.ApplyAll(rs, base).ints)
  {
    file', rs' := file, rs;
    var keys := m.Keys;
    ghost var start, done := M.ApplyAll(rs, base), map[];
    PartNone(m, start.strings);
    while keys != {}
      invariant Part(done, m, keys) && M.RecordsOk(rs') && file' == M.Frames(rs')
      invariant M.ApplyAll(rs', base) == M.Maps(start.strings + done, start.ints)
      decreases |keys|
    {
      hide M.RecordsOk, M.Frames, M.RecordOk, M.ApplyAll, Part;
      InPart(done, m, keys);
      var key :| key in keys;
      var r := M.SetString(key, m[key]);
      file' := AppendRecord(file', r, rs');
      OneMore(rs', r, base);
      rs' := rs' + [r];
      PartMore(done, m, keys, key, start.strings);
      done := done[key := m[key]];
      keys := keys - {key};
    }
    PartAll(done, m);
    M.FileRoundTrip(rs', base);
  }

  method WriteInts(file: seq<byte>, m: map<M.Text, int>, ghost rs: seq<M.Record>, ghost base: M.Maps)
    returns (file': seq<byte>, ghost rs': seq<M.Record>)
    requires M.RecordsOk(rs) && file == M.Frames(rs) && IntsOk(m)
    ensures M.RecordsOk(rs') && file' == M.Frames(rs')
    ensures M.Load(file', base) == M.Loaded(M.Maps(M.ApplyAll(rs, base).strings, M.ApplyAll(rs, base).ints + m))
    ensures M.ApplyAll(rs', base) == M.Maps(M.ApplyAll(rs, base).strings, M.ApplyAll(rs, base).ints + m)
  {
    file', rs' := file, rs;
    var keys := m.Keys;
    ghost var start, done := M.ApplyAll(rs, base), map[];
    PartNone(m, start.ints);
    while keys != {}
      invariant Part(done, m, keys) && M.RecordsOk(rs') && file' == M.Frames(rs')
      invariant M.ApplyAll(rs', base) == M.Maps(start.strings, start.ints + done)
      decreases |keys|
    {
      hide M.RecordsOk, M.Frames, M.RecordOk, M.ApplyAll, Part;
      InPart(done, m, keys);
      var key :| key in keys;
      var r := M.SetInt(key, m[key]);
      file' := AppendRecord(file', r, rs');
      OneMore(rs', r, base);
      rs' := rs' + [r];
      PartMore(done, m, keys, key, start.ints);
      done := done[key := m[key]];
      keys := keys - {key};
    }
    PartAll(done, m);
    M.FileRoundTrip(rs', base);
  }

  lemma OneMore(rs: seq<M.Record>, r: M.Record, base: M.Maps)
    ensures M.ApplyAll(rs + [r], base) == M.Apply(r, M.ApplyAll(rs, base))
  {
    M.ApplyBoth(rs, [r], base);
    assert [r][1..] == [];
    assert M.ApplyAll([r], M.ApplyAll(rs, base)) == M.ApplyAll([], M.Apply(r, M.ApplyAll(rs, base)));
  }

  // --- Loading ---

  method TakeString(buf: seq<byte>, pos: nat) returns (s: M.Text, next: nat)
    requires pos <= |buf| && M.GetString(buf[pos..]).Some?
    ensures pos <= next <= |buf| && M.GetString(buf[pos..]) == Some(M.Taken(s, buf[next..]))
  {
    hide FromBE;
    assert buf[pos..][..4] == buf[pos..pos + 4];
    var len := FromBE(buf[pos..pos + 4]);
    next := pos + 4 + len;
    s := buf[pos + 4..next];
    assert buf[pos..][4..4 + len] == s && buf[pos..][4 + len..] == buf[next..];
  }

  class MetadataFile {
    var index: nat
    var maxLogFile: nat
    var stringMap: map<M.Text, M.Text>
    var integralMap: map<M.Text, int>
    // the files of the current index
    var snapshotFile: seq<byte>
    var logFile: seq<byte>
    ghost var store: M.Store

    constructor (maxLog: nat)
      ensures Valid() && store == M.Opened(M.EMPTY, maxLog)
    {
      index, maxLogFile, stringMap, integralMap, snapshotFile, logFile := 1, maxLog, map[], map[], [], [];
      store := M.Opened(M.EMPTY, maxLog);
    }

    function Mem(): M.Maps
      reads this
    {
      M.Maps(stringMap, integralMap)
    }

    /** The files hold what the machine says. */
    ghost predicate Valid()
      reads this
    {
      && store.mem == Mem() && store.maxLog == maxLogFile
      && StringsOk(stringMap) && IntsOk(integralMap)
      && M.Load(snapshotFile, M.EMPTY) == M.Loaded(store.snapshot)
      && M.RecordsOk(store.log) && logFile == M.Frames(store.log) && |logFile| == store.logBytes
    }

    method MakeSnapshot()
      requires StringsOk(stringMap) && IntsOk(integralMap)
      modifies this`index, this`snapshotFile, this`logFile
      ensures logFile == [] && M.Load(snapshotFile, M.EMPTY) == M.Loaded(Mem())
    {
      hide M.Load, M.ApplyAll, M.Frames, M.RecordsOk, StringsOk, IntsOk;
      index := index + 1;
      M.NothingLogged(M.EMPTY);
      NoFrames();
      var file, rs := WriteStrings([], stringMap, [], M.EMPTY);
      file, rs := WriteInts(file, integralMap, rs, M.EMPTY);
      M.FileRoundTrip(rs, M.EMPTY);
      assert M.EMPTY.strings + stringMap == stringMap && M.EMPTY.ints + integralMap == integralMap;
      snapshotFile := file;
      logFile := [];
    }

    method WriteLog(r: M.Record)
      requires Valid() && M.RecordOk(r)
      modifies this`index, this`snapshotFile, this`logFile, this`store
      ensures Valid() && store == M.WriteLog(old(store), r)
      ensures var size := |old(logFile)| + 4 + |M.BuildLog(r)|;
        if size < maxLogFile then snapshotFile == old(snapshotFile) && |logFile| == size
        else logFile == [] && M.Load(snapshotFile, M.EMPTY) == M.Loaded(Mem())
    {
      hide M.Load, M.Frames, M.RecordsOk, M.RecordOk, StringsOk, IntsOk;
      M.BuildLogLength(r);
      FrameLength(store.log, r);
      logFile := AppendRecord(logFile, r, store.log);
      store := store.(log := store.log + [r], logBytes := store.logBytes + M.FrameSize(r));
      TryMakeSnapshot();
    }

    method TryMakeSnapshot()
      requires Valid()
      modifies this`index, this`snapshotFile, this`logFile, this`store
      ensures Valid() && store == if maxLogFile <= old(store.logBytes) then M.MakeSnapshot(old(store)) else old(store)
      ensures if |old(logFile)| < maxLogFile then snapshotFile == old(snapshotFile) && logFile == old(logFile)
        else logFile == [] && M.Load(snapshotFile, M.EMPTY) == M.Loaded(Mem())
    {
      hide M.Load, M.Frames, M.RecordsOk, StringsOk, IntsOk;
      if maxLogFile > |logFile| { return; }
      MakeSnapshot();
      store := M.MakeSnapshot(store);
      NoFrames();
    }

    method SetText(key: M.Text, value: M.Text)
      requires Valid() && M.RecordOk(M.SetString(key, value))
      modifies this
      ensures Valid() && store == M.Step(old(store), M.Set(M.SetString(key, value)))
      ensures stringMap == old(stringMap)[key := value] && integralMap == old(integralMap)
      ensures var size := |old(logFile)| + 14 + |key| + |value|;
        if size < maxLogFile then |logFile| == size && snapshotFile == old(snapshotFile) else logFile == []
    {
      hide M.Load, M.Frames, M.RecordsOk, M.RecordOk, M.WriteLog;
      ghost var r := M.SetString(key, value);
      ghost var s := store;
      WriteLog(M.SetString(key, value));
      WriteLogKeeps(s, r);
      stringMap := stringMap[key := value];
      store := M.Step(s, M.Set(r));
    }

    method SetNumber(key: M.Text, value: int)
      requires Valid() && M.RecordOk(M.SetInt(key, value))
      modifies this
      ensures Valid() && store == M.Step(old(store), M.Set(M.SetInt(key, value)))
      ensures integralMap == old(integralMap)[key := value] && stringMap == old(stringMap)
      ensures var size := |old(logFile)| + 18 + |key|;
        if size < maxLogFile then |logFile| == size && snapshotFile == old(snapshotFile) else logFile == []
    {
      hide M.Load, M.Frames, M.RecordsOk, M.RecordOk, M.WriteLog;
      ghost var r := M.SetInt(key, value);
      ghost var s := store;
      WriteLog(M.SetInt(key, value));
      WriteLogKeeps(s, r);
      integralMap := integralMap[key := value];
      store := M.Step(s, M.Set(r));
    }

    method Del(key: M.Text) returns (found: bool)
      requires Valid()
      modifies this
      ensures Valid() && store == M.Step(old(store), M.Del(key))
      ensures found <==> key in old(stringMap) || key in old(integralMap)
      ensures stringMap == old(stringMap) - {key} && integralMap == old(integralMap) - {key}
      ensures !found ==> logFile == old(logFile) && snapshotFile == old(snapshotFile)
    {
      hide M.Load, M.Frames, M.RecordsOk, M.RecordOk, M.WriteLog;
      found := false;
      ghost var s := store;
      if key in stringMap {
        found := true;
        KeyFits(key);
        stringMap := stringMap - {key};
      }
      if key in integralMap {
        found := true;
        KeyFits(key);
        integralMap := integralMap - {key};
      }
      if found {
        assert M.Maps(stringMap, integralMap) == M.Erase(s.mem, key);
        store := s.(mem := M.Erase(s.mem, key), out := if s.out.Lost? && s.out.at.key == key then M.Nothing else s.out);
        WriteLog(M.DelString(key));
        WriteLog(M.DelInt(key));
      }
    }

    lemma KeyFits(key: M.Text)
      requires StringsOk(stringMap) && IntsOk(integralMap) && (key in stringMap || key in integralMap)
      ensures M.RecordOk(M.DelString(key)) && M.RecordOk(M.DelInt(key))
    {
      if key in stringMap { assert M.RecordOk(M.SetString(key, stringMap[key])); }
      if key in integralMap { assert M.RecordOk(M.SetInt(key, integralMap[key])); }
    }

    method Clear()
      requires Valid()
      modifies this
      ensures Valid() && store == M.Step(old(store), M.Clear)
      ensures stringMap == map[] && integralMap == map[] && snapshotFile == [] && logFile == []
    {
      stringMap, integralMap := map[], map[];
      snapshotFile, logFile := [], [];
      store := M.Step(store, M.Clear);
    }

    /** What the destructor does: a snapshot without a record before it. */
    method Close()
      requires Valid()
      modifies this
      ensures Valid() && store == M.Step(old(store), M.Snapshot).(maxLog := 0) && M.Disk(store) == Mem()
      ensures stringMap == old(stringMap) && integralMap == old(integralMap)
    {
      hide M.Load, M.Frames, M.RecordsOk, StringsOk, IntsOk;
      maxLogFile := 0;
      MakeSnapshot();
      store := M.Step(store, M.Snapshot).(maxLog := 0);
      NoFrames();
    }

    method GetText(key: M.Text) returns (found: bool, value: M.Text)
      requires Valid()
      ensures (found <==> key in stringMap) && (found ==> value == stringMap[key])
    {
      if key !in stringMap { return false, []; }
      return true, stringMap[key];
    }

    method GetNumber(key: M.Text) returns (found: bool, value: int)
      requires Valid()
      ensures (found <==> key in integralMap) && (found ==> value == integralMap[key])
    {
      if key !in integralMap { return false, 0; }
      return true, integralMap[key];
    }

    /** The snapshot handed to another node has the strings only: whatever was there keeps its numbers. */
    method WriteSnapshot(ghost base: M.Maps) returns (data: seq<byte>)
      requires Valid()
      ensures M.Load(data, base) == M.Loaded(M.Maps(base.strings + stringMap, base.ints))
    {
      hide M.Load, M.ApplyAll, M.Frames, M.RecordsOk, IntsOk;
      M.NothingLogged(base);
      NoFrames();
      ghost var rs;
      data, rs := WriteStrings([], stringMap, [], base);
      M.FileRoundTrip(rs, base);
    }

    /** load_fstream: the records of a file are applied to the maps in order. */
    method LoadStream(file: seq<byte>) returns (threw: bool)
      requires !M.Load(file, Mem()).Overrun?
      modifies this`stringMap, this`integralMap
      ensures threw <==> M.Load(file, old(Mem())).Thrown?
      ensures !threw ==> M.Load(file, old(Mem())) == M.Loaded(Mem())
    {
      hide M.LoadRecord, FromBE;
      var pos := 0;
      assert file[0..] == file;
      ghost var m := Mem();
      while pos < |file|
        invariant 0 <= pos <= |file| && M.Load(file, m) == M.Load(file[pos..], Mem())
      {
        if |file| - pos < 4 { return true; }
        assert file[pos..][..4] == file[pos..pos + 4];
        var len := FromBE(file[pos..pos + 4]);
        if |file| - pos - 4 < len { return true; }
        var buffer := file[pos + 4..pos + 4 + len];
        assert file[pos..][4..4 + len] == buffer && file[pos..][4 + len..] == file[pos + 4 + len..];
        ReadRecord(buffer);
        pos := pos + 4 + len;
      }
      threw := false;
    }

    method ReadRecord(buf: seq<byte>)
      requires M.LoadRecord(buf, Mem()).Some?
      modifies this`stringMap, this`integralMap
      ensures M.LoadRecord(buf, old(Mem())) == Some(Mem())
    {
      hide M.GetString, FromBE;
      var op, t := buf[0], buf[1];
      if t == 0 {
        if op == 0 {
          var key, pos := TakeString(buf, 2);
          var value, next := TakeString(buf, pos);
          stringMap := stringMap[key := value];
        } else if op == 1 {
          var key, pos := TakeString(buf, 2);
          stringMap := stringMap - {key};
        }
      } else if t == 1 {
        if op == 0 {
          var key, pos := TakeString(buf, 2);
          assert buf[pos..][..8] == buf[pos..pos + 8];
          integralMap := integralMap[key := ToSigned(FromBE(buf[pos..pos + 8]), 8)];
        } else if op == 1 {
          var key, pos := TakeString(buf, 2);
          integralMap := integralMap - {key};
        }
      }
    }
  }

  lemma NoFrames()
    ensures M.RecordsOk([]) && M.Frames([]) == []
  {
  }

  lemma FrameLength(rs: seq<M.Record>, r: M.Record)
    requires M.RecordsOk(rs) && M.RecordOk(r)
    ensures M.RecordsOk(rs + [r]) && |M.Frames(rs + [r])| == |M.Frames(rs)| + M.FrameSize(r)
  {
    hide M.BuildLog, M.RecordOk, M.RecordsOk, BE;
    M.FramesOne(r);
    M.FramesBoth(rs, [r]);
    M.BuildLogLength(r);
  }

  lemma WriteLogKeeps(s: M.Store, r: M.Record)
    ensures M.WriteLog(s, r).mem == s.mem && M.WriteLog(s, r).maxLog == s.maxLog
  {
  }

  /** A restart: the snapshot, then the log; what is loaded is what the machine says is on disk. */
  method Restart(f: MetadataFile) returns (g: MetadataFile)
    requires f.Valid()
    ensures g.Mem() == M.Disk(f.store)
  {
    hide M.Load, M.Frames;
    g := new MetadataFile(f.maxLogFile);
    g.stringMap, g.integralMap := map[], map[];
    M.FileRoundTrip(f.store.log, f.store.snapshot);
    var threw := g.LoadStream(f.snapshotFile);
    threw := g.LoadStream(f.logFile);
  }
}
