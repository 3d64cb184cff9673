/**
 The store of the Raft metadata: two maps in memory, a snapshot file and a log file.  A record is written before
 the map is changed, and writing it may compact; what a restart would load is compared with what is in memory.
 */
module Metadata {
  import opened Options
  import opened Bytes

  type Text = seq<byte>

  datatype Maps = Maps(strings: map<Text, Text>, ints: map<Text, int>)
  const EMPTY := Maps(map[], map[])

  datatype Record =
    | SetString(key: Text, value: Text)
    | SetInt(key: Text, n: int)
    | DelString(key: Text)
    | DelInt(key: Text)

  function Apply(r: Record, m: Maps): Maps {
    match r
    case SetString(key, value) => m.(strings := m.strings[key := value])
    case SetInt(key, n) => m.(ints := m.ints[key := n])
    case DelString(key) => m.(strings := m.strings - {key})
    case DelInt(key) => m.(ints := m.ints - {key})
  }

  function ApplyAll(rs: seq<Record>, m: Maps): Maps {
    if rs == [] then m else ApplyAll(rs[1..], Apply(rs[0], m))
  }

  lemma {:induction false} ApplyBoth(xs: seq<Record>, ys: seq<Record>, m: Maps)
    ensures ApplyAll(xs + ys, m) == ApplyAll(ys, ApplyAll(xs, m))
  {
    if xs == [] {
      assert xs + ys == ys;
    } else {
      assert (xs + ys)[1..] == xs[1..] + ys;
      ApplyBoth(xs[1..], ys, Apply(xs[0], m));
    }
  }

  // --- Records as bytes ---

  const LIMIT := 0x1_0000_0000

  predicate RecordOk(r: Record) {
    match r
    case SetString(key, value) => |key| + |value| + 10 < LIMIT
    case SetInt(key, n) => |key| + 14 < LIMIT && FitsSigned(n, 8)
    case DelString(key) => |key| + 6 < LIMIT
    case DelInt(key) => |key| + 6 < LIMIT
  }

  function PutString(s: Text): seq<byte> { BE(|s|, 4) + s }

  function PutInt(n: int): seq<byte>
    requires FitsSigned(n, 8)
  {
    BE(ToUnsigned(n, 8), 8)
  }

  function BuildLog(r: Record): seq<byte>
    requires RecordOk(r)
  {
    match r
    case SetString(key, value) => [0, 0] + PutString(key) + PutString(value)
    case SetInt(key, n) => [0, 1] + PutString(key) + PutInt(n)
    case DelString(key) => [1, 0] + PutString(key)
    case DelInt(key) => [1, 1] + PutString(key)
  }

  function Frame(r: Record): seq<byte>
    requires RecordOk(r)
  {
    BE(|BuildLog(r)|, 4) + BuildLog(r)
  }

  ghost predicate RecordsOk(rs: seq<Record>)
    ensures RecordsOk(rs) && rs != [] ==> RecordOk(rs[0]) && RecordsOk(rs[1..])
  {
    forall r :: r in rs ==> RecordOk(r)
  }

  ghost function Frames(rs: seq<Record>): seq<byte>
    requires RecordsOk(rs)
  {
    if rs == [] then [] else Frame(rs[0]) + Frames(rs[1..])
  }

  lemma {:induction false} FramesBoth(xs: seq<Record>, ys: seq<Record>)
    requires RecordsOk(xs) && RecordsOk(ys)
    ensures RecordsOk(xs + ys) && Frames(xs + ys) == Frames(xs) + Frames(ys)
  {
    if xs == [] {
      assert xs + ys == ys;
    } else {
      hide Frame;
      assert (xs + ys)[1..] == xs[1..] + ys;
      FramesBoth(xs[1..], ys);
    }
  }

  lemma FramesOne(r: Record)
    requires RecordOk(r)
    ensures RecordsOk([r]) && Frames([r]) == Frame(r)
  {
    hide Frame;
    assert [r][1..] == [];
  }

  // --- Loading ---

  // Overrun: a record is shorter than its fields say; the program would read past its buffer.
  datatype Loaded = Loaded(maps: Maps) | Thrown | Overrun

  datatype Taken = Taken(s: Text, rest: seq<byte>)

  function GetString(buf: seq<byte>): Option<Taken> {
    if |buf| < 4 || |buf| < 4 + FromBE(buf[..4]) then None
    else Some(Taken(buf[4..4 + FromBE(buf[..4])], buf[4 + FromBE(buf[..4])..]))
  }

  // What one record does to the maps; None is an overrun.  Other types and operations are passed over.
  function LoadRecord(buf: seq<byte>, m: Maps): Option<Maps> {
    if |buf| < 2 then None
    else if buf[0] > 1 || buf[1] > 1 then Some(m)
    else
      var key :- GetString(buf[2..]);
      if buf[0] == 1 then Some(Apply(if buf[1] == 0 then DelString(key.s) else DelInt(key.s), m))
      else if buf[1] == 0 then
        var value :- GetString(key.rest);
        Some(Apply(SetString(key.s, value.s), m))
      else if |key.rest| < 8 then None
      else Some(Apply(SetInt(key.s, ToSigned(FromBE(key.rest[..8]), 8)), m))
  }

  function Load(bytes: seq<byte>, m: Maps): Loaded
    decreases |bytes|
  {
    if bytes == [] then Loaded(m)
    else if |bytes| < 4 || |bytes| < 4 + FromBE(bytes[..4]) then Thrown
    else
      match LoadRecord(bytes[4..4 + FromBE(bytes[..4])], m)
      case None => Overrun
      case Some(m') => Load(bytes[4 + FromBE(bytes[..4])..], m')
  }

  lemma StringRoundTrip(s: Text, rest: seq<byte>)
    requires |s| < LIMIT
    ensures GetString(PutString(s) + rest) == Some(Taken(s, rest))
  {
    hide FromBE, BE;
    var buf := PutString(s) + rest;
    PowValues();
    BERoundTrip(|s|, 4);
    assert buf[..4] == BE(|s|, 4);
    assert buf[4..4 + |s|] == s && buf[4 + |s|..] == rest;
  }

  lemma IntRoundTrip(n: int)
    requires FitsSigned(n, 8)
    ensures |PutInt(n)| == 8 && ToSigned(FromBE(PutInt(n)), 8) == n
  {
    hide FromBE, BE, Pow;
    BERoundTrip(ToUnsigned(n, 8), 8);
  }

  /** A record is read back as it was built. */
  lemma RecordRoundTrip(r: Record, m: Maps)
    requires RecordOk(r)
    ensures LoadRecord(BuildLog(r), m) == Some(Apply(r, m))
  {
    hide GetString, PutString, PutInt, Apply;
    var buf := BuildLog(r);
    match r {
      case SetString(key, value) =>
        assert buf[2..] == PutString(key) + PutString(value);
        StringRoundTrip(key, PutString(value));
        assert PutString(value) + [] == PutString(value);
        StringRoundTrip(value, []);
      case SetInt(key, n) =>
        assert buf[2..] == PutString(key) + PutInt(n);
        StringRoundTrip(key, PutInt(n));
        IntRoundTrip(n);
        assert PutInt(n)[..8] == PutInt(n);
      case DelString(key) =>
        assert buf[2..] == PutString(key) + [];
        StringRoundTrip(key, []);
      case DelInt(key) =>
        assert buf[2..] == PutString(key) + [];
        StringRoundTrip(key, []);
    }
  }

  // What follows the two bytes a record begins with.
  function KeyAndValue(r: Record): seq<byte> {
    match r
    case SetString(key, value) => BE(|key|, 4) + key + BE(|value|, 4) + value
    case SetInt(key, n) => BE(|key|, 4) + key + BE(if n < 0 then (if n >= -MODULUS then n + MODULUS else 0) else n, 8)
    case DelString(key) => BE(|key|, 4) + key
    case DelInt(key) => BE(|key|, 4) + key
  }

  const MODULUS := 0x1_0000_0000_0000_0000

  /** The bytes of a record: what it does, to which map, the key, and the value if there is one. */
  lemma RecordBytes(r: Record)
    requires RecordOk(r)
    ensures |BuildLog(r)| >= 2
    ensures BuildLog(r)[0] == (if r.SetString? || r.SetInt? then 0 else 1) && BuildLog(r)[1] == if r.SetInt? || r.DelInt? then 1 else 0
    ensures BuildLog(r)[2..] == KeyAndValue(r)
    ensures Frame(r) == BE(|BuildLog(r)|, 4) + BuildLog(r)
  {
    hide BE, Pow;
    PowValues();
    match r {
      case SetString(key, value) => assert BuildLog(r)[2..] == PutString(key) + PutString(value);
      case SetInt(key, n) => assert BuildLog(r)[2..] == PutString(key) + PutInt(n);
      case DelString(key) => assert BuildLog(r)[2..] == PutString(key);
      case DelInt(key) => assert BuildLog(r)[2..] == PutString(key);
    }
  }

  lemma BuildLogLength(r: Record)
    requires RecordOk(r)
    ensures |BuildLog(r)| == match r
      case SetString(key, value) => |key| + |value| + 10
      case SetInt(key, _) => |key| + 14
      case DelString(key) => |key| + 6
      case DelInt(key) => |key| + 6
  {
  }

  /** A file of records loads as the records applied one after the other. */
  lemma {:induction false} FileRoundTrip(rs: seq<Record>, m: Maps)
    requires RecordsOk(rs)
    ensures Load(Frames(rs), m) == Loaded(ApplyAll(rs, m))
    decreases |rs|
  {
    if rs != [] {
      hide FromBE, BE, BuildLog, Apply, LoadRecord, RecordOk;
      var log, tail := BuildLog(rs[0]), Frames(rs[1..]);
      var bytes := Frames(rs);
      PowValues();
      LengthFits(rs[0]);
      BERoundTrip(|log|, 4);
      assert bytes == BE(|log|, 4) + log + tail;
      assert bytes[..4] == BE(|log|, 4);
      assert bytes[4..4 + |log|] == log && bytes[4 + |log|..] == tail;
      RecordRoundTrip(rs[0], m);
      FileRoundTrip(rs[1..], Apply(rs[0], m));
    }
  }

  lemma LengthFits(r: Record)
    requires RecordOk(r)
    ensures |BuildLog(r)| < LIMIT
  {
    BuildLogLength(r);
  }

  // --- The store as a machine ---

  // One place of one of the two maps.
  datatype Slot = StringAt(key: Text) | IntAt(key: Text)
  datatype Cell = Absent | Words(s: Text) | Number(n: int)

  function Get(m: Maps, at: Slot): Cell {
    match at
    case StringAt(key) => if key in m.strings then Words(m.strings[key]) else Absent
    case IntAt(key) => if key in m.ints then Number(m.ints[key]) else Absent
  }

  predicate CellOk(at: Slot, c: Cell) {
    c.Absent? || (at.StringAt? && c.Words?) || (at.IntAt? && c.Number?)
  }

  // m with the cell put back at a slot.
  function Restore(m: Maps, at: Slot, c: Cell): Maps
    requires CellOk(at, c)
  {
    match at
    case StringAt(key) => m.(strings := if c.Words? then m.strings[key := c.s] else m.strings - {key})
    case IntAt(key) => m.(ints := if c.Number? then m.ints[key := c.n] else m.ints - {key})
  }

  lemma RestoreIsSameIff(m: Maps, at: Slot, c: Cell)
    requires CellOk(at, c)
    ensures Restore(m, at, c) == m <==> Get(m, at) == c
  {
    if Get(m, at) == c {
      match at {
        case StringAt(key) => assert Restore(m, at, c).strings == m.strings;
        case IntAt(key) => assert Restore(m, at, c).ints == m.ints;
      }
    } else {
      assert Get(Restore(m, at, c), at) == c;
    }
  }

  // The last set that compacted, as long as nothing has made up for it: the slot, and what was there before.
  datatype Outstanding = Nothing | Lost(at: Slot, was: Cell)

  datatype Store = Store(mem: Maps, snapshot: Maps, log: seq<Record>, logBytes: nat, maxLog: nat, out: Outstanding)

  function SlotOf(r: Record): Slot {
    match r
    case SetString(key, _) => StringAt(key)
    case SetInt(key, _) => IntAt(key)
    case DelString(key) => StringAt(key)
    case DelInt(key) => IntAt(key)
  }

  function FrameSize(r: Record): nat {
    4 + match r
        case SetString(key, value) => |key| + |value| + 10
        case SetInt(key, _) => |key| + 14
        case DelString(key) => |key| + 6
        case DelInt(key) => |key| + 6
  }

  // make_snapshot: what is in memory now becomes the snapshot, and the log starts empty.
  function MakeSnapshot(s: Store): Store {
    s.(snapshot := s.mem, log := [], logBytes := 0, out := Nothing)
  }

  predicate Compacts(s: Store, r: Record) { s.maxLog <= s.logBytes + FrameSize(r) }

  function WriteLog(s: Store, r: Record): Store {
    var t := s.(log := s.log + [r], logBytes := s.logBytes + FrameSize(r));
    if Compacts(s, r) then MakeSnapshot(t) else t
  }

  datatype Op = Set(r: Record) | Del(key: Text) | Clear | Snapshot

  predicate OpOk(op: Op) { op.Set? ==> op.r.SetString? || op.r.SetInt? }

  function Found(m: Maps, key: Text): bool { key in m.strings || key in m.ints }

  function Erase(m: Maps, key: Text): Maps { Maps(m.strings - {key}, m.ints - {key}) }

  function Step(s: Store, op: Op): Store
    requires OpOk(op)
  {
    match op
    case Set(r) =>
      var was := Get(s.mem, SlotOf(r));
      var t := WriteLog(s, r);
      t.(mem := Apply(r, s.mem),
         out := if Compacts(s, r) then Lost(SlotOf(r), was)
                else if s.out.Lost? && s.out.at == SlotOf(r) then Nothing else s.out)
    case Del(key) =>
      if !Found(s.mem, key) then s
      else
        var e := s.(mem := Erase(s.mem, key), out := if s.out.Lost? && s.out.at.key == key then Nothing else s.out);
        WriteLog(WriteLog(e, DelString(key)), DelInt(key))
    case Clear => s.(mem := EMPTY, snapshot := EMPTY, log := [], logBytes := 0, out := Nothing)
    case Snapshot => MakeSnapshot(s)
  }

  // What a restart would load.
  function Disk(s: Store): Maps { ApplyAll(s.log, s.snapshot) }

  predicate OutOk(s: Store) {
    s.out.Lost? ==> CellOk(s.out.at, s.out.was) && Get(s.mem, s.out.at) != Absent
  }

  // What is on disk is what is in memory, but for the slot of an outstanding set, which is as it was before the set.
  predicate Agrees(s: Store) {
    OutOk(s) && Disk(s) == if s.out.Lost? then Restore(s.mem, s.out.at, s.out.was) else s.mem
  }

  lemma LoggedOnDisk(s: Store, r: Record)
    ensures Disk(s.(log := s.log + [r], logBytes := s.logBytes + FrameSize(r))) == Apply(r, Disk(s))
  {
    ApplyBoth(s.log, [r], s.snapshot);
    assert [r][1..] == [];
    assert ApplyAll([r], Disk(s)) == ApplyAll([], Apply(r, Disk(s)));
  }

  lemma RestoreThenApply(m: Maps, r: Record, at: Slot, c: Cell)
    requires CellOk(at, c) && SlotOf(r) != at
    ensures Apply(r, Restore(m, at, c)) == Restore(Apply(r, m), at, c)
    ensures Get(Apply(r, m), at) == Get(m, at)
  {
    var x, y := Apply(r, Restore(m, at, c)), Restore(Apply(r, m), at, c);
    assert x.strings == y.strings && x.ints == y.ints;
  }

  lemma RestoreThenOverwrite(m: Maps, r: Record, at: Slot, c: Cell)
    requires CellOk(at, c) && SlotOf(r) == at
    ensures Apply(r, Restore(m, at, c)) == Apply(r, m)
  {
    var x, y := Apply(r, Restore(m, at, c)), Apply(r, m);
    assert x.strings == y.strings && x.ints == y.ints;
  }

  // The snapshot a set leaves behind lacks the set.
  lemma SetUndone(m: Maps, r: Record)
    requires r.SetString? || r.SetInt?
    ensures Restore(Apply(r, m), SlotOf(r), Get(m, SlotOf(r))) == m
    ensures Get(Apply(r, m), SlotOf(r)) != Absent && CellOk(SlotOf(r), Get(m, SlotOf(r)))
  {
    var x := Restore(Apply(r, m), SlotOf(r), Get(m, SlotOf(r)));
    assert x.strings == m.strings && x.ints == m.ints;
  }

  lemma SetKeepsAgreement(s: Store, r: Record)
    requires Agrees(s) && (r.SetString? || r.SetInt?)
    ensures Agrees(Step(s, Set(r)))
  {
    hide Apply, Restore, Get, ApplyAll;
    SetUndone(s.mem, r);
    if Compacts(s, r) {
      NothingLogged(s.mem);
    } else {
      LoggedOnDisk(s, r);
      if s.out.Lost? {
        if s.out.at == SlotOf(r) {
          RestoreThenOverwrite(s.mem, r, s.out.at, s.out.was);
        } else {
          RestoreThenApply(s.mem, r, s.out.at, s.out.was);
        }
      }
    }
  }

  lemma NothingLogged(m: Maps)
    ensures ApplyAll([], m) == m
  {
  }

  // One of the two records of a del, with the key gone from memory already.
  lemma WriteDelKeepsAgreement(s: Store, r: Record, was: Maps)
    requires r.DelString? || r.DelInt?
    requires Disk(s) == was
    ensures Disk(WriteLog(s, r)) == if Compacts(s, r) then s.mem else Apply(r, was)
    ensures WriteLog(s, r).mem == s.mem && WriteLog(s, r).out == if Compacts(s, r) then Nothing else s.out
  {
    hide ApplyAll, Apply;
    if Compacts(s, r) { NothingLogged(s.mem); } else { LoggedOnDisk(s, r); }
  }

  lemma ErasedTwice(m: Maps, key: Text)
    ensures Apply(DelInt(key), Apply(DelString(key), m)) == Erase(m, key)
    ensures Apply(DelInt(key), Erase(m, key)) == Erase(m, key)
  {
    assert m.ints - {key} - {key} == m.ints - {key};
  }

  lemma RestoreThenErase(m: Maps, key: Text, at: Slot, c: Cell)
    requires CellOk(at, c)
    ensures at.key == key ==> Erase(Restore(m, at, c), key) == Erase(m, key)
    ensures at.key != key ==> Erase(Restore(m, at, c), key) == Restore(Erase(m, key), at, c)
    ensures at.key != key ==> Get(Erase(m, key), at) == Get(m, at)
  {
    var x := Erase(Restore(m, at, c), key);
    if at.key == key {
      assert x.strings == Erase(m, key).strings && x.ints == Erase(m, key).ints;
    } else {
      assert x.strings == Restore(Erase(m, key), at, c).strings && x.ints == Restore(Erase(m, key), at, c).ints;
    }
  }

  lemma DelKeepsAgreement(s: Store, key: Text)
    requires Agrees(s)
    ensures Agrees(Step(s, Del(key)))
  {
    hide Apply, Restore, Get, ApplyAll, Erase, WriteLog, Compacts;
    if Found(s.mem, key) {
      var e := s.(mem := Erase(s.mem, key), out := if s.out.Lost? && s.out.at.key == key then Nothing else s.out);
      var t := WriteLog(e, DelString(key));
      WriteDelKeepsAgreement(e, DelString(key), Disk(s));
      WriteDelKeepsAgreement(t, DelInt(key), Disk(t));
      ErasedTwice(Disk(s), key);
      ErasedTwice(s.mem, key);
      if s.out.Lost? { RestoreThenErase(s.mem, key, s.out.at, s.out.was); }
    }
  }

  lemma StepKeepsAgreement(s: Store, op: Op)
    requires Agrees(s) && OpOk(op)
    ensures Agrees(Step(s, op))
  {
    match op {
      case Set(r) => SetKeepsAgreement(s, r);
      case Del(key) => DelKeepsAgreement(s, key);
      case Clear =>
      case Snapshot =>
    }
  }

  ghost predicate OpsOk(ops: seq<Op>)
    ensures OpsOk(ops) && ops != [] ==> OpOk(ops[0]) && OpsOk(ops[1..])
  {
    forall op :: op in ops ==> OpOk(op)
  }

  ghost function Run(s: Store, ops: seq<Op>): Store
    requires OpsOk(ops)
    decreases |ops|
  {
    if ops == [] then s else Run(Step(s, ops[0]), ops[1..])
  }

  lemma {:induction false} RunKeepsAgreement(s: Store, ops: seq<Op>)
    requires Agrees(s) && OpsOk(ops)
    ensures Agrees(Run(s, ops))
    decreases |ops|
  {
    if ops != [] {
      hide Step, Agrees;
      StepKeepsAgreement(s, ops[0]);
      RunKeepsAgreement(Step(s, ops[0]), ops[1..]);
    }
  }

  function Opened(m: Maps, maxLog: nat): Store { Store(m, m, [], 0, maxLog, Nothing) }

  /** In every run, a restart would load what is in memory, but for at most one slot of one map. */
  lemma AtMostOneSlotLost(m: Maps, maxLog: nat, ops: seq<Op>)
    requires OpsOk(ops)
    ensures var s := Run(Opened(m, maxLog), ops);
      forall at: Slot :: Get(Disk(s), at) != Get(s.mem, at) ==> s.out.Lost? && s.out.at == at && Get(Disk(s), at) == s.out.was
  {
    RunKeepsAgreement(Opened(m, maxLog), ops);
    var s := Run(Opened(m, maxLog), ops);
    if s.out.Lost? {
      forall at: Slot | Get(Disk(s), at) != Get(s.mem, at) ensures s.out.at == at && Get(Disk(s), at) == s.out.was {
        OnlyThere(s.mem, s.out.at, s.out.was, at);
      }
    }
  }

  lemma OnlyThere(m: Maps, at: Slot, c: Cell, other: Slot)
    requires CellOk(at, c)
    ensures Get(Restore(m, at, c), other) == if other == at then c else Get(m, other)
  {
  }

  /** Disk and memory are the same exactly when no compacting set is outstanding or it wrote what was there before. */
  lemma DiskIsMemoryIff(m: Maps, maxLog: nat, ops: seq<Op>)
    requires OpsOk(ops)
    ensures var s := Run(Opened(m, maxLog), ops);
      Disk(s) == s.mem <==> s.out.Nothing? || Get(s.mem, s.out.at) == s.out.was
  {
    RunKeepsAgreement(Opened(m, maxLog), ops);
    var s := Run(Opened(m, maxLog), ops);
    if s.out.Lost? { RestoreIsSameIff(s.mem, s.out.at, s.out.was); }
  }

  /** Right after a bare snapshot, a clear, or a del that compacts at either of its records, nothing is lost. */
  lemma SnapshotHeals(s: Store, key: Text)
    ensures Disk(Step(s, Snapshot)) == s.mem == Step(s, Snapshot).mem
    ensures Disk(Step(s, Clear)) == EMPTY == Step(s, Clear).mem
    ensures Found(s.mem, key) && (Compacts(s, DelString(key)) || Compacts(WriteLog(s, DelString(key)), DelInt(key)))
      ==> Disk(Step(s, Del(key))) == Erase(s.mem, key) == Step(s, Del(key)).mem
  {
    hide Apply, Erase;
    if Found(s.mem, key) {
      var e := s.(mem := Erase(s.mem, key), out := if s.out.Lost? && s.out.at.key == key then Nothing else s.out);
      var t := WriteLog(e, DelString(key));
      if Compacts(s, DelString(key)) {
        NothingLogged(e.mem);
        WriteDelKeepsAgreement(t, DelInt(key), e.mem);
        ErasedTwice(s.mem, key);
      } else if Compacts(WriteLog(s, DelString(key)), DelInt(key)) {
        WriteDelKeepsAgreement(t, DelInt(key), Disk(t));
      }
    }
  }

  /** A set that fills the log is lost: a restart gives the value from before it. */
  lemma CompactingSetIsLost(s: Store, r: Record)
    requires Agrees(s) && (r.SetString? || r.SetInt?) && Compacts(s, r)
    ensures Disk(Step(s, Set(r))) == s.mem && Get(Disk(Step(s, Set(r))), SlotOf(r)) == Get(s.mem, SlotOf(r))
  {
    hide Apply, Get;
    NothingLogged(s.mem);
  }
}
