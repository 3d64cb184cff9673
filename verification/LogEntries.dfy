/**
 The entries of the Raft log as bytes: one entry, the records of a data file, and the positions an index file
 keeps of them.  A file is a sequence of bytes with a cursor.
 */
module LogEntries {
  import opened Options
  import opened Bytes
  import opened Buffers
  import W = EndecWire

  datatype Entry = Entry(index: int, term: int, kind: byte, data: seq<byte>)

  const NO_ENTRY := Entry(0, 0, 0, [])
  const INDEX_LIMIT := 0x8000_0000_0000_0000
  const SIZE_LIMIT := 0x1_0000_0000

  predicate EntryOk(e: Entry) {
    0 < e.index < INDEX_LIMIT && FitsSigned(e.term, 8) && |e.data| + 24 < SIZE_LIMIT
  }

  // bytes() counts four bytes for the type, which is written as one.
  function Size(e: Entry): nat { 24 + |e.data| }

  function Number(n: int): seq<byte>
    requires FitsSigned(n, 8)
  {
    BE(ToUnsigned(n, 8), 8)
  }

  lemma IndexFits(index: int)
    requires 0 <= index < INDEX_LIMIT
    ensures FitsSigned(index, 8)
  {
    PowValues();
  }

  function Written(e: Entry): seq<byte>
    requires EntryOk(e)
  {
    IndexFits(e.index);
    Number(e.index) + Number(e.term) + [e.kind] + BE(|e.data|, 4) + e.data
  }

  // So three zeros are left over at the end.
  function ToString(e: Entry): seq<byte>
    requires EntryOk(e)
  {
    Written(e) + [0, 0, 0]
  }

  // None: too short, or (where the program would read on) the data would go past the end.
  function FromString(buf: seq<byte>): Option<Entry> {
    if |buf| < 24 || 21 + FromBE(buf[17..21]) > |buf| then None
    else Some(Entry(ToSigned(FromBE(buf[..8]), 8), ToSigned(FromBE(buf[8..16]), 8), buf[16],
                    buf[21..21 + FromBE(buf[17..21])]))
  }

  lemma NumberRoundTrip(n: int)
    requires FitsSigned(n, 8)
    ensures |Number(n)| == 8 && ToSigned(FromBE(Number(n)), 8) == n
  {
    hide FromBE, BE, Pow;
    BERoundTrip(ToUnsigned(n, 8), 8);
  }

  lemma ToStringSize(e: Entry)
    requires EntryOk(e)
    ensures |ToString(e)| == Size(e) < SIZE_LIMIT
  {
    hide BE;
  }

  /** An entry is read back as it was written, the left-over zeros notwithstanding. */
  lemma EntryRoundTrip(e: Entry)
    requires EntryOk(e)
    ensures FromString(ToString(e)) == Some(e)
  {
    hide FromBE, BE, Number;
    IndexFits(e.index);
    NumberRoundTrip(e.index);
    NumberRoundTrip(e.term);
    PowValues();
    BERoundTrip(|e.data|, 4);
    ToStringSize(e);
    Parts(Number(e.index), Number(e.term), e.kind, BE(|e.data|, 4), e.data);
  }

  lemma Parts(a: seq<byte>, b: seq<byte>, k: byte, n: seq<byte>, d: seq<byte>)
    requires |a| == 8 && |b| == 8 && |n| == 4
    ensures var s := a + b + [k] + n + d + [0, 0, 0];
      |s| == 24 + |d| && s[..8] == a && s[8..16] == b && s[16] == k && s[17..21] == n && s[21..21 + |d|] == d
  {
  }

  // --- The same through a moving pointer ---

  method EncodeEntry(e: Entry) returns (buffer: seq<byte>)
    requires EntryOk(e)
    ensures buffer == ToString(e)
  {
    hide Filled, BE, Pow;
    IndexFits(e.index);
    PowValues();
    var ptr := new byte[24 + |e.data|](_ => 0);
    Fresh(ptr[..]);
    Put64(ptr, 0, ToUnsigned(e.index, 8), []);
    assert [] + Number(e.index) == Number(e.index);
    ghost var bs := Number(e.index);
    Put64(ptr, 8, ToUnsigned(e.term, 8), bs);
    bs := bs + Number(e.term);
    PutByte(ptr, 16, e.kind, bs);
    bs := bs + [e.kind];
    Put32(ptr, 17, |e.data|, bs);
    bs := bs + BE(|e.data|, 4);
    var p := CopyBytes(ptr, 21, e.data, bs);
    ZerosLeft(ptr[..], p, Written(e));
    buffer := ptr[..];
  }

  lemma ZerosLeft(data: seq<byte>, offset: nat, bs: seq<byte>)
    requires Filled(data, offset, bs) && |data| == offset + 3
    ensures data == bs + [0, 0, 0]
  {
  }

  method DecodeEntry(buffer: seq<byte>) returns (e: Option<Entry>)
    requires |buffer| >= 24 ==> 21 + FromBE(buffer[17..21]) <= |buffer|
    ensures e == FromString(buffer)
  {
    hide FromBE;
    if |buffer| < 24 { return None; }
    var ptr := 0;
    var index := ToSigned(FromBE(buffer[ptr..ptr + 8]), 8);
    ptr := ptr + 8;
    var term := ToSigned(FromBE(buffer[ptr..ptr + 8]), 8);
    ptr := ptr + 8;
    var kind := buffer[ptr];
    ptr := ptr + 1;
    var len := FromBE(buffer[ptr..ptr + 4]);
    ptr := ptr + 4;
    e := Some(Entry(index, term, kind, buffer[ptr..ptr + len]));
  }

  // --- Numbers as the machine keeps them, the least significant byte first ---

  function LE(n: nat, k: nat): (bs: seq<byte>)
    ensures |bs| == k
  {
    if k == 0 then [] else [n % 256] + LE(n / 256, k - 1)
  }

  function FromLE(bs: seq<byte>): nat {
    if bs == [] then 0 else bs[0] + 256 * FromLE(bs[1..])
  }

  lemma {:induction false} LERoundTrip(n: nat, k: nat)
    requires n < Pow(k)
    ensures FromLE(LE(n, k)) == n
  {
    if k > 0 {
      assert LE(n, k)[1..] == LE(n / 256, k - 1);
      LERoundTrip(n / 256, k - 1);
    }
  }

  // Little-endian numbers, written out.
  lemma LE4(n: nat)
    ensures LE(n, 4) == [n % 0x100, n / 0x100 % 0x100, n / 0x1_0000 % 0x100, n / 0x100_0000 % 0x100]
  {
    var a, b, c := n / 256, n / 256 / 256, n / 256 / 256 / 256;
    assert LE(c, 1) == [c % 256] + LE(c / 256, 0) == [c % 256];
    assert LE(b, 2) == [b % 256] + LE(c, 1) == [b % 256, c % 256];
    assert LE(a, 3) == [a % 256] + LE(b, 2) == [a % 256, b % 256, c % 256];
    assert b == n / 0x1_0000 && c == n / 0x100_0000;
  }

  lemma LE8(n: nat)
    ensures LE(n, 8) == LE(n, 4) + LE(n / 0x1_0000_0000, 4)
  {
    var a, b, c := n / 256, n / 256 / 256, n / 256 / 256 / 256;
    var d := c / 256;
    LEFirst(n, 7, 3);
    LEFirst(a, 6, 2);
    LEFirst(b, 5, 1);
    LEFirst(c, 4, 0);
    assert LE(d, 0) == [] && [c % 256] + LE(d, 0) == [c % 256];
    assert d == n / 0x1_0000_0000;
  }

  lemma LEFirst(n: nat, j: nat, k: nat)
    ensures LE(n, j + 1) == [n % 256] + LE(n / 256, j) && LE(n, k + 1) == [n % 256] + LE(n / 256, k)
  {
  }

  /** The bytes of a record and of a position: lengths and positions from the low byte up, what is in an entry from the high byte down. */
  lemma RecordBytes(e: Entry, pos: nat)
    requires EntryOk(e)
    ensures ToString(e) == W.Bytes8(e.index) + W.Bytes8(e.term) + [e.kind] + W.Bytes4(|e.data|) + e.data + [0, 0, 0]
    ensures var n := 24 + |e.data|;
      Record(e) == [n % 0x100, n / 0x100 % 0x100, n / 0x1_0000 % 0x100, n / 0x100_0000 % 0x100] + ToString(e)
    ensures Position(e.index, pos) == LE(e.index, 4) + LE(e.index / 0x1_0000_0000, 4) + (LE(pos, 4) + LE(pos / 0x1_0000_0000, 4))
  {
    hide BE, LE;
    IndexFits(e.index);
    ToStringSize(e);
    W.SignedBytes(e.index, 8);
    W.SignedBytes(e.term, 8);
    W.UnsignedBytes(|e.data|);
    LE4(24 + |e.data|);
    LE8(e.index);
    LE8(pos);
  }

  // --- The files of a segment ---

  function Record(e: Entry): seq<byte>
    requires EntryOk(e)
  {
    LE(|ToString(e)|, 4) + ToString(e)
  }

  ghost predicate AllOk(es: seq<Entry>)
    ensures AllOk(es) && es != [] ==> EntryOk(es[|es| - 1]) && AllOk(es[..|es| - 1])
  {
    forall k :: 0 <= k < |es| ==> EntryOk(es[k])
  }

  ghost function Records(es: seq<Entry>): seq<byte>
    requires AllOk(es)
  {
    if es == [] then [] else Records(es[..|es| - 1]) + Record(es[|es| - 1])
  }

  // For every entry its index and the position of its record.
  ghost function Positions(es: seq<Entry>): seq<byte>
    requires AllOk(es)
  {
    if es == [] then [] else Positions(es[..|es| - 1]) + Position(es[|es| - 1].index, |Records(es[..|es| - 1])|)
  }

  function Position(index: int, pos: nat): seq<byte>
    requires index >= 0
  {
    LE(index, 8) + LE(pos, 8)
  }

  lemma AllOkPart(es: seq<Entry>, k: nat)
    requires AllOk(es) && k <= |es|
    ensures AllOk(es[..k]) && (k < |es| ==> EntryOk(es[k]) && AllOk(es[..k + 1]) && es[..k + 1] == es[..k] + [es[k]])
  {
    hide EntryOk;
  }

  lemma AppendRecords(es: seq<Entry>, e: Entry)
    requires AllOk(es) && EntryOk(e)
    ensures AllOk(es + [e])
    ensures Records(es + [e]) == Records(es) + Record(e)
    ensures Positions(es + [e]) == Positions(es) + Position(e.index, |Records(es)|)
  {
    assert (es + [e])[..|es|] == es;
  }

  // The records of the first entries come first.
  lemma {:induction false} RecordsPrefix(es: seq<Entry>, k: nat)
    requires AllOk(es) && k <= |es|
    ensures AllOk(es[..k]) && |Records(es[..k])| <= |Records(es)| && Records(es)[..|Records(es[..k])|] == Records(es[..k])
    decreases |es|
  {
    hide Record;
    if k < |es| {
      var front := es[..|es| - 1];
      RecordsPrefix(front, k);
      assert front[..k] == es[..k];
    } else {
      assert es[..k] == es;
    }
  }

  /** At the position of an entry the data file has its record. */
  lemma RecordAt(es: seq<Entry>, k: nat)
    requires AllOk(es) && k < |es|
    ensures AllOk(es[..k]) && AllOk(es[..k + 1]) && EntryOk(es[k])
    ensures var from, to := |Records(es[..k])|, |Records(es[..k + 1])|;
      from + |Record(es[k])| == to <= |Records(es)| && Records(es)[from..to] == Record(es[k])
  {
    hide Record;
    AllOkPart(es, k);
    AppendRecords(es[..k], es[k]);
    RecordsPrefix(es, k + 1);
    var from, to, all := |Records(es[..k])|, |Records(es[..k + 1])|, Records(es);
    assert all[from..to] == all[..to][from..];
  }

  lemma {:induction false} PositionsPrefix(es: seq<Entry>, k: nat)
    requires AllOk(es) && k <= |es|
    ensures |Positions(es)| == 16 * |es| && AllOk(es[..k]) && Positions(es)[..16 * k] == Positions(es[..k])
    decreases |es|
  {
    hide LE, Records;
    if k < |es| {
      var front := es[..|es| - 1];
      PositionsPrefix(front, k);
      assert front[..k] == es[..k];
    } else {
      assert es[..k] == es;
      if es != [] { PositionsPrefix(es[..|es| - 1], k - 1); }
    }
  }

  /** In the index file the entry of number k has its index and its position at 16 k. */
  lemma PositionAt(es: seq<Entry>, k: nat)
    requires AllOk(es) && k < |es|
    ensures AllOk(es[..k]) && |Positions(es)| == 16 * |es| && EntryOk(es[k])
    ensures Positions(es)[16 * k..16 * k + 8] == LE(es[k].index, 8)
    ensures Positions(es)[16 * k + 8..16 * k + 16] == LE(|Records(es[..k])|, 8)
  {
    hide LE, Records;
    AllOkPart(es, k);
    AppendRecords(es[..k], es[k]);
    PositionsPrefix(es, k + 1);
    PositionsPrefix(es, k);
    LastParts(Positions(es), Positions(es[..k]), LE(es[k].index, 8), LE(|Records(es[..k])|, 8));
  }

  lemma LastParts(all: seq<byte>, front: seq<byte>, a: seq<byte>, b: seq<byte>)
    requires |a| == 8 && |b| == 8 && |front| + 16 <= |all| && all[..|front| + 16] == front + (a + b)
    ensures all[|front|..|front| + 8] == a && all[|front| + 8..|front| + 16] == b
  {
    var part := all[..|front| + 16];
    assert part[|front|..|front| + 8] == a && part[|front| + 8..|front| + 16] == b;
  }

  // --- A file with a cursor ---

  lemma ReadExact(s: Stream, n: nat)
    requires s.pos + n <= |s.bytes|
    ensures s.Read(n) == (s.bytes[s.pos..s.pos + n], Stream(s.bytes, s.pos + n))
  {
  }

  datatype Stream = Stream(bytes: seq<byte>, pos: nat) {
    predicate Ok() { pos <= |bytes| }

    function Write(bs: seq<byte>): (s: Stream)
      requires Ok()
      ensures s.Ok() && s.pos == pos + |bs| && s.bytes[..pos] == bytes[..pos] && s.bytes[pos..s.pos] == bs
      ensures pos == |bytes| ==> s == Stream(bytes + bs, |bytes + bs|)
    {
      Stream(bytes[..pos] + bs + (if pos + |bs| < |bytes| then bytes[pos + |bs|..] else []), pos + |bs|)
    }

    // Up to n bytes from the cursor on.
    function Read(n: nat): (r: (seq<byte>, Stream))
      requires Ok()
      ensures r.1.Ok() && r.1.bytes == bytes && |r.0| <= n && r.1.pos == pos + |r.0| && r.0 == bytes[pos..pos + |r.0|]
      ensures |r.0| < n ==> r.1.pos == |bytes|
    {
      var k := if pos + n <= |bytes| then n else |bytes| - pos;
      (bytes[pos..pos + k], Stream(bytes, pos + k))
    }

    function AtEnd(): Stream { Stream(bytes, |bytes|) }
  }
}
