/**
 WebSocket frames, section 5.2 of RFC 6455: the bytes of a frame, and the parser as a machine that takes one
 byte at a time.  Whatever the program restarts when do_parse is called again depends on `since`, the number of
 bytes of the current field taken in the current call.
 */
module WebSocketFrames {
  import opened Bytes

  datatype Message = Message(payload: seq<byte>, opcode: byte, fin: bool)

  datatype Step = FixedHeader | PayloadLen | ExtLen | MaskKey | Payload
  datatype Header = Header(fin: byte, opcode: byte, masked: bool, len7: byte, ext: seq<byte>, realLen: nat, key: seq<byte>)
  datatype State = State(step: Step, header: Header, extPos: nat, keyPos: nat, payload: seq<byte>, since: nat,
                         delivered: seq<Message>)

  // Beyond: a payload of 2^32 bytes or more is announced; this model does not follow it.
  datatype Fed = Going(s: State) | Beyond

  const LIMIT := 0x1_0000_0000
  const NO_HEADER := Header(0, 0, false, 0, [0, 0, 0, 0, 0, 0, 0, 0], 0, [0, 0, 0, 0])

  function Two(k: nat): nat { if k == 0 then 1 else 2 * Two(k - 1) }

  // The exclusive or of the k low bits: bit by bit, the sum without carry.
  function XorBits(a: nat, b: nat, k: nat): (r: nat)
    ensures r < Two(k)
  {
    if k == 0 then 0 else 2 * XorBits(a / 2, b / 2, k - 1) + (a + b) % 2
  }

  function Xor(a: byte, b: byte): byte {
    assert Two(8) == 256 by { assert Two(4) == 16; }
    XorBits(a, b, 8)
  }

  lemma {:induction false} XorBitsTwice(a: nat, b: nat, k: nat)
    requires a < Two(k) && b < Two(k)
    ensures XorBits(XorBits(a, b, k), b, k) == a && XorBits(a, XorBits(a, b, k), k) == b
  {
    if k > 0 {
      var x := XorBits(a / 2, b / 2, k - 1);
      LowBit(x, a, b);
      XorBitsTwice(a / 2, b / 2, k - 1);
    }
  }

  lemma LowBit(x: nat, a: nat, b: nat)
    ensures var r := 2 * x + (a + b) % 2; r / 2 == x && (r + b) % 2 == a % 2 && (a + r) % 2 == b % 2
    ensures a == 2 * (a / 2) + a % 2 && b == 2 * (b / 2) + b % 2
  {
  }

  lemma XorTwice(a: byte, b: byte)
    ensures Xor(Xor(a, b), b) == a && Xor(a, Xor(a, b)) == b
  {
    assert Two(8) == 256 by { assert Two(4) == 16; }
    XorBitsTwice(a, b, 8);
  }

  // Bit i of n.
  predicate Bit(n: nat, i: nat) {
    if i == 0 then n % 2 == 1 else Bit(n / 2, i - 1)
  }

  lemma {:induction false} XorBitsDiffer(a: nat, b: nat, k: nat, i: nat)
    requires i < k
    ensures Bit(XorBits(a, b, k), i) <==> Bit(a, i) != Bit(b, i)
    decreases k
  {
    var x := XorBits(a / 2, b / 2, k - 1);
    LowBit(x, a, b);
    if i > 0 { XorBitsDiffer(a / 2, b / 2, k - 1, i - 1); }
  }

  /** A bit of the result is set exactly where the bits of the two bytes differ. */
  lemma XorIsExclusive(a: byte, b: byte, i: nat)
    requires i < 8
    ensures Bit(Xor(a, b), i) <==> Bit(a, i) != Bit(b, i)
  {
    XorBitsDiffer(a, b, 8, i);
  }

  lemma XorInjective(a: byte, b: byte, c: byte)
    ensures Xor(a, b) == Xor(a, c) <==> b == c
  {
    hide Xor;
    XorTwice(a, b);
    XorTwice(a, c);
  }

  // d masked with the key, the first byte with the key's byte at i.
  function Masked(d: seq<byte>, key: seq<byte>, i: nat): (r: seq<byte>)
    requires |key| == 4
    ensures |r| == |d|
  {
    seq(|d|, j requires 0 <= j < |d| => Xor(d[j], key[(i + j) % 4]))
  }

  lemma MaskedTwice(d: seq<byte>, key: seq<byte>, i: nat)
    requires |key| == 4
    ensures Masked(Masked(d, key, i), key, i) == d
  {
    forall j | 0 <= j < |d| ensures Masked(Masked(d, key, i), key, i)[j] == d[j] {
      XorTwice(d[j], key[(i + j) % 4]);
    }
  }

  // --- The machine ---

  function Reset(delivered: seq<Message>): State {
    State(FixedHeader, NO_HEADER, 0, 0, [], 0, delivered)
  }

  // The handler gets the payload, and everything is set back.
  function Deliver(s: State): State {
    Reset(s.delivered + [Message(s.payload, s.header.opcode, s.header.fin != 0)])
  }

  function ExtSize(h: Header): nat { if h.len7 == 126 then 2 else 8 }

  predicate Ok(s: State) {
    && |s.header.ext| == 8 && |s.header.key| == 4 && s.header.realLen < LIMIT
    && (s.step.FixedHeader? || s.step.PayloadLen? ==> s.payload == [] && s.keyPos == 0 && s.extPos == 0)
    && (s.step.ExtLen? ==> s.payload == [] && s.keyPos == 0 && s.header.len7 in {126, 127} && s.since <= s.extPos < ExtSize(s.header))
    && (s.step.MaskKey? ==> s.payload == [] && s.since <= s.keyPos < 4)
    && (s.step.Payload? ==> |s.payload| < s.header.realLen || s.payload == [])
  }

  function OnFixedHeader(s: State, b: byte): State {
    s.(header := NO_HEADER.(fin := b / 16 * 16, opcode := b % 16), extPos := 0, step := PayloadLen, since := 0)
  }

  function AfterLength(s: State): State {
    s.(step := if s.header.masked then MaskKey else Payload, since := 0)
  }

  function OnPayloadLen(s: State, b: byte): State {
    var h := s.header.(masked := b >= 128, len7 := b % 128);
    if h.len7 == 0 then Deliver(s.(header := h))
    else if h.len7 <= 125 then AfterLength(s.(header := h.(realLen := h.len7)))
    else s.(header := h, step := ExtLen, since := 0)
  }

  function DecodeExt(s: State): Fed
    requires |s.header.ext| == 8
  {
    var n := FromBE(s.header.ext[..ExtSize(s.header)]);
    if n >= LIMIT then Beyond else Going(AfterLength(s.(header := s.header.(realLen := n))))
  }

  function OnExtLen(s: State, b: byte): Fed
    requires Ok(s) && s.step.ExtLen?
  {
    var t := s.(header := s.header.(ext := s.header.ext[s.since := b]), extPos := s.extPos + 1, since := s.since + 1);
    if t.extPos == ExtSize(t.header) then DecodeExt(t) else Going(t)
  }

  function OnMaskKey(s: State, b: byte): State
    requires Ok(s) && s.step.MaskKey?
  {
    var t := s.(header := s.header.(key := s.header.key[s.since := b]), keyPos := s.keyPos + 1, since := s.since + 1);
    if t.keyPos == 4 then t.(step := Payload, since := 0) else t
  }

  function OnPayload(s: State, b: byte): State
    requires |s.header.key| == 4
  {
    var c := if s.header.masked then Xor(b, s.header.key[s.since % 4]) else b;
    var t := s.(payload := s.payload + [c], since := s.since + 1);
    if |t.payload| == t.header.realLen then Deliver(t) else t
  }

  // A length of zero that was written in two or eight bytes: the handler is called when the next byte is there.
  predicate Owed(s: State) { s.step.Payload? && |s.payload| == s.header.realLen }

  function Turn(s: State, b: byte): (r: Fed)
    requires Ok(s)
    ensures r.Going? ==> Ok(r.s)
  {
    if Owed(s) then Going(OnFixedHeader(Deliver(s), b))
    else
      match s.step
      case FixedHeader => Going(OnFixedHeader(s, b))
      case PayloadLen => Going(OnPayloadLen(s, b))
      case ExtLen => OnExtLen(s, b)
      case MaskKey => Going(OnMaskKey(s, b))
      case Payload => Going(OnPayload(s, b))
  }

  function Feed(s: State, data: seq<byte>): (r: Fed)
    requires Ok(s)
    ensures r.Going? ==> Ok(r.s)
    decreases |data|
  {
    if data == [] then Going(s)
    else
      match Turn(s, data[0])
      case Going(t) => Feed(t, data[1..])
      case Beyond => Beyond
  }

  function Then(r: Fed, data: seq<byte>): Fed
    requires r.Going? ==> Ok(r.s)
  {
    match r case Going(t) => Feed(t, data) case Beyond => Beyond
  }

  lemma {:induction false} FeedJoins(s: State, a: seq<byte>, b: seq<byte>)
    requires Ok(s)
    ensures Feed(s, a + b) == Then(Feed(s, a), b)
    decreases |a|
  {
    hide Turn, Ok;
    if a == [] {
      assert a + b == b;
    } else {
      assert (a + b)[1..] == a[1..] + b;
      var r := Turn(s, a[0]);
      if r.Going? { FeedJoins(r.s, a[1..], b); }
    }
  }

  // --- A field taken in one go ---

  lemma {:induction false} FeedExt(s: State, d: seq<byte>)
    requires Ok(s) && s.step.ExtLen? && s.extPos + |d| <= ExtSize(s.header)
    ensures var t := ExtTaken(s, d);
      Feed(s, d) == if t.extPos == ExtSize(t.header) then DecodeExt(t) else Going(t)
    decreases |d|
  {
    hide FromBE;
    if d == [] {
      assert ExtTaken(s, d).header.ext == s.header.ext;
    } else {
      var t := ExtTaken(s, [d[0]]);
      assert t.header.ext == s.header.ext[s.since := d[0]];
      if |d| == 1 {
        assert d == [d[0]] && d[1..] == [];
        assert Feed(s, d) == Then(Turn(s, d[0]), []);
      } else if t.extPos < ExtSize(t.header) {
        assert Ok(t) && Turn(s, d[0]) == Going(t);
        FeedExt(t, d[1..]);
        ExtTwice(s, d);
      }
    }
  }

  function ExtTaken(s: State, d: seq<byte>): State
    requires |s.header.ext| == 8 && s.since + |d| <= 8
  {
    s.(header := s.header.(ext := s.header.ext[..s.since] + d + s.header.ext[s.since + |d|..]),
       extPos := s.extPos + |d|, since := s.since + |d|)
  }

  lemma ExtTwice(s: State, d: seq<byte>)
    requires |s.header.ext| == 8 && s.since + |d| <= 8 && d != []
    ensures ExtTaken(ExtTaken(s, [d[0]]), d[1..]) == ExtTaken(s, d)
  {
    var e, t := s.header.ext, ExtTaken(s, [d[0]]);
    var u := ExtTaken(t, d[1..]);
    assert t.header.ext[..s.since + 1] == e[..s.since] + [d[0]];
    assert t.header.ext[s.since + |d|..] == e[s.since + |d|..];
    assert u.header.ext == e[..s.since] + d + e[s.since + |d|..];
  }

  function KeyTaken(s: State, d: seq<byte>): State
    requires |s.header.key| == 4 && s.since + |d| <= 4
  {
    s.(header := s.header.(key := s.header.key[..s.since] + d + s.header.key[s.since + |d|..]),
       keyPos := s.keyPos + |d|, since := s.since + |d|)
  }

  lemma KeyTwice(s: State, d: seq<byte>)
    requires |s.header.key| == 4 && s.since + |d| <= 4 && d != []
    ensures KeyTaken(KeyTaken(s, [d[0]]), d[1..]) == KeyTaken(s, d)
  {
    var e, t := s.header.key, KeyTaken(s, [d[0]]);
    var u := KeyTaken(t, d[1..]);
    assert t.header.key[..s.since + 1] == e[..s.since] + [d[0]];
    assert t.header.key[s.since + |d|..] == e[s.since + |d|..];
    assert u.header.key == e[..s.since] + d + e[s.since + |d|..];
  }

  lemma {:induction false} FeedKey(s: State, d: seq<byte>)
    requires Ok(s) && s.step.MaskKey? && s.keyPos + |d| <= 4
    ensures var t := KeyTaken(s, d);
      Feed(s, d) == Going(if t.keyPos == 4 then t.(step := Payload, since := 0) else t)
    decreases |d|
  {
    if d == [] {
      assert KeyTaken(s, d).header.key == s.header.key;
    } else {
      var t := KeyTaken(s, [d[0]]);
      assert t.header.key == s.header.key[s.since := d[0]];
      if |d| == 1 {
        assert d == [d[0]] && d[1..] == [];
        assert Feed(s, d) == Then(Turn(s, d[0]), []);
      } else {
        assert Ok(t) && Turn(s, d[0]) == Going(t);
        FeedKey(t, d[1..]);
        KeyTwice(s, d);
      }
    }
  }

  function PayloadTaken(s: State, d: seq<byte>): State
    requires |s.header.key| == 4
  {
    s.(payload := s.payload + (if s.header.masked then Masked(d, s.header.key, s.since) else d), since := s.since + |d|)
  }

  lemma MaskedSplits(d: seq<byte>, key: seq<byte>, i: nat)
    requires |key| == 4 && d != []
    ensures Masked(d, key, i) == Masked([d[0]], key, i) + Masked(d[1..], key, i + 1)
  {
    hide Xor;
    var all, rest := Masked(d, key, i), Masked(d[1..], key, i + 1);
    forall j | 0 < j < |d| ensures all[j] == rest[j - 1] {
      assert i + j == i + 1 + (j - 1);
    }
  }

  lemma PayloadTwice(s: State, d: seq<byte>)
    requires |s.header.key| == 4 && d != []
    ensures PayloadTaken(PayloadTaken(s, [d[0]]), d[1..]) == PayloadTaken(s, d)
  {
    hide Masked;
    if s.header.masked {
      MaskedSplits(d, s.header.key, s.since);
      Regroup(s.payload, Masked([d[0]], s.header.key, s.since), Masked(d[1..], s.header.key, s.since + 1));
    } else {
      assert [d[0]] + d[1..] == d;
      Regroup(s.payload, [d[0]], d[1..]);
    }
  }

  lemma Regroup(a: seq<byte>, b: seq<byte>, c: seq<byte>)
    ensures a + b + c == a + (b + c)
  {
  }

  lemma {:induction false} FeedPayload(s: State, d: seq<byte>)
    requires Ok(s) && s.step.Payload? && d != [] && |s.payload| + |d| <= s.header.realLen
    ensures var t := PayloadTaken(s, d);
      Feed(s, d) == Going(if |t.payload| == t.header.realLen then Deliver(t) else t)
    decreases |d|
  {
    hide Deliver, Masked, Xor;
    var t := PayloadTaken(s, [d[0]]);
    PayloadOne(s, d[0]);
    if |d| == 1 {
      assert d == [d[0]] && d[1..] == [];
      assert Feed(s, d) == Then(Turn(s, d[0]), []);
    } else {
      FeedPayload(t, d[1..]);
      PayloadTwice(s, d);
    }
  }

  lemma PayloadOne(s: State, b: byte)
    requires Ok(s) && s.step.Payload? && |s.payload| < s.header.realLen
    ensures var t := PayloadTaken(s, [b]);
      if |t.payload| == t.header.realLen then Turn(s, b) == Going(Deliver(t)) else Ok(t) && Turn(s, b) == Going(t)
  {
    if s.header.masked {
      assert Masked([b], s.header.key, s.since) == [Xor(b, s.header.key[s.since % 4])];
    }
  }
}
