/**
 The wire format, section 5.2 of RFC 6455, byte by byte: what make_frame puts where, and what one call of the
 parser makes of any bytes at all, taken apart here without its machine.
 */
module WebSocketWire {
  import opened Options
  import opened Bytes
  import opened WebSocketFrames
  import opened WebSocketStreams

  // --- What make_frame writes ---

  // Where the key or, without one, the payload begins.
  function BodyAt(n: nat): nat { if n <= 125 then 2 else if n <= 65535 then 4 else 10 }

  // Byte by byte, masked means: every bit of the payload changed where the bit of the key's byte is set.
  ghost predicate MaskedWith(wire: seq<byte>, payload: seq<byte>, key: seq<byte>) {
    && |wire| == |payload| && |key| == 4
    && forall j, i | 0 <= j < |payload| && 0 <= i < 8 :: Bit(wire[j], i) <==> Bit(payload[j], i) != Bit(key[j % 4], i)
  }

  lemma MaskedBits(d: seq<byte>, key: seq<byte>)
    requires |key| == 4
    ensures MaskedWith(Masked(d, key, 0), d, key)
  {
    hide Xor, Bit;
    var r := Masked(d, key, 0);
    forall j, i | 0 <= j < |d| && 0 <= i < 8 ensures Bit(r[j], i) <==> Bit(d[j], i) != Bit(key[j % 4], i) {
      assert r[j] == Xor(d[j], key[(0 + j) % 4]);
      XorIsExclusive(d[j], key[j % 4], i);
    }
  }

  /** The bytes of a frame: FIN and opcode; mask bit and length; the longer lengths; key; payload. */
  lemma FrameBytes(f: Frame)
    requires FrameOk(f)
    ensures var w, n, at := MakeFrame(f), |f.payload|, BodyAt(|f.payload|);
      var mask := f.key.Some? && n > 0;
      && |w| == at + (if mask then 4 else 0) + n
      && w[0] == (if f.fin then 0x80 else 0) + f.opcode
      && w[1] == (if mask then 0x80 else 0) + (if n <= 125 then n else if n <= 65535 then 126 else 127)
      && (125 < n <= 65535 ==> w[2] == n / 0x100 && w[3] == n % 0x100)
      && (65535 < n ==> w[2..10] == [0, 0, 0, 0, n / 0x100_0000, n / 0x1_0000 % 0x100, n / 0x100 % 0x100, n % 0x100])
      && if mask then
           w[at..at + 4] == [f.key.value / 0x100_0000, f.key.value / 0x1_0000 % 0x100, f.key.value / 0x100 % 0x100, f.key.value % 0x100]
           && MaskedWith(w[at + 4..], f.payload, w[at..at + 4])
         else w[at..] == f.payload
  {
    hide BE, Masked, MaskedWith;
    var w, n, at := MakeFrame(f), |f.payload|, BodyAt(|f.payload|);
    LengthBytesAre(n, if IsMasked(f) then 128 else 0);
    assert w[at..] == MaskAndPayload(f);
    assert w[..at] == [FirstByte(f)] + LengthBytes(n, if IsMasked(f) then 128 else 0);
    if IsMasked(f) {
      BE4(f.key.value);
      MaskedBits(f.payload, KeyBytes(f));
      assert w[at..at + 4] == MaskAndPayload(f)[..4] == KeyBytes(f);
      assert w[at + 4..] == MaskAndPayload(f)[4..] == Masked(f.payload, KeyBytes(f), 0);
    }
  }

  lemma LengthBytesAre(n: nat, flag: byte)
    requires flag in {0, 128} && n < LIMIT
    ensures n <= 125 ==> LengthBytes(n, flag) == [flag + n]
    ensures 125 < n <= 65535 ==> LengthBytes(n, flag) == [flag + 126, n / 0x100, n % 0x100]
    ensures 65535 < n
      ==> LengthBytes(n, flag) == [flag + 127, 0, 0, 0, 0, n / 0x100_0000, n / 0x1_0000 % 0x100, n / 0x100 % 0x100, n % 0x100]
  {
    hide BE;
    if 125 < n <= 65535 {
      BE2(n);
    } else if n > 65535 {
      BE8(n);
      BE4(0);
      BE4(n);
      HighByte(n);
    }
  }

  lemma HighByte(n: nat)
    requires n < LIMIT
    ensures n / 0x100_0000 % 256 == n / 0x100_0000 && n / LIMIT == 0
  {
  }

  // --- What a call makes of any bytes ---

  // What the bytes begin with: a whole frame, a part of one, or one of 2^32 bytes or more.
  datatype Head = Whole(m: Message, rest: seq<byte>) | Part | Huge

  function Unmasked(d: seq<byte>, masked: bool, key: seq<byte>): seq<byte>
    requires |key| == 4
  {
    if masked then seq(|d|, j requires 0 <= j < |d| => Xor(d[j], key[j % 4])) else d
  }

  // The payload; a length of zero that was written long is taken for complete when one byte more is there.
  function PayloadOf(d: seq<byte>, n: nat, masked: bool, key: seq<byte>, opcode: byte, fin: bool): (r: Head)
    requires |key| == 4
    ensures r.Whole? ==> |r.rest| <= |d|
  {
    if |d| < n || d == [] then Part else Whole(Message(Unmasked(d[..n], masked, key), opcode, fin), d[n..])
  }

  function BodyOf(d: seq<byte>, n: nat, masked: bool, opcode: byte, fin: bool): (r: Head)
    ensures r.Whole? ==> |r.rest| <= |d|
  {
    if !masked then PayloadOf(d, n, false, [0, 0, 0, 0], opcode, fin)
    else if |d| < 4 then Part
    else PayloadOf(d[4..], n, true, d[..4], opcode, fin)
  }

  // Any of the bits FIN and RSV counts as FIN; a length of zero ends the frame, with the mask bit or without.
  function HeadOf(data: seq<byte>): (r: Head)
    ensures r.Whole? ==> |r.rest| < |data|
  {
    if |data| < 2 then Part
    else
      var fin, opcode, masked, len7 := data[0] >= 16, data[0] % 16, data[1] >= 128, data[1] % 128;
      if len7 == 0 then Whole(Message([], opcode, fin), data[2..])
      else if len7 <= 125 then BodyOf(data[2..], len7, masked, opcode, fin)
      else if len7 == 126 then
        if |data| < 4 then Part else BodyOf(data[4..], data[2] as int * 256 + data[3], masked, opcode, fin)
      else if |data| < 10 then Part
      else if FromBE(data[2..10]) >= LIMIT then Huge
      else BodyOf(data[10..], FromBE(data[2..10]), masked, opcode, fin)
  }

  // The messages of the bytes, and whether a frame of 2^32 bytes or more is among them.
  function Messages(data: seq<byte>): seq<Message>
    decreases |data|
  {
    match HeadOf(data) case Whole(m, rest) => [m] + Messages(rest) case _ => []
  }

  predicate HasHuge(data: seq<byte>)
    decreases |data|
  {
    match HeadOf(data) case Whole(m, rest) => HasHuge(rest) case Part => false case Huge => true
  }

  // r is what the machine makes of bytes that begin like this.
  predicate ReadAs(h: Head, d: seq<Message>, r: Fed) {
    match h
    case Whole(m, rest) => r == Feed(Reset(d + [m]), rest)
    case Part => r.Going? && r.s.delivered == d
    case Huge => r.Beyond?
  }

  // The payload is next.
  predicate AtPayload(s: State, n: nat, masked: bool, key: seq<byte>, opcode: byte, fin: bool) {
    && Ok(s) && s.step.Payload? && s.since == 0 && s.payload == [] && s.header.realLen == n
    && s.header.masked == masked && s.header.opcode == opcode && (s.header.fin != 0 <==> fin)
    && |key| == 4 && (masked ==> s.header.key == key)
  }

  lemma PayloadRead(s: State, d: seq<byte>, n: nat, masked: bool, key: seq<byte>, opcode: byte, fin: bool)
    requires AtPayload(s, n, masked, key, opcode, fin)
    ensures ReadAs(PayloadOf(d, n, masked, key, opcode, fin), s.delivered, Feed(s, d))
  {
    hide Xor, Turn, Masked;
    if d == [] {
    } else if n == 0 {
      EmptyDelivered(s, d);
      assert Unmasked(d[..0], masked, key) == [] && d[0..] == d;
    } else {
      var now, later := if |d| < n then d else d[..n], if |d| < n then [] else d[n..];
      assert d == now + later;
      FeedJoins(s, now, later);
      FeedPayload(s, now);
      if masked { assert Masked(now, key, 0) == Unmasked(now, true, key) by { UnmaskedIs(now, key); } }
      assert [] + Unmasked(now, masked, key) == Unmasked(now, masked, key);
    }
  }

  lemma UnmaskedIs(d: seq<byte>, key: seq<byte>)
    requires |key| == 4
    ensures Masked(d, key, 0) == Unmasked(d, true, key)
  {
    hide Xor;
    forall j | 0 <= j < |d| ensures Masked(d, key, 0)[j] == Unmasked(d, true, key)[j] {
      assert (0 + j) % 4 == j % 4;
    }
  }

  // A payload of no bytes, when the next byte is there.
  lemma EmptyDelivered(s: State, d: seq<byte>)
    requires Ok(s) && Owed(s) && d != []
    ensures Feed(s, d) == Feed(Deliver(s), d)
  {
    assert Turn(s, d[0]) == Going(OnFixedHeader(Deliver(s), d[0])) == Turn(Deliver(s), d[0]);
  }

  // The key, if there is one, and the payload are next.
  predicate AtKey(s: State, n: nat, masked: bool, opcode: byte, fin: bool) {
    && Ok(s) && s.step == (if masked then MaskKey else Payload) && s.since == 0 && s.keyPos == 0 && s.payload == []
    && s.header.realLen == n && s.header.masked == masked && s.header.opcode == opcode && (s.header.fin != 0 <==> fin)
  }

  lemma BodyRead(s: State, d: seq<byte>, n: nat, masked: bool, opcode: byte, fin: bool)
    requires AtKey(s, n, masked, opcode, fin)
    ensures ReadAs(BodyOf(d, n, masked, opcode, fin), s.delivered, Feed(s, d))
  {
    hide PayloadOf, Feed, ReadAs;
    if !masked {
      PayloadRead(s, d, n, false, [0, 0, 0, 0], opcode, fin);
    } else if |d| < 4 {
      FeedKey(s, d);
      PartRead(s.delivered, Feed(s, d));
    } else {
      assert d == d[..4] + d[4..];
      FeedJoins(s, d[..4], d[4..]);
      FeedKey(s, d[..4]);
      var t := KeyTaken(s, d[..4]);
      assert t.header.key == d[..4];
      PayloadRead(t.(step := Payload, since := 0), d[4..], n, true, d[..4], opcode, fin);
    }
  }

  lemma PartRead(d: seq<Message>, r: Fed)
    requires r.Going? && r.s.delivered == d
    ensures ReadAs(Part, d, r)
  {
  }

  // The length goes on in two or eight bytes.
  predicate AtExt(s: State, size: nat, masked: bool, opcode: byte, fin: bool) {
    && Ok(s) && s.step.ExtLen? && s.since == 0 && s.extPos == 0 && ExtSize(s.header) == size
    && s.header.masked == masked && s.header.opcode == opcode && (s.header.fin != 0 <==> fin)
  }

  lemma ExtRead(s: State, d: seq<byte>, size: nat, masked: bool, opcode: byte, fin: bool)
    requires AtExt(s, size, masked, opcode, fin)
    ensures ReadAs(if |d| < size then Part
                   else if FromBE(d[..size]) >= LIMIT then Huge
                   else BodyOf(d[size..], FromBE(d[..size]), masked, opcode, fin), s.delivered, Feed(s, d))
  {
    hide BodyOf, Feed, ReadAs, FromBE;
    if |d| < size {
      FeedExt(s, d);
      PartRead(s.delivered, Feed(s, d));
    } else {
      assert d == d[..size] + d[size..];
      FeedJoins(s, d[..size], d[size..]);
      FeedExt(s, d[..size]);
      var t := ExtTaken(s, d[..size]);
      assert t.header.ext[..size] == d[..size];
      if FromBE(d[..size]) < LIMIT {
        BodyRead(DecodeExt(t).s, d[size..], FromBE(d[..size]), masked, opcode, fin);
      } else {
        HugeRead(s.delivered, Feed(s, d));
      }
    }
  }

  lemma HugeRead(d: seq<Message>, r: Fed)
    requires r.Beyond?
    ensures ReadAs(Huge, d, r)
  {
  }

  lemma Two256(d: seq<byte>)
    requires |d| == 2
    ensures FromBE(d) == d[0] as int * 256 + d[1]
  {
    assert d[..1][..0] == [] && FromBE(d[..1]) == d[0];
  }

  // After the two bytes every frame begins with.
  lemma HeadRead(d: seq<Message>, data: seq<byte>)
    ensures Ok(Reset(d)) && ReadAs(HeadOf(data), d, Feed(Reset(d), data))
  {
    hide BodyOf, FromBE, ReadAs;
    ResetOk(d);
    if |data| < 2 {
      if data != [] { FeedFirst(d, data); }
      PartRead(d, Feed(Reset(d), data));
    } else {
      var masked, len7, opcode, fin := data[1] >= 128, data[1] % 128, data[0] % 16, data[0] >= 16;
      var s := FeedTwo(d, data);
      hide Feed;
      if len7 == 0 {
        assert ReadAs(HeadOf(data), d, Feed(Reset(d), data)) by { EmptyRead(d, data); }
      } else if len7 <= 125 {
        BodyRead(s, data[2..], len7, masked, opcode, fin);
      } else if len7 == 126 {
        ExtRead(s, data[2..], 2, masked, opcode, fin);
        if |data| >= 4 {
          Two256(data[2..4]);
          assert data[2..][..2] == data[2..4] && data[2..][2..] == data[4..];
        }
      } else {
        ExtRead(s, data[2..], 8, masked, opcode, fin);
        if |data| >= 10 { assert data[2..][..8] == data[2..10] && data[2..][8..] == data[10..]; }
      }
    }
  }

  lemma FeedFirst(d: seq<Message>, data: seq<byte>)
    requires |data| > 0
    ensures Ok(Reset(d)) && Ok(OnFixedHeader(Reset(d), data[0]))
    ensures Feed(Reset(d), data) == Feed(OnFixedHeader(Reset(d), data[0]), data[1..])
  {
  }

  lemma FeedTwo(d: seq<Message>, data: seq<byte>) returns (s: State)
    requires |data| >= 2
    ensures Ok(Reset(d)) && Ok(s) && Feed(Reset(d), data) == Feed(s, data[2..])
    ensures var masked, len7, opcode, fin := data[1] >= 128, data[1] % 128, data[0] % 16, data[0] >= 16;
      && (len7 == 0 ==> s == Reset(d + [Message([], opcode, fin)]))
      && (0 < len7 <= 125 ==> AtKey(s, len7, masked, opcode, fin))
      && (len7 == 126 ==> AtExt(s, 2, masked, opcode, fin)) && (len7 == 127 ==> AtExt(s, 8, masked, opcode, fin))
      && (len7 > 0 ==> s.delivered == d)
  {
    FeedFirst(d, data);
    var h := OnFixedHeader(Reset(d), data[0]);
    s := OnPayloadLen(h, data[1]);
    assert Turn(h, data[1]) == Going(s);
    assert data[1..][1..] == data[2..];
  }

  lemma EmptyRead(d: seq<Message>, data: seq<byte>)
    requires |data| >= 2 && data[1] % 128 == 0
    ensures Ok(Reset(d)) && ReadAs(HeadOf(data), d, Feed(Reset(d), data))
  {
    var s := FeedTwo(d, data);
  }

  /** One call hands on exactly the messages of its bytes, whatever they are, unless 2^32 bytes or more are announced. */
  lemma {:induction false} BytesMeanTheirMessages(d: seq<Message>, data: seq<byte>)
    ensures Ok(Reset(d))
    ensures var r := Feed(Reset(d), data);
      if HasHuge(data) then r.Beyond? else r.Going? && r.s.delivered == d + Messages(data)
    decreases |data|
  {
    hide Feed, HeadOf, Reset, Ok;
    HeadRead(d, data);
    var h := HeadOf(data);
    if h.Whole? {
      BytesMeanTheirMessages(d + [h.m], h.rest);
      assert d + [h.m] + Messages(h.rest) == d + ([h.m] + Messages(h.rest));
    } else {
      assert d + [] == d;
    }
  }
}
