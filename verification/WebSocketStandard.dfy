/**
 Frames as section 5.2 of RFC 6455 has them, whoever sends them: with reserved bits, and with a masking key even
 where there is nothing to mask.  Exactly which of them the parser takes as they were sent.
 */
module WebSocketStandard {
  import opened Options
  import opened Bytes
  import opened WebSocketFrames
  import opened WebSocketWire

  datatype AnyFrame = AnyFrame(fin: bool, reserved: nat, opcode: nat, key: Option<seq<byte>>, payload: seq<byte>)

  predicate Standard(f: AnyFrame) {
    f.reserved < 8 && f.opcode < 16 && (f.key.Some? ==> |f.key.value| == 4) && |f.payload| < LIMIT
  }

  // The length in as few bytes as it takes, behind the mask bit.
  function LengthOf(n: nat, flag: byte): seq<byte>
    requires n < LIMIT && flag in {0, 0x80}
  {
    if n <= 125 then [flag + n]
    else if n <= 0xffff then [flag + 126, n / 0x100, n % 0x100]
    else [flag + 127, 0, 0, 0, 0, n / 0x100_0000, n / 0x1_0000 % 0x100, n / 0x100 % 0x100, n % 0x100]
  }

  function KeyAndPayload(f: AnyFrame): seq<byte>
    requires Standard(f)
  {
    if f.key.None? then f.payload else f.key.value + Unmasked(f.payload, true, f.key.value)
  }

  function Wire(f: AnyFrame): seq<byte>
    requires Standard(f)
  {
    [(if f.fin then 0x80 else 0) + 0x10 * f.reserved + f.opcode]
    + LengthOf(|f.payload|, if f.key.Some? then 0x80 else 0) + KeyAndPayload(f)
  }

  function Meant(f: AnyFrame): Message
    requires Standard(f)
  {
    Message(f.payload, f.opcode, f.fin)
  }

  // Reserved bits are taken for FIN.
  function Taken(f: AnyFrame): Message
    requires Standard(f)
  {
    Message(f.payload, f.opcode, f.fin || f.reserved != 0)
  }

  lemma UnmaskedTwice(d: seq<byte>, key: seq<byte>)
    requires |key| == 4
    ensures Unmasked(Unmasked(d, true, key), true, key) == d
  {
    forall j | 0 <= j < |d| ensures Unmasked(Unmasked(d, true, key), true, key)[j] == d[j] {
      XorTwice(d[j], key[j % 4]);
    }
  }

  // Key and payload, where the payload is not empty.
  lemma BodyTaken(f: AnyFrame, rest: seq<byte>, fin: bool)
    requires Standard(f) && f.payload != []
    ensures BodyOf(KeyAndPayload(f) + rest, |f.payload|, f.key.Some?, f.opcode, fin) == Whole(Message(f.payload, f.opcode, fin), rest)
  {
    hide Xor;
    var n, data := |f.payload|, KeyAndPayload(f) + rest;
    if f.key.Some? {
      var d := Unmasked(f.payload, true, f.key.value);
      UnmaskedTwice(f.payload, f.key.value);
      assert data[..4] == f.key.value && data[4..] == d + rest;
      assert (d + rest)[..n] == d && (d + rest)[n..] == rest;
    } else {
      assert data[..n] == f.payload && data[n..] == rest;
    }
  }

  lemma FirstByte(f: AnyFrame)
    requires Standard(f)
    ensures Wire(f)[0] >= 16 <==> f.fin || f.reserved != 0
    ensures Wire(f)[0] % 16 == f.opcode
  {
  }

  lemma Digits(n: nat)
    ensures n == n / 0x100_0000 * 0x100_0000 + n / 0x1_0000 % 0x100 * 0x1_0000 + n / 0x100 % 0x100 * 0x100 + n % 0x100
  {
    assert n / 0x100 / 0x100 == n / 0x1_0000 && n / 0x1_0000 / 0x100 == n / 0x100_0000;
  }

  lemma Number64(n: nat)
    requires n < LIMIT
    ensures FromBE([0, 0, 0, 0, n / 0x100_0000, n / 0x1_0000 % 0x100, n / 0x100 % 0x100, n % 0x100]) == n
  {
    hide FromBE;
    assert n == n / 0x100_0000 * 0x100_0000 + n / 0x1_0000 % 0x100 * 0x1_0000 + n / 0x100 % 0x100 * 0x100 + n % 0x100 by { Digits(n); }
    var bs: seq<byte> := [0, 0, 0, 0, n / 0x100_0000, n / 0x1_0000 % 0x100, n / 0x100 % 0x100, n % 0x100];
    FromBE8(bs);
    FromBE4(bs[..4]);
    FromBE4(bs[4..]);
  }

  // The reading of the parts of a frame.
  lemma PartsRead(first: byte, length: seq<byte>, n: nat, body: seq<byte>, masked: bool)
    requires 0 < n < LIMIT && length == LengthOf(n, if masked then 0x80 else 0)
    ensures HeadOf([first] + length + body) == BodyOf(body, n, masked, first % 16, first >= 16)
  {
    hide BodyOf, FromBE;
    var data := [first] + length + body;
    if n <= 125 {
      assert data[2..] == body;
    } else if n <= 0xffff {
      assert data[4..] == body && data[2] == n / 0x100 && data[3] == n % 0x100;
    } else {
      Number64(n);
      assert data[10..] == body && data[2..10] == length[1..];
    }
  }

  /** A standard frame with a payload is taken whole. */
  lemma FrameTaken(f: AnyFrame, rest: seq<byte>)
    requires Standard(f) && f.payload != []
    ensures HeadOf(Wire(f) + rest) == Whole(Taken(f), rest)
  {
    hide KeyAndPayload, BodyOf, LengthOf, HeadOf;
    var length, body := LengthOf(|f.payload|, if f.key.Some? then 0x80 else 0), KeyAndPayload(f) + rest;
    FirstByte(f);
    BodyTaken(f, rest, f.fin || f.reserved != 0);
    PartsRead(Wire(f)[0], length, |f.payload|, body, f.key.Some?);
    assert Wire(f) + rest == [Wire(f)[0]] + length + body;
  }

  lemma NothingMasked(f: AnyFrame)
    requires Standard(f) && f.payload == [] && f.key.Some?
    ensures Unmasked(f.payload, true, f.key.value) == []
  {
  }

  /** Of one with an empty payload the key is left over, and taken for what comes next. */
  lemma EmptyFrameTaken(f: AnyFrame, rest: seq<byte>)
    requires Standard(f) && f.payload == []
    ensures HeadOf(Wire(f) + rest) == Whole(Taken(f), (if f.key.Some? then f.key.value else []) + rest)
  {
    hide BodyOf, FromBE, Unmasked;
    var data := Wire(f) + rest;
    FirstByte(f);
    if f.key.Some? { NothingMasked(f); }
    assert data[2..] == KeyAndPayload(f) + rest;
  }

  // Reserved bits only in a last frame, and a key only with a payload.
  predicate TakenAsSent(f: AnyFrame) { (f.fin || f.reserved == 0) && (f.key.Some? ==> f.payload != []) }

  lemma TurnDelivers(s: State, b: byte)
    requires Ok(s)
    ensures var r := Turn(s, b); r.Going? ==>
      (|r.s.delivered| >= |s.delivered| && (r.s.step.FixedHeader? ==> |r.s.delivered| > |s.delivered|))
  {
    hide Xor, FromBE;
  }

  // The parser comes to rest again only by handing something on.
  lemma {:induction false} RestDelivers(s: State, data: seq<byte>)
    requires Ok(s)
    ensures var r := Feed(s, data); r.Going? ==> |r.s.delivered| >= |s.delivered|
    ensures var r := Feed(s, data); r.Going? && r.s.step.FixedHeader? && data != [] ==> |r.s.delivered| > |s.delivered|
    decreases |data|
  {
    if data != [] {
      hide Turn, Ok;
      TurnDelivers(s, data[0]);
      var r := Turn(s, data[0]);
      if r.Going? { RestDelivers(r.s, data[1..]); }
    }
  }

  lemma NothingFed(s: State)
    requires Ok(s)
    ensures Feed(s, []) == Going(s)
  {
  }

  lemma ResetIs(d: seq<Message>, d': seq<Message>)
    ensures Reset(d) == Reset(d') <==> d == d'
    ensures Ok(Reset(d)) && Reset(d).step.FixedHeader? && Reset(d).delivered == d
  {
  }

  /** A standard frame is handed on as it was sent, with the parser ready for the next, exactly if reserved bits are set
      only where FIN is, and if it has no key when there is nothing to mask. */
  lemma StandardFrameIff(d: seq<Message>, f: AnyFrame)
    requires Standard(f)
    ensures Ok(Reset(d))
    ensures Feed(Reset(d), Wire(f)) == Going(Reset(d + [Meant(f)])) <==> TakenAsSent(f)
  {
    hide Feed, HeadOf, Wire, Reset, Ok;
    HeadRead(d, Wire(f));
    assert Wire(f) + [] == Wire(f);
    if f.payload != [] { FrameTaken(f, []); } else { EmptyFrameTaken(f, []); }
    var left: seq<byte> := if f.payload == [] && f.key.Some? then f.key.value else [];
    assert left + [] == left;
    var d' := d + [Taken(f)];
    ResetIs(d', d + [Meant(f)]);
    assert Feed(Reset(d), Wire(f)) == Feed(Reset(d'), left);
    if left == [] {
      assert Feed(Reset(d'), left) == Going(Reset(d')) by { NothingFed(Reset(d')); }
      assert d' == d + [Meant(f)] <==> Taken(f) == Meant(f) by { assert d'[|d|] == Taken(f) && (d + [Meant(f)])[|d|] == Meant(f); }
    } else {
      ResetIs(d + [Meant(f)], d');
      RestDelivers(Reset(d'), left);
    }
  }

  ghost predicate AllTaken(fs: seq<AnyFrame>)
    ensures AllTaken(fs) ==> forall f :: f in fs ==> Standard(f)
  {
    forall f :: f in fs ==> Standard(f) && TakenAsSent(f)
  }

  function WireOf(fs: seq<AnyFrame>): seq<byte>
    requires forall f :: f in fs ==> Standard(f)
  {
    if fs == [] then [] else Wire(fs[0]) + WireOf(fs[1..])
  }

  function MeantBy(fs: seq<AnyFrame>): seq<Message>
    requires forall f :: f in fs ==> Standard(f)
  {
    if fs == [] then [] else [Meant(fs[0])] + MeantBy(fs[1..])
  }

  lemma OneTaken(d: seq<Message>, f: AnyFrame, rest: seq<byte>)
    requires Standard(f) && TakenAsSent(f)
    ensures Ok(Reset(d)) && Ok(Reset(d + [Meant(f)]))
    ensures Feed(Reset(d), Wire(f) + rest) == Feed(Reset(d + [Meant(f)]), rest)
  {
    hide Feed, HeadOf, Wire, Reset, Ok;
    HeadRead(d, Wire(f) + rest);
    ResetIs(d + [Meant(f)], d);
    if f.payload != [] {
      FrameTaken(f, rest);
    } else {
      EmptyFrameTaken(f, rest);
      assert [] + rest == rest;
    }
  }

  lemma AllTakenRest(fs: seq<AnyFrame>)
    requires AllTaken(fs) && fs != []
    ensures Standard(fs[0]) && TakenAsSent(fs[0]) && AllTaken(fs[1..])
  {
  }

  /** So any number of such frames in one call are handed on as they were sent, and the parser is ready for the next. */
  lemma {:induction false} StandardStream(d: seq<Message>, fs: seq<AnyFrame>)
    requires AllTaken(fs)
    ensures Ok(Reset(d)) && Feed(Reset(d), WireOf(fs)) == Going(Reset(d + MeantBy(fs)))
    decreases |fs|
  {
    hide Feed, Wire, Reset, Ok, AllTaken, Standard, TakenAsSent, Meant;
    ResetIs(d, d);
    if fs == [] {
      NothingFed(Reset(d));
      assert d + MeantBy(fs) == d;
    } else {
      AllTakenRest(fs);
      var m := Meant(fs[0]);
      OneTaken(d, fs[0], WireOf(fs[1..]));
      StandardStream(d + [m], fs[1..]);
      assert d + [m] + MeantBy(fs[1..]) == d + MeantBy(fs);
    }
  }
}
