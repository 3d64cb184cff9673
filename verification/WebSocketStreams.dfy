/** What make_frame writes, and what the parser makes of streams of frames in one buffer or cut into chunks. */
module WebSocketStreams {
  import opened Options
  import opened Bytes
  import opened WebSocketFrames

  datatype Frame = Frame(key: Option<nat>, fin: bool, opcode: byte, payload: seq<byte>)

  predicate FrameOk(f: Frame) {
    (f.key.Some? ==> f.key.value < 0x1_0000_0000) && f.opcode < 16 && |f.payload| < LIMIT
  }

  // An empty payload is never masked.
  predicate IsMasked(f: Frame) { f.key.Some? && f.payload != [] }

  function KeyBytes(f: Frame): seq<byte>
    requires f.key.Some?
  {
    BE(f.key.value, 4)
  }

  function LengthBytes(n: nat, flag: byte): seq<byte>
    requires flag in {0, 128}
  {
    if n <= 125 then [flag + n]
    else if n <= 65535 then [flag + 126] + BE(n, 2)
    else [flag + 127] + BE(n, 8)
  }

  function MaskAndPayload(f: Frame): seq<byte> {
    if IsMasked(f) then KeyBytes(f) + Masked(f.payload, KeyBytes(f), 0) else f.payload
  }

  function FirstByte(f: Frame): byte
    requires f.opcode < 16
  {
    (if f.fin then 128 else 0) + f.opcode
  }

  function MakeFrame(f: Frame): seq<byte>
    requires FrameOk(f)
  {
    [FirstByte(f)] + LengthBytes(|f.payload|, if IsMasked(f) then 128 else 0) + MaskAndPayload(f)
  }

  function Sent(f: Frame): Message { Message(f.payload, f.opcode, f.fin) }

  // --- One frame ---

  // After the length: a length that is not zero, and where to go on.
  function Announced(s: State, n: nat, masked: bool): State {
    var len7 := if n <= 125 then n else if n <= 65535 then 126 else 127;
    var ext := if n <= 125 then NO_HEADER.ext else if n <= 65535 then BE(n, 2) + [0, 0, 0, 0, 0, 0] else BE(n, 8);
    AfterLength(s.(header := s.header.(masked := masked, len7 := len7, ext := ext, realLen := n),
                   extPos := if n <= 125 then 0 else if n <= 65535 then 2 else 8))
  }

  predicate AtLength(s: State) {
    Ok(s) && s.step.PayloadLen? && s.header.ext == NO_HEADER.ext
  }

  lemma ShortLength(s: State, n: nat, flag: byte)
    requires AtLength(s) && flag in {0, 128} && 0 < n <= 125
    ensures Feed(s, LengthBytes(n, flag)) == Going(Announced(s, n, flag == 128))
  {
    assert LengthBytes(n, flag)[1..] == [];
    assert (flag + n) / 128 == flag / 128 && (flag + n) % 128 == n;
  }

  lemma {:induction false} LongLength(s: State, n: nat, flag: byte)
    requires AtLength(s) && flag in {0, 128} && 125 < n < LIMIT
    ensures Feed(s, LengthBytes(n, flag)) == Going(Announced(s, n, flag == 128))
  {
    hide BE, FromBE, Feed;
    var k, len7 := if n <= 65535 then 2 else 8, if n <= 65535 then 126 else 127;
    var t := s.(header := s.header.(masked := flag == 128, len7 := len7), step := ExtLen, since := 0);
    assert Turn(s, flag + len7) == Going(t);
    FeedOne(s, flag + len7);
    FeedJoins(s, [flag + len7], BE(n, k));
    FeedExt(t, BE(n, k));
    PowValues();
    BERoundTrip(n, k);
    var u := ExtTaken(t, BE(n, k));
    assert u.header.ext[..k] == BE(n, k);
    assert u.header.ext == BE(n, k) + NO_HEADER.ext[k..];
    if k == 2 {
      assert NO_HEADER.ext[2..] == [0, 0, 0, 0, 0, 0];
    } else {
      assert BE(n, k) + [] == BE(n, k);
    }
    assert DecodeExt(u) == Going(Announced(s, n, flag == 128));
  }

  lemma FeedOne(s: State, b: byte)
    requires Ok(s)
    ensures Feed(s, [b]) == Turn(s, b)
  {
    hide Turn, Ok;
    assert [b][1..] == [];
    var r := Turn(s, b);
    if r.Going? { assert Feed(r.s, []) == r; }
  }

  // The key and the payload after the length.
  lemma BodyTaken(s: State, f: Frame)
    requires Ok(s) && s.since == 0 && s.header.realLen == |f.payload| > 0 && s.payload == [] && s.keyPos == 0
    requires FrameOk(f) && s.header.masked == IsMasked(f) && s.header.masked == s.step.MaskKey? && s.step == AfterLength(s).step
    ensures Feed(s, MaskAndPayload(f))
      == Going(Reset(s.delivered + [Message(f.payload, s.header.opcode, s.header.fin != 0)]))
  {
    hide Feed, Masked, BE;
    if IsMasked(f) {
      var key := KeyBytes(f);
      FeedJoins(s, key, Masked(f.payload, key, 0));
      FeedKey(s, key);
      var t := KeyTaken(s, key);
      assert t.header.key == key;
      var u := t.(step := Payload, since := 0);
      FeedPayload(u, Masked(f.payload, key, 0));
      MaskedTwice(f.payload, key, 0);
      assert [] + f.payload == f.payload;
    } else {
      FeedPayload(s, f.payload);
      assert [] + f.payload == f.payload;
    }
  }

  /** From its resting state the parser takes a frame, hands on exactly what was sent, and rests again. */
  lemma FrameRoundTrip(d: seq<Message>, f: Frame)
    requires FrameOk(f)
    ensures Feed(Reset(d), MakeFrame(f)) == Going(Reset(d + [Sent(f)]))
  {
    var s, n, flag := OnFixedHeader(Reset(d), FirstByte(f)), |f.payload|, if IsMasked(f) then 128 else 0;
    HeaderTaken(d, f);
    FeedJoins(Reset(d), [FirstByte(f)], LengthBytes(n, flag));
    FeedJoins(Reset(d), [FirstByte(f)] + LengthBytes(n, flag), MaskAndPayload(f));
    if n == 0 {
      EmptyTaken(s, f);
      NothingMore(Reset(d + [Sent(f)]));
    } else {
      if n <= 125 { ShortLength(s, n, flag); } else { LongLength(s, n, flag); }
      hide Feed, MaskAndPayload;
      BodyTaken(Announced(s, n, flag == 128), f);
    }
  }

  lemma NothingMore(s: State)
    requires Ok(s)
    ensures Feed(s, []) == Going(s)
  {
  }

  lemma HeaderTaken(d: seq<Message>, f: Frame)
    requires FrameOk(f)
    ensures var s := OnFixedHeader(Reset(d), FirstByte(f));
      Feed(Reset(d), [FirstByte(f)]) == Going(s) && AtLength(s) && s.delivered == d
      && s.header.opcode == f.opcode && (s.header.fin != 0 <==> f.fin)
  {
    FeedOne(Reset(d), FirstByte(f));
  }

  lemma EmptyTaken(s: State, f: Frame)
    requires AtLength(s) && FrameOk(f) && f.payload == [] && s.header.opcode == f.opcode && (s.header.fin != 0 <==> f.fin)
    ensures Feed(s, LengthBytes(0, 0)) == Going(Reset(s.delivered + [Sent(f)]))
  {
    assert LengthBytes(0, 0)[1..] == [];
    FeedOne(s, 0);
  }

  // --- Streams of frames ---

  ghost predicate FramesOk(fs: seq<Frame>)
    ensures FramesOk(fs) ==> forall f :: f in fs ==> FrameOk(f)
  {
    forall f :: f in fs ==> FrameOk(f)
  }

  ghost function MakeFrames(fs: seq<Frame>): seq<byte>
    requires FramesOk(fs)
  {
    if fs == [] then [] else MakeFrame(fs[0]) + MakeFrames(fs[1..])
  }

  function SentAll(fs: seq<Frame>): seq<Message> {
    if fs == [] then [] else [Sent(fs[0])] + SentAll(fs[1..])
  }

  /** Any frames one after the other in a buffer are handed on as they were sent, in order, and nothing is left over. */
  lemma {:induction false} StreamRoundTrip(d: seq<Message>, fs: seq<Frame>)
    requires FramesOk(fs)
    ensures Feed(Reset(d), MakeFrames(fs)) == Going(Reset(d + SentAll(fs)))
    decreases |fs|
  {
    if fs == [] {
      assert d + [] == d;
    } else {
      hide Feed, MakeFrame, Sent, Reset, Ok, FrameOk;
      ResetOk(d);
      FrameRoundTrip(d, fs[0]);
      FeedJoins(Reset(d), MakeFrame(fs[0]), MakeFrames(fs[1..]));
      StreamRoundTrip(d + [Sent(fs[0])], fs[1..]);
      Shift(d, Sent(fs[0]), SentAll(fs[1..]));
    }
  }

  lemma ResetOk(d: seq<Message>)
    ensures Ok(Reset(d))
  {
  }

  lemma Shift(d: seq<Message>, m: Message, more: seq<Message>)
    ensures d + [m] + more == d + ([m] + more)
  {
  }

  // --- Cutting ---

  // A new call of do_parse: the count of bytes taken in the call starts again.
  function NewCall(s: State): State { s.(since := 0) }

  function FeedChunks(s: State, chunks: seq<seq<byte>>): (r: Fed)
    requires Ok(s)
    ensures r.Going? ==> Ok(r.s)
    decreases |chunks|
  {
    if chunks == [] then Going(s)
    else
      match Feed(NewCall(s), chunks[0])
      case Going(t) => FeedChunks(t, chunks[1..])
      case Beyond => Beyond
  }

  function Joined(chunks: seq<seq<byte>>): seq<byte> {
    if chunks == [] then [] else chunks[0] + Joined(chunks[1..])
  }

  // A call may end here without harm: no field is under way that is counted within a call.
  predicate Harmless(s: State) {
    || s.since == 0 || s.step.FixedHeader? || s.step.PayloadLen?
    || (s.step.Payload? && (!s.header.masked || s.since % 4 == 0))
  }

  ghost predicate CutsHarmless(s: State, chunks: seq<seq<byte>>)
    requires Ok(s)
    decreases |chunks|
  {
    Harmless(s) && (chunks != [] ==>
      match Feed(NewCall(s), chunks[0]) case Going(t) => CutsHarmless(t, chunks[1..]) case Beyond => true)
  }

  // Equal but for a count that does not matter.
  predicate Alike(s: State, t: State) {
    NewCall(s) == NewCall(t)
    && (|| s.since == t.since || s.step.FixedHeader? || s.step.PayloadLen?
        || (s.step.Payload? && (!s.header.masked || s.since % 4 == t.since % 4)))
  }

  predicate AlikeFed(r: Fed, q: Fed) {
    (r.Going? <==> q.Going?) && (r.Going? ==> Alike(r.s, q.s))
  }

  lemma TurnAlike(s: State, t: State, b: byte)
    requires Ok(s) && Ok(t) && Alike(s, t)
    ensures AlikeFed(Turn(s, b), Turn(t, b))
  {
    hide Xor, FromBE;
  }

  lemma {:induction false} FeedAlike(s: State, t: State, data: seq<byte>)
    requires Ok(s) && Ok(t) && Alike(s, t)
    ensures AlikeFed(Feed(s, data), Feed(t, data))
    decreases |data|
  {
    hide Turn, Ok, Alike;
    if data != [] {
      TurnAlike(s, t, data[0]);
      var r, q := Turn(s, data[0]), Turn(t, data[0]);
      if r.Going? { FeedAlike(r.s, q.s, data[1..]); }
    }
  }

  lemma AlikeTransitive(a: Fed, b: Fed, c: Fed)
    requires AlikeFed(a, b) && AlikeFed(b, c)
    ensures AlikeFed(a, c)
  {
  }

  /** Cut only at harmless places, any stream gives the handler the same messages and leaves the same state, count apart. */
  lemma {:induction false} HarmlessCuttingDoesNotMatter(s: State, chunks: seq<seq<byte>>)
    requires Ok(s) && CutsHarmless(s, chunks)
    ensures AlikeFed(FeedChunks(s, chunks), Feed(s, Joined(chunks)))
    decreases |chunks|
  {
    if chunks != [] {
      hide Harmless, Ok, Alike;
      var head, rest := chunks[0], Joined(chunks[1..]);
      HarmlessAlike(s);
      NewCallOk(s);
      FeedAlike(NewCall(s), s, head);
      FeedJoins(s, head, rest);
      var r, q := Feed(NewCall(s), head), Feed(s, head);
      if r.Going? {
        HarmlessCuttingDoesNotMatter(r.s, chunks[1..]);
        FeedAlike(r.s, q.s, rest);
        AlikeTransitive(FeedChunks(r.s, chunks[1..]), Feed(r.s, rest), Feed(q.s, rest));
      }
    } else {
      assert Joined(chunks) == [];
    }
  }

  lemma HarmlessAlike(s: State)
    requires Harmless(s)
    ensures Alike(NewCall(s), s)
  {
  }

  lemma NewCallOk(s: State)
    requires Ok(s)
    ensures Ok(NewCall(s))
  {
  }

  // --- Small unmasked frames under every cutting ---

  predicate Small(f: Frame) { FrameOk(f) && f.key.None? && |f.payload| <= 125 }

  predicate Rests(s: State) {
    Ok(s) && (s.step.FixedHeader? || s.step.PayloadLen? || (s.step.Payload? && !s.header.masked))
  }

  // In the middle of a small frame.
  lemma SmallFramePrefix(d: seq<Message>, f: Frame, k: nat)
    requires Small(f) && k <= |MakeFrame(f)|
    ensures var r := Feed(Reset(d), MakeFrame(f)[..k]); r.Going? && Rests(r.s)
  {
    var s, n := OnFixedHeader(Reset(d), FirstByte(f)), |f.payload|;
    var whole := MakeFrame(f);
    assert whole == [FirstByte(f), n] + f.payload;
    HeaderTaken(d, f);
    if k == 0 {
      assert whole[..0] == [];
    } else if k == 1 {
      assert whole[..1] == [FirstByte(f)];
    } else if n == 0 {
      assert whole[..k] == whole;
      FrameRoundTrip(d, f);
    } else {
      var t := Announced(s, n, false);
      assert whole[..2] == [FirstByte(f)] + LengthBytes(n, 0);
      FeedJoins(Reset(d), [FirstByte(f)], LengthBytes(n, 0));
      ShortLength(s, n, 0);
      if k == 2 {
      } else {
        var part := f.payload[..k - 2];
        assert whole[..k] == whole[..2] + part;
        FeedJoins(Reset(d), whole[..2], part);
        FeedPayload(t, part);
      }
    }
  }

  ghost predicate AllSmall(fs: seq<Frame>)
    ensures AllSmall(fs) ==> FramesOk(fs)
  {
    forall f :: f in fs ==> Small(f)
  }

  lemma {:induction false} SmallStreamPrefix(d: seq<Message>, fs: seq<Frame>, k: nat)
    requires AllSmall(fs) && k <= |MakeFrames(fs)|
    ensures var r := Feed(Reset(d), MakeFrames(fs)[..k]); r.Going? && Rests(r.s)
    decreases |fs|
  {
    if fs != [] {
      hide Feed, MakeFrame, Rests;
      assert Small(fs[0]);
      var head, more := MakeFrame(fs[0]), MakeFrames(fs[1..]);
      if k <= |head| {
        assert (head + more)[..k] == head[..k];
        SmallFramePrefix(d, fs[0], k);
      } else {
        assert (head + more)[..k] == head + more[..k - |head|];
        FrameRoundTrip(d, fs[0]);
        FeedJoins(Reset(d), head, more[..k - |head|]);
        SmallStreamPrefix(d + [Sent(fs[0])], fs[1..], k - |head|);
      }
    }
  }

  ghost predicate RestsThroughout(s: State, data: seq<byte>)
    requires Ok(s)
  {
    forall k | 0 <= k <= |data| :: Feed(s, data[..k]).Going? && Rests(Feed(s, data[..k]).s)
  }

  lemma {:induction false} RestingCutsHarmless(s: State, chunks: seq<seq<byte>>)
    requires Rests(s) && RestsThroughout(s, Joined(chunks))
    ensures CutsHarmless(s, chunks)
    decreases |chunks|
  {
    if chunks != [] {
      var head, rest := chunks[0], Joined(chunks[1..]);
      hide Ok, Alike;
      HarmlessAlike(s);
      NewCallOk(s);
      FeedAlike(NewCall(s), s, head);
      var data := head + rest;
      assert data[..|head|] == head;
      assert Feed(s, data[..|head|]).Going?;
      var r, q := Feed(NewCall(s), head), Feed(s, head);
      assert q.Going? && Rests(q.s);
      RestsAlike(r.s, q.s);
      forall k | 0 <= k <= |rest| ensures Feed(r.s, rest[..k]).Going? && Rests(Feed(r.s, rest[..k]).s) {
        assert data[..|head| + k] == head + rest[..k];
        assert Feed(s, data[..|head| + k]).Going?;
        FeedJoins(s, head, rest[..k]);
        FeedAlike(r.s, q.s, rest[..k]);
        var u, v := Feed(r.s, rest[..k]), Feed(q.s, rest[..k]);
        assert v.Going? && Rests(v.s);
        RestsAlike(u.s, v.s);
      }
      RestingCutsHarmless(r.s, chunks[1..]);
    }
  }

  lemma RestsAlike(s: State, t: State)
    requires Alike(s, t) && Rests(t) && Ok(s)
    ensures Rests(s)
  {
  }

  /** Unmasked frames of at most 125 bytes are handed on as they were sent, however the stream is cut. */
  lemma SmallStreamsUnderEveryCutting(fs: seq<Frame>, chunks: seq<seq<byte>>)
    requires AllSmall(fs) && Joined(chunks) == MakeFrames(fs)
    ensures var r := FeedChunks(Reset([]), chunks); r.Going? && r.s.delivered == SentAll(fs) && r.s.step.FixedHeader?
  {
    forall k | 0 <= k <= |Joined(chunks)|
      ensures Feed(Reset([]), Joined(chunks)[..k]).Going? && Rests(Feed(Reset([]), Joined(chunks)[..k]).s)
    {
      SmallStreamPrefix([], fs, k);
    }
    RestingCutsHarmless(Reset([]), chunks);
    HarmlessCuttingDoesNotMatter(Reset([]), chunks);
    StreamRoundTrip([], fs);
    assert [] + SentAll(fs) == SentAll(fs);
  }
}
