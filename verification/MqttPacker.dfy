/** Packing MQTT packets, and that the parser reads packed packets back however the stream is cut. */
module MqttPacker {
  import opened Options
  import opened Bytes
  import opened MqttMessages
  import opened MqttParser
  import Utf8

  // --- The bytes of a packet ---

  const LIMIT := 0x4000      // lengths of at most two bytes
  const LIMIT3 := 0x20_0000
  const LIMIT4 := 0x1000_0000

  function Varint(v: nat): seq<byte> {
    if v < 0x80 then [v]
    else if v < LIMIT then [v % 0x80 + 0x80, v / 0x80]
    else if v < LIMIT3 then [v % 0x80 + 0x80, v / 0x80 % 0x80 + 0x80, v / LIMIT]
    else if v < LIMIT4 then [v % 0x80 + 0x80, v / 0x80 % 0x80 + 0x80, v / LIMIT % 0x80 + 0x80, v / LIMIT3]
    else []
  }

  function B16(n: nat): seq<byte> { [n / 0x100 % 0x100, n % 0x100] }

  function CopyData(s: seq<byte>): seq<byte> { B16(|s|) + s }

  function PackFilters(fs: seq<Filter>): seq<byte> {
    if fs == [] then [] else CopyData(fs[0].topic) + [fs[0].qos] + PackFilters(fs[1..])
  }

  function PackTopics(ts: seq<seq<byte>>): seq<byte> {
    if ts == [] then [] else CopyData(ts[0]) + PackTopics(ts[1..])
  }

  // The packets there is a packer for, but not connect.
  predicate HasPacker(m: Msg) {
    match m.body
    case Publish(_, _, payload) => payload.Some? && m.header.qos < 4
    case Ack(kind, _) => kind in {PUBLISH_ACK, PUBLISH_REC, PUBLISH_REL, PUBLISH_COMP, UNSUBSCRIBE_ACK}
    case Bare(kind) => kind in {PING_REQ, PING_RSP}
    case Connect(_, _, _, _, _, _, _, _) => false
    case _ => true
  }

  function First(m: Msg): byte
    requires HasPacker(m)
  {
    match m.body
    case ConnectAck(_, _) => CONNECT_ACK
    case Publish(_, _, _) =>
      PUBLISH + (if m.header.dup != 0 then 8 else 0) + m.header.qos * 2 + (if m.header.retain != 0 then 1 else 0)
    case Ack(kind, _) => if kind == PUBLISH_REL then kind + 2 else kind
    case Subscribe(_, _) => SUBSCRIBE + 2
    case SubscribeAck(_, _) => SUBSCRIBE_ACK
    case Unsubscribe(_, _) => UNSUBSCRIBE
    case Bare(kind) => kind
  }

  function PackBody(m: Msg): seq<byte>
    requires HasPacker(m)
  {
    match m.body
    case ConnectAck(session, code) => [session % 2, code]
    case Publish(topic, id, payload) => CopyData(topic) + (if m.header.qos == 0 then [] else B16(id)) + payload.value
    case Ack(_, id) => B16(id)
    case Subscribe(id, filters) => B16(id) + PackFilters(filters)
    case SubscribeAck(id, codes) => B16(id) + codes
    case Unsubscribe(id, topics) => B16(id) + PackTopics(topics)
    case Bare(_) => []
  }

  function Packet(first: byte, body: seq<byte>): seq<byte> {
    [first] + Varint(|body|) + body
  }

  function Pack(m: Msg): seq<byte>
    requires HasPacker(m)
  {
    Packet(First(m), PackBody(m))
  }

  // --- The length ---

  // What the parser makes of a packed length.
  function LengthRead(v: nat): nat {
    if v < LIMIT then v
    else v % 0x80 + 0x80 + if v < LIMIT3 then v / LIMIT * LIMIT else v / LIMIT3 * LIMIT3
  }

  lemma LengthTurns(s: State, v: nat, accept: Handlers)
    requires s.step == LengthStep && s.shift == 0 && s.header.remaining == 0 && v < LIMIT
    ensures v < 0x80 ==> Feed(s, Varint(v), accept) == Going(Measured(s, v, accept))
    ensures v >= 0x80 ==> Feed(s, Varint(v), accept) == Going(Measured(Continued(s, v % 0x80 + 0x80), v / 0x80, accept))
  {
    hide Measured;
    if v < 0x80 {
      assert Varint(v)[1..] == [];
      assert Turn(s, v, accept) == Going(Measured(s, v, accept));
    } else {
      var t := Continued(s, v % 0x80 + 0x80);
      assert Varint(v)[1..] == [v / 0x80] && [v / 0x80][1..] == [];
      assert Turn(s, v % 0x80 + 0x80, accept) == Going(t);
      assert Turn(t, v / 0x80, accept) == Going(Measured(t, v / 0x80, accept));
      assert Feed(t, [v / 0x80], accept) == Feed(Measured(t, v / 0x80, accept), [], accept);
    }
  }

  lemma LongerLengthTurns(s: State, v: nat, accept: Handlers) returns (t: State)
    requires s.step == LengthStep && s.shift == 0 && s.header.remaining == 0 && LIMIT <= v < LIMIT4
    ensures t.step == LengthStep && t.shift == (if v < LIMIT3 then 14 else 21)
    ensures t.header == s.header.(remaining := v % 0x80 + 0x80)
    ensures Feed(s, Varint(v), accept)
         == Feed(t, [if v < LIMIT3 then v / LIMIT else v / LIMIT3], accept)
  {
    hide Measured;
    var a, b := v % 0x80 + 0x80, v / 0x80 % 0x80 + 0x80;
    var s1 := Continued(s, a);
    t := Continued(s1, b);
    var tail := Varint(v)[1..][1..];
    assert Turn(s, a, accept) == Going(s1) && Turn(s1, b, accept) == Going(t);
    assert Feed(s, Varint(v), accept) == Feed(s1, Varint(v)[1..], accept) == Feed(t, tail, accept);
    if v < LIMIT3 {
      assert tail == [v / LIMIT];
    } else {
      var c, s2 := v / LIMIT % 0x80 + 0x80, t;
      t := Continued(s2, c);
      assert tail == [c, v / LIMIT3] && tail[1..] == [v / LIMIT3];
      assert Turn(s2, c, accept) == Going(t);
    }
  }

  lemma LastLengthTurn(t: State, d: byte, accept: Handlers)
    requires t.step == LengthStep && t.shift <= 21 && 0 < d < 0x80
    ensures var r := Feed(t, [d], accept);
      r.Going? && r.s.step == DataStep && r.s.header.remaining == t.header.remaining + d * Power(t.shift)
  {
    assert [d][1..] == [];
    assert d * Power(t.shift) > 0;
  }

  /** A packed length is followed by waiting for a body of the length read, and that is not always the one packed. */
  lemma PackedLengthIsRead(s: State, v: nat, accept: Handlers)
    requires s.step == LengthStep && s.shift == 0 && s.header.remaining == 0 && 0 < v < LIMIT4
    ensures var r := Feed(s, Varint(v), accept);
      r.Going? && r.s.step == DataStep && r.s.header.remaining == LengthRead(v)
  {
    if v >= LIMIT {
      var t := LongerLengthTurns(s, v, accept);
      LastLengthTurn(t, if v < LIMIT3 then v / LIMIT else v / LIMIT3, accept);
    } else {
      LengthTurns(s, v, accept);
    }
  }

  /** A length is read as it was packed exactly when it takes two bytes at most or its middle bits happen to fit. */
  lemma LengthSurvivesIff(v: nat)
    requires v < LIMIT4
    ensures LengthRead(v) == v
       <==> v < LIMIT || (v / 0x80 % 0x80 == 1 && (v < LIMIT3 || v / LIMIT % 0x80 == 0))
  {
    assert v == v % 0x80 + v / 0x80 % 0x80 * 0x80 + v / LIMIT % 0x80 * LIMIT + v / LIMIT3 * LIMIT3;
  }

  // --- A whole packet ---

  // What the parser has when a packet is complete.
  function Given(s: State, first: byte, body: seq<byte>): State {
    s.(step := TypeStep, header := HeaderOf(first).(remaining := |body|), shift := 0, buffer := body, bufferLen := |body|)
  }

  function Handled(s: State, first: byte, body: seq<byte>, accept: Handlers): Fed {
    var (t, ok) := Handle(Given(s, first, body), accept);
    if body == [] then Going(t.(status := ok)) else if ok then Going(t) else Stopped(t)
  }

  lemma HeaderAndLength(s: State, first: byte, n: nat, accept: Handlers)
    requires Ok(s) && s.step == TypeStep && 0 < n < LIMIT
    ensures Feed(s, [first] + Varint(n), accept)
      == Going(s.(step := DataStep, header := HeaderOf(first).(remaining := n), buffer := [], bufferLen := n))
  {
    var t := s.(header := HeaderOf(first), step := LengthStep);
    assert Turn(s, first, accept) == Going(t);
    assert ([first] + Varint(n))[1..] == Varint(n);
    assert Feed(s, [first] + Varint(n), accept) == Feed(t, Varint(n), accept);
    LengthTurns(t, n, accept);
  }

  /** A packet is handed to its handler once its last byte has been fed. */
  lemma PacketIsHandled(s: State, first: byte, body: seq<byte>, accept: Handlers)
    requires Ok(s) && s.step == TypeStep && |body| < LIMIT
    ensures Feed(s, Packet(first, body), accept) == Handled(s, first, body, accept)
  {
    if body == [] {
      assert Packet(first, body) == [first, 0];
      TwoBytes(s, [first, 0], accept);
    } else {
      HeaderAndLength(s, first, |body|, accept);
      var t := s.(step := DataStep, header := HeaderOf(first).(remaining := |body|), buffer := [], bufferLen := |body|);
      FeedJoins(s, [first] + Varint(|body|), body, accept);
      FeedBody(t, body, accept);
      assert t.buffer + body == body;
    }
  }

  lemma TwoBytes(s: State, data: seq<byte>, accept: Handlers)
    requires Ok(s) && s.step == TypeStep && |data| == 2 && data[1] == 0
    ensures Feed(s, data, accept) == Handled(s, data[0], [], accept)
  {
    var s1 := s.(header := HeaderOf(data[0]), step := LengthStep);
    assert Turn(s, data[0], accept) == Going(s1);
    assert data[1..] == [0] && [0 as byte][1..] == [];
    assert Turn(s1, 0, accept) == Going(Measured(s1, 0, accept));
    assert Feed(s1, [0], accept) == Feed(Measured(s1, 0, accept), [], accept);
    hide ParseBody;
    assert ParseBody(HeaderOf(data[0]), []) == ParseBody(Given(s, data[0], []).header, Given(s, data[0], []).buffer);
  }

  // --- Bodies ---

  /** A packed topic is read back exactly when it is not empty and check_utf8 takes it. */
  lemma TopicSurvivesIff(t: seq<byte>, rest: seq<byte>)
    requires |t| < 0x1_0000
    ensures Topic(CopyData(t) + rest) == if TopicOk(t) then Some(Taken(t, rest)) else None
  {
    hide Utf8.Accepts;
    var buf := CopyData(t) + rest;
    assert buf[0] == |t| / 0x100 && buf[1] == |t| % 0x100;
    assert buf[2..2 + |t|] == t && buf[2 + |t|..] == rest;
  }

  lemma IdSurvives(n: nat, rest: seq<byte>)
    requires n < 0x1_0000
    ensures Id(B16(n) + rest) == Some(Taken(n, rest)) && Number16(B16(n) + rest) == n
  {
    assert (B16(n) + rest)[2..] == rest;
  }

  /** A publish body: refused exactly for a bad topic; the id is kept exactly when there is a QoS, the payload when there is one. */
  lemma PublishIsRead(h: Header, topic: seq<byte>, id: nat, payload: seq<byte>)
    requires |topic| < 0x1_0000 && id < 0x1_0000
    ensures ParsePublish(h, CopyData(topic) + (if h.qos == 0 then [] else B16(id)) + payload)
      == if !TopicOk(topic) then None
         else Some(Publish(topic, if h.qos == 0 then 0 else id, if payload == [] then None else Some(payload)))
  {
    hide Topic, TopicOk;
    var mid := if h.qos == 0 then [] else B16(id);
    assert CopyData(topic) + mid + payload == CopyData(topic) + (mid + payload);
    TopicSurvivesIff(topic, mid + payload);
    IdSurvives(id, payload);
    if h.qos == 0 { assert mid + payload == payload; }
  }

  predicate FilterOk(f: Filter) { TopicOk(f.topic) && f.qos < 4 }

  // One filter of the list.
  lemma FilterIsRead(f: Filter, more: seq<byte>)
    requires |f.topic| < 0x1_0000
    ensures ParseFilters(CopyData(f.topic) + [f.qos] + more)
      == if !FilterOk(f) || ParseFilters(more).None? then None else Some([f] + ParseFilters(more).value)
  {
    hide Topic, TopicOk;
    var rest := [f.qos] + more;
    assert CopyData(f.topic) + [f.qos] + more == CopyData(f.topic) + rest;
    TopicSurvivesIff(f.topic, rest);
    assert rest[1..] == more;
  }

  lemma {:induction false} FiltersAreRead(fs: seq<Filter>)
    requires forall f :: f in fs ==> |f.topic| < 0x1_0000
    ensures ParseFilters(PackFilters(fs)) == if forall f :: f in fs ==> FilterOk(f) then Some(fs) else None
  {
    if fs != [] {
      hide ParseFilters, CopyData, FilterOk;
      FilterIsRead(fs[0], PackFilters(fs[1..]));
      FiltersAreRead(fs[1..]);
      assert fs == [fs[0]] + fs[1..];
      assert forall f :: f in fs <==> f == fs[0] || f in fs[1..];
    }
  }

  lemma CopyDataLength(s: seq<byte>)
    ensures |CopyData(s)| == 2 + |s|
  {
  }

  lemma {:induction false} TopicsAreRead(ts: seq<seq<byte>>)
    requires forall t :: t in ts ==> |t| < 0x1_0000
    ensures ParseTopics(PackTopics(ts)) == if forall t :: t in ts ==> TopicOk(t) then Some(ts) else None
  {
    if ts != [] {
      hide Topic, TopicOk, CopyData;
      var rest := PackTopics(ts[1..]);
      assert |PackTopics(ts)| > 0 by { CopyDataLength(ts[0]); }
      TopicSurvivesIff(ts[0], rest);
      TopicsAreRead(ts[1..]);
      assert ts == [ts[0]] + ts[1..];
      assert forall t :: t in ts <==> t == ts[0] || t in ts[1..];
    }
  }

  /** A subscription is read back exactly when it has filters, all with good topics and a QoS below four. */
  lemma SubscribeIsRead(h: Header, id: nat, fs: seq<Filter>)
    requires h.qos == 1 && id < 0x1_0000 && forall f :: f in fs ==> |f.topic| < 0x1_0000
    ensures ParseSubscribe(h, B16(id) + PackFilters(fs))
      == if fs != [] && forall f :: f in fs ==> FilterOk(f) then Some(Subscribe(id, fs)) else None
  {
    hide ParseFilters, PackFilters, FilterOk, B16;
    IdSurvives(id, PackFilters(fs));
    FiltersAreRead(fs);
  }

  lemma UnsubscribeIsRead(h: Header, id: nat, ts: seq<seq<byte>>)
    requires h.reserved == 0 && id < 0x1_0000 && forall t :: t in ts ==> |t| < 0x1_0000
    ensures ParseUnsubscribe(h, B16(id) + PackTopics(ts))
      == if forall t :: t in ts ==> TopicOk(t) then Some(Unsubscribe(id, ts)) else None
  {
    hide ParseTopics, PackTopics, TopicOk, B16;
    IdSurvives(id, PackTopics(ts));
    TopicsAreRead(ts);
  }

  /** The codes of a subscribe-ack survive exactly when there are some and each is the high byte of the packet id. */
  lemma SubscribeAckSurvivesIff(h: Header, id: nat, codes: seq<byte>)
    requires h.reserved == 0 && id < 0x1_0000
    ensures ParseSubscribeAck(h, B16(id) + codes) == Some(SubscribeAck(id, codes))
       <==> codes != [] && forall c :: c in codes ==> c == id / 0x100
  {
    var buf := B16(id) + codes;
    IdSurvives(id, codes);
    if codes != [] {
      var read := seq(|buf| - 2, _ => buf[0]);
      assert ParseSubscribeAck(h, buf) == Some(SubscribeAck(id, read));
      if read == codes {
        forall c | c in codes ensures c == id / 0x100 { assert c in read; }
      }
      if forall c :: c in codes ==> c == id / 0x100 {
        assert forall i :: 0 <= i < |codes| ==> codes[i] in codes && read[i] == id / 0x100;
        assert read == codes;
      }
    }
  }

  // --- Messages that survive ---

  predicate Packable(m: Msg) {
    HasPacker(m) && |PackBody(m)| < LIMIT &&
    match m.body
    case ConnectAck(session, _) => session < 2
    case Publish(topic, id, payload) =>
      TopicOk(topic) && |topic| < 0x1_0000 && id < 0x1_0000 && (m.header.qos == 0 ==> id == 0) && payload.value != []
    case Ack(_, id) => id < 0x1_0000
    case Subscribe(id, fs) =>
      id < 0x1_0000 && fs != [] && forall f :: f in fs ==> FilterOk(f) && |f.topic| < 0x1_0000
    case SubscribeAck(id, codes) => id < 0x1_0000 && codes != [] && forall c :: c in codes ==> c == id / 0x100
    case Unsubscribe(id, ts) => id < 0x1_0000 && forall t :: t in ts ==> TopicOk(t) && |t| < 0x1_0000
    case Bare(_) => true
  }

  /** The parser reads the body of every packable message back. */
  lemma BodySurvives(m: Msg)
    requires Packable(m)
    ensures ParseBody(HeaderOf(First(m)).(remaining := |PackBody(m)|), PackBody(m)) == Some(m.body)
  {
    hide ParsePublish, ParseSubscribe, ParseUnsubscribe, ParseSubscribeAck, TopicOk, FilterOk, PackFilters, PackTopics;
    var h := HeaderOf(First(m)).(remaining := |PackBody(m)|);
    match m.body {
      case Publish(topic, id, payload) =>
        PublishHeader(m);
        PublishIsRead(h, topic, id, payload.value);
      case Subscribe(id, fs) => SubscribeIsRead(h, id, fs);
      case Unsubscribe(id, ts) => UnsubscribeIsRead(h, id, ts);
      case SubscribeAck(id, codes) => SubscribeAckSurvivesIff(h, id, codes);
      case _ =>
    }
  }

  /** The flags of a publish survive as truth values, its QoS as it is. */
  lemma PublishHeader(m: Msg)
    requires HasPacker(m) && m.body.Publish?
    ensures var h := HeaderOf(First(m));
      h.kind == PUBLISH && h.qos == m.header.qos
      && (h.dup != 0 <==> m.header.dup != 0) && (h.retain != 0 <==> m.header.retain != 0)
  {
  }

  // The message as the handler gets it.
  function Received(m: Msg): Msg
    requires HasPacker(m)
  {
    Msg(HeaderOf(First(m)).(remaining := |PackBody(m)|), m.body)
  }

  predicate SameMessage(a: Msg, b: Msg) {
    a.body == b.body
    && (a.body.Publish? ==> a.header.qos == b.header.qos)
    && (a.body.Publish? ==> (a.header.dup != 0 <==> b.header.dup != 0) && (a.header.retain != 0 <==> b.header.retain != 0))
  }

  lemma ReceivedIsSame(m: Msg)
    requires HasPacker(m)
    ensures SameMessage(m, Received(m))
  {
    if m.body.Publish? { PublishHeader(m); }
  }

  // --- Streams ---

  ghost predicate AllPackable(ms: seq<Msg>)
    ensures AllPackable(ms) ==> forall m :: m in ms ==> HasPacker(m)
  {
    forall m :: m in ms ==> Packable(m)
  }

  function PackAll(ms: seq<Msg>): seq<byte>
    requires forall m :: m in ms ==> HasPacker(m)
  {
    if ms == [] then [] else Pack(ms[0]) + PackAll(ms[1..])
  }

  function ReceivedAll(ms: seq<Msg>): seq<Msg>
    requires forall m :: m in ms ==> HasPacker(m)
  {
    if ms == [] then [] else [Received(ms[0])] + ReceivedAll(ms[1..])
  }

  lemma OneIsReceived(s: State, m: Msg, accept: Handlers)
    requires Ok(s) && s.step == TypeStep && Packable(m)
    requires accept(s.delivered + [Received(m)])
    ensures var r := Feed(s, Pack(m), accept);
      r.Going? && Ok(r.s) && r.s.step == TypeStep && r.s.delivered == s.delivered + [Received(m)]
      && (s.status ==> r.s.status)
  {
    hide ParseBody, Feed, PackBody, First, HeaderOf;
    PacketIsHandled(s, First(m), PackBody(m), accept);
    BodySurvives(m);
  }

  lemma {:induction false} AllAreReceived(s: State, ms: seq<Msg>, accept: Handlers)
    requires Ok(s) && s.step == TypeStep && s.status
    requires AllPackable(ms)
    requires forall d: seq<Msg> :: accept(d)
    ensures var r := Feed(s, PackAll(ms), accept);
      r.Going? && r.s.step == TypeStep && r.s.status && r.s.delivered == s.delivered + ReceivedAll(ms)
    decreases |ms|
  {
    if ms == [] {
      assert s.delivered + [] == s.delivered;
    } else {
      assert Packable(ms[0]) && HasPacker(ms[0]) && AllPackable(ms[1..]);
      hide Feed, Pack, Ok, Packable, HasPacker, AllPackable, Received;
      OneIsReceived(s, ms[0], accept);
      FeedJoins(s, Pack(ms[0]), PackAll(ms[1..]), accept);
      var t := Feed(s, Pack(ms[0]), accept).s;
      AllAreReceived(t, ms[1..], accept);
      Regroup(s.delivered, Received(ms[0]), ReceivedAll(ms[1..]));
    }
  }

  lemma Regroup(a: seq<Msg>, m: Msg, b: seq<Msg>)
    ensures a + [m] + b == a + ([m] + b)
  {
  }

  /** Packed messages, cut into chunks in any way, are handed on one by one as they were, and the parser is ready for more. */
  lemma StreamRoundTrip(ms: seq<Msg>, chunks: seq<seq<byte>>, accept: Handlers)
    requires AllPackable(ms)
    requires forall d: seq<Msg> :: accept(d)
    requires Joined(chunks) == PackAll(ms)
    ensures var r := FeedChunks(INITIAL, chunks, accept);
      r.Going? && r.s.step == TypeStep && r.s.status && |r.s.delivered| == |ms|
      && forall i :: 0 <= i < |ms| ==> SameMessage(ms[i], r.s.delivered[i])
  {
    CuttingDoesNotMatter(INITIAL, chunks, accept);
    AllAreReceived(INITIAL, ms, accept);
    assert INITIAL.delivered + ReceivedAll(ms) == ReceivedAll(ms);
    ReceivedEach(ms);
  }

  lemma {:induction false} ReceivedEach(ms: seq<Msg>)
    requires forall m :: m in ms ==> HasPacker(m)
    ensures |ReceivedAll(ms)| == |ms| && forall i :: 0 <= i < |ms| ==> SameMessage(ms[i], ReceivedAll(ms)[i])
  {
    hide SameMessage, Received, HasPacker;
    if ms != [] {
      ReceivedIsSame(ms[0]);
      ReceivedEach(ms[1..]);
    }
  }
}
