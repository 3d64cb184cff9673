/** The bytes of MQTT packets, field by field, and that exactly the bodies laid out like this are read as these fields. */
module MqttWire {
  import opened Options
  import opened Bytes
  import opened MqttMessages
  import opened MqttPacker
  import Utf8

  // --- Fields ---

  function Two(n: nat): (bs: seq<byte>)
    ensures |bs| == 2
  {
    [n / 0x100 % 0x100, n % 0x100]
  }

  // A length of two bytes and a text.
  function Text(s: seq<byte>): (bs: seq<byte>)
    ensures |bs| == 2 + |s|
  {
    Two(|s|) + s
  }

  predicate Short(s: seq<byte>) { |s| < 0x1_0000 }

  predicate FieldOk(s: seq<byte>) { s != [] && Short(s) }

  predicate TopicText(s: seq<byte>) { FieldOk(s) && Utf8.Accepts(s) }

  lemma NumberIs(buf: seq<byte>, n: nat)
    requires |buf| >= 2 && n < 0x1_0000
    ensures Number16(buf) == n <==> buf[..2] == Two(n)
  {
    assert buf[..2] == [buf[0], buf[1]];
  }

  lemma TextIsThere(buf: seq<byte>, s: seq<byte>, rest: seq<byte>)
    requires Short(s)
    ensures buf == Text(s) + rest
      <==> |buf| >= 2 && Number16(buf) == |s| && 2 + |s| <= |buf| && buf[2..2 + |s|] == s && buf[2 + |s|..] == rest
  {
    var wire := Text(s) + rest;
    assert wire[..2] == Two(|s|) && wire[2..2 + |s|] == s && wire[2 + |s|..] == rest;
    if |buf| >= 2 {
      NumberIs(buf, |s|);
      if 2 + |s| <= |buf| { assert buf == buf[..2] + buf[2..2 + |s|] + buf[2 + |s|..]; }
    }
  }

  lemma FieldIff(buf: seq<byte>, s: seq<byte>, rest: seq<byte>)
    ensures Field(buf) == Some(Taken(s, rest)) <==> FieldOk(s) && buf == Text(s) + rest
  {
    hide Text;
    if Short(s) { TextIsThere(buf, s, rest); }
  }

  lemma ClientIff(buf: seq<byte>, s: seq<byte>, rest: seq<byte>)
    ensures ParseClient(buf) == Some(Taken(s, rest)) <==> Short(s) && buf == Text(s) + rest
  {
    hide Text;
    if Short(s) { TextIsThere(buf, s, rest); }
  }

  lemma TopicIff(buf: seq<byte>, s: seq<byte>, rest: seq<byte>)
    ensures Topic(buf) == Some(Taken(s, rest)) <==> TopicText(s) && buf == Text(s) + rest
  {
    hide Field, Text, Utf8.Accepts;
    FieldIff(buf, s, rest);
  }

  lemma IdIff(buf: seq<byte>, n: nat, rest: seq<byte>)
    ensures Id(buf) == Some(Taken(n, rest)) <==> n < 0x1_0000 && buf == Two(n) + rest
  {
    if n < 0x1_0000 {
      assert (Two(n) + rest)[..2] == Two(n) && (Two(n) + rest)[2..] == rest;
      if |buf| >= 2 {
        NumberIs(buf, n);
        assert buf == buf[..2] + buf[2..];
      }
    }
  }

  // --- The body of a CONNECT ---

  predicate Set(flags: byte, bit: nat)
    requires bit in {1, 2, 4, 8, 0x10, 0x20, 0x40, 0x80}
  {
    flags / bit % 2 == 1
  }

  predicate OptionOk(o: Option<seq<byte>>) { o.Some? ==> FieldOk(o.value) }

  function OptionText(o: Option<seq<byte>>): seq<byte> {
    if o.None? then [] else Text(o.value)
  }

  predicate WillOk(w: Option<Will>) { w.Some? ==> TopicText(w.value.topic) && FieldOk(w.value.message) }

  function WillText(w: Option<Will>): seq<byte> {
    if w.None? then [] else Text(w.value.topic) + Text(w.value.message)
  }

  // The parts are there if and only if their flags are set.
  predicate ConnectOk(h: Header, c: Body)
    requires c.Connect?
  {
    && FieldOk(c.protocol) && (h.qos == 1 ==> c.level == 3) && c.keepAlive < 0x1_0000 && Short(c.client)
    && WillOk(c.will) && OptionOk(c.user) && OptionOk(c.password)
    && (c.will.Some? <==> Set(c.flags, 4)) && (c.user.Some? <==> Set(c.flags, 0x80)) && (c.password.Some? <==> Set(c.flags, 0x40))
  }

  // Protocol name, level, flags, keep-alive, client, will topic, will message, user name, password.
  function ConnectText(c: Body): seq<byte>
    requires c.Connect?
  {
    Text(c.protocol) + ([c.level, c.flags] + Two(c.keepAlive)
    + (Text(c.client) + (WillText(c.will) + (OptionText(c.user) + OptionText(c.password)))))
  }

  lemma OptionalIff(wanted: bool, buf: seq<byte>, o: Option<seq<byte>>, rest: seq<byte>)
    ensures Optional(wanted, buf) == Some(Taken(o, rest))
      <==> (wanted <==> o.Some?) && OptionOk(o) && buf == OptionText(o) + rest
  {
    hide Field, Text;
    assert [] + rest == rest;
    if o.Some? { FieldIff(buf, o.value, rest); }
  }

  lemma WillIff(wanted: bool, buf: seq<byte>, w: Option<Will>, rest: seq<byte>)
    ensures ParseWill(wanted, buf) == Some(Taken(w, rest))
      <==> (wanted <==> w.Some?) && WillOk(w) && buf == WillText(w) + rest
  {
    hide Field, Topic, Text, TopicText, FieldOk;
    assert [] + rest == rest;
    if w.Some? {
      var topic, message := w.value.topic, w.value.message;
      var tail := Text(message) + rest;
      assert WillText(w) + rest == Text(topic) + tail;
      TopicIff(buf, topic, tail);
      FieldIff(tail, message, rest);
      var read := Topic(buf);
      if read.Some? {
        TopicIff(buf, read.value.v, read.value.rest);
        FieldIff(read.value.rest, message, rest);
      }
    }
  }

  // What follows the fixed part.
  function Chosen(c: Body): seq<byte>
    requires c.Connect?
  {
    WillText(c.will) + (OptionText(c.user) + OptionText(c.password))
  }

  function Fixed(c: Body): (bs: seq<byte>)
    requires c.Connect?
    ensures |bs| == 4
  {
    [c.level, c.flags] + Two(c.keepAlive)
  }

  lemma ChosenIff(c: Body, buf: seq<byte>)
    requires c.Connect?
    ensures ReadChosen(c.flags, buf) == Some((c.will, c.user, c.password)) <==>
      && WillOk(c.will) && OptionOk(c.user) && OptionOk(c.password) && buf == Chosen(c)
      && (c.will.Some? <==> Set(c.flags, 4)) && (c.user.Some? <==> Set(c.flags, 0x80)) && (c.password.Some? <==> Set(c.flags, 0x40))
  {
    hide ParseWill, Optional, WillText, OptionText, WillOk, OptionOk;
    var (w, u, p) := (c.will, c.user, c.password);
    var tail := OptionText(u) + OptionText(p);
    assert OptionText(p) == OptionText(p) + [];
    WillIff(Set(c.flags, 4), buf, w, tail);
    OptionalIff(Set(c.flags, 0x80), tail, u, OptionText(p));
    OptionalIff(Set(c.flags, 0x40), OptionText(p), p, []);
    var will := ParseWill(Set(c.flags, 4), buf);
    if will.Some? && will.value.v == w {
      var left := will.value.rest;
      WillIff(Set(c.flags, 4), buf, w, left);
      var user := Optional(Set(c.flags, 0x80), left);
      if user.Some? && user.value.v == u {
        OptionalIff(Set(c.flags, 0x80), left, u, user.value.rest);
        OptionalIff(Set(c.flags, 0x40), user.value.rest, p, []);
      }
    }
  }

  function ReadChosen(flags: byte, buf: seq<byte>): Option<(Option<Will>, Option<seq<byte>>, Option<seq<byte>>)> {
    var will :- ParseWill(Set(flags, 4), buf);
    var user :- Optional(Set(flags, 0x80), will.rest);
    var password :- Optional(Set(flags, 0x40), user.rest);
    if password.rest == [] then Some((will.v, user.v, password.v)) else None
  }

  lemma FixedIff(c: Body, buf: seq<byte>, rest: seq<byte>)
    requires c.Connect? && c.keepAlive < 0x1_0000
    ensures buf == Fixed(c) + rest
      <==> |buf| >= 4 && buf[0] == c.level && buf[1] == c.flags && Number16(buf[2..]) == c.keepAlive && buf[4..] == rest
  {
    assert (Fixed(c) + rest)[4..] == rest;
    if |buf| >= 4 {
      assert buf == [buf[0], buf[1]] + [buf[2], buf[3]] + buf[4..];
    }
  }

  lemma ParseConnectIs(h: Header, buf: seq<byte>)
    ensures ParseConnect(h, buf) == match Field(buf)
      case None => None
      case Some(name) =>
        if |name.rest| < 4 || (h.qos == 1 && name.rest[0] != 3) then None
        else match ParseClient(name.rest[4..])
          case None => None
          case Some(client) => match ReadChosen(name.rest[1], client.rest)
            case None => None
            case Some((will, user, password)) =>
              Some(Connect(name.v, name.rest[0], name.rest[1], Number16(name.rest[2..]), client.v, will, user, password))
  {
    hide Field, ParseClient, ParseWill, Optional, Number16;
  }

  lemma ConnectParts(c: Body)
    requires c.Connect?
    ensures ConnectText(c) == Text(c.protocol) + (Fixed(c) + (Text(c.client) + Chosen(c)))
  {
    hide Text, WillText, OptionText;
  }

  lemma ConnectIsRead(h: Header, c: Body)
    requires c.Connect? && ConnectOk(h, c)
    ensures ParseConnect(h, ConnectText(c)) == Some(c)
  {
    var buf := ConnectText(c);
    ParseConnectIs(h, buf);
    ConnectParts(c);
    var afterFixed := Text(c.client) + Chosen(c);
    FieldIff(buf, c.protocol, Fixed(c) + afterFixed);
    FixedIff(c, Fixed(c) + afterFixed, afterFixed);
    ClientIff(afterFixed, c.client, Chosen(c));
    ChosenIff(c, Chosen(c));
    hide ParseConnect, Field, ParseClient, ReadChosen, Text, WillOk, OptionOk, FieldOk, Short, Set, Fixed, Chosen, Number16, ConnectText;
  }

  lemma ReadIsConnect(h: Header, buf: seq<byte>, c: Body)
    requires c.Connect? && ParseConnect(h, buf) == Some(c)
    ensures ConnectOk(h, c) && buf == ConnectText(c)
  {
    ParseConnectIs(h, buf);
    ConnectParts(c);
    hide ParseConnect, Field, ParseClient, ReadChosen, Text, WillOk, OptionOk, FieldOk, Short, Set, Fixed, Chosen, Number16, ConnectText;
    var name := Field(buf).value;
    FieldIff(buf, name.v, name.rest);
    var client := ParseClient(name.rest[4..]).value;
    FixedIff(c, name.rest, name.rest[4..]);
    ClientIff(name.rest[4..], client.v, client.rest);
    ChosenIff(c, client.rest);
  }

  /** The body of a CONNECT is read as these fields if and only if it consists of them. */
  lemma ConnectIff(h: Header, buf: seq<byte>, c: Body)
    requires c.Connect?
    ensures ParseConnect(h, buf) == Some(c) <==> ConnectOk(h, c) && buf == ConnectText(c)
  {
    hide *;
    if ParseConnect(h, buf) == Some(c) { ReadIsConnect(h, buf, c); }
    if ConnectOk(h, c) && buf == ConnectText(c) { ConnectIsRead(h, c); }
  }

  // --- The other bodies ---

  // An id is there exactly with a QoS; a payload that is there is not empty.
  predicate PublishOk(h: Header, b: Body)
    requires b.Publish?
  {
    TopicText(b.topic) && b.id < 0x1_0000 && (h.qos == 0 ==> b.id == 0) && b.payload != Some([])
  }

  function PublishText(h: Header, b: Body): seq<byte>
    requires b.Publish?
  {
    Text(b.topic) + ((if h.qos == 0 then [] else Two(b.id)) + if b.payload.None? then [] else b.payload.value)
  }

  lemma PublishIff(h: Header, buf: seq<byte>, b: Body)
    requires b.Publish?
    ensures ParsePublish(h, buf) == Some(b) <==> PublishOk(h, b) && buf == PublishText(h, b)
  {
    hide Topic, TopicText, Text, Two, Id;
    var payload := if b.payload.None? then [] else b.payload.value;
    var tail := (if h.qos == 0 then [] else Two(b.id)) + payload;
    assert [] + payload == payload;
    TopicIff(buf, b.topic, tail);
    IdIff(tail, b.id, payload);
    var read := Topic(buf);
    if read.Some? {
      TopicIff(buf, read.value.v, read.value.rest);
      IdIff(read.value.rest, b.id, payload);
    }
  }

  function FiltersText(fs: seq<Filter>): seq<byte> {
    if fs == [] then [] else Text(fs[0].topic) + ([fs[0].qos] + FiltersText(fs[1..]))
  }

  predicate FilterFits(f: Filter) { TopicText(f.topic) && f.qos < 4 }

  lemma {:induction false} FiltersIff(buf: seq<byte>, fs: seq<Filter>)
    ensures ParseFilters(buf) == Some(fs) <==> (forall f :: f in fs ==> FilterFits(f)) && buf == FiltersText(fs)
    decreases |fs|
  {
    if fs == [] {
      if buf != [] { FiltersNotNone(buf); }
    } else {
      hide ParseFilters, FilterFits, FiltersText;
      assert fs == [fs[0]] + fs[1..] && forall g :: g in fs <==> g == fs[0] || g in fs[1..];
      FirstFilterIff(buf, fs);
      var read := Topic(buf);
      if read.Some? && read.value.rest != [] { FiltersIff(read.value.rest[1..], fs[1..]); }
    }
  }

  // The filter in front.
  lemma FirstFilterIff(buf: seq<byte>, fs: seq<Filter>)
    requires fs != []
    ensures ParseFilters(buf) == Some(fs)
      <==> var read := Topic(buf);
           && read.Some? && read.value.rest != [] && fs[0] == Filter(read.value.v, read.value.rest[0]) && fs[0].qos < 4
           && ParseFilters(read.value.rest[1..]) == Some(fs[1..])
    ensures FilterFits(fs[0]) && buf == FiltersText(fs)
      <==> var read := Topic(buf);
           && read.Some? && read.value.rest != [] && fs[0] == Filter(read.value.v, read.value.rest[0]) && fs[0].qos < 4
           && read.value.rest[1..] == FiltersText(fs[1..])
  {
    hide Topic, TopicText, Text;
    var f, more, read := fs[0], FiltersText(fs[1..]), Topic(buf);
    assert ([f.qos] + more)[1..] == more;
    TopicIff(buf, f.topic, [f.qos] + more);
    if read.Some? {
      var rest := read.value.rest;
      TopicIff(buf, read.value.v, rest);
      if rest != [] {
        assert rest == [rest[0]] + rest[1..];
        var left := ParseFilters(rest[1..]);
        if left.Some? {
          assert ([Filter(read.value.v, rest[0])] + left.value)[1..] == left.value;
          assert fs == [fs[0]] + fs[1..];
        }
      }
    }
  }

  lemma FiltersNotNone(buf: seq<byte>)
    requires buf != []
    ensures ParseFilters(buf) != Some([])
  {
    hide Topic;
  }

  function TopicsText(ts: seq<seq<byte>>): seq<byte> {
    if ts == [] then [] else Text(ts[0]) + TopicsText(ts[1..])
  }

  lemma {:induction false} TopicsIff(buf: seq<byte>, ts: seq<seq<byte>>)
    ensures ParseTopics(buf) == Some(ts) <==> (forall t :: t in ts ==> TopicText(t)) && buf == TopicsText(ts)
    decreases |ts|
  {
    hide Topic, TopicText, Text;
    if ts == [] {
      if buf != [] { TopicsNotNone(buf); }
    } else {
      var t, more := ts[0], TopicsText(ts[1..]);
      assert ts == [t] + ts[1..] && forall g :: g in ts <==> g == t || g in ts[1..];
      TopicIff(buf, t, more);
      TopicsIff(more, ts[1..]);
      assert |TopicsText(ts)| > 0;
      var read := Topic(buf);
      if read.Some? {
        TopicIff(buf, read.value.v, read.value.rest);
        TopicsIff(read.value.rest, ts[1..]);
      }
    }
  }

  lemma TopicsNotNone(buf: seq<byte>)
    requires buf != []
    ensures ParseTopics(buf) != Some([])
  {
    hide Topic;
  }

  predicate SubscribeOk(h: Header, b: Body)
    requires b.Subscribe?
  {
    h.qos == 1 && b.id < 0x1_0000 && b.filters != [] && forall f :: f in b.filters ==> FilterFits(f)
  }

  lemma SubscribeIff(h: Header, buf: seq<byte>, b: Body)
    requires b.Subscribe?
    ensures ParseSubscribe(h, buf) == Some(b) <==> SubscribeOk(h, b) && buf == Two(b.id) + FiltersText(b.filters)
  {
    hide ParseFilters, FiltersText, FilterFits, Id, Two;
    IdIff(buf, b.id, FiltersText(b.filters));
    FiltersIff(FiltersText(b.filters), b.filters);
    var id := Id(buf);
    if id.Some? {
      IdIff(buf, id.value.v, id.value.rest);
      FiltersIff(id.value.rest, b.filters);
    }
  }

  predicate UnsubscribeOk(h: Header, b: Body)
    requires b.Unsubscribe?
  {
    h.reserved == 0 && b.id < 0x1_0000 && forall t :: t in b.topics ==> TopicText(t)
  }

  lemma UnsubscribeIff(h: Header, buf: seq<byte>, b: Body)
    requires b.Unsubscribe?
    ensures ParseUnsubscribe(h, buf) == Some(b) <==> UnsubscribeOk(h, b) && buf == Two(b.id) + TopicsText(b.topics)
  {
    hide ParseTopics, TopicsText, TopicText, Id, Two;
    IdIff(buf, b.id, TopicsText(b.topics));
    TopicsIff(TopicsText(b.topics), b.topics);
    var id := Id(buf);
    if id.Some? {
      IdIff(buf, id.value.v, id.value.rest);
      TopicsIff(id.value.rest, b.topics);
    }
  }

  // As many codes as bytes behind the id, each of them the id's high byte.
  predicate SubscribeAckIs(h: Header, buf: seq<byte>, b: Body)
    requires b.SubscribeAck?
  {
    h.reserved == 0 && b.id < 0x1_0000 && b.codes != [] && |buf| == 2 + |b.codes| && buf[..2] == Two(b.id)
    && forall i :: 0 <= i < |b.codes| ==> b.codes[i] == b.id / 0x100
  }

  lemma SubscribeAckIff(h: Header, buf: seq<byte>, b: Body)
    requires b.SubscribeAck?
    ensures ParseSubscribeAck(h, buf) == Some(b) <==> SubscribeAckIs(h, buf, b)
  {
    if |buf| >= 3 && b.id < 0x1_0000 {
      NumberIs(buf, b.id);
      var read := seq(|buf| - 2, _ => buf[0]);
      if SubscribeAckIs(h, buf, b) {
        assert buf[0] == buf[..2][0] == b.id / 0x100;
        assert read == b.codes;
      }
      if ParseSubscribeAck(h, buf) == Some(b) {
        assert buf[..2][0] == buf[0];
        assert b.codes == read;
      }
    }
  }

  lemma AckIff(h: Header, want: byte, buf: seq<byte>, b: Body)
    requires b.Ack?
    ensures ParseAck(h, want, buf) == Some(b)
      <==> h.reserved == want && b.kind == h.kind && b.id < 0x1_0000 && buf == Two(b.id)
  {
    if |buf| == 2 {
      assert buf[..2] == buf;
      if b.id < 0x1_0000 { NumberIs(buf, b.id); }
    }
  }

  // --- All kinds ---

  /** That these bytes, behind this header, are the body of this message. */
  predicate Is(h: Header, buf: seq<byte>, b: Body) {
    match b
    case Connect(_, _, _, _, _, _, _, _) => h.kind == 0x10 && ConnectOk(h, b) && buf == ConnectText(b)
    case ConnectAck(session, code) => h.kind == 0x20 && |buf| == 2 && session == buf[0] % 2 && code == buf[1]
    case Publish(_, _, _) => h.kind == 0x30 && PublishOk(h, b) && buf == PublishText(h, b)
    case Ack(kind, id) =>
      && h.kind == kind && kind in {0x40, 0x50, 0x60, 0x70, 0xb0} && h.reserved == (if kind == 0x60 then 2 else 0)
      && id < 0x1_0000 && buf == Two(id)
    case Subscribe(id, filters) => h.kind == 0x80 && SubscribeOk(h, b) && buf == Two(id) + FiltersText(filters)
    case SubscribeAck(_, _) => h.kind == 0x90 && SubscribeAckIs(h, buf, b)
    case Unsubscribe(id, topics) => h.kind == 0xa0 && UnsubscribeOk(h, b) && buf == Two(id) + TopicsText(topics)
    case Bare(kind) => h.kind == kind && kind in {0xc0, 0xd0, 0xe0} && h.reserved == 0 && buf == []
  }

  /** Of all headers and bytes, exactly those are read as a message that are its bytes. */
  lemma BodyIsReadIff(h: Header, buf: seq<byte>, b: Body)
    ensures ParseBody(h, buf) == Some(b) <==> Is(h, buf, b)
  {
    hide ParseConnect, ParsePublish, ParseSubscribe, ParseSubscribeAck, ParseUnsubscribe, ParseAck,
      ConnectOk, ConnectText, PublishOk, PublishText, SubscribeOk, FiltersText, SubscribeAckIs, UnsubscribeOk, TopicsText, Two;
    KindOfBody(h, buf);
    match b {
      case Connect(_, _, _, _, _, _, _, _) => ConnectIff(h, buf, b);
      case Publish(_, _, _) => PublishIff(h, buf, b);
      case Ack(kind, id) => AckIff(h, if kind == 0x60 then 2 else 0, buf, b);
      case Subscribe(_, _) => SubscribeIff(h, buf, b);
      case SubscribeAck(_, _) => SubscribeAckIff(h, buf, b);
      case Unsubscribe(_, _) => UnsubscribeIff(h, buf, b);
      case _ =>
    }
  }

  // Which constructor a kind is read to.
  lemma KindOfBody(h: Header, buf: seq<byte>)
    ensures var b := ParseBody(h, buf);
      b.Some? ==>
        && (b.value.Connect? <==> h.kind == CONNECT) && (b.value.ConnectAck? <==> h.kind == CONNECT_ACK)
        && (b.value.Publish? <==> h.kind == PUBLISH) && (b.value.Subscribe? <==> h.kind == SUBSCRIBE)
        && (b.value.SubscribeAck? <==> h.kind == SUBSCRIBE_ACK) && (b.value.Unsubscribe? <==> h.kind == UNSUBSCRIBE)
        && (b.value.Bare? <==> h.kind in {PING_REQ, PING_RSP, DISCONNECT})
        && (b.value.Ack? ==> b.value.kind == h.kind)
  {
    hide Field, ParseClient, ParseWill, Optional, Topic, ParseFilters, ParseTopics, Id;
  }

  /** The first byte: the kind in the high half; below it dup, two bits of QoS and retain. */
  lemma FirstByteIsRead(kind: nat, low: nat, dup: nat, qos: nat, retain: nat)
    requires kind < 16 && low == 8 * dup + 2 * qos + retain && dup < 2 && qos < 4 && retain < 2
    ensures HeaderOf(0x10 * kind + low) == Header(0x10 * kind, low, 8 * dup, qos, retain, 0)
  {
    var b := 0x10 * kind + low;
    assert b / 16 == kind;
    assert b / 8 == 2 * kind + dup;
    assert b / 2 == 8 * kind + 4 * dup + qos;
  }

  // --- Packets as they are packed ---

  function Acks(): map<nat, nat> { map[0x40 := 0x40, 0x50 := 0x50, 0x60 := 0x62, 0x70 := 0x70, 0xb0 := 0xb0] }

  /** First byte and body of every packed message, written out. */
  lemma PackedBytes(m: Msg)
    requires HasPacker(m)
    ensures match m.body
      case ConnectAck(session, code) => First(m) == 0x20 && PackBody(m) == [session % 2, code]
      case Publish(topic, id, payload) =>
        && First(m) == 0x30 + (if m.header.dup == 0 then 0 else 8) + 2 * m.header.qos + (if m.header.retain == 0 then 0 else 1)
        && PackBody(m) == Text(topic) + (if m.header.qos == 0 then [] else Two(id)) + payload.value
      case Ack(kind, id) => kind in Acks() && First(m) == Acks()[kind] && PackBody(m) == Two(id)
      case Subscribe(id, filters) => First(m) == 0x82 && PackBody(m) == Two(id) + FiltersText(filters)
      case SubscribeAck(id, codes) => First(m) == 0x90 && PackBody(m) == Two(id) + codes
      case Unsubscribe(id, topics) => First(m) == 0xa0 && PackBody(m) == Two(id) + TopicsText(topics)
      case Bare(kind) => kind in {0xc0, 0xd0} && First(m) == kind && PackBody(m) == []
  {
    match m.body {
      case Publish(topic, _, _) => CopiedText(topic);
      case Subscribe(_, filters) => PackedFilters(filters);
      case Unsubscribe(_, topics) => PackedTopics(topics);
      case _ =>
    }
  }

  lemma CopiedText(s: seq<byte>)
    ensures CopyData(s) == Text(s)
  {
  }

  lemma {:induction false} PackedFilters(fs: seq<Filter>)
    ensures PackFilters(fs) == FiltersText(fs)
  {
    if fs != [] {
      hide CopyData, Text;
      CopiedText(fs[0].topic);
      PackedFilters(fs[1..]);
    }
  }

  lemma {:induction false} PackedTopics(ts: seq<seq<byte>>)
    ensures PackTopics(ts) == TopicsText(ts)
  {
    if ts != [] {
      CopiedText(ts[0]);
      PackedTopics(ts[1..]);
    }
  }

  // Seven bits a byte, the low ones first; all but the last byte have the high bit.
  ghost predicate IsLength(bs: seq<byte>, v: nat)
    decreases |bs|
  {
    bs != [] && if |bs| == 1 then bs[0] == v && v < 0x80 else bs[0] == 0x80 + v % 0x80 && IsLength(bs[1..], v / 0x80)
  }

  lemma LengthOfTwo(v: nat)
    requires 0x80 <= v < LIMIT
    ensures IsLength([v % 0x80 + 0x80, v / 0x80], v)
  {
    assert [v % 0x80 + 0x80, v / 0x80][1..] == [v / 0x80];
  }

  lemma LengthOfThree(v: nat)
    requires LIMIT <= v < LIMIT3
    ensures IsLength([v % 0x80 + 0x80, v / 0x80 % 0x80 + 0x80, v / LIMIT], v)
  {
    assert v / 0x80 / 0x80 == v / LIMIT;
    LengthOfTwo(v / 0x80);
    assert [v % 0x80 + 0x80, v / 0x80 % 0x80 + 0x80, v / LIMIT][1..] == [v / 0x80 % 0x80 + 0x80, v / LIMIT];
  }

  lemma LengthOfFour(v: nat)
    requires LIMIT3 <= v < LIMIT4
    ensures IsLength([v % 0x80 + 0x80, v / 0x80 % 0x80 + 0x80, v / LIMIT % 0x80 + 0x80, v / LIMIT3], v)
  {
    assert v / 0x80 / 0x80 == v / LIMIT && v / 0x80 / LIMIT == v / LIMIT3;
    LengthOfThree(v / 0x80);
    assert [v % 0x80 + 0x80, v / 0x80 % 0x80 + 0x80, v / LIMIT % 0x80 + 0x80, v / LIMIT3][1..]
        == [v / 0x80 % 0x80 + 0x80, v / LIMIT % 0x80 + 0x80, v / LIMIT3];
  }

  /** A packet is its first byte, its length as MQTT writes it (section 2.2.3 of MQTT 3.1.1), in as few bytes as can be, and its body. */
  lemma PacketBytes(m: Msg) returns (length: seq<byte>)
    requires HasPacker(m) && |PackBody(m)| < LIMIT4
    ensures Pack(m) == [First(m)] + length + PackBody(m)
    ensures IsLength(length, |PackBody(m)|) && (|length| > 1 ==> length[|length| - 1] != 0)
  {
    hide PackBody;
    var v := |PackBody(m)|;
    length := Varint(v);
    if v < 0x80 {
      assert IsLength([v], v) by { assert |[v]| == 1; }
    } else if v < LIMIT {
      LengthOfTwo(v);
    } else if v < LIMIT3 {
      LengthOfThree(v);
    } else {
      LengthOfFour(v);
    }
  }
}
