/** MQTT control packets as the parser hands them on, and the reading of one packet's body. */
module MqttMessages {
  import opened Options
  import opened Bytes
  import Utf8

  const CONNECT: byte := 0x10
  const CONNECT_ACK: byte := 0x20
  const PUBLISH: byte := 0x30
  const PUBLISH_ACK: byte := 0x40
  const PUBLISH_REC: byte := 0x50
  const PUBLISH_REL: byte := 0x60
  const PUBLISH_COMP: byte := 0x70
  const SUBSCRIBE: byte := 0x80
  const SUBSCRIBE_ACK: byte := 0x90
  const UNSUBSCRIBE: byte := 0xa0
  const UNSUBSCRIBE_ACK: byte := 0xb0
  const PING_REQ: byte := 0xc0
  const PING_RSP: byte := 0xd0
  const DISCONNECT: byte := 0xe0

  // The flags are kept as they are cut out of the first byte: dup is 0 or 8.
  datatype Header = Header(kind: byte, reserved: byte, dup: byte, qos: byte, retain: byte, remaining: nat)

  datatype Filter = Filter(topic: seq<byte>, qos: byte)
  datatype Will = Will(topic: seq<byte>, message: seq<byte>)

  datatype Body =
    | Connect(protocol: seq<byte>, level: byte, flags: byte, keepAlive: nat, client: seq<byte>,
              will: Option<Will>, user: Option<seq<byte>>, password: Option<seq<byte>>)
    | ConnectAck(session: byte, code: byte)
    | Publish(topic: seq<byte>, id: nat, payload: Option<seq<byte>>)
    | Ack(kind: byte, id: nat)
    | Subscribe(id: nat, filters: seq<Filter>)
    | SubscribeAck(id: nat, codes: seq<byte>)
    | Unsubscribe(id: nat, topics: seq<seq<byte>>)
    | Bare(kind: byte)

  datatype Msg = Msg(header: Header, body: Body)

  function HeaderOf(b: byte): Header {
    Header(b / 16 * 16, b % 16, if b / 8 % 2 == 1 then 8 else 0, b / 2 % 4, b % 2, 0)
  }

  // --- Fields ---

  datatype Taken<T> = Taken(v: T, rest: seq<byte>)

  function Number16(buf: seq<byte>): (n: nat)
    requires |buf| >= 2
    ensures n < 0x1_0000
  {
    buf[0] as int * 256 + buf[1]
  }

  function Id(buf: seq<byte>): Option<Taken<nat>> {
    if |buf| < 2 then None else Some(Taken(Number16(buf), buf[2..]))
  }

  // A length of two bytes, which must not be zero, and so many bytes.
  function Field(buf: seq<byte>): (r: Option<Taken<seq<byte>>>)
    ensures r.Some? ==> |r.value.rest| + 2 < |buf|
  {
    if |buf| < 2 || Number16(buf) == 0 || 2 + Number16(buf) > |buf| then None
    else Some(Taken(buf[2..2 + Number16(buf)], buf[2 + Number16(buf)..]))
  }

  function Topic(buf: seq<byte>): (r: Option<Taken<seq<byte>>>)
    ensures r.Some? ==> |r.value.rest| + 2 < |buf|
  {
    var f :- Field(buf);
    if Utf8.Accepts(f.v) then Some(f) else None
  }

  function Optional(wanted: bool, buf: seq<byte>): Option<Taken<Option<seq<byte>>>> {
    if !wanted then Some(Taken(None, buf))
    else
      var f :- Field(buf);
      Some(Taken(Some(f.v), f.rest))
  }

  // --- Bodies; None stands for a packet that is refused before any handler sees it ---

  function ParsePublish(h: Header, buf: seq<byte>): Option<Body> {
    var topic :- Topic(buf);
    var id :- if h.qos == 0 then Some(Taken(0, topic.rest)) else Id(topic.rest);
    Some(Publish(topic.v, id.v, if id.rest == [] then None else Some(id.rest)))
  }

  function ParseFilters(buf: seq<byte>): Option<seq<Filter>> {
    if buf == [] then Some([])
    else
      var topic :- Topic(buf);
      if topic.rest == [] || topic.rest[0] >= 4 then None
      else
        var more :- ParseFilters(topic.rest[1..]);
        Some([Filter(topic.v, topic.rest[0])] + more)
  }

  function ParseSubscribe(h: Header, buf: seq<byte>): Option<Body> {
    if h.qos != 1 then None
    else
      var id :- Id(buf);
      var filters :- ParseFilters(id.rest);
      if filters == [] then None else Some(Subscribe(id.v, filters))
  }

  function ParseTopics(buf: seq<byte>): Option<seq<seq<byte>>> {
    if buf == [] then Some([])
    else
      var topic :- Topic(buf);
      var more :- ParseTopics(topic.rest);
      Some([topic.v] + more)
  }

  function ParseUnsubscribe(h: Header, buf: seq<byte>): Option<Body> {
    if h.reserved != 0 then None
    else
      var id :- Id(buf);
      var topics :- ParseTopics(id.rest);
      Some(Unsubscribe(id.v, topics))
  }

  // Every return code is read from the front of the body.
  function ParseSubscribeAck(h: Header, buf: seq<byte>): Option<Body> {
    if h.reserved != 0 || |buf| < 3 then None
    else Some(SubscribeAck(Number16(buf), seq(|buf| - 2, _ => buf[0])))
  }

  function ParseConnect(h: Header, buf: seq<byte>): Option<Body> {
    var name :- Field(buf);
    if |name.rest| < 4 || (h.qos == 1 && name.rest[0] != 3) then None
    else
      var level, flags := name.rest[0], name.rest[1];
      var keepAlive := Number16(name.rest[2..]);
      var client :- ParseClient(name.rest[4..]);
      var will :- ParseWill(flags / 4 % 2 == 1, client.rest);
      var user :- Optional(flags / 128 % 2 == 1, will.rest);
      var password :- Optional(flags / 64 % 2 == 1, user.rest);
      if password.rest != [] then None
      else Some(Connect(name.v, level, flags, keepAlive, client.v, will.v, user.v, password.v))
  }

  // The client id may be empty.
  function ParseClient(buf: seq<byte>): Option<Taken<seq<byte>>> {
    if |buf| < 2 || 2 + Number16(buf) > |buf| then None
    else Some(Taken(buf[2..2 + Number16(buf)], buf[2 + Number16(buf)..]))
  }

  function ParseWill(wanted: bool, buf: seq<byte>): Option<Taken<Option<Will>>> {
    if !wanted then Some(Taken(None, buf))
    else
      var topic :- Topic(buf);
      var message :- Field(topic.rest);
      Some(Taken(Some(Will(topic.v, message.v)), message.rest))
  }

  // An acknowledgement: the low bits of the first byte must be want, and the body two bytes.
  function ParseAck(h: Header, want: byte, buf: seq<byte>): Option<Body> {
    if h.reserved != want || |buf| != 2 then None else Some(Ack(h.kind, Number16(buf)))
  }

  function ParseBare(h: Header, buf: seq<byte>): Option<Body> {
    if h.reserved != 0 || buf != [] then None else Some(Bare(h.kind))
  }

  function ParseBody(h: Header, buf: seq<byte>): Option<Body> {
    if h.kind == CONNECT then ParseConnect(h, buf)
    else if h.kind == CONNECT_ACK then if |buf| != 2 then None else Some(ConnectAck(buf[0] % 2, buf[1]))
    else if h.kind == PUBLISH then ParsePublish(h, buf)
    else if h.kind == PUBLISH_REL then ParseAck(h, 2, buf)
    else if h.kind == SUBSCRIBE then ParseSubscribe(h, buf)
    else if h.kind == SUBSCRIBE_ACK then ParseSubscribeAck(h, buf)
    else if h.kind == UNSUBSCRIBE then ParseUnsubscribe(h, buf)
    else if h.kind in {PUBLISH_ACK, PUBLISH_REC, PUBLISH_COMP, UNSUBSCRIBE_ACK} then ParseAck(h, 0, buf)
    else if h.kind in {PING_REQ, PING_RSP, DISCONNECT} then ParseBare(h, buf)
    else None
  }

  // --- Every topic that is handed on is well-formed ---

  predicate TopicOk(t: seq<byte>) { t != [] && Utf8.Accepts(t) }

  predicate TopicsOk(b: Body) {
    match b
    case Publish(topic, _, _) => TopicOk(topic)
    case Subscribe(_, filters) => filters != [] && forall f :: f in filters ==> TopicOk(f.topic) && f.qos < 4
    case Unsubscribe(_, topics) => forall t :: t in topics ==> TopicOk(t)
    case Connect(_, _, _, _, _, will, _, _) => will.Some? ==> TopicOk(will.value.topic)
    case _ => true
  }

  lemma {:induction false} FiltersOk(buf: seq<byte>)
    ensures ParseFilters(buf).Some? ==> forall f :: f in ParseFilters(buf).value ==> TopicOk(f.topic) && f.qos < 4
    decreases |buf|
  {
    if buf != [] {
      var topic := Topic(buf);
      if topic.Some? && topic.value.rest != [] { FiltersOk(topic.value.rest[1..]); }
    }
  }

  lemma {:induction false} TopicListOk(buf: seq<byte>)
    ensures ParseTopics(buf).Some? ==> forall t :: t in ParseTopics(buf).value ==> TopicOk(t)
    decreases |buf|
  {
    if buf != [] {
      var topic := Topic(buf);
      if topic.Some? { TopicListOk(topic.value.rest); }
    }
  }

  lemma SubscribeOk(h: Header, buf: seq<byte>)
    ensures ParseSubscribe(h, buf).Some? ==> TopicsOk(ParseSubscribe(h, buf).value)
  {
    hide ParseFilters, TopicOk;
    if |buf| >= 2 { FiltersOk(buf[2..]); }
  }

  lemma UnsubscribeOk(h: Header, buf: seq<byte>)
    ensures ParseUnsubscribe(h, buf).Some? ==> TopicsOk(ParseUnsubscribe(h, buf).value)
  {
    hide ParseTopics, TopicOk;
    if |buf| >= 2 { TopicListOk(buf[2..]); }
  }

  lemma WillOk(wanted: bool, buf: seq<byte>)
    ensures ParseWill(wanted, buf).Some? && ParseWill(wanted, buf).value.v.Some?
      ==> TopicOk(ParseWill(wanted, buf).value.v.value.topic)
  {
    hide Utf8.Accepts;
  }

  lemma ConnectOk(h: Header, buf: seq<byte>)
    ensures ParseConnect(h, buf).Some? ==> TopicsOk(ParseConnect(h, buf).value)
  {
    hide ParseWill, ParseClient, Field, Optional, Number16, TopicOk;
    var name := Field(buf);
    if name.Some? && |name.value.rest| >= 4 {
      var client := ParseClient(name.value.rest[4..]);
      if client.Some? { WillOk(name.value.rest[1] / 4 % 2 == 1, client.value.rest); }
    }
  }

  lemma PublishOk(h: Header, buf: seq<byte>)
    ensures ParsePublish(h, buf).Some? ==> TopicsOk(ParsePublish(h, buf).value)
  {
    hide Utf8.Accepts;
  }

  /** What a body is read to has well-formed topics only, whatever the bytes. */
  lemma ParsedTopicsOk(h: Header, buf: seq<byte>)
    ensures ParseBody(h, buf).Some? ==> TopicsOk(ParseBody(h, buf).value)
  {
    hide ParseConnect, ParsePublish, ParseSubscribe, ParseUnsubscribe;
    SubscribeOk(h, buf);
    UnsubscribeOk(h, buf);
    ConnectOk(h, buf);
    PublishOk(h, buf);
  }

  // --- The same with an offset into the body, as the program reads it ---

  method ReadTopic(buf: seq<byte>, offset: nat) returns (r: Option<seq<byte>>, next: nat)
    requires offset <= |buf|
    ensures offset <= next <= |buf|
    ensures match Topic(buf[offset..])
            case None => r.None?
            case Some(t) => r == Some(t.v) && buf[next..] == t.rest && next > offset
  {
    next := offset;
    if offset + 2 > |buf| { return None, next; }
    assert buf[offset..][0] == buf[offset] && buf[offset..][1] == buf[offset + 1];
    var n := buf[offset] as int * 256 + buf[offset + 1];
    if n == 0 || offset + 2 + n > |buf| { return None, next; }
    var topic := buf[offset + 2..offset + 2 + n];
    assert buf[offset..][2..2 + n] == topic && buf[offset..][2 + n..] == buf[offset + 2 + n..];
    var ok := Utf8.CheckUtf8(topic);
    if !ok { return None, next; }
    return Some(topic), offset + 2 + n;
  }

  // A length, which may be zero if the caller says so, and a text.
  method ReadField(buf: seq<byte>, offset: nat, mayBeEmpty: bool) returns (r: Option<seq<byte>>, next: nat)
    requires offset <= |buf|
    ensures offset <= next <= |buf|
    ensures match (if mayBeEmpty then ParseClient(buf[offset..]) else Field(buf[offset..]))
            case None => r.None?
            case Some(t) => r == Some(t.v) && buf[next..] == t.rest
  {
    next := offset;
    if offset + 2 > |buf| { return None, next; }
    assert buf[offset..][0] == buf[offset] && buf[offset..][1] == buf[offset + 1];
    var n := buf[offset] as int * 256 + buf[offset + 1];
    if (n == 0 && !mayBeEmpty) || offset + 2 + n > |buf| { return None, next; }
    assert buf[offset..][2..2 + n] == buf[offset + 2..offset + 2 + n] && buf[offset..][2 + n..] == buf[offset + 2 + n..];
    return Some(buf[offset + 2..offset + 2 + n]), offset + 2 + n;
  }

  // A part that is there when its flag is set.
  method ReadOptional(wanted: bool, buf: seq<byte>, offset: nat) returns (ok: bool, v: Option<seq<byte>>, next: nat)
    requires offset <= |buf|
    ensures offset <= next <= |buf|
    ensures match Optional(wanted, buf[offset..])
            case None => !ok
            case Some(t) => ok && v == t.v && buf[next..] == t.rest
  {
    hide Field;
    ok, v, next := true, None, offset;
    if wanted {
      v, next := ReadField(buf, offset, false);
      ok := v.Some?;
    }
  }

  method ReadWill(wanted: bool, buf: seq<byte>, offset: nat) returns (ok: bool, v: Option<Will>, next: nat)
    requires offset <= |buf|
    ensures offset <= next <= |buf|
    ensures match ParseWill(wanted, buf[offset..])
            case None => !ok
            case Some(t) => ok && v == t.v && buf[next..] == t.rest
  {
    hide Field, Topic;
    ok, v, next := true, None, offset;
    if wanted {
      var topic, message;
      topic, next := ReadTopic(buf, offset);
      if topic.None? { return false, None, next; }
      message, next := ReadField(buf, next, false);
      if message.None? { return false, None, next; }
      v := Some(Will(topic.value, message.value));
    }
  }

  method ReadConnect(h: Header, buf: seq<byte>) returns (r: Option<Body>)
    ensures r == ParseConnect(h, buf)
  {
    hide Field, ParseClient, ParseWill, Optional;
    assert buf[0..] == buf;
    var name, offset := ReadField(buf, 0, false);
    if name.None? || offset + 1 > |buf| { return None; }
    var level := buf[offset];
    if h.qos == 1 && level != 3 { return None; }
    if offset + 4 > |buf| { return None; }
    var flags, keepAlive := buf[offset + 1], buf[offset + 2] as int * 256 + buf[offset + 3];
    assert buf[offset..][4..] == buf[offset + 4..] && buf[offset..][2..] == buf[offset + 2..];
    var client, next := ReadField(buf, offset + 4, true);
    if client.None? { return None; }
    var ok, will, user, password;
    ok, will, next := ReadWill(flags / 4 % 2 == 1, buf, next);
    if !ok { return None; }
    ok, user, next := ReadOptional(flags / 128 % 2 == 1, buf, next);
    if !ok { return None; }
    ok, password, next := ReadOptional(flags / 64 % 2 == 1, buf, next);
    if !ok || next != |buf| { return None; }
    return Some(Connect(name.value, level, flags, keepAlive, client.value, will, user, password));
  }

  method ReadPublish(h: Header, buf: seq<byte>) returns (r: Option<Body>)
    ensures r == ParsePublish(h, buf)
  {
    hide Utf8.Accepts, Topic;
    assert buf[0..] == buf;
    var topic, offset := ReadTopic(buf, 0);
    if topic.None? { return None; }
    var id := 0;
    if h.qos != 0 {
      if offset + 2 > |buf| { return None; }
      id := buf[offset] as int * 256 + buf[offset + 1];
      assert buf[offset..][0] == buf[offset] && buf[offset..][1] == buf[offset + 1];
      assert buf[offset..][2..] == buf[offset + 2..];
      offset := offset + 2;
    }
    return Some(Publish(topic.value, id, if offset < |buf| then Some(buf[offset..]) else None));
  }

  method ReadSubscribe(h: Header, buf: seq<byte>) returns (r: Option<Body>)
    ensures r == ParseSubscribe(h, buf)
  {
    hide Utf8.Accepts, Topic;
    if h.qos != 1 || |buf| < 2 { return None; }
    var id, offset, filters := buf[0] as int * 256 + buf[1], 2, [];
    NoFilters([], buf[2..]);
    while offset < |buf|
      invariant 2 <= offset <= |buf|
      invariant ParseFilters(buf[2..]) == AfterFilters(filters, buf[offset..])
    {
      var topic, next := ReadTopic(buf, offset);
      if topic.None? || next + 1 > |buf| || buf[next] >= 4 { return None; }
      assert buf[next..][1..] == buf[next + 1..];
      ghost var more := ParseFilters(buf[next + 1..]);
      if more.Some? {
        assert filters + ([Filter(topic.value, buf[next])] + more.value)
            == filters + [Filter(topic.value, buf[next])] + more.value;
      }
      filters := filters + [Filter(topic.value, buf[next])];
      offset := next + 1;
    }
    NoFilters(filters, []);
    return if filters == [] then None else Some(Subscribe(id, filters));
  }

  lemma NoFilters(all: seq<Filter>, rest: seq<byte>)
    ensures AfterFilters([], rest) == ParseFilters(rest)
    ensures AfterFilters(all, []) == Some(all)
  {
    if ParseFilters(rest).Some? { assert [] + ParseFilters(rest).value == ParseFilters(rest).value; }
    assert all + [] == all;
  }

  function AfterFilters(filters: seq<Filter>, rest: seq<byte>): Option<seq<Filter>> {
    var more :- ParseFilters(rest);
    Some(filters + more)
  }

  method ReadUnsubscribe(h: Header, buf: seq<byte>) returns (r: Option<Body>)
    ensures r == ParseUnsubscribe(h, buf)
  {
    hide Utf8.Accepts, Topic;
    if h.reserved != 0 || |buf| < 2 { return None; }
    var id, offset, topics := buf[0] as int * 256 + buf[1], 2, [];
    NoTopics([], buf[2..]);
    while offset < |buf|
      invariant 2 <= offset <= |buf|
      invariant ParseTopics(buf[2..]) == AfterTopics(topics, buf[offset..])
    {
      var topic, next := ReadTopic(buf, offset);
      if topic.None? { return None; }
      ghost var more := ParseTopics(buf[next..]);
      if more.Some? {
        assert topics + ([topic.value] + more.value) == topics + [topic.value] + more.value;
      }
      topics := topics + [topic.value];
      offset := next;
    }
    NoTopics(topics, []);
    return Some(Unsubscribe(id, topics));
  }

  lemma NoTopics(all: seq<seq<byte>>, rest: seq<byte>)
    ensures AfterTopics([], rest) == ParseTopics(rest)
    ensures AfterTopics(all, []) == Some(all)
  {
    if ParseTopics(rest).Some? { assert [] + ParseTopics(rest).value == ParseTopics(rest).value; }
    assert all + [] == all;
  }

  function AfterTopics(topics: seq<seq<byte>>, rest: seq<byte>): Option<seq<seq<byte>>> {
    var more :- ParseTopics(rest);
    Some(topics + more)
  }

  method ReadSubscribeAck(h: Header, buf: seq<byte>) returns (r: Option<Body>)
    ensures r == ParseSubscribeAck(h, buf)
  {
    if h.reserved != 0 || |buf| < 2 { return None; }
    var id, offset, codes := buf[0] as int * 256 + buf[1], 2, [];
    if offset + 1 > |buf| { return None; }
    while offset < |buf|
      invariant 2 <= offset <= |buf|
      invariant codes == seq(offset - 2, _ => buf[0])
    {
      codes := codes + [buf[0]];
      offset := offset + 1;
    }
    return Some(SubscribeAck(id, codes));
  }

  method ReadBody(h: Header, buf: seq<byte>) returns (r: Option<Body>)
    ensures r == ParseBody(h, buf)
  {
    if h.kind == PUBLISH {
      r := ReadPublish(h, buf);
    } else if h.kind == SUBSCRIBE {
      r := ReadSubscribe(h, buf);
    } else if h.kind == UNSUBSCRIBE {
      r := ReadUnsubscribe(h, buf);
    } else if h.kind == CONNECT {
      r := ReadConnect(h, buf);
    } else if h.kind == SUBSCRIBE_ACK {
      r := ReadSubscribeAck(h, buf);
    } else {
      r := ParseBody(h, buf);
    }
  }
}
