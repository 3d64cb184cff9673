/** The packers as they run: a zeroed buffer, filled through a moving offset and cut to size. */
module MqttPackBuffer {
  import opened Options
  import opened Bytes
  import opened Buffers
  import opened MqttMessages
  import opened MqttPacker

  method EncodeVarint32(data: array<byte>, offset: nat, v: nat, ghost bs: seq<byte>) returns (p: nat)
    requires v < LIMIT4 && offset + |Varint(v)| <= data.Length && Filled(data[..], offset, bs)
    modifies data
    ensures p == offset + |Varint(v)| && Filled(data[..], p, bs + Varint(v))
  {
    hide Filled;
    if v < 0x80 {
      PutByte(data, offset, v, bs);
      p := offset + 1;
    } else if v < LIMIT {
      PutByte(data, offset, v % 0x80 + 0x80, bs);
      PutByte(data, offset + 1, v / 0x80, bs + [v % 0x80 + 0x80]);
      p := offset + 2;
    } else if v < LIMIT3 {
      p := PutTwo(data, offset, v, bs);
      PutByte(data, p, v / LIMIT, bs + TwoBytes(v));
      p := p + 1;
    } else {
      p := PutTwo(data, offset, v, bs);
      PutByte(data, p, v / LIMIT % 0x80 + 0x80, bs + TwoBytes(v));
      PutByte(data, p + 1, v / LIMIT3, bs + TwoBytes(v) + [v / LIMIT % 0x80 + 0x80]);
      p := p + 2;
    }
    VarintParts(v, bs);
  }

  function TwoBytes(v: nat): seq<byte> { [v % 0x80 + 0x80, v / 0x80 % 0x80 + 0x80] }

  lemma VarintParts(v: nat, bs: seq<byte>)
    ensures v < 0x80 ==> bs + [v] == bs + Varint(v)
    ensures 0x80 <= v < LIMIT ==> bs + [v % 0x80 + 0x80] + [v / 0x80] == bs + Varint(v)
    ensures LIMIT <= v < LIMIT3 ==> bs + TwoBytes(v) + [v / LIMIT] == bs + Varint(v)
    ensures LIMIT3 <= v < LIMIT4 ==> bs + TwoBytes(v) + [v / LIMIT % 0x80 + 0x80] + [v / LIMIT3] == bs + Varint(v)
  {
  }

  // The two low groups of a length that needs more.
  method PutTwo(data: array<byte>, offset: nat, v: nat, ghost bs: seq<byte>) returns (p: nat)
    requires offset + 2 <= data.Length && Filled(data[..], offset, bs)
    modifies data
    ensures p == offset + 2 && Filled(data[..], p, bs + TwoBytes(v))
  {
    hide Filled;
    PutByte(data, offset, v % 0x80 + 0x80, bs);
    PutByte(data, offset + 1, v / 0x80 % 0x80 + 0x80, bs + [v % 0x80 + 0x80]);
    p := offset + 2;
    assert bs + [v % 0x80 + 0x80] + [v / 0x80 % 0x80 + 0x80] == bs + TwoBytes(v);
  }

  method Put16(data: array<byte>, offset: nat, n: nat, ghost bs: seq<byte>) returns (p: nat)
    requires offset + 2 <= data.Length && Filled(data[..], offset, bs)
    modifies data
    ensures p == offset + 2 && Filled(data[..], p, bs + B16(n))
  {
    hide Filled;
    ghost var before := data[..];
    data[offset] := n / 0x100 % 0x100;
    data[offset + 1] := n % 0x100;
    p := offset + 2;
    assert Wrote(before, data[..], offset, B16(n));
    FillMore(before, data[..], offset, bs, B16(n));
  }

  // The packers of subscriptions join the low byte to what is there, which is still zero.
  method JoinId(data: array<byte>, offset: nat, n: nat, ghost bs: seq<byte>) returns (p: nat)
    requires offset + 2 <= data.Length && Filled(data[..], offset, bs)
    modifies data
    ensures p == offset + 2 && Filled(data[..], p, bs + B16(n))
  {
    ghost var before := data[..];
    data[offset] := n / 0x100 % 0x100;
    assert data[offset + 1] == before[offset + 1] == 0;
    data[offset + 1] := data[offset + 1] + n % 0x100;
    p := offset + 2;
    assert Wrote(before, data[..], offset, B16(n));
    FillMore(before, data[..], offset, bs, B16(n));
  }

  method CopyString(data: array<byte>, offset: nat, s: seq<byte>, ghost bs: seq<byte>) returns (p: nat)
    requires offset + 2 + |s| <= data.Length && Filled(data[..], offset, bs)
    modifies data
    ensures p == offset + 2 + |s| && Filled(data[..], p, bs + CopyData(s))
  {
    hide Filled, B16;
    p := Put16(data, offset, |s|, bs);
    p := CopyBytes(data, p, s, bs + B16(|s|));
    assert bs + B16(|s|) + s == bs + CopyData(s);
  }

  lemma VarintLength(v: nat)
    ensures v < LIMIT3 ==> 1 <= |Varint(v)| <= 3
    ensures v < LIMIT4 ==> 1 <= |Varint(v)| <= 4
  {
  }

  // The first byte and the length of a body.
  method Head(data: array<byte>, first: byte, remaining: nat) returns (offset: nat)
    requires remaining < LIMIT4 && 1 + |Varint(remaining)| <= data.Length
    requires forall i :: 0 <= i < data.Length ==> data[i] == 0
    modifies data
    ensures offset == 1 + |Varint(remaining)| && Filled(data[..], offset, [first] + Varint(remaining))
  {
    Fresh(data[..]);
    PutByte(data, 0, first, []);
    assert [] + [first] == [first];
    offset := EncodeVarint32(data, 1, remaining, [first]);
  }

  method PackPublish(m: Msg) returns (packed: seq<byte>)
    requires HasPacker(m) && m.body.Publish? && |PackBody(m)| < LIMIT4
    ensures packed == Pack(m)
  {
    hide Filled, Varint, B16;
    var topic, payload := m.body.topic, m.body.payload.value;
    var remaining := |payload| + (if m.header.qos != 0 then 2 else 0) + (2 + |topic|);
    assert remaining == |PackBody(m)| by { Sizes(m.body.id, topic); }
    VarintLength(remaining);
    var data := new byte[remaining + 5](_ => 0);
    var first := PUBLISH;
    first := first + if m.header.dup != 0 then 8 else 0;
    first := first + m.header.qos * 2;
    first := first + if m.header.retain != 0 then 1 else 0;
    var offset := Head(data, first, remaining);
    ghost var head := [first] + Varint(remaining);
    offset := CopyString(data, offset, topic, head);
    ghost var mid := head + CopyData(topic);
    if m.header.qos != 0 {
      offset := Put16(data, offset, m.body.id, mid);
      mid := mid + B16(m.body.id);
    } else {
      assert mid + [] == mid;
    }
    if |payload| != 0 {
      offset := CopyBytes(data, offset, payload, mid);
    } else {
      assert mid + payload == mid;
    }
    Cut(data[..], offset, mid + payload);
    Joins(head, CopyData(topic), if m.header.qos == 0 then [] else B16(m.body.id), payload);
    packed := data[..offset];
  }

  lemma Sizes(id: nat, s: seq<byte>)
    ensures |B16(id)| == 2 && |CopyData(s)| == 2 + |s|
  {
  }

  lemma Joins(a: seq<byte>, b: seq<byte>, c: seq<byte>, d: seq<byte>)
    ensures a + b + c + d == a + (b + c + d)
    ensures a + (b + c) == a + b + c
  {
  }

  function FiltersSize(fs: seq<Filter>): nat {
    if fs == [] then 0 else FiltersSize(fs[..|fs| - 1]) + 2 + |fs[|fs| - 1].topic| + 1
  }

  lemma {:induction false} PackFiltersSnoc(fs: seq<Filter>, f: Filter)
    ensures PackFilters(fs + [f]) == PackFilters(fs) + CopyData(f.topic) + [f.qos]
  {
    hide CopyData;
    if fs == [] {
      assert fs + [f] == [f] && [f][1..] == [];
      assert PackFilters([f]) == CopyData(f.topic) + [f.qos] + [];
    } else {
      assert (fs + [f])[1..] == fs[1..] + [f];
      PackFiltersSnoc(fs[1..], f);
      Joins(CopyData(fs[0].topic) + [fs[0].qos], PackFilters(fs[1..]), CopyData(f.topic), [f.qos]);
    }
  }

  lemma {:induction false} PackFiltersSize(fs: seq<Filter>)
    ensures |PackFilters(fs)| == FiltersSize(fs)
  {
    if fs != [] {
      var front, last := fs[..|fs| - 1], fs[|fs| - 1];
      assert fs == front + [last];
      PackFiltersSnoc(front, last);
      PackFiltersSize(front);
    }
  }

  // A longer list takes no less room.
  lemma {:induction false} SizeOfFront(fs: seq<Filter>, i: nat)
    requires i <= |fs|
    ensures FiltersSize(fs[..i]) <= FiltersSize(fs)
  {
    if i < |fs| {
      SizeOfFront(fs[..|fs| - 1], i);
      assert fs[..|fs| - 1][..i] == fs[..i];
    } else {
      assert fs[..i] == fs;
    }
  }

  /** The buffer of a subscription holds its packet exactly when the length is not one of four bytes. */
  lemma BufferSufficesIff(m: Msg)
    requires HasPacker(m) && (m.body.Subscribe? || m.body.Unsubscribe?)
    ensures |Pack(m)| <= |PackBody(m)| + 4 <==> |PackBody(m)| < LIMIT3 || |PackBody(m)| >= LIMIT4
  {
    hide PackBody;
    VarintLength(|PackBody(m)|);
  }

  method PackSubscribe(m: Msg) returns (packed: seq<byte>)
    requires HasPacker(m) && m.body.Subscribe? && |PackBody(m)| < LIMIT3
    ensures packed == Pack(m)
  {
    hide Filled, Varint, B16, PackFilters, FiltersSize;
    var fs := m.body.filters;
    var remaining := 2;
    SizeOfNone();
    for i := 0 to |fs|
      invariant remaining == 2 + FiltersSize(fs[..i])
    {
      FilterSize(fs, i);
      remaining := remaining + 2;
      remaining := remaining + |fs[i].topic|;
      remaining := remaining + 1;
    }
    assert fs[..|fs|] == fs;
    PackFiltersSize(fs);
    Sizes(m.body.id, []);
    VarintLength(remaining);
    var data := new byte[remaining + 4](_ => 0);
    var offset := Head(data, SUBSCRIBE + 2, remaining);
    ghost var head := [SUBSCRIBE + 2] + Varint(remaining);
    offset := JoinId(data, offset, m.body.id, head);
    head := head + B16(m.body.id);
    offset := PutFilters(data, offset, fs, head);
    Cut(data[..], offset, head + PackFilters(fs));
    Joins([SUBSCRIBE + 2] + Varint(remaining), B16(m.body.id), PackFilters(fs), []);
    packed := data[..offset];
  }

  lemma FilterSize(fs: seq<Filter>, i: nat)
    requires i < |fs|
    ensures FiltersSize(fs[..i + 1]) == FiltersSize(fs[..i]) + 2 + |fs[i].topic| + 1 <= FiltersSize(fs)
  {
    assert fs[..i + 1][..i] == fs[..i];
    SizeOfFront(fs, i + 1);
  }

  method PutFilters(data: array<byte>, from: nat, fs: seq<Filter>, ghost head: seq<byte>) returns (offset: nat)
    requires from == |head| && from + FiltersSize(fs) <= data.Length && Filled(data[..], from, head)
    modifies data
    ensures offset == from + FiltersSize(fs) && Filled(data[..], offset, head + PackFilters(fs))
  {
    hide Filled, PackFilters, FiltersSize, CopyData;
    NoFilters(head);
    SizeOfNone();
    offset := from;
    for i := 0 to |fs|
      invariant offset == from + FiltersSize(fs[..i]) && Filled(data[..], offset, head + PackFilters(fs[..i]))
    {
      ghost var bs := head + PackFilters(fs[..i]);
      FilterSize(fs, i);
      assert fs[..i + 1] == fs[..i] + [fs[i]];
      PackFiltersSnoc(fs[..i], fs[i]);
      offset := CopyString(data, offset, fs[i].topic, bs);
      PutByte(data, offset, fs[i].qos, bs + CopyData(fs[i].topic));
      offset := offset + 1;
      Joins(head, PackFilters(fs[..i]), CopyData(fs[i].topic), [fs[i].qos]);
    }
    assert fs[..|fs|] == fs;
  }

  lemma SizeOfNone()
    ensures FiltersSize([]) == 0 && TopicsSize([]) == 0
  {
  }

  lemma NoFilters(head: seq<byte>)
    ensures head + PackFilters([]) == head && head + PackTopics([]) == head
  {
  }

  function TopicsSize(ts: seq<seq<byte>>): nat {
    if ts == [] then 0 else TopicsSize(ts[..|ts| - 1]) + |ts[|ts| - 1]| + 2
  }

  lemma {:induction false} PackTopicsSnoc(ts: seq<seq<byte>>, t: seq<byte>)
    ensures PackTopics(ts + [t]) == PackTopics(ts) + CopyData(t)
  {
    hide CopyData;
    if ts == [] {
      assert ts + [t] == [t] && [t][1..] == [];
      assert PackTopics([t]) == CopyData(t) + [];
    } else {
      assert (ts + [t])[1..] == ts[1..] + [t];
      PackTopicsSnoc(ts[1..], t);
      Joins(CopyData(ts[0]), PackTopics(ts[1..]), CopyData(t), []);
    }
  }

  lemma {:induction false} PackTopicsSize(ts: seq<seq<byte>>)
    ensures |PackTopics(ts)| == TopicsSize(ts)
  {
    if ts != [] {
      var front, last := ts[..|ts| - 1], ts[|ts| - 1];
      assert ts == front + [last];
      PackTopicsSnoc(front, last);
      PackTopicsSize(front);
    }
  }

  lemma {:induction false} SizeOfFrontTopics(ts: seq<seq<byte>>, i: nat)
    requires i <= |ts|
    ensures TopicsSize(ts[..i]) <= TopicsSize(ts)
  {
    if i < |ts| {
      SizeOfFrontTopics(ts[..|ts| - 1], i);
      assert ts[..|ts| - 1][..i] == ts[..i];
    } else {
      assert ts[..i] == ts;
    }
  }

  method PackUnsubscribe(m: Msg) returns (packed: seq<byte>)
    requires HasPacker(m) && m.body.Unsubscribe? && |PackBody(m)| < LIMIT3
    ensures packed == Pack(m)
  {
    hide Filled, Varint, B16, PackTopics, TopicsSize;
    var ts := m.body.topics;
    var remaining := 2;
    SizeOfNone();
    for i := 0 to |ts|
      invariant remaining == 2 + TopicsSize(ts[..i])
    {
      TopicSize(ts, i);
      remaining := remaining + |ts[i]|;
      remaining := remaining + 2;
    }
    assert ts[..|ts|] == ts;
    PackTopicsSize(ts);
    Sizes(m.body.id, []);
    VarintLength(remaining);
    var data := new byte[remaining + 4](_ => 0);
    var offset := Head(data, UNSUBSCRIBE, remaining);
    ghost var head := [UNSUBSCRIBE] + Varint(remaining);
    offset := JoinId(data, offset, m.body.id, head);
    head := head + B16(m.body.id);
    offset := PutTopics(data, offset, ts, head);
    Cut(data[..], offset, head + PackTopics(ts));
    Joins([UNSUBSCRIBE] + Varint(remaining), B16(m.body.id), PackTopics(ts), []);
    packed := data[..offset];
  }

  lemma TopicSize(ts: seq<seq<byte>>, i: nat)
    requires i < |ts|
    ensures TopicsSize(ts[..i + 1]) == TopicsSize(ts[..i]) + |ts[i]| + 2 <= TopicsSize(ts)
  {
    assert ts[..i + 1][..i] == ts[..i];
    SizeOfFrontTopics(ts, i + 1);
  }

  method PutTopics(data: array<byte>, from: nat, ts: seq<seq<byte>>, ghost head: seq<byte>) returns (offset: nat)
    requires from == |head| && from + TopicsSize(ts) <= data.Length && Filled(data[..], from, head)
    modifies data
    ensures offset == from + TopicsSize(ts) && Filled(data[..], offset, head + PackTopics(ts))
  {
    hide Filled, PackTopics, TopicsSize, CopyData;
    NoFilters(head);
    SizeOfNone();
    offset := from;
    for i := 0 to |ts|
      invariant offset == from + TopicsSize(ts[..i]) && Filled(data[..], offset, head + PackTopics(ts[..i]))
    {
      TopicSize(ts, i);
      assert ts[..i + 1] == ts[..i] + [ts[i]];
      PackTopicsSnoc(ts[..i], ts[i]);
      Joins(head, PackTopics(ts[..i]), CopyData(ts[i]), []);
      offset := CopyString(data, offset, ts[i], head + PackTopics(ts[..i]));
    }
    assert ts[..|ts|] == ts;
  }

  /** The acknowledgements of four bytes. */
  method PackAck(m: Msg) returns (packed: seq<byte>)
    requires HasPacker(m) && m.body.Ack?
    ensures packed == Pack(m)
  {
    var data := new byte[4](_ => 0);
    data[0] := if m.body.kind == PUBLISH_REL then PUBLISH_REL + 2 else m.body.kind;
    data[1] := 2;
    data[2] := m.body.id / 0x100 % 0x100;
    data[3] := m.body.id % 0x100;
    packed := data[..];
  }
}
