/** Packing CONNECT, and exactly which messages the parser reads back from what is packed. */
module MqttConnect {
  import opened Options
  import opened Bytes
  import opened Buffers
  import opened MqttMessages
  import opened MqttParser
  import opened MqttPacker
  import opened MqttPackBuffer
  import opened MqttWire

  // Every part that has a flag is there exactly when it is set.
  predicate Consistent(c: Body)
    requires c.Connect?
  {
    (c.will.Some? <==> Set(c.flags, 4)) && (c.user.Some? <==> Set(c.flags, 0x80)) && (c.password.Some? <==> Set(c.flags, 0x40))
  }

  predicate AllShort(c: Body)
    requires c.Connect?
  {
    && Short(c.protocol) && Short(c.client) && (c.will.Some? ==> Short(c.will.value.topic) && Short(c.will.value.message))
    && (c.user.Some? ==> Short(c.user.value)) && (c.password.Some? ==> Short(c.password.value))
  }

  // The packer joins both bits of the will's QoS when it is not zero, and leaves out the reserved bit.
  function PackFlags(flags: byte): byte {
    (if Set(flags, 0x80) then 0x80 else 0) + (if Set(flags, 0x40) then 0x40 else 0) + (if Set(flags, 0x20) then 0x20 else 0)
    + (if flags / 8 % 4 != 0 then 0x18 else 0) + (if Set(flags, 4) then 4 else 0) + (if Set(flags, 2) then 2 else 0)
  }

  // `keep_alive_ && 0x00ff` is a truth value.
  function PackKeepAlive(n: nat): seq<byte> { [n / 0x100 % 0x100, if n != 0 then 1 else 0] }

  function CopyOption(o: Option<seq<byte>>): seq<byte> { if o.Some? then CopyData(o.value) else [] }

  function CopiedWill(w: Option<Will>): seq<byte> {
    if w.Some? then CopyData(w.value.topic) + CopyData(w.value.message) else []
  }

  function PackConnectBody(c: Body): seq<byte>
    requires c.Connect?
  {
    CopyData(c.protocol) + [c.level, PackFlags(c.flags)] + PackKeepAlive(c.keepAlive) + CopyData(c.client)
    + CopiedWill(c.will) + CopyOption(c.user) + CopyOption(c.password)
  }

  // What is packed in place of a CONNECT.
  function Sent(c: Body): Body
    requires c.Connect?
  {
    c.(flags := PackFlags(c.flags), keepAlive := SentKeepAlive(c.keepAlive))
  }

  function SentKeepAlive(n: nat): (k: nat)
    ensures k < 0x1_0000
  {
    n / 0x100 % 0x100 * 0x100 + if n != 0 then 1 else 0
  }

  lemma KeepAliveIs(n: nat)
    ensures PackKeepAlive(n) == Two(SentKeepAlive(n))
    ensures n < 0x1_0000 ==> (SentKeepAlive(n) == n <==> n == 0 || n % 0x100 == 1)
  {
  }

  // The bits of a byte of flags, those of the QoS together.
  lemma Bits(flags: int, u: int, p: int, r: int, q: int, w: int, c: int, x: int)
    requires flags == 0x80 * u + 0x40 * p + 0x20 * r + 8 * q + 4 * w + 2 * c + x
    requires 0 <= u < 2 && 0 <= p < 2 && 0 <= r < 2 && 0 <= q < 4 && 0 <= w < 2 && 0 <= c < 2 && 0 <= x < 2
    ensures flags / 0x80 % 2 == u && flags / 0x40 % 2 == p && flags / 0x20 % 2 == r
    ensures flags / 8 % 4 == q && flags / 4 % 2 == w && flags / 2 % 2 == c && flags % 2 == x
  {
    assert flags / 2 == 0x40 * u + 0x20 * p + 0x10 * r + 4 * q + 2 * w + c;
    assert flags / 4 == 0x20 * u + 0x10 * p + 8 * r + 2 * q + w;
    assert flags / 8 == 0x10 * u + 8 * p + 4 * r + q;
    assert flags / 0x20 == 4 * u + 2 * p + r;
    assert flags / 0x40 == 2 * u + p;
    assert flags / 0x80 == u;
  }

  lemma SplitBits(flags: byte) returns (u: int, p: int, r: int, q: int, w: int, c: int, x: int)
    ensures flags == 0x80 * u + 0x40 * p + 0x20 * r + 8 * q + 4 * w + 2 * c + x
    ensures 0 <= u < 2 && 0 <= p < 2 && 0 <= r < 2 && 0 <= q < 4 && 0 <= w < 2 && 0 <= c < 2 && 0 <= x < 2
  {
    var a := flags / 2;
    var b := a / 2;
    var d := b / 2;
    var e := d / 4;
    var f := e / 2;
    u, p, r, q, w, c, x := f / 2, f % 2, e % 2, d % 4, b % 2, a % 2, flags % 2;
  }

  /** The flags come out as they were exactly without the reserved bit and with a QoS of 0 or 3. */
  lemma FlagsKept(flags: byte)
    ensures forall bit | bit in {4, 0x40, 0x80} :: Set(PackFlags(flags), bit) == Set(flags, bit)
    ensures PackFlags(flags) == flags <==> flags % 2 == 0 && flags / 8 % 4 in {0, 3}
  {
    var u, p, r, q, w, c, x := SplitBits(flags);
    Bits(flags, u, p, r, q, w, c, x);
    var packed := PackFlags(flags);
    assert packed == 0x80 * u + 0x40 * p + 0x20 * r + 8 * (if q != 0 then 3 else 0) + 4 * w + 2 * c + 0;
    Bits(packed, u, p, r, if q != 0 then 3 else 0, w, c, 0);
  }

  lemma SentIsPacked(c: Body)
    requires c.Connect?
    ensures PackConnectBody(c) == ConnectText(Sent(c))
  {
    hide Text, CopyData, PackFlags;
    CopiedText(c.protocol);
    CopiedText(c.client);
    if c.will.Some? {
      CopiedText(c.will.value.topic);
      CopiedText(c.will.value.message);
    }
    if c.user.Some? { CopiedText(c.user.value); }
    if c.password.Some? { CopiedText(c.password.value); }
    KeepAliveIs(c.keepAlive);
    hide PackKeepAlive, SentKeepAlive, Two;
    var will := WillText(c.will);
    var user, password := OptionText(c.user), OptionText(c.password);
    Nested(Text(c.protocol), [c.level, PackFlags(c.flags)], Two(Sent(c).keepAlive), Text(c.client), will, user, password);
  }

  lemma Nested(a: seq<byte>, b: seq<byte>, c: seq<byte>, d: seq<byte>, e: seq<byte>, f: seq<byte>, g: seq<byte>)
    ensures a + b + c + d + e + f + g == a + (b + c + (d + (e + (f + g))))
  {
  }

  // What a CONNECT must be for its packet not to be refused.
  predicate Readable(c: Body)
    requires c.Connect?
  {
    c.protocol != [] && PartsReadable(c)
  }

  predicate PartsReadable(c: Body)
    requires c.Connect?
  {
    && (c.will.Some? ==> TopicText(c.will.value.topic) && c.will.value.message != [])
    && c.user != Some([]) && c.password != Some([])
  }

  lemma FieldRead(s: seq<byte>, rest: seq<byte>)
    requires Short(s)
    ensures Field(Text(s) + rest) == if s == [] then None else Some(Taken(s, rest))
    ensures Topic(Text(s) + rest) == if TopicText(s) then Some(Taken(s, rest)) else None
  {
    FieldIff(Text(s) + rest, s, rest);
  }

  lemma OptionRead(wanted: bool, o: Option<seq<byte>>, rest: seq<byte>)
    requires (o.Some? ==> Short(o.value)) && (wanted <==> o.Some?)
    ensures Optional(wanted, OptionText(o) + rest) == if o == Some([]) then None else Some(Taken(o, rest))
  {
    hide Field, Text;
    if o.Some? { FieldRead(o.value, rest); } else { assert [] + rest == rest; }
  }

  lemma WillRead(wanted: bool, w: Option<Will>, rest: seq<byte>)
    requires (w.Some? ==> Short(w.value.topic) && Short(w.value.message)) && (wanted <==> w.Some?)
    ensures ParseWill(wanted, WillText(w) + rest)
      == if w.Some? && !(TopicText(w.value.topic) && w.value.message != []) then None else Some(Taken(w, rest))
  {
    hide Field, Topic, Text, TopicText;
    if w.Some? {
      assert WillText(w) + rest == Text(w.value.topic) + (Text(w.value.message) + rest);
      FieldRead(w.value.topic, Text(w.value.message) + rest);
      FieldRead(w.value.message, rest);
    } else {
      assert [] + rest == rest;
    }
  }

  lemma ChosenRead(c: Body)
    requires c.Connect? && Consistent(c) && AllShort(c)
    ensures ReadChosen(c.flags, Chosen(c))
      == if PartsReadable(c) then Some((c.will, c.user, c.password)) else None
  {
    hide ParseWill, Optional, WillText, OptionText, TopicText, Set;
    WillRead(Set(c.flags, 4), c.will, OptionText(c.user) + OptionText(c.password));
    OptionRead(Set(c.flags, 0x80), c.user, OptionText(c.password));
    OptionRead(Set(c.flags, 0x40), c.password, []);
    assert OptionText(c.password) + [] == OptionText(c.password);
  }

  lemma TextRead(h: Header, c: Body)
    requires c.Connect? && Consistent(c) && AllShort(c) && c.keepAlive < 0x1_0000 && h.qos == 0
    ensures ParseConnect(h, ConnectText(c)) == if Readable(c) then Some(c) else None
  {
    ParseConnectIs(h, ConnectText(c));
    ConnectParts(c);
    var afterFixed := Text(c.client) + Chosen(c);
    FieldRead(c.protocol, Fixed(c) + afterFixed);
    FixedIff(c, Fixed(c) + afterFixed, afterFixed);
    ClientIff(afterFixed, c.client, Chosen(c));
    ChosenRead(c);
    hide ParseConnect, Field, ParseClient, ReadChosen, Text, Fixed, Chosen, Number16, ConnectText, PartsReadable, Set;
  }

  /** What is read of every packed CONNECT: with the keep-alive's low byte and the will's QoS spoiled, or nothing. */
  lemma PackedConnectIsRead(c: Body)
    requires c.Connect? && Consistent(c) && AllShort(c)
    ensures ParseBody(HeaderOf(0x10), PackConnectBody(c)) == if Readable(c) then Some(Sent(c)) else None
  {
    SentIsPacked(c);
    FlagsKept(c.flags);
    hide ParseConnect, ConnectText, PackConnectBody, TopicText, PackFlags, Set;
    TextRead(HeaderOf(0x10), Sent(c));
  }

  /** A CONNECT is read back as it was packed exactly if nothing in it is empty that must not be, and if the low byte
      of the keep-alive is 1, or 0 in one of 0, the will's QoS is 0 or 3, and the reserved bit is not set. */
  lemma ConnectSurvivesIff(c: Body)
    requires c.Connect? && Consistent(c) && AllShort(c) && c.keepAlive < 0x1_0000
    ensures ParseBody(HeaderOf(0x10), PackConnectBody(c)) == Some(c)
      <==> Readable(c) && (c.keepAlive == 0 || c.keepAlive % 0x100 == 1) && c.flags / 8 % 4 in {0, 3} && c.flags % 2 == 0
  {
    PackedConnectIsRead(c);
    FlagsKept(c.flags);
    KeepAliveIs(c.keepAlive);
    hide ParseBody, PackConnectBody, PackFlags, Readable, SentKeepAlive, Set;
    assert Sent(c) == c <==> PackFlags(c.flags) == c.flags && SentKeepAlive(c.keepAlive) == c.keepAlive;
  }

  /** So a client that asks for a keep-alive of 60 seconds is taken to ask for one. */
  lemma KeepAliveOfAMinute(c: Body)
    requires c.Connect? && Consistent(c) && AllShort(c) && Readable(c) && c.keepAlive == 60
    ensures ParseBody(HeaderOf(0x10), PackConnectBody(c)) == Some(c.(flags := PackFlags(c.flags), keepAlive := 1))
  {
    hide *;
    assert SentKeepAlive(60) == 1 by { MinuteSent(); }
    PackedConnectIsRead(c);
    assert Sent(c) == c.(flags := PackFlags(c.flags), keepAlive := 1) by { SentIs(c); }
  }

  lemma MinuteSent()
    ensures SentKeepAlive(60) == 1
  {
  }

  lemma SentIs(c: Body)
    requires c.Connect?
    ensures Sent(c) == c.(flags := PackFlags(c.flags), keepAlive := SentKeepAlive(c.keepAlive))
  {
  }

  // --- The packer ---

  // The size of a part that is packed when its flag is set.
  function OptionSize(o: Option<seq<byte>>): nat { if o.Some? then |o.value| + 2 else 0 }

  lemma OptionSizeIs(o: Option<seq<byte>>)
    ensures |CopyOption(o)| == OptionSize(o)
  {
  }

  method CopyPart(data: array<byte>, offset: nat, o: Option<seq<byte>>, ghost bs: seq<byte>) returns (p: nat)
    requires offset + OptionSize(o) <= data.Length && Filled(data[..], offset, bs)
    modifies data
    ensures p == offset + OptionSize(o) && Filled(data[..], p, bs + CopyOption(o))
  {
    hide Filled, CopyData;
    p := offset;
    if o.Some? {
      p := CopyString(data, p, o.value, bs);
    } else {
      assert bs + [] == bs;
    }
  }

  // Level, flags and keep-alive.
  method PutFixed(data: array<byte>, offset: nat, c: Body, ghost bs: seq<byte>) returns (p: nat)
    requires c.Connect? && offset + 4 <= data.Length && Filled(data[..], offset, bs)
    modifies data
    ensures p == offset + 4 && Filled(data[..], p, bs + ([c.level, PackFlags(c.flags)] + PackKeepAlive(c.keepAlive)))
  {
    hide Filled, PackFlags;
    PutByte(data, offset, c.level, bs);
    PutByte(data, offset + 1, PackFlags(c.flags), bs + [c.level]);
    PutByte(data, offset + 2, c.keepAlive / 0x100 % 0x100, bs + [c.level] + [PackFlags(c.flags)]);
    ghost var more := bs + [c.level] + [PackFlags(c.flags)] + [c.keepAlive / 0x100 % 0x100];
    PutByte(data, offset + 3, if c.keepAlive != 0 then 1 else 0, more);
    p := offset + 4;
    assert more + [if c.keepAlive != 0 then 1 else 0] == bs + ([c.level, PackFlags(c.flags)] + PackKeepAlive(c.keepAlive));
  }

  lemma ConnectSize(c: Body)
    requires c.Connect?
    ensures |PackConnectBody(c)|
      == |c.protocol| + 2 + 1 + 1 + 2 + |c.client| + 2 + PartsSize(c)
  {
    hide CopyData;
    CopyDataLength(c.protocol);
    CopyDataLength(c.client);
    if c.will.Some? {
      CopyDataLength(c.will.value.topic);
      CopyDataLength(c.will.value.message);
    }
    OptionSizeIs(c.user);
    OptionSizeIs(c.password);
  }

  /** The buffer, cut to size, is one packet around the fields. */
  method PackConnect(c: Body) returns (packed: seq<byte>)
    requires c.Connect? && |PackConnectBody(c)| < LIMIT4
    ensures packed == Packet(0x10, PackConnectBody(c))
  {
    ConnectSize(c);
    hide Filled, Varint, PackConnectBody;
    var remaining := |c.protocol| + 2 + 1 + 1 + 2 + (|c.client| + 2)
      + OptionSize(c.password) + OptionSize(c.user)
      + (if c.will.Some? then |c.will.value.topic| + 2 else 0) + (if c.will.Some? then |c.will.value.message| + 2 else 0);
    VarintLength(remaining);
    var data := new byte[remaining + 5](_ => 0);
    var offset := Head(data, CONNECT, remaining);
    ghost var head := [CONNECT] + Varint(remaining);
    offset := PutFields(data, offset, c, head);
    Cut(data[..], offset, head + PackConnectBody(c));
    packed := data[..offset];
  }

  method PutFields(data: array<byte>, from: nat, c: Body, ghost head: seq<byte>) returns (offset: nat)
    requires c.Connect? && from + |c.protocol| + 2 + 4 + |c.client| + 2 + PartsSize(c) <= data.Length && Filled(data[..], from, head)
    modifies data
    ensures Filled(data[..], offset, head + PackConnectBody(c))
  {
    hide Filled, CopyData, CopyOption, CopiedWill, PackFlags, PackKeepAlive, PartsSize;
    offset := CopyString(data, from, c.protocol, head);
    offset := PutFixed(data, offset, c, head + CopyData(c.protocol));
    ghost var fixed := [c.level, PackFlags(c.flags)] + PackKeepAlive(c.keepAlive);
    offset := CopyString(data, offset, c.client, head + CopyData(c.protocol) + fixed);
    offset := CopyParts(data, offset, c, head + CopyData(c.protocol) + fixed + CopyData(c.client));
    Assembled(head, CopyData(c.protocol), [c.level, PackFlags(c.flags)], PackKeepAlive(c.keepAlive), CopyData(c.client),
              CopiedWill(c.will), CopyOption(c.user), CopyOption(c.password));
  }

  function PartsSize(c: Body): nat
    requires c.Connect?
  {
    OptionSize(c.password) + OptionSize(c.user) + WillSize(c.will)
  }

  function WillSize(w: Option<Will>): nat { if w.Some? then |w.value.topic| + 2 + |w.value.message| + 2 else 0 }

  // The parts that have flags.
  method CopyParts(data: array<byte>, from: nat, c: Body, ghost bs: seq<byte>) returns (offset: nat)
    requires c.Connect? && from + PartsSize(c) <= data.Length && Filled(data[..], from, bs)
    modifies data
    ensures offset == from + PartsSize(c)
    ensures Filled(data[..], offset, bs + CopiedWill(c.will) + CopyOption(c.user) + CopyOption(c.password))
  {
    hide Filled, CopiedWill, CopyOption;
    offset := CopyWill(data, from, c.will, bs);
    offset := CopyPart(data, offset, c.user, bs + CopiedWill(c.will));
    offset := CopyPart(data, offset, c.password, bs + CopiedWill(c.will) + CopyOption(c.user));
  }

  lemma Assembled(head: seq<byte>, a: seq<byte>, b: seq<byte>, c: seq<byte>, d: seq<byte>, e: seq<byte>, f: seq<byte>, g: seq<byte>)
    ensures head + a + (b + c) + d + e + f + g == head + (a + b + c + d + e + f + g)
  {
  }

  method CopyWill(data: array<byte>, offset: nat, w: Option<Will>, ghost bs: seq<byte>) returns (p: nat)
    requires offset + WillSize(w) <= data.Length && Filled(data[..], offset, bs)
    modifies data
    ensures p == offset + WillSize(w)
    ensures Filled(data[..], p, bs + CopiedWill(w))
  {
    hide Filled, CopyData;
    p := offset;
    if w.Some? {
      p := CopyString(data, p, w.value.topic, bs);
      p := CopyString(data, p, w.value.message, bs + CopyData(w.value.topic));
      assert bs + CopyData(w.value.topic) + CopyData(w.value.message) == bs + (CopyData(w.value.topic) + CopyData(w.value.message));
    } else {
      assert bs + [] == bs;
    }
  }
}
