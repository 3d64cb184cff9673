/** frame_maker and frame_parser as they run. */
module WebSocketParser {
  import opened Options
  import opened Bytes
  import opened Buffers
  import opened WebSocketFrames
  import opened WebSocketStreams

  class FrameMaker {
    var fin: byte
    var opcode: byte
    var mask: byte
    var maskingKey: nat

    constructor ()
      ensures Ready() && fin == 0 && opcode == 0 && mask == 0 && maskingKey == 0
    {
      fin, opcode, mask, maskingKey := 0, 0, 0, 0;
    }

    predicate Ready()
      reads this
    {
      fin in {0, 128} && opcode < 16 && mask in {0, 128} && maskingKey < 0x1_0000_0000
    }

    // The frame that is made of a payload.
    function Made(payload: seq<byte>): Frame
      reads this
    {
      Frame(if mask != 0 then Some(maskingKey) else None, fin != 0, opcode, payload)
    }

    method ResetMaskingKey()
      requires Ready()
      modifies this`mask
      ensures Ready() && mask == 0 && forall p :: Made(p) == Frame(None, old(Made([]).fin), old(Made([]).opcode), p)
    {
      mask := 0;
    }

    method SetMaskingKey(key: nat)
      requires Ready() && key < 0x1_0000_0000
      modifies this`mask, this`maskingKey
      ensures Ready() && mask == 128 && maskingKey == key
      ensures forall p :: Made(p) == Frame(Some(key), old(Made([]).fin), old(Made([]).opcode), p)
    {
      mask := 0x80;
      maskingKey := key;
    }

    method SetFin(val: bool)
      requires Ready()
      modifies this`fin
      ensures Ready() && (fin != 0 <==> val)
      ensures forall p :: Made(p) == Frame(old(Made([]).key), val, old(Made([]).opcode), p)
    {
      fin := if val then 0x80 else 0;
    }

    method SetFrameType(t: byte)
      requires Ready() && t < 16
      modifies this`opcode
      ensures Ready() && opcode == t && forall p :: Made(p) == Frame(old(Made([]).key), old(Made([]).fin), t, p)
    {
      opcode := t;
    }

    method MakeFrame(data: seq<byte>) returns (buffer: seq<byte>)
      requires Ready() && |data| < LIMIT
      ensures buffer == WebSocketStreams.MakeFrame(Made(data))
    {
      hide Filled, Masked, BE;
      var len := |data|;
      ghost var f := Made(data);
      var ext := if len <= 125 then 0 else if len <= 65535 then 2 else 8;
      var maskLen := if len != 0 && mask != 0 then 4 else 0;
      var ptr := new byte[2 + ext + maskLen + len](_ => 0);
      Fresh(ptr[..]);
      var flag: byte := if len != 0 then mask else 0;
      PutByte(ptr, 0, fin + opcode, []);
      var head: seq<byte> := [fin + opcode];
      assert [] + head == head;
      var offset := PutLength(ptr, 1, len, flag, head);
      ghost var bs := head + LengthBytes(len, flag);
      assert head == [FirstByte(f)];
      if len == 0 {
        assert bs + MaskAndPayload(f) == bs;
        Cut(ptr[..], offset, bs);
        assert ptr[..offset] == ptr[..];
        return ptr[..];
      }
      if mask != 0 {
        offset := PutKey(ptr, offset, maskingKey, bs);
        offset := PutMasked(ptr, offset, data, BE(maskingKey, 4), bs + BE(maskingKey, 4));
        Regroup(bs, BE(maskingKey, 4), Masked(data, BE(maskingKey, 4), 0));
      } else {
        offset := CopyBytes(ptr, offset, data, bs);
      }
      Cut(ptr[..], offset, bs + MaskAndPayload(f));
      assert ptr[..offset] == ptr[..];
      buffer := ptr[..];
    }
  }

  lemma LengthSize(n: nat, flag: byte)
    requires flag in {0, 128}
    ensures |LengthBytes(n, flag)| == 1 + if n <= 125 then 0 else if n <= 65535 then 2 else 8
  {
  }

  method PutLength(ptr: array<byte>, from: nat, len: nat, flag: byte, ghost bs: seq<byte>) returns (offset: nat)
    requires flag in {0, 128} && len < LIMIT
    requires from + |LengthBytes(len, flag)| <= ptr.Length && Filled(ptr[..], from, bs)
    modifies ptr
    ensures offset == from + |LengthBytes(len, flag)| && Filled(ptr[..], offset, bs + LengthBytes(len, flag))
  {
    hide Filled, BE;
    LengthSize(len, flag);
    if len <= 125 {
      PutByte(ptr, from, flag + len, bs);
      offset := from + 1;
    } else if len <= 65535 {
      PutByte(ptr, from, flag + 126, bs);
      PutByte(ptr, from + 1, len / 0x100 % 0x100, bs + [flag + 126]);
      PutByte(ptr, from + 2, len % 0x100, bs + [flag + 126] + [len / 0x100 % 0x100]);
      offset := from + 3;
      TwoBytes(len, flag + 126, bs);
    } else {
      PutByte(ptr, from, flag + 127, bs);
      PowValues();
      BE8Halves(len);
      Put32(ptr, from + 1, 0, bs + [flag + 127]);
      Put32(ptr, from + 5, len, bs + [flag + 127] + BE(0, 4));
      offset := from + 9;
      assert len / 0x1_0000_0000 == 0 && len % 0x1_0000_0000 == len;
      Regroup(bs + [flag + 127], BE(0, 4), BE(len, 4));
      Regroup(bs, [flag + 127], BE(len, 8));
    }
  }

  lemma TwoBytes(n: nat, first: byte, bs: seq<byte>)
    ensures bs + [first] + [n / 0x100 % 0x100] + [n % 0x100] == bs + ([first] + BE(n, 2))
  {
    assert BE(n, 2) == BE(n / 256, 1) + [n % 256];
    assert BE(n / 256, 1) == BE(n / 256 / 256, 0) + [n / 256 % 256] == [n / 256 % 256];
  }

  method PutKey(ptr: array<byte>, from: nat, key: nat, ghost bs: seq<byte>) returns (offset: nat)
    requires from + 4 <= ptr.Length && Filled(ptr[..], from, bs)
    modifies ptr
    ensures offset == from + 4 && Filled(ptr[..], offset, bs + BE(key, 4))
  {
    Put32(ptr, from, key, bs);
    offset := from + 4;
  }

  // The masking loop.
  method PutMasked(ptr: array<byte>, from: nat, data: seq<byte>, mask: seq<byte>, ghost bs: seq<byte>) returns (offset: nat)
    requires |mask| == 4 && from + |data| <= ptr.Length && Filled(ptr[..], from, bs)
    modifies ptr
    ensures offset == from + |data| && Filled(ptr[..], offset, bs + Masked(data, mask, 0))
  {
    hide Filled, Masked, Xor;
    offset := from;
    NothingMasked(mask, bs);
    for i := 0 to |data|
      invariant offset == from + i && Filled(ptr[..], offset, bs + Masked(data[..i], mask, 0))
    {
      PutByte(ptr, offset, Xor(data[i], mask[i % 4]), bs + Masked(data[..i], mask, 0));
      offset := offset + 1;
      MaskedOneMore(data, mask, i);
      Regroup(bs, Masked(data[..i], mask, 0), [Xor(data[i], mask[i % 4])]);
    }
    assert data[..|data|] == data;
  }

  lemma NothingMasked(mask: seq<byte>, bs: seq<byte>)
    requires |mask| == 4
    ensures bs + Masked([], mask, 0) == bs
  {
  }

  lemma MaskedOneMore(data: seq<byte>, mask: seq<byte>, i: nat)
    requires |mask| == 4 && i < |data|
    ensures Masked(data[..i + 1], mask, 0) == Masked(data[..i], mask, 0) + [Xor(data[i], mask[i % 4])]
  {
    hide Xor;
  }

  // --- The parser ---

  class FrameParser {
    var step: Step
    var header: Header
    var payloadLenOffset: nat
    var maskingKeyPos: nat
    var payload: seq<byte>
    var delivered: seq<Message>
    ghost var since: nat

    constructor ()
      ensures Now() == Reset([])
    {
      step, header, payloadLenOffset, maskingKeyPos, payload, since, delivered := FixedHeader, NO_HEADER, 0, 0, [], 0, [];
    }

    ghost function Now(): State
      reads this
    {
      State(step, header, payloadLenOffset, maskingKeyPos, payload, since, delivered)
    }

    // The callback and reset().
    method CallBack(message: seq<byte>)
      modifies this
      ensures Now() == Reset(old(delivered) + [Message(message, old(header.opcode), old(header.fin) != 0)])
    {
      delivered := delivered + [Message(message, header.opcode, header.fin != 0)];
      step, maskingKeyPos, payloadLenOffset, payload, header := FixedHeader, 0, 0, [], NO_HEADER;
      since := 0;
    }

    method ParseFixedHeader(data: seq<byte>, from: nat) returns (next: nat)
      requires from < |data| && Ok(Now()) && step.FixedHeader?
      modifies this
      ensures next == from + 1 && Takes(old(Now()), Now(), data, from, next)
    {
      ghost var s := Now();
      var b := data[from];
      header := NO_HEADER.(fin := b / 16 * 16, opcode := b % 16);
      payloadLenOffset := 0;
      step := PayloadLen;
      since := 0;
      next := from + 1;
      OneByte(s, data, from);
      Chain(s, data, from, next);
    }

    method ParsePayloadLen(data: seq<byte>, from: nat) returns (next: nat)
      requires from < |data| && Ok(Now()) && step.PayloadLen?
      modifies this
      ensures next == from + 1 && Takes(old(Now()), Now(), data, from, next)
    {
      ghost var s := Now();
      var b := data[from];
      header := header.(masked := b >= 128, len7 := b % 128);
      if header.len7 <= 125 {
        header := header.(realLen := header.len7);
        step := if header.masked then MaskKey else Payload;
      } else {
        step := ExtLen;
      }
      since := 0;
      if header.len7 == 0 {
        CallBack([]);
      }
      next := from + 1;
      OneByte(s, data, from);
      Chain(s, data, from, next);
    }

    method ParseExtendedPayloadLen(data: seq<byte>, from: nat) returns (next: nat)
      requires from < |data| && Ok(Now()) && step.ExtLen? && since == 0
      requires !Feed(Now(), data[from..]).Beyond?
      modifies this
      ensures from < next <= |data| && Takes(old(Now()), Now(), data, from, next)
    {
      hide Feed, FromBE;
      ghost var s := Now();
      var need := if header.len7 == 126 then 2 else 8;
      var n := if need - payloadLenOffset <= |data| - from then need - payloadLenOffset else |data| - from;
      next := from + n;
      Ahead(s, data, from, next);
      FeedExt(s, data[from..next]);
      header := header.(ext := data[from..next] + header.ext[n..]);
      payloadLenOffset := payloadLenOffset + n;
      since := n;
      Chain(s, data, from, next);
      assert Now() == ExtTaken(s, data[from..next]);
      if payloadLenOffset == need {
        header := header.(realLen := FromBE(header.ext[..need]));
        step := if header.masked then MaskKey else Payload;
        since := 0;
      }
    }

    method ParseMaskingKey(data: seq<byte>, from: nat) returns (next: nat)
      requires from < |data| && Ok(Now()) && step.MaskKey? && since == 0
      modifies this
      ensures from < next <= |data| && Takes(old(Now()), Now(), data, from, next)
    {
      hide Feed;
      ghost var s := Now();
      var n := if 4 - maskingKeyPos <= |data| - from then 4 - maskingKeyPos else |data| - from;
      next := from + n;
      FeedKey(s, data[from..next]);
      header := header.(key := data[from..next] + header.key[n..]);
      maskingKeyPos := maskingKeyPos + n;
      since := n;
      Chain(s, data, from, next);
      assert Now() == KeyTaken(s, data[from..next]);
      if maskingKeyPos == 4 {
        step := Payload;
        since := 0;
      }
    }

    method ParsePayload(data: seq<byte>, from: nat) returns (next: nat)
      requires from < |data| && Ok(Now()) && step.Payload? && since == 0
      modifies this
      ensures from <= next <= |data| && Takes(old(Now()), Now(), data, from, next)
      ensures next == from ==> Owed(old(Now())) && !Owed(Now())
    {
      hide Feed, Masked;
      ghost var s := Now();
      var remain := header.realLen - |payload|;
      var n := if remain <= |data| - from then remain else |data| - from;
      next := from + n;
      var d := data[from..next];
      if header.masked {
        var plain := Unmask(d, header.key);
        payload := payload + plain;
      } else {
        payload := payload + d;
      }
      since := n;
      assert Now() == PayloadTaken(s, d) by { NothingMasked(header.key, payload); }
      if n == 0 {
        OwedFrame(s, data[from..]);
      } else {
        FeedPayload(s, d);
        Chain(s, data, from, next);
      }
      if |payload| == header.realLen {
        CallBack(payload);
      }
    }

    // One turn of the loop.
    method ParseTurn(data: seq<byte>, from: nat) returns (next: nat)
      requires from < |data| && Ok(Now()) && since == 0
      requires !Feed(Now(), data[from..]).Beyond?
      modifies this
      ensures from <= next <= |data| && Takes(old(Now()), Now(), data, from, next)
      ensures next == from ==> Owed(old(Now())) && !Owed(Now())
    {
      hide Feed, Ok;
      next := from;
      if step.FixedHeader? {
        next := ParseFixedHeader(data, next);
      }
      if step.PayloadLen? && next < |data| {
        next := ParsePayloadLen(data, next);
      }
      if step.ExtLen? && next < |data| {
        next := ParseExtendedPayloadLen(data, next);
      }
      if step.MaskKey? && next < |data| {
        next := ParseMaskingKey(data, next);
      }
      if step.Payload? && next < |data| {
        next := ParsePayload(data, next);
      }
    }

    /** One call: an empty buffer throws, and any other is fed to the machine from its first byte to its last. */
    method DoParse(data: seq<byte>) returns (threw: bool)
      requires Ok(Now()) && !Feed(NewCall(Now()), data).Beyond?
      modifies this
      ensures threw <==> data == []
      ensures Ok(Now())
      ensures if threw then unchanged(this) else Feed(NewCall(old(Now())), data) == Going(Now())
    {
      if data == [] { return true; }
      threw := false;
      since := 0;
      ghost var s0 := Now();
      NewCallOk(old(Now()));
      var offset := 0;
      assert data[0..] == data;
      while offset < |data|
        invariant 0 <= offset <= |data| && Ok(Now())
        invariant Feed(s0, data) == Feed(Now(), data[offset..])
        invariant offset < |data| ==> since == 0
        decreases |data| - offset, if Owed(Now()) then 1 else 0
      {
        hide Ok;
        offset := ParseTurn(data, offset);
      }
      assert data[|data|..] == [];
    }
  }

  // From s to t the bytes up to next are taken; within a call a field that is not complete has used up the buffer.
  ghost predicate Takes(s: State, t: State, data: seq<byte>, from: nat, next: nat)
    requires Ok(s) && from <= next <= |data|
  {
    Ok(t) && Feed(s, data[from..]) == Feed(t, data[next..]) && (next < |data| ==> t.since == 0)
  }

  // The loop that takes the mask off.
  method Unmask(d: seq<byte>, mask: seq<byte>) returns (plain: seq<byte>)
    requires |mask| == 4
    ensures plain == Masked(d, mask, 0)
  {
    plain := [];
    for i := 0 to |d|
      invariant plain == Masked(d[..i], mask, 0)
    {
      MaskedOneMore(d, mask, i);
      plain := plain + [Xor(d[i], mask[i % 4])];
    }
    assert d[..|d|] == d;
  }

  lemma OneByte(s: State, data: seq<byte>, from: nat)
    requires Ok(s) && from < |data|
    ensures Feed(s, data[from..from + 1]) == Turn(s, data[from])
  {
    assert data[from..from + 1] == [data[from]];
    FeedOne(s, data[from]);
  }

  lemma Chain(s: State, data: seq<byte>, from: nat, next: nat)
    requires Ok(s) && from <= next <= |data|
    ensures Feed(s, data[from..]) == Then(Feed(s, data[from..next]), data[next..])
  {
    assert data[from..] == data[from..next] + data[next..];
    FeedJoins(s, data[from..next], data[next..]);
  }

  lemma Ahead(s: State, data: seq<byte>, from: nat, next: nat)
    requires Ok(s) && from <= next <= |data| && !Feed(s, data[from..]).Beyond?
    ensures !Feed(s, data[from..next]).Beyond?
  {
    Chain(s, data, from, next);
  }

  lemma OwedFrame(s: State, data: seq<byte>)
    requires Ok(s) && Owed(s) && data != []
    ensures Feed(s, data) == Feed(Deliver(s), data)
  {
  }
}
