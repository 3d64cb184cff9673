/** Request and response messages of the RPC: a 32-bit total length, then a body that starts with the magic string. */
module RpcFrames {
  import opened Options
  import opened Bytes
  import opened Endec
  import opened Buffers
  import opened EndecBuffer

  // "xsimple_rpc"
  const MAGIC: seq<byte> := [120, 115, 105, 109, 112, 108, 101, 95, 114, 112, 99]
  // Sizes of an id, an empty string, the magic string and a length: the least length a response may announce.
  const MIN_LENGTH: nat := 8 + 4 + (4 + 11) + 4

  function Str(s: seq<byte>): (r: seq<byte>)
    ensures |r| == 4 + |s|
  {
    BE(|s|, 4) + s
  }

  // Ids are 64-bit; the server reads them unsigned and the client signed.
  predicate IdOk(id: int) { FitsSigned(id, 8) }

  function Id(id: int): (r: seq<byte>)
    requires IdOk(id)
    ensures |r| == 8
  {
    BE(ToUnsigned(id, 8), 8)
  }

  function ReqBody(name: seq<byte>, id: int, args: seq<byte>): seq<byte>
    requires IdOk(id)
  {
    Str(MAGIC) + Id(id) + Str(name) + args
  }

  function RespBody(id: int, data: seq<byte>): seq<byte>
    requires IdOk(id)
  {
    Str(MAGIC) + Id(id) + Str(data)
  }

  function Frame(body: seq<byte>): seq<byte> {
    BE(|body| + 4, 4) + body
  }

  predicate Fits(body: seq<byte>) { |body| + 4 < COUNT_LIMIT }

  // --- Reading a body ---

  datatype Request = Request(id: nat, name: seq<byte>, args: seq<byte>)

  // What the server reads of a message body; None stands for a wrong magic string or an exception.
  function ParseReq(body: seq<byte>): Option<Request> {
    var magic := GetString(body);
    if !magic.Got? || magic.v != MAGIC then None
    else
      var id := GetBytes(magic.rest, 8);
      if !id.Got? then None
      else
        var name := GetString(id.rest);
        if !name.Got? then None else Some(Request(FromBE(id.v), name.v, name.rest))
  }

  // What the client reads: the id and the result.
  function ParseResp(body: seq<byte>): Option<(int, seq<byte>)> {
    var magic := GetString(body);
    if !magic.Got? || magic.v != MAGIC then None
    else
      var id := GetBytes(magic.rest, 8);
      if !id.Got? then None
      else
        var data := GetString(id.rest);
        if !data.Got? then None else Some((ToSigned(FromBE(id.v), 8), data.v))
  }

  lemma StrRoundTrip(s: seq<byte>, rest: seq<byte>)
    requires |s| < COUNT_LIMIT
    ensures GetString(Str(s) + rest) == Got(s, rest)
  {
    assert Str(s) + rest == BE(|s|, 4) + (s + rest);
    CountRoundTrip(|s|, s + rest);
    assert (s + rest)[..|s|] == s && (s + rest)[|s|..] == rest;
  }

  lemma IdRoundTrip(id: int, rest: seq<byte>)
    requires IdOk(id)
    ensures GetBytes(Id(id) + rest, 8) == Got(Id(id), rest)
    ensures FromBE(Id(id)) == ToUnsigned(id, 8) && ToSigned(FromBE(Id(id)), 8) == id
  {
    GetBytesPrefix(Id(id), rest);
    BERoundTrip(ToUnsigned(id, 8), 8);
  }

  lemma ReqRoundTrip(name: seq<byte>, id: int, args: seq<byte>)
    requires IdOk(id) && |name| < COUNT_LIMIT
    ensures ParseReq(ReqBody(name, id, args)) == Some(Request(ToUnsigned(id, 8), name, args))
  {
    var body := ReqBody(name, id, args);
    assert body == Str(MAGIC) + (Id(id) + (Str(name) + args));
    StrRoundTrip(MAGIC, Id(id) + (Str(name) + args));
    IdRoundTrip(id, Str(name) + args);
    StrRoundTrip(name, args);
  }

  lemma RespRoundTrip(id: int, data: seq<byte>)
    requires IdOk(id) && |data| < COUNT_LIMIT
    ensures ParseResp(RespBody(id, data)) == Some((id, data))
  {
    var body := RespBody(id, data);
    assert body == Str(MAGIC) + (Id(id) + Str(data)) && Str(data) == Str(data) + [];
    StrRoundTrip(MAGIC, Id(id) + Str(data));
    IdRoundTrip(id, Str(data));
    StrRoundTrip(data, []);
  }

  /** Every response body is at least 27 bytes, so its length is never that of a header. */
  lemma RespBodyLength(id: int, data: seq<byte>)
    requires IdOk(id)
    ensures |RespBody(id, data)| == MIN_LENGTH - 4 + |data| && |RespBody(id, data)| >= 27 && |RespBody(id, data)| != 4
  {
  }

  /** A frame carries its own total length. */
  lemma FrameHeader(body: seq<byte>, rest: seq<byte>)
    requires Fits(body)
    ensures |Frame(body)| == |body| + 4
    ensures (Frame(body) + rest)[..4] == BE(|body| + 4, 4) && FromBE(BE(|body| + 4, 4)) == |Frame(body)|
    ensures (Frame(body) + rest)[4..] == body + rest
  {
    assert Frame(body) + rest == BE(|body| + 4, 4) + (body + rest);
    CountRoundTrip(|body| + 4, body + rest);
  }

  // --- Streams of frames ---

  function Frames(bodies: seq<seq<byte>>): seq<byte> {
    if bodies == [] then [] else Frame(bodies[0]) + Frames(bodies[1..])
  }

  // Reading header and body by turns, as far as the stream goes.
  function Split(stream: seq<byte>): (seq<seq<byte>>, seq<byte>)
    decreases |stream|
  {
    if |stream| < 4 then ([], stream)
    else
      var n := FromBE(stream[..4]);
      if n < 4 || n > |stream| then ([], stream)
      else
        var (bodies, left) := Split(stream[n..]);
        ([stream[4..n]] + bodies, left)
  }

  /** A stream of frames splits back into exactly the bodies it was made of, whatever incomplete frame follows. */
  lemma {:induction false} SplitFrames(bodies: seq<seq<byte>>, rest: seq<byte>)
    requires forall b :: b in bodies ==> Fits(b)
    requires |rest| < 4 || FromBE(rest[..4]) > |rest|
    ensures Split(Frames(bodies) + rest) == (bodies, rest)
  {
    if bodies == [] {
      assert Frames(bodies) + rest == rest;
    } else {
      var b, tail := bodies[0], Frames(bodies[1..]) + rest;
      var stream := Frames(bodies) + rest;
      assert b in bodies;
      assert stream == Frame(b) + tail;
      FrameHeader(b, tail);
      SplitFrames(bodies[1..], rest);
      var n := |b| + 4;
      assert FromBE(stream[..4]) == n && stream[4..n] == b && stream[n..] == tail;
      assert [b] + bodies[1..] == bodies;
    }
  }

  // --- Building messages in a buffer ---

  // The buffer of a message is filled field by field.
  method FillHead(buf: array<byte>, id: int) returns (p: nat)
    requires IdOk(id) && 4 + 15 + 8 <= buf.Length < COUNT_LIMIT
    modifies buf
    ensures p == 27 && Wrote(old(buf[..]), buf[..], 0, BE(buf.Length, 4) + (Str(MAGIC) + Id(id)))
  {
    p := Put4(buf, 0, buf.Length);
    ghost var m1 := buf[..];
    p := PutString(buf, p, MAGIC);
    ghost var m2 := buf[..];
    p := PutNumber(buf, p, ToUnsigned(id, 8), 8);
    WroteBoth(m1, m2, buf[..], 4, Str(MAGIC), Id(id));
    WroteBoth(old(buf[..]), m1, buf[..], 0, BE(buf.Length, 4), Str(MAGIC) + Id(id));
  }

  /** The buffer is exactly one frame around the id, the name and the encoded arguments. */
  method MakeReq(name: seq<byte>, id: int, args: Val, argsType: Ty, ghost less: Order) returns (msg: seq<byte>)
    requires IdOk(id) && HasType(args, argsType, less)
    requires 27 + (4 + |name|) + SizeOf(args, argsType) < COUNT_LIMIT
    ensures msg == Frame(ReqBody(name, id, Encode(args, argsType)))
    ensures |msg| == 8 + SizeOf(args, argsType) + (4 + |name|) + (4 + |MAGIC|) + 4
  {
    hide Encode, SizeOf, HasType, BE, Wrote, Frame, ReqBody, Id;
    SizeOfIsLength(args, argsType, less);
    var size := 8 + SizeOf(args, argsType) + (4 + |name|) + (4 + |MAGIC|) + 4;
    var buf := new byte[size](_ => 0);
    ghost var m0 := buf[..];
    var p := FillHead(buf, id);
    ghost var m1, head := buf[..], BE(size, 4) + (Str(MAGIC) + Id(id));
    p := PutString(buf, p, name);
    ghost var m2 := buf[..];
    p := Put(buf, p, args, argsType, less);
    ghost var tail := Encode(args, argsType);
    WroteBoth(m0, m1, m2, 0, head, Str(name));
    WroteBoth(m0, m2, buf[..], 0, head + Str(name), tail);
    WroteWhole(m0, buf[..], (head + Str(name)) + tail);
    ReqParts(name, id, tail, size);
    msg := buf[..];
  }

  lemma ReqParts(name: seq<byte>, id: int, args: seq<byte>, size: nat)
    requires IdOk(id) && size == 8 + |args| + (4 + |name|) + (4 + |MAGIC|) + 4
    ensures (BE(size, 4) + (Str(MAGIC) + Id(id)) + Str(name)) + args == Frame(ReqBody(name, id, args))
  {
    hide BE;
    var body := ReqBody(name, id, args);
    assert |body| + 4 == size;
    assert BE(size, 4) + (Str(MAGIC) + Id(id)) + Str(name) + args == BE(size, 4) + body;
  }

  method MakeResp(id: int, data: seq<byte>) returns (msg: seq<byte>)
    requires IdOk(id) && 31 + |data| < COUNT_LIMIT
    ensures msg == Frame(RespBody(id, data)) && |msg| >= MIN_LENGTH
  {
    var size := 8 + (4 + |data|) + (4 + |MAGIC|) + 4;
    var buf := new byte[size](_ => 0);
    var p := FillHead(buf, id);
    ghost var m1 := buf[..];
    p := PutString(buf, p, data);
    assert buf[..] == m1[..27] + Str(data);
    assert m1[..27] == BE(size, 4) + (Str(MAGIC) + Id(id));
    assert buf[..] == Frame(RespBody(id, data));
    msg := buf[..];
  }
}
