/** The bytes of requests and responses, written out, and exactly which bodies are taken for one. */
module RpcWire {
  import opened Options
  import opened Bytes
  import opened Endec
  import opened EndecWire
  import opened RpcFrames

  function Magic(): seq<byte> {
    [0, 0, 0, 11,
     'x' as int, 's' as int, 'i' as int, 'm' as int, 'p' as int, 'l' as int, 'e' as int, '_' as int,
     'r' as int, 'p' as int, 'c' as int]
  }

  lemma MagicBytes()
    ensures Str(MAGIC) == Magic()
  {
    UnsignedBytes(11);
  }

  /** A request on the wire: its total length, the magic string, the id, the name and the arguments. */
  lemma RequestBytes(name: seq<byte>, id: int, args: seq<byte>)
    requires IdOk(id)
    ensures Frame(ReqBody(name, id, args))
      == Bytes4(4 + 15 + 8 + 4 + |name| + |args|) + Magic() + Bytes8(id) + (Bytes4(|name|) + name) + args
  {
    hide BE, Bytes4, Bytes8, Magic;
    MagicBytes();
    SignedBytes(id, 8);
    UnsignedBytes(|name|);
    UnsignedBytes(|ReqBody(name, id, args)| + 4);
  }

  /** A response on the wire: its total length, the magic string, the id and the result. */
  lemma ResponseBytes(id: int, data: seq<byte>)
    requires IdOk(id)
    ensures Frame(RespBody(id, data)) == Bytes4(4 + 15 + 8 + 4 + |data|) + Magic() + Bytes8(id) + (Bytes4(|data|) + data)
  {
    hide BE, Bytes4, Bytes8, Magic;
    MagicBytes();
    SignedBytes(id, 8);
    UnsignedBytes(|data|);
    UnsignedBytes(|RespBody(id, data)| + 4);
  }

  // What is got is what the bytes begin with.
  lemma GotIsThere(bs: seq<byte>, s: seq<byte>, rest: seq<byte>)
    ensures GetString(bs) == Got(s, rest) <==> |s| < COUNT_LIMIT && bs == Str(s) + rest
  {
    if GetString(bs) == Got(s, rest) {
      FromBERoundTrip(bs[..4]);
      PowValues();
      assert bs == bs[..4] + (bs[4..][..|s|] + bs[4..][|s|..]);
    }
    if |s| < COUNT_LIMIT && bs == Str(s) + rest { StrRoundTrip(s, rest); }
  }

  lemma NumberIsThere(bs: seq<byte>, n: nat)
    requires |bs| == 8 && n < Pow(8)
    ensures FromBE(bs) == n <==> bs == BE(n, 8)
  {
    FromBERoundTrip(bs);
    BERoundTrip(n, 8);
  }

  lemma Eight(a: seq<byte>, b: seq<byte>, bs: seq<byte>)
    requires |a| == 8
    ensures bs == a + b <==> |bs| >= 8 && bs[..8] == a && bs[8..] == b
  {
  }

  // Magic string and id.
  lemma HeadIsThere(body: seq<byte>, n: nat, rest: seq<byte>)
    requires n < Pow(8)
    ensures body == Magic() + BE(n, 8) + rest
      <==> && GetString(body).Got? && GetString(body).v == MAGIC
           && |GetString(body).rest| >= 8 && FromBE(GetString(body).rest[..8]) == n && GetString(body).rest[8..] == rest
  {
    MagicBytes();
    hide Magic;
    var tail := BE(n, 8) + rest;
    assert Magic() + BE(n, 8) + rest == Str(MAGIC) + tail;
    GotIsThere(body, MAGIC, tail);
    if GetString(body).Got? {
      var left := GetString(body).rest;
      Eight(BE(n, 8), rest, left);
      if |left| >= 8 { NumberIsThere(left[..8], n); }
    }
  }

  /** The server takes exactly the bodies that consist of the magic string, an id, a name and anything behind it. */
  lemma RequestIsTakenIff(body: seq<byte>, id: nat, name: seq<byte>, args: seq<byte>)
    ensures ParseReq(body) == Some(Request(id, name, args))
      <==> id < 0x1_0000_0000_0000_0000 && |name| < COUNT_LIMIT
           && body == Magic() + Bytes8(id) + (Bytes4(|name|) + name + args)
  {
    PowValues();
    UnsignedBytes(id);
    UnsignedBytes(|name|);
    hide BE, FromBE, Bytes4, Bytes8, Magic, GetString, Pow;
    var rest := Str(name) + args;
    if id < Pow(8) {
      HeadIsThere(body, id, rest);
      if GetString(body).Got? && |GetString(body).rest| >= 8 {
        GotIsThere(GetString(body).rest[8..], name, args);
      }
    } else {
      IdIsSmall(body);
    }
  }

  lemma IdIsSmall(body: seq<byte>)
    ensures ParseReq(body).Some? ==> ParseReq(body).value.id < Pow(8)
  {
    var magic := GetString(body);
    if magic.Got? && |magic.rest| >= 8 { FromBERoundTrip(magic.rest[..8]); }
  }

  // What the client takes, with whatever stands behind the result.
  lemma ResponseTaken(body: seq<byte>)
    requires ParseResp(body).Some?
    ensures var (id, data) := ParseResp(body).value;
      IdOk(id) && |data| < COUNT_LIMIT && exists rest :: body == Str(MAGIC) + (Id(id) + (Str(data) + rest))
  {
    hide BE, FromBE, GetString, Pow, ToSigned, ToUnsigned, FitsSigned, Str;
    var magic := GetString(body);
    var left := magic.rest;
    IdFits(left[..8]);
    var got := GetString(left[8..]);
    GotIsThere(body, MAGIC, left);
    GotIsThere(left[8..], got.v, got.rest);
    NumberIsThere(left[..8], FromBE(left[..8]));
    assert left == left[..8] + left[8..];
    assert body == Str(MAGIC) + (Id(ParseResp(body).value.0) + (Str(got.v) + got.rest));
  }

  lemma ResponseRead(id: int, data: seq<byte>, rest: seq<byte>)
    requires IdOk(id) && |data| < COUNT_LIMIT
    ensures ParseResp(Str(MAGIC) + (Id(id) + (Str(data) + rest))) == Some((id, data))
  {
    hide BE, FromBE, GetString, Pow, ToSigned, ToUnsigned, FitsSigned, Str, Id;
    StrRoundTrip(MAGIC, Id(id) + (Str(data) + rest));
    IdRoundTrip(id, Str(data) + rest);
    StrRoundTrip(data, rest);
  }

  // The fields, written out.
  lemma FieldsAre(id: int, data: seq<byte>)
    requires IdOk(id) && |data| < COUNT_LIMIT
    ensures Str(MAGIC) == Magic() && Id(id) == Bytes8(id) && Str(data) == Bytes4(|data|) + data
  {
    MagicBytes();
    SignedBytes(id, 8);
    UnsignedBytes(|data|);
  }

  lemma Regroup(a: seq<byte>, b: seq<byte>, c: seq<byte>, rest: seq<byte>)
    ensures a + (b + (c + rest)) == a + b + c + rest
  {
  }

  /** The client takes exactly the bodies that begin with the magic string, an id and a result. */
  lemma ResponseIsTakenIff(body: seq<byte>, id: int, data: seq<byte>)
    ensures ParseResp(body) == Some((id, data))
      <==> IdOk(id) && |data| < COUNT_LIMIT && Magic() + Bytes8(id) + (Bytes4(|data|) + data) <= body
  {
    hide *;
    if ParseResp(body) == Some((id, data)) {
      ResponseTaken(body);
      var rest :| body == Str(MAGIC) + (Id(id) + (Str(data) + rest));
      FieldsAre(id, data);
      Regroup(Str(MAGIC), Id(id), Str(data), rest);
    }
    var wire := Magic() + Bytes8(id) + (Bytes4(|data|) + data);
    if IdOk(id) && |data| < COUNT_LIMIT && wire <= body {
      FieldsAre(id, data);
      var rest := body[|wire|..];
      assert body == wire + rest;
      Regroup(Str(MAGIC), Id(id), Str(data), rest);
      ResponseRead(id, data, rest);
    }
  }

  lemma IdFits(bs: seq<byte>)
    requires |bs| == 8
    ensures FromBE(bs) < Pow(8) && IdOk(ToSigned(FromBE(bs), 8)) && ToUnsigned(ToSigned(FromBE(bs), 8), 8) == FromBE(bs)
  {
    FromBERoundTrip(bs);
    PowValues();
  }

  /** The least total length of a response is 31: that of one with an empty result. */
  lemma LeastLength(id: int)
    requires IdOk(id)
    ensures MIN_LENGTH == 31 == |Frame(RespBody(id, []))|
  {
    RespBodyLength(id, []);
  }
}
