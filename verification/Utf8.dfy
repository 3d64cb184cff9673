/**
 check_utf8.  What it accepts is compared with the encoding of code points, section 3 of RFC 3629: it takes
 well-formed text without the zero character, but no character of two bytes.
 */
module Utf8 {
  import opened Bytes

  // --- Code points ---

  predicate Scalar(cp: int) {
    0 <= cp <= 0x10ffff && !(0xd800 <= cp <= 0xdfff)
  }

  function Encode(cp: int): seq<byte>
    requires Scalar(cp)
  {
    if cp < 0x80 then [cp]
    else if cp < 0x800 then [0xc0 + cp / 64, 0x80 + cp % 64]
    else if cp < 0x1_0000 then [0xe0 + cp / 4096, 0x80 + cp / 64 % 64, 0x80 + cp % 64]
    else [0xf0 + cp / 0x4_0000, 0x80 + cp / 4096 % 64, 0x80 + cp / 64 % 64, 0x80 + cp % 64]
  }

  function EncodeAll(cps: seq<int>): seq<byte>
    requires forall c :: c in cps ==> Scalar(c)
  {
    if cps == [] then [] else Encode(cps[0]) + EncodeAll(cps[1..])
  }

  // A scalar value the program lets through: not zero, and not one encoded in two bytes.
  predicate Allowed(cp: int) {
    Scalar(cp) && cp != 0 && !(0x80 <= cp < 0x800)
  }

  ghost predicate AllAllowed(cps: seq<int>)
    ensures AllAllowed(cps) ==> forall c :: c in cps ==> Scalar(c)
  {
    forall c :: c in cps ==> Allowed(c)
  }

  // --- What the program accepts ---

  predicate Tail(b: byte) { 0x80 <= b <= 0xbf }

  // The length of the sequence the program steps over at the front of s, or zero where it gives up.
  function Lead(s: seq<byte>): (n: nat)
    ensures n <= |s|
  {
    if s == [] || s[0] == 0 then 0
    else if s[0] <= 0x7f then 1
    else if |s| >= 3 && Tail(s[2]) && Lead3(s[0], s[1]) then 3
    else if |s| >= 4 && Tail(s[2]) && Tail(s[3]) && Lead4(s[0], s[1]) then 4
    else 0
  }

  predicate Lead3(a: byte, b: byte) {
    Tail(b) && 0xe0 <= a <= 0xef && (a == 0xe0 ==> b >= 0xa0) && (a == 0xed ==> b <= 0x9f)
  }

  predicate Lead4(a: byte, b: byte) {
    Tail(b) && 0xf0 <= a <= 0xf4 && (a == 0xf0 ==> b >= 0x90) && (a == 0xf4 ==> b <= 0x8f)
  }

  predicate Accepts(s: seq<byte>) {
    s == [] || (Lead(s) > 0 && Accepts(s[Lead(s)..]))
  }

  // --- Both directions between sequences and code points ---

  function Decode(s: seq<byte>): (cp: int)
    requires Lead(s) > 0
    ensures Allowed(cp) && Encode(cp) == s[..Lead(s)]
  {
    if Lead(s) == 1 then s[0]
    else if Lead(s) == 3 then Decode3(s[0], s[1], s[2])
    else Decode4(s[0], s[1], s[2], s[3])
  }

  function Decode3(a: byte, b: byte, c: byte): (cp: int)
    requires Lead3(a, b) && Tail(c)
    ensures Allowed(cp) && Encode(cp) == [a, b, c]
  {
    (a - 0xe0) * 4096 + (b - 0x80) * 64 + (c - 0x80)
  }

  function Decode4(a: byte, b: byte, c: byte, d: byte): (cp: int)
    requires Lead4(a, b) && Tail(c) && Tail(d)
    ensures Allowed(cp) && Encode(cp) == [a, b, c, d]
  {
    var cp := (a - 0xf0) * 0x4_0000 + (b - 0x80) * 4096 + (c - 0x80) * 64 + (d - 0x80);
    assert cp / 64 == (a - 0xf0) * 4096 + (b - 0x80) * 64 + (c - 0x80) && cp % 64 == d - 0x80;
    assert cp / 4096 == (a - 0xf0) * 64 + (b - 0x80);
    cp
  }

  lemma EncodedLeads(cp: int, rest: seq<byte>)
    requires Allowed(cp)
    ensures Lead(Encode(cp) + rest) == |Encode(cp)|
  {
  }

  lemma {:induction false} AcceptsEncoded(cps: seq<int>)
    requires AllAllowed(cps)
    ensures Accepts(EncodeAll(cps))
  {
    if cps != [] {
      var rest := EncodeAll(cps[1..]);
      EncodedLeads(cps[0], rest);
      assert (Encode(cps[0]) + rest)[|Encode(cps[0])|..] == rest;
      AcceptsEncoded(cps[1..]);
    }
  }

  lemma {:induction false} AcceptedIsEncoded(s: seq<byte>) returns (cps: seq<int>)
    requires Accepts(s)
    ensures AllAllowed(cps)
    ensures EncodeAll(cps) == s
    decreases |s|
  {
    if s == [] {
      cps := [];
    } else {
      var n := Lead(s);
      var more := AcceptedIsEncoded(s[n..]);
      cps := [Decode(s)] + more;
      assert cps[1..] == more && s == s[..n] + s[n..];
    }
  }

  /** Accepted are exactly the encodings of code points that are neither zero nor in U+0080..U+07FF. */
  lemma AcceptsIff(s: seq<byte>)
    ensures Accepts(s) <==> exists cps: seq<int> :: AllAllowed(cps) && EncodeAll(cps) == s
  {
    if Accepts(s) {
      var cps := AcceptedIsEncoded(s);
    }
    if cps: seq<int> :| AllAllowed(cps) && EncodeAll(cps) == s {
      AcceptsEncoded(cps);
    }
  }

  /** A text of characters is accepted exactly when none of them is U+0000 or takes two bytes. */
  lemma RightIffNoTwoByteCharacter(cps: seq<int>)
    requires forall c :: c in cps ==> Scalar(c)
    ensures Accepts(EncodeAll(cps)) <==> forall c :: c in cps ==> c != 0 && !(0x80 <= c < 0x800)
  {
    if Accepts(EncodeAll(cps)) {
      NoneRefused(cps);
    } else if AllAllowed(cps) {
      AcceptsEncoded(cps);
    }
  }

  lemma {:induction false} NoneRefused(cps: seq<int>)
    requires forall c :: c in cps ==> Scalar(c)
    requires Accepts(EncodeAll(cps))
    ensures forall c :: c in cps ==> Allowed(c)
  {
    if cps != [] {
      var rest := EncodeAll(cps[1..]);
      var s := Encode(cps[0]) + rest;
      assert Lead(s) > 0;
      if !Allowed(cps[0]) { LeadRefuses(cps[0], rest); }
      EncodedLeads(cps[0], rest);
      assert s[|Encode(cps[0])|..] == rest;
      NoneRefused(cps[1..]);
    }
  }

  lemma LeadRefuses(cp: int, rest: seq<byte>)
    requires Scalar(cp) && !Allowed(cp)
    ensures Lead(Encode(cp) + rest) == 0
  {
  }

  /** The two bytes of U+00E9 are refused, alone or with text after them. */
  lemma TwoByteCharacterRefused(rest: seq<byte>)
    ensures Encode(0xe9) == [0xc3, 0xa9] && !Accepts([0xc3, 0xa9] + rest)
  {
    LeadRefuses(0xe9, rest);
  }

  // --- The loop ---

  // Past the end there is the terminating zero.
  function ByteAt(s: seq<byte>, i: nat): byte {
    if i < |s| then s[i] else 0
  }

  method CheckUtf8(str: seq<byte>) returns (ok: bool)
    ensures ok <==> Accepts(str)
  {
    var len, i := |str|, 0;
    while i < len
      invariant 0 <= i <= len
      invariant Accepts(str) <==> Accepts(str[i..])
    {
      ghost var s := str[i..];
      var p, q := str[i], ByteAt(str, i + 1);
      if p == 0 {
        return false;
      }
      if 0xd8 <= p <= 0xdf && i + 1 < len {
        return false;
      }
      if p <= 0x7f {
        assert s[1..] == str[i + 1..];
        i := i + 1;
      } else if 0xc2 <= p <= 0xdf {
        if i + 1 < len {
          return false;
        }
        if q < 0x80 || q > 0xbf {
          return false;
        }
        i := i + 2;
      } else if 0xe0 <= p <= 0xef {
        if i + 2 >= len {
          return false;
        }
        if q < (if p == 0xe0 then 0xa0 else 0x80) || q > (if p == 0xed then 0x9f else 0xbf) || !Tail(str[i + 2]) {
          return false;
        }
        assert s[3..] == str[i + 3..];
        i := i + 3;
      } else if 0xf0 <= p <= 0xf4 {
        if i + 3 >= len {
          return false;
        }
        if q < (if p == 0xf0 then 0x90 else 0x80) || q > (if p == 0xf4 then 0x8f else 0xbf)
          || !Tail(str[i + 2]) || !Tail(str[i + 3]) {
          return false;
        }
        assert s[4..] == str[i + 4..];
        i := i + 4;
      } else {
        return false;
      }
    }
    return true;
  }
}
