/**
 The binary encoding of arguments and results.  The program dispatches on static types; here a type
 is a value `Ty`, and the buffer and the moving pointer are those of the program.
 */
module Endec {
  import opened Options
  import opened Bytes

  datatype Ty =
    | TBool | TUnsigned(width: nat) | TSigned(width: nat) | TString
    | TPair(first: Ty, second: Ty)
    | TSeq(elem: Ty)                    // vector and list
    | TSet(key: Ty) | TMap(key: Ty, mapped: Ty)
    | TTuple(fields: seq<Ty>)           // tuples, and structures with listed members

  /** Sets and maps hold their elements in the order of the container; a map's elements are pairs. */
  datatype Val = VBool(b: bool) | VInt(i: int) | VString(s: seq<byte>) | VPair(fst: Val, snd: Val) | VMany(elems: seq<Val>)

  /** The order of the keys, which the program takes from the key type. */
  type Order = (Val, Val) -> bool

  const INT_LIMIT := 0x8000_0000      // from here on a length is negative as an `int`
  const COUNT_LIMIT := 0x1_0000_0000  // lengths and counts are written in 32 bits

  ghost predicate Ascending(keys: seq<Val>, less: Order) {
    forall i, j :: 0 <= i < j < |keys| ==> less(keys[i], keys[j])
  }

  function Keys(pairs: seq<Val>): seq<Val> {
    seq(|pairs|, i requires 0 <= i < |pairs| => if pairs[i].VPair? then pairs[i].fst else pairs[i])
  }

  predicate WidthOk(w: nat) { w == 1 || w == 4 || w == 8 }

  ghost predicate HasType(v: Val, t: Ty, less: Order)
    decreases v, 0
  {
    match t
    case TBool => v.VBool?
    case TUnsigned(w) => v.VInt? && WidthOk(w) && 0 <= v.i < Pow(w)
    case TSigned(w) => v.VInt? && WidthOk(w) && FitsSigned(v.i, w)
    case TString => v.VString? && |v.s| < COUNT_LIMIT
    case TPair(a, b) => v.VPair? && HasType(v.fst, a, less) && HasType(v.snd, b, less)
    case TSeq(e) => v.VMany? && |v.elems| < COUNT_LIMIT && forall x :: x in v.elems ==> HasType(x, e, less)
    case TSet(k) => v.VMany? && |v.elems| < COUNT_LIMIT && Ascending(v.elems, less) && forall x :: x in v.elems ==> HasType(x, k, less)
    case TMap(k, m) =>
      && v.VMany? && |v.elems| < COUNT_LIMIT && Ascending(Keys(v.elems), less)
      && forall x :: x in v.elems ==> x.VPair? && HasType(x.fst, k, less) && HasType(x.snd, m, less)
    case TTuple(ts) => v.VMany? && |v.elems| == |ts| && forall i :: 0 <= i < |ts| ==> HasType(v.elems[i], ts[i], less)
  }

  // --- Encoding ---

  function Elem(t: Ty): Ty
    requires t.TSeq? || t.TSet? || t.TMap?
  {
    if t.TSeq? then t.elem else if t.TSet? then t.key else TPair(t.key, t.mapped)
  }

  // What `put` writes.
  function Encode(v: Val, t: Ty): seq<byte>
    decreases v, 1
  {
    match (t, v)
    case (TBool, VBool(b)) => [if b then 1 else 0]
    case (TUnsigned(w), VInt(i)) => BE(if i >= 0 then i else 0, w)
    case (TSigned(w), VInt(i)) => BE(if -Pow(w) <= i < Pow(w) then ToUnsigned(i, w) else 0, w)
    case (TString, VString(s)) => BE(|s|, 4) + s
    case (TPair(a, b), VPair(x, y)) => Encode(x, a) + Encode(y, b)
    case (TSeq(_), VMany(xs)) => BE(|xs|, 4) + EncodeAll(xs, Elem(t))
    case (TSet(_), VMany(xs)) => BE(|xs|, 4) + EncodeAll(xs, Elem(t))
    case (TMap(_, _), VMany(xs)) => BE(|xs|, 4) + EncodeAll(xs, Elem(t))
    case (TTuple(ts), VMany(xs)) => EncodeFields(xs, ts)
    case _ => []
  }

  function EncodeAll(xs: seq<Val>, t: Ty): seq<byte>
    decreases xs, 0
  {
    if xs == [] then [] else Encode(xs[0], t) + EncodeAll(xs[1..], t)
  }

  function EncodeFields(xs: seq<Val>, ts: seq<Ty>): seq<byte>
    decreases xs, 0
  {
    if xs == [] || ts == [] then [] else Encode(xs[0], ts[0]) + EncodeFields(xs[1..], ts[1..])
  }

  // What `get_sizeof` computes.
  function SizeOf(v: Val, t: Ty): nat
    decreases v, 1
  {
    match (t, v)
    case (TBool, _) => 1
    case (TUnsigned(w), _) => w
    case (TSigned(w), _) => w
    case (TString, VString(s)) => 4 + |s|
    case (TPair(a, b), VPair(x, y)) => SizeOf(x, a) + SizeOf(y, b)
    case (TSeq(_), VMany(xs)) => 4 + SizeOfAll(xs, Elem(t))
    case (TSet(_), VMany(xs)) => 4 + SizeOfAll(xs, Elem(t))
    case (TMap(_, _), VMany(xs)) => 4 + SizeOfAll(xs, Elem(t))
    case (TTuple(ts), VMany(xs)) => SizeOfFields(xs, ts)
    case _ => 0
  }

  function SizeOfAll(xs: seq<Val>, t: Ty): nat
    decreases xs, 0
  {
    if xs == [] then 0 else SizeOf(xs[0], t) + SizeOfAll(xs[1..], t)
  }

  function SizeOfFields(xs: seq<Val>, ts: seq<Ty>): nat
    decreases xs, 0
  {
    if xs == [] || ts == [] then 0 else SizeOf(xs[0], ts[0]) + SizeOfFields(xs[1..], ts[1..])
  }

  // --- Decoding ---

  /** `get` either yields a value and the bytes after it, throws, or (for a length of 2^31 or more) reads past the end. */
  datatype Got<T> = Got(v: T, rest: seq<byte>) | OutOfRange | Overrun {
    predicate IsFailure() { !Got? }
    function PropagateFailure<U>(): Got<U>
      requires IsFailure()
    {
      if OutOfRange? then OutOfRange else Overrun
    }
    function Extract(): (T, seq<byte>)
      requires Got?
    {
      (v, rest)
    }
  }

  function GetBytes(bs: seq<byte>, k: nat): Got<seq<byte>> {
    if |bs| < k then OutOfRange else Got(bs[..k], bs[k..])
  }

  // The conversion of the length to `int` makes lengths of 2^31 and more pass the range test.
  function GetString(bs: seq<byte>): Got<seq<byte>> {
    var (l, rest) :- GetBytes(bs, 4);
    var len := FromBE(l);
    if len <= |rest| then Got(rest[..len], rest[len..])
    else if len < INT_LIMIT then OutOfRange else Overrun
  }

  // emplace: nothing happens when an equivalent key is there, else the element goes before the first greater key.
  function Emplace(xs: seq<Val>, x: Val, less: Order, byKey: bool): seq<Val> {
    if xs == [] then [x]
    else if less(KeyOf(xs[0], byKey), KeyOf(x, byKey)) then [xs[0]] + Emplace(xs[1..], x, less, byKey)
    else if less(KeyOf(x, byKey), KeyOf(xs[0], byKey)) then [x] + xs
    else xs
  }

  function KeyOf(x: Val, byKey: bool): Val {
    if byKey && x.VPair? then x.fst else x
  }

  function AddElem(t: Ty, xs: seq<Val>, x: Val, less: Order): seq<Val> {
    if t.TSet? then Emplace(xs, x, less, false) else if t.TMap? then Emplace(xs, x, less, true) else xs + [x]
  }

  function Decode(t: Ty, bs: seq<byte>, less: Order): Got<Val>
    decreases t, 1, 0
  {
    match t
    case TBool => var (b, rest) :- GetBytes(bs, 1); Got(VBool(b[0] > 0), rest)
    case TUnsigned(w) => var (b, rest) :- GetBytes(bs, w); Got(VInt(FromBE(b)), rest)
    case TSigned(w) => var (b, rest) :- GetBytes(bs, w); Got(VInt(ToSigned(FromBE(b), w)), rest)
    case TString => var (s, rest) :- GetString(bs); Got(VString(s), rest)
    case TPair(a, b) =>
      var (x, mid) :- Decode(a, bs, less);
      var (y, rest) :- Decode(b, mid, less);
      Got(VPair(x, y), rest)
    case TSeq(_) =>
      var (n, mid) :- GetBytes(bs, 4);
      DecodeAll(t, FromBE(n), [], mid, less)
    case TSet(_) =>
      var (n, mid) :- GetBytes(bs, 4);
      DecodeAll(t, FromBE(n), [], mid, less)
    case TMap(_, _) =>
      var (n, mid) :- GetBytes(bs, 4);
      DecodeAll(t, FromBE(n), [], mid, less)
    case TTuple(ts) => DecodeFields(ts, [], bs, less)
  }

  // The loop that reads n elements into the container.
  function DecodeAll(t: Ty, n: nat, acc: seq<Val>, bs: seq<byte>, less: Order): Got<Val>
    requires t.TSeq? || t.TSet? || t.TMap?
    decreases t, 0, n
  {
    if n == 0 then Got(VMany(acc), bs)
    else
      var (x, rest) :- DecodeElem(t, bs, less);
      DecodeAll(t, n - 1, AddElem(t, acc, x, less), rest, less)
  }

  function DecodeElem(t: Ty, bs: seq<byte>, less: Order): Got<Val>
    requires t.TSeq? || t.TSet? || t.TMap?
    decreases t, 0, 0
  {
    if t.TSeq? then Decode(t.elem, bs, less)
    else if t.TSet? then Decode(t.key, bs, less)
    else
      var (x, mid) :- Decode(t.key, bs, less);
      var (y, rest) :- Decode(t.mapped, mid, less);
      Got(VPair(x, y), rest)
  }

  function DecodeFields(ts: seq<Ty>, acc: seq<Val>, bs: seq<byte>, less: Order): Got<Val>
    decreases ts, 0, 0
  {
    if ts == [] then Got(VMany(acc), bs)
    else
      var (x, rest) :- Decode(ts[0], bs, less);
      DecodeFields(ts[1..], acc + [x], rest, less)
  }

  // --- Round trip ---

  lemma {:induction false} SizeOfIsLength(v: Val, t: Ty, less: Order)
    requires HasType(v, t, less)
    ensures |Encode(v, t)| == SizeOf(v, t)
    decreases v, 1
  {
    match t {
      case TPair(a, b) => SizeOfIsLength(v.fst, a, less); SizeOfIsLength(v.snd, b, less);
      case TSeq(_) => SizeOfAllIsLength(v.elems, Elem(t), less);
      case TSet(_) => SizeOfAllIsLength(v.elems, Elem(t), less);
      case TMap(_, _) => SizeOfAllIsLength(v.elems, Elem(t), less);
      case TTuple(ts) => SizeOfFieldsIsLength(v.elems, ts, less);
      case _ =>
    }
  }

  lemma {:induction false} SizeOfAllIsLength(xs: seq<Val>, t: Ty, less: Order)
    requires forall x :: x in xs ==> HasType(x, t, less)
    ensures |EncodeAll(xs, t)| == SizeOfAll(xs, t)
    decreases xs, 0
  {
    if xs != [] {
      SizeOfIsLength(xs[0], t, less);
      SizeOfAllIsLength(xs[1..], t, less);
    }
  }

  lemma {:induction false} SizeOfFieldsIsLength(xs: seq<Val>, ts: seq<Ty>, less: Order)
    requires |xs| == |ts| && forall i :: 0 <= i < |ts| ==> HasType(xs[i], ts[i], less)
    ensures |EncodeFields(xs, ts)| == SizeOfFields(xs, ts)
    decreases xs, 0
  {
    if xs != [] {
      SizeOfIsLength(xs[0], ts[0], less);
      SizeOfFieldsIsLength(xs[1..], ts[1..], less);
    }
  }

  lemma SignedRoundTrip(i: int, w: nat)
    requires FitsSigned(i, w)
    ensures -Pow(w) <= i < Pow(w) && ToSigned(ToUnsigned(i, w), w) == i
  {
  }

  lemma GetBytesPrefix(a: seq<byte>, rest: seq<byte>)
    ensures GetBytes(a + rest, |a|) == Got(a, rest)
  {
    assert (a + rest)[..|a|] == a && (a + rest)[|a|..] == rest;
  }

  lemma CountRoundTrip(n: nat, tail: seq<byte>)
    requires n < COUNT_LIMIT
    ensures GetBytes(BE(n, 4) + tail, 4) == Got(BE(n, 4), tail) && FromBE(BE(n, 4)) == n
  {
    GetBytesPrefix(BE(n, 4), tail);
    PowValues();
    BERoundTrip(n, 4);
  }

  // A key greater than all others goes to the end.
  lemma {:induction false} EmplaceLast(xs: seq<Val>, x: Val, less: Order, byKey: bool)
    requires forall y :: y in xs ==> less(KeyOf(y, byKey), KeyOf(x, byKey))
    ensures Emplace(xs, x, less, byKey) == xs + [x]
  {
    if xs != [] {
      EmplaceLast(xs[1..], x, less, byKey);
      assert xs == [xs[0]] + xs[1..];
    }
  }

  /** `get` on what `put` wrote, followed by anything, yields the value and leaves exactly what follows. */
  lemma {:induction false} RoundTrip(v: Val, t: Ty, less: Order, rest: seq<byte>)
    requires HasType(v, t, less)
    ensures Decode(t, Encode(v, t) + rest, less) == Got(v, rest)
    decreases v, 2
  {
    match t {
      case TBool => GetBytesPrefix(Encode(v, t), rest);
      case TUnsigned(w) =>
        GetBytesPrefix(Encode(v, t), rest);
        BERoundTrip(v.i, w);
      case TSigned(w) =>
        SignedRoundTrip(v.i, w);
        GetBytesPrefix(Encode(v, t), rest);
        BERoundTrip(ToUnsigned(v.i, w), w);
      case TString =>
        assert Encode(v, t) + rest == BE(|v.s|, 4) + (v.s + rest);
        CountRoundTrip(|v.s|, v.s + rest);
        assert (v.s + rest)[..|v.s|] == v.s && (v.s + rest)[|v.s|..] == rest;
      case TPair(a, b) => PairRoundTrip(v, a, b, less, rest);
      case TTuple(ts) =>
        assert [] + v.elems == v.elems;
        FieldsRoundTrip(ts, [], v.elems, less, rest);
      case TSeq(_) => ContainerRoundTrip(v, t, less, rest);
      case TSet(_) => ContainerRoundTrip(v, t, less, rest);
      case TMap(_, _) => ContainerRoundTrip(v, t, less, rest);
    }
  }

  lemma {:induction false} PairRoundTrip(v: Val, a: Ty, b: Ty, less: Order, rest: seq<byte>)
    requires HasType(v, TPair(a, b), less)
    ensures Decode(TPair(a, b), Encode(v, TPair(a, b)) + rest, less) == Got(v, rest)
    decreases v, 1
  {
    assert Encode(v, TPair(a, b)) + rest == Encode(v.fst, a) + (Encode(v.snd, b) + rest);
    RoundTrip(v.fst, a, less, Encode(v.snd, b) + rest);
    RoundTrip(v.snd, b, less, rest);
  }

  lemma {:induction false} ContainerRoundTrip(v: Val, t: Ty, less: Order, rest: seq<byte>)
    requires Container(t) && HasType(v, t, less)
    ensures Decode(t, Encode(v, t) + rest, less) == Got(v, rest)
    decreases v, 1
  {
    var body := EncodeAll(v.elems, Elem(t));
    assert Encode(v, t) + rest == BE(|v.elems|, 4) + (body + rest);
    CountRoundTrip(|v.elems|, body + rest);
    assert [] + v.elems == v.elems && VMany([] + v.elems) == v;
    AllRoundTrip(t, [], v.elems, less, rest);
    assert Decode(t, BE(|v.elems|, 4) + (body + rest), less) == DecodeAll(t, |v.elems|, [], body + rest, less);
  }

  predicate Container(t: Ty) { t.TSeq? || t.TSet? || t.TMap? }

  lemma {:induction false} AllRoundTrip(t: Ty, done: seq<Val>, xs: seq<Val>, less: Order, rest: seq<byte>)
    requires Container(t) && HasType(VMany(done + xs), t, less)
    ensures DecodeAll(t, |xs|, done, EncodeAll(xs, Elem(t)) + rest, less) == Got(VMany(done + xs), rest)
    decreases xs, 1
  {
    if xs == [] {
      assert done + xs == done;
    } else {
      var x, tail := xs[0], EncodeAll(xs[1..], Elem(t)) + rest;
      assert x in done + xs;
      assert EncodeAll(xs, Elem(t)) + rest == Encode(x, Elem(t)) + tail;
      ElemRoundTrip(t, x, less, tail);
      assert AddElem(t, done, x, less) == done + [x] by { AddsLast(t, done, xs, less); }
      assert done + xs == (done + [x]) + xs[1..];
      AllRoundTrip(t, done + [x], xs[1..], less, rest);
    }
  }

  lemma AddsLast(t: Ty, done: seq<Val>, xs: seq<Val>, less: Order)
    requires Container(t) && HasType(VMany(done + xs), t, less) && xs != []
    ensures AddElem(t, done, xs[0], less) == done + [xs[0]]
  {
    var all, n := done + xs, |done|;
    assert all[n] == xs[0];
    if !t.TSeq? {
      var byKey := t.TMap?;
      forall y | y in done ensures less(KeyOf(y, byKey), KeyOf(xs[0], byKey)) {
        var i :| 0 <= i < n && done[i] == y;
        assert all[i] == y;
        assert all[i] in all && all[n] in all;
        if byKey { assert less(Keys(all)[i], Keys(all)[n]); }
      }
      EmplaceLast(done, xs[0], less, byKey);
    }
  }

  lemma {:induction false} ElemRoundTrip(t: Ty, x: Val, less: Order, rest: seq<byte>)
    requires t.TSeq? ==> HasType(x, t.elem, less)
    requires t.TSet? ==> HasType(x, t.key, less)
    requires t.TMap? ==> x.VPair? && HasType(x.fst, t.key, less) && HasType(x.snd, t.mapped, less)
    requires Container(t)
    ensures DecodeElem(t, Encode(x, Elem(t)) + rest, less) == Got(x, rest)
    decreases x, 3
  {
    if t.TMap? {
      assert Encode(x, Elem(t)) + rest == Encode(x.fst, t.key) + (Encode(x.snd, t.mapped) + rest);
      RoundTrip(x.fst, t.key, less, Encode(x.snd, t.mapped) + rest);
      RoundTrip(x.snd, t.mapped, less, rest);
    } else {
      RoundTrip(x, Elem(t), less, rest);
    }
  }

  lemma {:induction false} FieldsRoundTrip(ts: seq<Ty>, done: seq<Val>, xs: seq<Val>, less: Order, rest: seq<byte>)
    requires |xs| == |ts| && forall i :: 0 <= i < |ts| ==> HasType(xs[i], ts[i], less)
    ensures DecodeFields(ts, done, EncodeFields(xs, ts) + rest, less) == Got(VMany(done + xs), rest)
    decreases xs, 1
  {
    if xs == [] {
      assert done + xs == done;
    } else {
      var tail := EncodeFields(xs[1..], ts[1..]) + rest;
      assert EncodeFields(xs, ts) + rest == Encode(xs[0], ts[0]) + tail;
      RoundTrip(xs[0], ts[0], less, tail);
      assert done + xs == (done + [xs[0]]) + xs[1..];
      FieldsRoundTrip(ts[1..], done + [xs[0]], xs[1..], less, rest);
    }
  }

  /** Encodings of one type are prefix free, so a stream of them splits in one way only. */
  lemma EncodingsPrefixFree(v: Val, v': Val, t: Ty, less: Order, rest: seq<byte>, rest': seq<byte>)
    requires HasType(v, t, less) && HasType(v', t, less)
    requires Encode(v, t) + rest == Encode(v', t) + rest'
    ensures v == v' && rest == rest'
  {
    RoundTrip(v, t, less, rest);
    RoundTrip(v', t, less, rest');
  }
}
