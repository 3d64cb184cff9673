/** `put` and `get` as the program runs them: a buffer and a pointer moving through it. */
module EndecBuffer {
  import opened Options
  import opened Buffers
  import opened Bytes
  import opened Endec

  method Put4(buf: array<byte>, ptr: nat, n: nat) returns (p: nat)
    requires ptr + 4 <= buf.Length && n < COUNT_LIMIT
    modifies buf
    ensures p == ptr + 4 && Wrote(old(buf[..]), buf[..], ptr, BE(n, 4))
  {
    BE4(n);
    buf[ptr] := n / 0x100_0000 % 256;
    buf[ptr + 1] := n / 0x1_0000 % 256;
    buf[ptr + 2] := n / 0x100 % 256;
    buf[ptr + 3] := n % 256;
    p := ptr + 4;
  }

  method PutNumber(buf: array<byte>, ptr: nat, n: nat, w: nat) returns (p: nat)
    requires WidthOk(w) && ptr + w <= buf.Length && n < Pow(w)
    modifies buf
    ensures p == ptr + w && Wrote(old(buf[..]), buf[..], ptr, BE(n, w))
  {
    PowValues();
    if w == 1 {
      assert BE(n, 1) == BE(n / 256, 0) + [n % 256];
      buf[ptr] := n;
      p := ptr + 1;
    } else if w == 4 {
      p := Put4(buf, ptr, n);
    } else {
      p := Put8(buf, ptr, n);
    }
  }

  method Put8(buf: array<byte>, ptr: nat, n: nat) returns (p: nat)
    requires ptr + 8 <= buf.Length && n < Pow(8)
    modifies buf
    ensures p == ptr + 8 && Wrote(old(buf[..]), buf[..], ptr, BE(n, 8))
  {
    hide BE, Pow;
    PowValues();
    BE8Halves(n);
    var high, low := n / 0x1_0000_0000, n % 0x1_0000_0000;
    p := Put4(buf, ptr, high);
    ghost var mid := buf[..];
    p := Put4(buf, p, low);
    WroteBoth(old(buf[..]), mid, buf[..], ptr, BE(high, 4), BE(low, 4));
  }

  method PutString(buf: array<byte>, ptr: nat, s: seq<byte>) returns (p: nat)
    requires |s| < COUNT_LIMIT && ptr + 4 + |s| <= buf.Length
    modifies buf
    ensures p == ptr + 4 + |s| && Wrote(old(buf[..]), buf[..], ptr, BE(|s|, 4) + s)
  {
    p := Put4(buf, ptr, |s|);
    ghost var mid := buf[..];
    forall i | 0 <= i < |s| {
      buf[p + i] := s[i];
    }
    assert Wrote(mid, buf[..], p, s);
    WroteBoth(old(buf[..]), mid, buf[..], ptr, BE(|s|, 4), s);
    p := p + |s|;
  }

  /** Writes exactly SizeOf bytes, the encoding, and nothing else. */
  method Put(buf: array<byte>, ptr: nat, v: Val, t: Ty, ghost less: Order) returns (p: nat)
    requires HasType(v, t, less) && ptr + SizeOf(v, t) <= buf.Length
    modifies buf
    ensures p == ptr + SizeOf(v, t) && Wrote(old(buf[..]), buf[..], ptr, Encode(v, t))
    decreases v, 1
  {
    SizeOfIsLength(v, t, less);
    match t {
      case TBool =>
        buf[ptr] := if v.b then 1 else 0;
        p := ptr + 1;
      case TUnsigned(w) =>
        p := PutNumber(buf, ptr, v.i, w);
      case TSigned(w) =>
        p := PutNumber(buf, ptr, if v.i < 0 then v.i + Pow(w) else v.i, w);
      case TString =>
        p := PutString(buf, ptr, v.s);
      case TPair(_, _) =>
        p := PutPair(buf, ptr, v, t, less);
      case TTuple(ts) =>
        p := PutFields(buf, ptr, v.elems, ts, less);
      case _ =>
        p := PutContainer(buf, ptr, v, t, less);
    }
  }

  method PutPair(buf: array<byte>, ptr: nat, v: Val, t: Ty, ghost less: Order) returns (p: nat)
    requires t.TPair? && HasType(v, t, less) && ptr + SizeOf(v, t) <= buf.Length
    modifies buf
    ensures p == ptr + SizeOf(v, t) && Wrote(old(buf[..]), buf[..], ptr, Encode(v, t))
    decreases v, 0
  {
    SizeOfIsLength(v.fst, t.first, less);
    SizeOfIsLength(v.snd, t.second, less);
    p := Put(buf, ptr, v.fst, t.first, less);
    ghost var mid := buf[..];
    p := Put(buf, p, v.snd, t.second, less);
    WroteBoth(old(buf[..]), mid, buf[..], ptr, Encode(v.fst, t.first), Encode(v.snd, t.second));
  }

  method PutContainer(buf: array<byte>, ptr: nat, v: Val, t: Ty, ghost less: Order) returns (p: nat)
    requires Container(t) && HasType(v, t, less) && ptr + SizeOf(v, t) <= buf.Length
    modifies buf
    ensures p == ptr + SizeOf(v, t) && Wrote(old(buf[..]), buf[..], ptr, Encode(v, t))
    decreases v, 0
  {
    p := Put4(buf, ptr, |v.elems|);
    ghost var mid := buf[..];
    SizeOfAllIsLength(v.elems, Elem(t), less);
    p := PutAll(buf, p, v.elems, Elem(t), less);
    WroteBoth(old(buf[..]), mid, buf[..], ptr, BE(|v.elems|, 4), EncodeAll(v.elems, Elem(t)));
  }

  method PutAll(buf: array<byte>, ptr: nat, xs: seq<Val>, t: Ty, ghost less: Order) returns (p: nat)
    requires (forall x :: x in xs ==> HasType(x, t, less)) && ptr + SizeOfAll(xs, t) <= buf.Length
    modifies buf
    ensures p == ptr + SizeOfAll(xs, t) && Wrote(old(buf[..]), buf[..], ptr, EncodeAll(xs, t))
    decreases xs, 0
  {
    hide Encode, SizeOf, HasType, EncodeAll, SizeOfAll, Wrote;
    p := ptr;
    SizeOfAllIsLength(xs, t, less);
    AllStart(buf[..], ptr, xs, t);
    ghost var written: seq<byte> := [];
    for i := 0 to |xs|
      invariant EncodeAll(xs, t) == written + EncodeAll(xs[i..], t)
      invariant p == ptr + |written| && |EncodeAll(xs[i..], t)| == SizeOfAll(xs[i..], t)
      invariant Wrote(old(buf[..]), buf[..], ptr, written)
    {
      AllNext(xs, i, t, written);
      assert HasType(xs[i], t, less);
      SizeOfIsLength(xs[i], t, less);
      ghost var mid := buf[..];
      p := Put(buf, p, xs[i], t, less);
      WroteBoth(old(buf[..]), mid, buf[..], ptr, written, Encode(xs[i], t));
      written := written + Encode(xs[i], t);
      assert forall x :: x in xs[i + 1..] ==> x in xs;
      SizeOfAllIsLength(xs[i + 1..], t, less);
    }
    AllDone(xs, t, written);
  }

  lemma AllStart(buf: seq<byte>, ptr: nat, xs: seq<Val>, t: Ty)
    requires ptr <= |buf|
    ensures Wrote(buf, buf, ptr, []) && xs[0..] == xs && [] + EncodeAll(xs, t) == EncodeAll(xs, t)
  {
  }

  lemma AllNext(xs: seq<Val>, i: nat, t: Ty, written: seq<byte>)
    requires i < |xs|
    ensures SizeOfAll(xs[i..], t) == SizeOf(xs[i], t) + SizeOfAll(xs[i + 1..], t)
    ensures EncodeAll(xs[i..], t) == Encode(xs[i], t) + EncodeAll(xs[i + 1..], t)
    ensures written + EncodeAll(xs[i..], t) == written + Encode(xs[i], t) + EncodeAll(xs[i + 1..], t)
  {
    hide Encode, SizeOf;
    assert xs[i..][1..] == xs[i + 1..];
  }

  lemma AllDone(xs: seq<Val>, t: Ty, written: seq<byte>)
    ensures SizeOfAll(xs[|xs|..], t) == 0 && written + EncodeAll(xs[|xs|..], t) == written
  {
  }

  method PutFields(buf: array<byte>, ptr: nat, xs: seq<Val>, ts: seq<Ty>, ghost less: Order) returns (p: nat)
    requires |xs| == |ts| && (forall i :: 0 <= i < |ts| ==> HasType(xs[i], ts[i], less)) && ptr + SizeOfFields(xs, ts) <= buf.Length
    modifies buf
    ensures p == ptr + SizeOfFields(xs, ts) && Wrote(old(buf[..]), buf[..], ptr, EncodeFields(xs, ts))
    decreases xs, 0
  {
    p := ptr;
    if xs != [] {
      SizeOfIsLength(xs[0], ts[0], less);
      SizeOfFieldsIsLength(xs[1..], ts[1..], less);
      p := Put(buf, p, xs[0], ts[0], less);
      ghost var mid := buf[..];
      p := PutFields(buf, p, xs[1..], ts[1..], less);
      WroteBoth(old(buf[..]), mid, buf[..], ptr, Encode(xs[0], ts[0]), EncodeFields(xs[1..], ts[1..]));
    }
  }

  /** How a `get` ends: with a value, with std::out_of_range, or reading past the end of the buffer. */
  datatype Ending<T> = Value(v: T) | Thrown | PastEnd

  ghost predicate Agrees<T>(got: Got<T>, res: Ending<T>, p: nat, end: nat, buf: array<byte>)
    reads buf
  {
    match got
    case Got(v, rest) => res == Value(v) && p <= end <= buf.Length && rest == buf[p..end]
    case OutOfRange => res.Thrown?
    case Overrun => res.PastEnd?
  }

  method Get4(buf: array<byte>, ptr: nat, end: nat) returns (res: Ending<nat>, p: nat)
    requires ptr <= end <= buf.Length
    ensures ptr <= p <= end
    ensures if end - ptr < 4 then res.Thrown? else p == ptr + 4 && res == Value(FromBE(buf[ptr..end][..4])) && buf[p..end] == buf[ptr..end][4..]
  {
    if end - ptr < 4 {
      return Thrown, ptr;
    }
    FromBE4(buf[ptr..end][..4]);
    p := ptr + 4;
    res := Value(buf[ptr] as int * 0x100_0000 + buf[ptr + 1] as int * 0x1_0000 + buf[ptr + 2] as int * 0x100 + buf[ptr + 3]);
  }

  method GetNumber(buf: array<byte>, ptr: nat, end: nat, w: nat) returns (res: Ending<nat>, p: nat)
    requires WidthOk(w) && ptr <= end <= buf.Length
    ensures ptr <= p <= end
    ensures if end - ptr < w then res.Thrown? else p == ptr + w && res == Value(FromBE(buf[ptr..end][..w])) && buf[p..end] == buf[ptr..end][w..]
  {
    if end - ptr < w {
      return Thrown, ptr;
    }
    var bytes := buf[ptr..end];
    if w == 1 {
      assert bytes[..1] == [buf[ptr]] && bytes[..1][..0] == [];
      res, p := Value(buf[ptr]), ptr + 1;
    } else if w == 4 {
      res, p := Get4(buf, ptr, end);
    } else {
      var high, low;
      high, p := Get4(buf, ptr, end);
      low, p := Get4(buf, p, end);
      FromBE8(bytes[..8]);
      assert bytes[..8][..4] == bytes[..4] && bytes[..8][4..] == bytes[4..][..4];
      res := Value(high.v * 0x1_0000_0000 + low.v);
    }
  }

  method GetText(buf: array<byte>, ptr: nat, end: nat) returns (res: Ending<seq<byte>>, p: nat)
    requires ptr <= end <= buf.Length
    ensures Agrees(GetString(buf[ptr..end]), res, p, end, buf)
  {
    var n;
    n, p := Get4(buf, ptr, end);
    if !n.Value? {
      return Thrown, p;
    }
    if n.v <= end - p {
      assert buf[p..end][..n.v] == buf[p..p + n.v] && buf[p..end][n.v..] == buf[p + n.v..end];
      return Value(buf[p..p + n.v]), p + n.v;
    }
    res := if n.v < INT_LIMIT then Thrown else PastEnd;
  }

  /** Ends as Decode does on the bytes from ptr to end, with the pointer after the bytes it used. */
  method Get(buf: array<byte>, ptr: nat, end: nat, t: Ty, less: Order) returns (res: Ending<Val>, p: nat)
    requires ptr <= end <= buf.Length && TypeOk(t)
    ensures Agrees(Decode(t, buf[ptr..end], less), res, p, end, buf)
    decreases t, 1, 0
  {
    res, p := Thrown, ptr;
    match t {
      case TBool =>
        if end - ptr >= 1 {
          assert buf[ptr..end][..1][0] == buf[ptr] && buf[ptr..end][1..] == buf[ptr + 1..end];
          res, p := Value(VBool(buf[ptr] > 0)), ptr + 1;
        }
      case TUnsigned(w) =>
        var n;
        n, p := GetNumber(buf, ptr, end, w);
        if n.Value? { res := Value(VInt(n.v)); }
      case TSigned(w) =>
        var n;
        n, p := GetNumber(buf, ptr, end, w);
        if n.Value? { res := Value(VInt(ToSigned(n.v, w))); }
      case TString =>
        var s;
        s, p := GetText(buf, ptr, end);
        res := if s.Value? then Value(VString(s.v)) else if s.Thrown? then Thrown else PastEnd;
      case TPair(a, b) =>
        var x, y;
        x, p := Get(buf, ptr, end, a, less);
        if !x.Value? {
          return x, p;
        }
        y, p := Get(buf, p, end, b, less);
        res := if y.Value? then Value(VPair(x.v, y.v)) else y;
      case TTuple(ts) =>
        res, p := GetFields(buf, ptr, end, ts, less);
      case _ =>
        var n;
        n, p := Get4(buf, ptr, end);
        if n.Value? { res, p := GetAll(buf, p, end, t, n.v, less); }
    }
  }

  // The widths the program has.
  predicate TypeOk(t: Ty) {
    match t
    case TUnsigned(w) => WidthOk(w)
    case TSigned(w) => WidthOk(w)
    case TPair(a, b) => TypeOk(a) && TypeOk(b)
    case TSeq(e) => TypeOk(e)
    case TSet(k) => TypeOk(k)
    case TMap(k, m) => TypeOk(k) && TypeOk(m)
    case TTuple(ts) => forall x :: x in ts ==> TypeOk(x)
    case _ => true
  }

  method GetAll(buf: array<byte>, ptr: nat, end: nat, t: Ty, count: nat, less: Order) returns (res: Ending<Val>, p: nat)
    requires ptr <= end <= buf.Length && Container(t) && TypeOk(t)
    ensures Agrees(DecodeAll(t, count, [], buf[ptr..end], less), res, p, end, buf)
    decreases t, 0, 1
  {
    var container: seq<Val> := [];
    p := ptr;
    for i := 0 to count
      invariant p <= end
      invariant DecodeAll(t, count, [], buf[ptr..end], less) == DecodeAll(t, count - i, container, buf[p..end], less)
    {
      var x;
      x, p := GetElem(buf, p, end, t, less);
      if !x.Value? {
        return x, p;
      }
      container := AddElem(t, container, x.v, less);
    }
    res := Value(VMany(container));
  }

  method GetElem(buf: array<byte>, ptr: nat, end: nat, t: Ty, less: Order) returns (res: Ending<Val>, p: nat)
    requires ptr <= end <= buf.Length && Container(t) && TypeOk(t)
    ensures Agrees(DecodeElem(t, buf[ptr..end], less), res, p, end, buf)
    decreases t, 0, 0
  {
    if t.TSeq? {
      res, p := Get(buf, ptr, end, t.elem, less);
    } else if t.TSet? {
      res, p := Get(buf, ptr, end, t.key, less);
    } else {
      var x, y;
      x, p := Get(buf, ptr, end, t.key, less);
      if !x.Value? {
        return x, p;
      }
      y, p := Get(buf, p, end, t.mapped, less);
      res := if y.Value? then Value(VPair(x.v, y.v)) else y;
    }
  }

  method GetFields(buf: array<byte>, ptr: nat, end: nat, ts: seq<Ty>, less: Order) returns (res: Ending<Val>, p: nat)
    requires ptr <= end <= buf.Length && forall x :: x in ts ==> TypeOk(x)
    ensures Agrees(DecodeFields(ts, [], buf[ptr..end], less), res, p, end, buf)
    decreases ts, 0, 0
  {
    var fields: seq<Val> := [];
    p := ptr;
    for i := 0 to |ts|
      invariant p <= end
      invariant DecodeFields(ts, [], buf[ptr..end], less) == DecodeFields(ts[i..], fields, buf[p..end], less)
    {
      assert ts[i..][1..] == ts[i + 1..];
      var x;
      x, p := Get(buf, p, end, ts[i], less);
      if !x.Value? {
        return x, p;
      }
      fields := fields + [x.v];
    }
    res := Value(VMany(fields));
  }
}
