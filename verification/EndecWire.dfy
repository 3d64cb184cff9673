/** The bytes of the encoding, written out, and what `get` makes of bytes that `put` never writes. */
module EndecWire {
  import opened Bytes
  import opened Endec

  // --- Numbers ---

  // Division rounds down, so that these are the bytes of a negative number in two's complement, too.
  function Bytes4(i: int): (bs: seq<byte>) {
    [i / 0x100_0000 % 0x100, i / 0x1_0000 % 0x100, i / 0x100 % 0x100, i % 0x100]
  }

  function Bytes8(i: int): (bs: seq<byte>) { Bytes4(i / 0x1_0000_0000) + Bytes4(i) }

  function Number4(bs: seq<byte>): int
    requires |bs| >= 4
  {
    bs[0] as int * 0x100_0000 + bs[1] as int * 0x1_0000 + bs[2] as int * 0x100 + bs[3]
  }

  lemma UnsignedBytes(n: nat)
    ensures BE(n, 1) == [n % 0x100] && BE(n, 4) == Bytes4(n) && BE(n, 8) == Bytes8(n)
  {
    assert BE(n, 1) == BE(n / 256, 0) + [n % 256];
    BE4(n);
    BE8(n);
    BE4(n / 0x1_0000_0000);
  }

  lemma Bytes8Wrap(i: int)
    ensures Bytes8(i + 0x1_0000_0000_0000_0000) == Bytes8(i)
  {
    assert (i + 0x1_0000_0000_0000_0000) / 0x1_0000_0000 == i / 0x1_0000_0000 + 0x1_0000_0000;
    hide Bytes4;
    Bytes4Low(i / 0x1_0000_0000, 1);
    Bytes4Low(i, 0x1_0000_0000);
  }

  lemma Digit3(i: int, m: int)
    ensures (i + m * 0x1_0000_0000) / 0x100_0000 % 0x100 == i / 0x100_0000 % 0x100
  {
    assert (i + m * 0x1_0000_0000) / 0x100_0000 == i / 0x100_0000 + 0x100 * m;
  }

  lemma Digit2(i: int, m: int)
    ensures (i + m * 0x1_0000_0000) / 0x1_0000 % 0x100 == i / 0x1_0000 % 0x100
  {
    assert (i + m * 0x1_0000_0000) / 0x1_0000 == i / 0x1_0000 + 0x1_0000 * m;
  }

  lemma Digit1(i: int, m: int)
    ensures (i + m * 0x1_0000_0000) / 0x100 % 0x100 == i / 0x100 % 0x100
  {
    assert (i + m * 0x1_0000_0000) / 0x100 == i / 0x100 + 0x100_0000 * m;
  }

  lemma Digit0(i: int, m: int)
    ensures (i + m * 0x1_0000_0000) % 0x100 == i % 0x100
  {
    assert i + m * 0x1_0000_0000 == i + 0x100 * (0x100_0000 * m);
  }

  // The four low bytes do not depend on what is above them.
  lemma Bytes4Low(i: int, m: int)
    ensures Bytes4(i + m * 0x1_0000_0000) == Bytes4(i)
  {
    var j := i + m * 0x1_0000_0000;
    Digit3(i, m);
    Digit2(i, m);
    Digit1(i, m);
    Digit0(i, m);
    SameBytes4(i, j);
  }

  lemma SameBytes4(i: int, j: int)
    requires j / 0x100_0000 % 0x100 == i / 0x100_0000 % 0x100 && j / 0x1_0000 % 0x100 == i / 0x1_0000 % 0x100
    requires j / 0x100 % 0x100 == i / 0x100 % 0x100 && j % 0x100 == i % 0x100
    ensures Bytes4(j) == Bytes4(i)
  {
  }

  lemma SignedBytes(i: int, w: nat)
    requires WidthOk(w) && FitsSigned(i, w)
    ensures BE(ToUnsigned(i, w), w) == (if w == 1 then [i % 0x100] else if w == 4 then Bytes4(i) else Bytes8(i))
  {
    hide BE, Bytes4, Bytes8, Pow;
    PowValues();
    UnsignedBytes(ToUnsigned(i, w));
    Bytes4Low(i, 1);
    Bytes8Wrap(i);
  }

  /** What is written of a value without parts: 1 or 0, a number from its high byte down, a text behind its length. */
  lemma BaseBytes(v: Val, t: Ty, less: Order)
    requires HasType(v, t, less)
    ensures t.TBool? ==> Encode(v, t) == [if v.b then 1 else 0]
    ensures t in {TUnsigned(1), TSigned(1)} ==> Encode(v, t) == [v.i % 0x100]
    ensures t in {TUnsigned(4), TSigned(4)} ==> Encode(v, t) == Bytes4(v.i)
    ensures t in {TUnsigned(8), TSigned(8)} ==> Encode(v, t) == Bytes8(v.i)
    ensures t.TString? ==> Encode(v, t) == Bytes4(|v.s|) + v.s
  {
    if t.TUnsigned? { UnsignedBytes(v.i); }
    if t.TSigned? { SignedBytes(v.i, t.width); SignedRoundTrip(v.i, t.width); }
    if t.TString? { UnsignedBytes(|v.s|); }
  }

  // --- Parts ---

  // Where the k-th of the parts starts.
  function Offset(parts: seq<seq<byte>>, k: nat): nat
    requires k <= |parts|
  {
    if k == 0 then 0 else Offset(parts, k - 1) + |parts[k - 1]|
  }

  predicate PartAt(bs: seq<byte>, from: nat, part: seq<byte>) {
    from + |part| <= |bs| && bs[from..from + |part|] == part
  }

  // The bytes are the parts in their order, without a gap.
  ghost predicate InARow(bs: seq<byte>, parts: seq<seq<byte>>) {
    && |bs| == Offset(parts, |parts|)
    && forall k :: 0 <= k < |parts| ==> PartAt(bs, Offset(parts, k), parts[k])
  }

  lemma {:induction false} OffsetBehind(part: seq<byte>, parts: seq<seq<byte>>, k: nat)
    requires k <= |parts|
    ensures Offset([part] + parts, k + 1) == |part| + Offset(parts, k)
  {
    var all := [part] + parts;
    if k == 0 {
      assert Offset(all, 1) == Offset(all, 0) + |all[0]|;
    } else {
      OffsetBehind(part, parts, k - 1);
      assert all[k] == parts[k - 1];
    }
  }

  lemma PartBehind(part: seq<byte>, bs: seq<byte>, from: nat, p: seq<byte>)
    requires PartAt(bs, from, p)
    ensures PartAt(part + bs, |part| + from, p)
  {
    assert (part + bs)[|part| + from..|part| + from + |p|] == bs[from..from + |p|];
  }

  lemma OneMoreInARow(part: seq<byte>, bs: seq<byte>, parts: seq<seq<byte>>)
    requires InARow(bs, parts)
    ensures InARow(part + bs, [part] + parts)
  {
    var all := [part] + parts;
    OffsetBehind(part, parts, |parts|);
    forall k | 0 <= k < |all| ensures PartAt(part + bs, Offset(all, k), all[k]) {
      OneMoreAt(part, bs, parts, k);
    }
  }

  lemma OneMoreAt(part: seq<byte>, bs: seq<byte>, parts: seq<seq<byte>>, k: nat)
    requires InARow(bs, parts) && k <= |parts|
    ensures PartAt(part + bs, Offset([part] + parts, k), ([part] + parts)[k])
  {
    hide PartAt;
    if k == 0 {
      FirstPart(part, bs);
    } else {
      hide Offset;
      OffsetBehind(part, parts, k - 1);
      PartBehind(part, bs, Offset(parts, k - 1), parts[k - 1]);
    }
  }

  lemma FirstPart(part: seq<byte>, bs: seq<byte>)
    ensures PartAt(part + bs, 0, part)
  {
  }

  function ElementBytes(xs: seq<Val>, t: Ty): (parts: seq<seq<byte>>)
    ensures |parts| == |xs| && forall k :: 0 <= k < |xs| ==> parts[k] == Encode(xs[k], t)
  {
    seq(|xs|, k requires 0 <= k < |xs| => Encode(xs[k], t))
  }

  function FieldBytes(xs: seq<Val>, ts: seq<Ty>): (parts: seq<seq<byte>>)
    requires |xs| == |ts|
    ensures |parts| == |xs| && forall k :: 0 <= k < |xs| ==> parts[k] == Encode(xs[k], ts[k])
  {
    seq(|xs|, k requires 0 <= k < |xs| => Encode(xs[k], ts[k]))
  }

  lemma {:induction false} ElementsInARow(xs: seq<Val>, t: Ty)
    ensures InARow(EncodeAll(xs, t), ElementBytes(xs, t))
  {
    if xs != [] {
      hide InARow, Encode;
      ElementsInARow(xs[1..], t);
      OneMoreInARow(Encode(xs[0], t), EncodeAll(xs[1..], t), ElementBytes(xs[1..], t));
      FirstElement(xs, t);
    }
  }

  lemma FirstElement(xs: seq<Val>, t: Ty)
    requires xs != []
    ensures ElementBytes(xs, t) == [Encode(xs[0], t)] + ElementBytes(xs[1..], t)
  {
    hide Encode;
    var all := [Encode(xs[0], t)] + ElementBytes(xs[1..], t);
    assert forall k :: 0 <= k < |xs| ==> all[k] == ElementBytes(xs, t)[k];
  }

  lemma {:induction false} FieldsInARow(xs: seq<Val>, ts: seq<Ty>)
    requires |xs| == |ts|
    ensures InARow(EncodeFields(xs, ts), FieldBytes(xs, ts))
  {
    if xs == [] {
      assert FieldBytes(xs, ts) == [];
    } else {
      hide InARow, Encode, FieldBytes;
      FieldsInARow(xs[1..], ts[1..]);
      OneMoreInARow(Encode(xs[0], ts[0]), EncodeFields(xs[1..], ts[1..]), FieldBytes(xs[1..], ts[1..]));
      FirstField(xs, ts);
    }
  }

  lemma FirstField(xs: seq<Val>, ts: seq<Ty>)
    requires |xs| == |ts| && xs != []
    ensures FieldBytes(xs, ts) == [Encode(xs[0], ts[0])] + FieldBytes(xs[1..], ts[1..])
  {
    hide Encode;
    var all := [Encode(xs[0], ts[0])] + FieldBytes(xs[1..], ts[1..]);
    assert forall k :: 0 <= k < |xs| ==> all[k] == FieldBytes(xs, ts)[k];
  }

  lemma PairInARow(x: Val, y: Val, a: Ty, b: Ty)
    ensures InARow(Encode(x, a) + Encode(y, b), [Encode(x, a), Encode(y, b)])
  {
    hide Encode;
    var first, second := Encode(x, a), Encode(y, b);
    assert InARow([], []);
    OneMoreInARow(second, [], []);
    assert second + [] == second && [second] + [] == [second] && [first] + [second] == [first, second];
    OneMoreInARow(first, second, [second]);
  }

  /** What is written of a value with parts: its parts in their order, behind their number where it may vary. */
  lemma PartsInARow(v: Val, t: Ty, less: Order)
    requires HasType(v, t, less)
    ensures t.TPair? ==> InARow(Encode(v, t), [Encode(v.fst, t.first), Encode(v.snd, t.second)])
    ensures t.TTuple? ==> InARow(Encode(v, t), FieldBytes(v.elems, t.fields))
    ensures t.TSeq? || t.TSet? ==>
      Encode(v, t)[..4] == Bytes4(|v.elems|) && InARow(Encode(v, t)[4..], ElementBytes(v.elems, if t.TSeq? then t.elem else t.key))
    ensures t.TMap? ==>
      Encode(v, t)[..4] == Bytes4(|v.elems|) && InARow(Encode(v, t)[4..], ElementBytes(v.elems, TPair(t.key, t.mapped)))
  {
    hide InARow;
    if t.TPair? { PairInARow(v.fst, v.snd, t.first, t.second); }
    if t.TTuple? { FieldsInARow(v.elems, t.fields); }
    if Container(t) {
      UnsignedBytes(|v.elems|);
      ElementsInARow(v.elems, Elem(t));
      assert Encode(v, t)[4..] == EncodeAll(v.elems, Elem(t));
    }
  }

  // --- Bytes that are not there ---

  // A length below 2^31, so that the test against the bytes there are is not fooled.
  ghost predicate ShortTexts(v: Val)
    decreases v
  {
    match v
    case VString(s) => |s| < INT_LIMIT
    case VPair(x, y) => ShortTexts(x) && ShortTexts(y)
    case VMany(xs) => forall x :: x in xs ==> ShortTexts(x)
    case _ => true
  }

  /** A text is read in full, or refused, or (from 2^31 on) read beyond the buffer's end. */
  lemma TextIsRead(bs: seq<byte>)
    ensures GetString(bs).OutOfRange? <==> |bs| < 4 || |bs| - 4 < Number4(bs) < 0x8000_0000
    ensures GetString(bs).Got? <==> |bs| >= 4 && Number4(bs) <= |bs| - 4
    ensures GetString(bs).Got? ==> GetString(bs).v == bs[4..4 + Number4(bs)] && GetString(bs).rest == bs[4 + Number4(bs)..]
  {
    if |bs| >= 4 {
      FromBE4(bs[..4]);
    }
  }

  lemma CutBoth(a: seq<byte>, b: seq<byte>, k: nat)
    requires k < |a + b|
    ensures if k < |a| then (a + b)[..k] == a[..k] else k - |a| < |b| && (a + b)[..k] == a + b[..k - |a|]
  {
  }

  /** An encoding cut off anywhere is refused, for every type and value. */
  lemma {:induction false} CutIsRefused(v: Val, t: Ty, less: Order, k: nat)
    requires HasType(v, t, less) && ShortTexts(v) && k < |Encode(v, t)|
    ensures Decode(t, Encode(v, t)[..k], less).OutOfRange?
    decreases v, 2
  {
    match t {
      case TPair(a, b) =>
        CutBoth(Encode(v.fst, a), Encode(v.snd, b), k);
        if k < |Encode(v.fst, a)| {
          CutIsRefused(v.fst, a, less, k);
        } else {
          RoundTrip(v.fst, a, less, Encode(v.snd, b)[..k - |Encode(v.fst, a)|]);
          CutIsRefused(v.snd, b, less, k - |Encode(v.fst, a)|);
        }
      case TString =>
        CutBoth(BE(|v.s|, 4), v.s, k);
        if k >= 4 { CountRoundTrip(|v.s|, v.s[..k - 4]); }
      case TTuple(ts) => CutFields(ts, [], v.elems, less, k);
      case TSeq(_) => CutContainer(v, t, less, k);
      case TSet(_) => CutContainer(v, t, less, k);
      case TMap(_, _) => CutContainer(v, t, less, k);
      case _ =>
    }
  }

  lemma {:induction false} CutContainer(v: Val, t: Ty, less: Order, k: nat)
    requires Container(t) && HasType(v, t, less) && ShortTexts(v) && k < |Encode(v, t)|
    ensures Decode(t, Encode(v, t)[..k], less).OutOfRange?
    decreases v, 1
  {
    var body := EncodeAll(v.elems, Elem(t));
    CutBoth(BE(|v.elems|, 4), body, k);
    if k >= 4 {
      CountRoundTrip(|v.elems|, body[..k - 4]);
      assert [] + v.elems == v.elems && VMany([] + v.elems) == v;
      CutAll(t, [], v.elems, less, k - 4);
    }
  }

  lemma {:induction false} CutAll(t: Ty, done: seq<Val>, xs: seq<Val>, less: Order, k: nat)
    requires Container(t) && HasType(VMany(done + xs), t, less) && (forall x :: x in xs ==> ShortTexts(x))
    requires k < |EncodeAll(xs, Elem(t))|
    ensures DecodeAll(t, |xs|, done, EncodeAll(xs, Elem(t))[..k], less).OutOfRange?
    decreases xs, 1
  {
    var x, e := xs[0], Elem(t);
    var first, more := Encode(x, e), EncodeAll(xs[1..], e);
    assert (done + xs)[|done|] == x && x in done + xs;
    CutBoth(first, more, k);
    if k < |first| {
      CutElem(t, x, less, k);
    } else {
      ElemRoundTrip(t, x, less, more[..k - |first|]);
      AddsLast(t, done, xs, less);
      assert done + xs == (done + [x]) + xs[1..];
      CutAll(t, done + [x], xs[1..], less, k - |first|);
    }
  }

  lemma {:induction false} CutElem(t: Ty, x: Val, less: Order, k: nat)
    requires Container(t) && ShortTexts(x) && k < |Encode(x, Elem(t))|
    requires t.TSeq? ==> HasType(x, t.elem, less)
    requires t.TSet? ==> HasType(x, t.key, less)
    requires t.TMap? ==> x.VPair? && HasType(x.fst, t.key, less) && HasType(x.snd, t.mapped, less)
    ensures DecodeElem(t, Encode(x, Elem(t))[..k], less).OutOfRange?
    decreases x, 3
  {
    CutIsRefused(x, Elem(t), less, k);
  }

  lemma {:induction false} CutFields(ts: seq<Ty>, done: seq<Val>, xs: seq<Val>, less: Order, k: nat)
    requires |xs| == |ts| && (forall i :: 0 <= i < |ts| ==> HasType(xs[i], ts[i], less)) && (forall x :: x in xs ==> ShortTexts(x))
    requires k < |EncodeFields(xs, ts)|
    ensures DecodeFields(ts, done, EncodeFields(xs, ts)[..k], less).OutOfRange?
    decreases xs, 1
  {
    var first, more := Encode(xs[0], ts[0]), EncodeFields(xs[1..], ts[1..]);
    CutBoth(first, more, k);
    if k < |first| {
      CutIsRefused(xs[0], ts[0], less, k);
    } else {
      RoundTrip(xs[0], ts[0], less, more[..k - |first|]);
      CutFields(ts[1..], done + [xs[0]], xs[1..], less, k - |first|);
    }
  }

  // --- Bytes `put` never writes: truth values above 1, sets and maps out of order or with a key twice ---

  /** Every byte but 0 is true, and a missing one is refused. */
  lemma TruthIsRead(bs: seq<byte>, less: Order)
    ensures bs == [] ==> Decode(TBool, bs, less).OutOfRange?
    ensures bs != [] ==> Decode(TBool, bs, less) == Got(VBool(bs[0] != 0), bs[1..])
  {
  }

  ghost predicate IsOrder(less: Order) {
    && (forall x :: !less(x, x))
    && (forall x, y, z :: less(x, y) && less(y, z) ==> less(x, z))
    && (forall x, y, z :: less(x, z) ==> less(x, y) || less(y, z))
  }

  // What a set or a map holds after these were put in one after the other.
  function Collect(acc: seq<Val>, xs: seq<Val>, less: Order, byKey: bool): seq<Val>
    decreases |xs|
  {
    if xs == [] then acc else Collect(Emplace(acc, xs[0], less, byKey), xs[1..], less, byKey)
  }

  predicate Before(x: Val, y: Val, less: Order, byKey: bool) { less(KeyOf(x, byKey), KeyOf(y, byKey)) }

  // Neither key is before the other.
  predicate Alike(x: Val, y: Val, less: Order, byKey: bool) { !Before(x, y, less, byKey) && !Before(y, x, less, byKey) }

  ghost predicate KeysAscend(xs: seq<Val>, less: Order, byKey: bool) {
    forall i, j :: 0 <= i < j < |xs| ==> Before(xs[i], xs[j], less, byKey)
  }

  ghost predicate HasKey(xs: seq<Val>, x: Val, less: Order, byKey: bool) {
    exists y :: y in xs && Alike(y, x, less, byKey)
  }

  lemma AscendFrom(x: Val, xs: seq<Val>, less: Order, byKey: bool)
    requires KeysAscend(xs, less, byKey) && forall y :: y in xs ==> Before(x, y, less, byKey)
    ensures KeysAscend([x] + xs, less, byKey)
  {
    forall i, j | 0 <= i < j < |[x] + xs| ensures Before(([x] + xs)[i], ([x] + xs)[j], less, byKey) {
      assert ([x] + xs)[j] == xs[j - 1] && xs[j - 1] in xs;
    }
  }

  lemma AscendTail(xs: seq<Val>, less: Order, byKey: bool)
    requires KeysAscend(xs, less, byKey) && xs != []
    ensures KeysAscend(xs[1..], less, byKey) && forall y :: y in xs[1..] ==> Before(xs[0], y, less, byKey)
  {
    forall y | y in xs[1..] ensures Before(xs[0], y, less, byKey) {
      var i :| 0 <= i < |xs[1..]| && xs[1..][i] == y;
      assert xs[i + 1] == y;
    }
  }

  lemma KeyBehind(xs: seq<Val>, x: Val, less: Order, byKey: bool)
    requires xs != [] && Before(xs[0], x, less, byKey)
    ensures HasKey(xs, x, less, byKey) == HasKey(xs[1..], x, less, byKey)
  {
    assert xs == [xs[0]] + xs[1..];
    assert !Alike(xs[0], x, less, byKey);
  }

  lemma EmplaceBehind(xs: seq<Val>, r: seq<Val>, x: Val, less: Order, byKey: bool)
    requires xs != [] && KeysAscend(xs, less, byKey) && Before(xs[0], x, less, byKey)
    requires Placed(xs[1..], r, x, less, byKey) && forall y :: y in r ==> y in xs[1..] || y == x
    ensures Placed(xs, [xs[0]] + r, x, less, byKey)
  {
    AscendTail(xs, less, byKey);
    AscendFrom(xs[0], r, less, byKey);
    KeyBehind(xs, x, less, byKey);
    hide KeysAscend, HasKey, Before;
    assert xs == [xs[0]] + xs[1..];
  }

  lemma EmplaceInFront(xs: seq<Val>, x: Val, less: Order, byKey: bool)
    requires xs != [] && KeysAscend(xs, less, byKey) && Before(x, xs[0], less, byKey) && IsOrder(less)
    ensures Placed(xs, [x] + xs, x, less, byKey)
  {
    AscendTail(xs, less, byKey);
    forall y | y in xs ensures Before(x, y, less, byKey) {
      assert xs == [xs[0]] + xs[1..];
    }
    AscendFrom(x, xs, less, byKey);
  }

  // x is among xs, in its place, or one with its key was there.
  ghost predicate Placed(xs: seq<Val>, r: seq<Val>, x: Val, less: Order, byKey: bool) {
    && KeysAscend(r, less, byKey)
    && (HasKey(xs, x, less, byKey) ==> r == xs)
    && (!HasKey(xs, x, less, byKey) ==> multiset(r) == multiset(xs) + multiset{x})
  }

  /** An element goes to its place in the order, unless one with its key is there: then nothing changes. */
  lemma {:induction false} EmplaceKeepsOrder(xs: seq<Val>, x: Val, less: Order, byKey: bool)
    requires IsOrder(less) && KeysAscend(xs, less, byKey)
    ensures Placed(xs, Emplace(xs, x, less, byKey), x, less, byKey)
  {
    if xs != [] {
      hide KeysAscend, KeyOf, HasKey, IsOrder, Placed;
      if Before(xs[0], x, less, byKey) {
        AscendTail(xs, less, byKey);
        EmplaceKeepsOrder(xs[1..], x, less, byKey);
        EmplaceFrom(xs[1..], x, less, byKey);
        EmplaceBehind(xs, Emplace(xs[1..], x, less, byKey), x, less, byKey);
      } else if Before(x, xs[0], less, byKey) {
        EmplaceInFront(xs, x, less, byKey);
        assert Emplace(xs, x, less, byKey) == [x] + xs;
      } else {
        HasFirst(xs, x, less, byKey);
      }
    }
  }

  lemma HasFirst(xs: seq<Val>, x: Val, less: Order, byKey: bool)
    requires xs != [] && Alike(xs[0], x, less, byKey) && KeysAscend(xs, less, byKey)
    ensures Placed(xs, xs, x, less, byKey)
  {
  }

  lemma {:induction false} EmplaceFrom(xs: seq<Val>, x: Val, less: Order, byKey: bool)
    ensures forall y :: y in Emplace(xs, x, less, byKey) ==> y in xs || y == x
  {
    if xs != [] {
      EmplaceFrom(xs[1..], x, less, byKey);
    }
  }

  // The k-th is the first with its key.
  ghost predicate FirstWithKey(xs: seq<Val>, k: nat, less: Order, byKey: bool) {
    k < |xs| && forall j :: 0 <= j < k ==> !Alike(xs[j], xs[k], less, byKey)
  }

  // In ascending order, the first of each key that was put in.
  ghost predicate Collected(zs: seq<Val>, xs: seq<Val>, less: Order, byKey: bool) {
    && KeysAscend(zs, less, byKey)
    && (forall x :: x in xs ==> HasKey(zs, x, less, byKey))
    && (forall z :: z in zs ==> exists k: nat :: FirstWithKey(xs, k, less, byKey) && xs[k] == z)
  }

  lemma CollectOne(zs: seq<Val>, xs: seq<Val>, x: Val, less: Order, byKey: bool)
    requires IsOrder(less) && Collected(zs, xs, less, byKey)
    ensures Collected(Emplace(zs, x, less, byKey), xs + [x], less, byKey)
  {
    hide KeyOf, KeysAscend;
    var all, r := xs + [x], Emplace(zs, x, less, byKey);
    EmplaceKeepsOrder(zs, x, less, byKey);
    EmplaceFrom(zs, x, less, byKey);
    EmplaceHas(zs, x, less, byKey);
    forall z | z in r ensures exists k: nat :: FirstWithKey(all, k, less, byKey) && all[k] == z {
      if z in zs {
        var k: nat :| FirstWithKey(xs, k, less, byKey) && xs[k] == z;
        assert FirstWithKey(all, k, less, byKey) && all[k] == z;
      } else {
        assert z == x && !HasKey(zs, x, less, byKey);
        NewKey(zs, xs, x, less, byKey);
        assert FirstWithKey(all, |xs|, less, byKey) && all[|xs|] == z;
      }
    }
  }

  lemma EmplaceHas(zs: seq<Val>, x: Val, less: Order, byKey: bool)
    requires IsOrder(less) && KeysAscend(zs, less, byKey)
    ensures HasKey(Emplace(zs, x, less, byKey), x, less, byKey)
    ensures forall z :: z in zs ==> z in Emplace(zs, x, less, byKey)
  {
    EmplaceKeepsOrder(zs, x, less, byKey);
    var r := Emplace(zs, x, less, byKey);
    if !HasKey(zs, x, less, byKey) {
      assert x in multiset(r) && Alike(x, x, less, byKey);
      assert forall z :: z in zs ==> z in multiset(r);
    }
  }

  // Being alike carries over, so a key that is not among those kept is none of those put in.
  lemma NewKey(zs: seq<Val>, xs: seq<Val>, x: Val, less: Order, byKey: bool)
    requires IsOrder(less) && !HasKey(zs, x, less, byKey)
    requires forall y :: y in xs ==> HasKey(zs, y, less, byKey)
    ensures forall j :: 0 <= j < |xs| ==> !Alike(xs[j], x, less, byKey)
  {
    forall j | 0 <= j < |xs| ensures !Alike(xs[j], x, less, byKey) {
      assert xs[j] in xs;
      var z :| z in zs && Alike(z, xs[j], less, byKey);
      assert !Alike(z, x, less, byKey);
    }
  }

  lemma {:induction false} CollectAll(zs: seq<Val>, done: seq<Val>, xs: seq<Val>, less: Order, byKey: bool)
    requires IsOrder(less) && Collected(zs, done, less, byKey)
    ensures Collected(Collect(zs, xs, less, byKey), done + xs, less, byKey)
    decreases |xs|
  {
    if xs == [] {
      assert done + xs == done;
    } else {
      CollectOne(zs, done, xs[0], less, byKey);
      CollectAll(Emplace(zs, xs[0], less, byKey), done + [xs[0]], xs[1..], less, byKey);
      assert done + [xs[0]] + xs[1..] == done + xs;
    }
  }

  ghost predicate ElementsOk(t: Ty, xs: seq<Val>, less: Order)
    requires t.TSet? || t.TMap?
  {
    forall x :: x in xs ==>
      if t.TSet? then HasType(x, t.key, less) else x.VPair? && HasType(x.fst, t.key, less) && HasType(x.snd, t.mapped, less)
  }

  lemma {:induction false} AllCollected(t: Ty, acc: seq<Val>, xs: seq<Val>, less: Order, rest: seq<byte>)
    requires (t.TSet? || t.TMap?) && ElementsOk(t, xs, less)
    ensures DecodeAll(t, |xs|, acc, EncodeAll(xs, Elem(t)) + rest, less) == Got(VMany(Collect(acc, xs, less, t.TMap?)), rest)
    decreases |xs|
  {
    if xs != [] {
      var x, tail := xs[0], EncodeAll(xs[1..], Elem(t)) + rest;
      assert x in xs && forall y :: y in xs[1..] ==> y in xs;
      assert EncodeAll(xs, Elem(t)) + rest == Encode(x, Elem(t)) + tail;
      hide Decode, Encode, HasType, Emplace;
      ElemRoundTrip(t, x, less, tail);
      AllCollected(t, AddElem(t, acc, x, less), xs[1..], less, rest);
    }
  }

  lemma EmptyCollected(less: Order, byKey: bool)
    ensures Collected([], [], less, byKey)
  {
  }

  /** A set or a map is read from any list of elements: in ascending order, of each key the first one that comes. */
  lemma ContainerIsCollected(t: Ty, xs: seq<Val>, less: Order, rest: seq<byte>)
    requires (t.TSet? || t.TMap?) && ElementsOk(t, xs, less) && |xs| < COUNT_LIMIT && IsOrder(less)
    ensures var got := Decode(t, Bytes4(|xs|) + EncodeAll(xs, Elem(t)) + rest, less);
      got.Got? && got.rest == rest && got.v.VMany? && Collected(got.v.elems, xs, less, t.TMap?)
  {
    var body := EncodeAll(xs, Elem(t)) + rest;
    UnsignedBytes(|xs|);
    assert Bytes4(|xs|) + EncodeAll(xs, Elem(t)) + rest == BE(|xs|, 4) + body;
    CountRoundTrip(|xs|, body);
    AllCollected(t, [], xs, less, rest);
    hide KeysAscend, HasKey, IsOrder;
    assert Collected([], [], less, t.TMap?) by { EmptyCollected(less, t.TMap?); }
    CollectAll([], [], xs, less, t.TMap?);
    assert [] + xs == xs;
  }
}
