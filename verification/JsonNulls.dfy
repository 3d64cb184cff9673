/**
 Null members at any depth.  The case for one runs on into the case for an object, so from there on the parser is one
 object deeper than the text: it takes what follows the object for members of it, and never gets back.
 */
module JsonNulls {
  import opened Json

  /** Any value of the program with keys free of quote, backslash and zero, in the order of the map. */
  predicate Keyed(v: Value) {
    match v
    case Vec(items) => forall x :: x in items ==> Keyed(x)
    case Obj(ms) => Ascending(ms) && forall m :: m in ms ==> KeyOk(m.key) && Keyed(m.value)
    case _ => true
  }

  predicate HasNull(v: Value) {
    match v
    case Vec(items) => ItemsHaveNull(items)
    case Obj(ms) => MembersHaveNull(ms)
    case _ => false
  }

  predicate ItemsHaveNull(items: seq<Value>) { exists x :: x in items && HasNull(x) }

  predicate MembersHaveNull(ms: seq<Member>) { exists m :: m in ms && (m.value.Null? || HasNull(m.value)) }

  lemma {:induction false} ShapedIff(v: Value)
    requires Keyed(v)
    ensures Shaped(v) <==> !HasNull(v)
  {
    match v {
      case Vec(items) => forall x | x in items ensures Shaped(x) <==> !HasNull(x) { ShapedIff(x); }
      case Obj(ms) => forall m | m in ms ensures Shaped(m.value) <==> !HasNull(m.value) { ShapedIff(m.value); }
      case _ =>
    }
  }

  // --- Where a value stands ---

  // What follows a value: the end of the text, or more of the container it is in.
  datatype Place = Top | InVec(items: seq<Value>, up: Place) | InObj(members: seq<Member>, up: Place)

  predicate PlaceOk(p: Place) {
    match p
    case Top => true
    case InVec(items, up) => PlaceOk(up) && forall x :: x in items ==> Keyed(x)
    case InObj(ms, up) => PlaceOk(up) && MembersOk(ms)
  }

  predicate MembersOk(ms: seq<Member>) { forall m :: m in ms ==> KeyOk(m.key) && Keyed(m.value) }

  // The rest of the text after a value.
  function After(p: Place): string {
    match p
    case Top => ""
    case InVec(items, up) => if items == [] then "]" + After(up) else "," + (PrintItems(items) + ("]" + After(up)))
    case InObj(ms, up) => if ms == [] then "}" + After(up) else "," + (PrintMembers(ms) + ("}" + After(up)))
  }

  // a is further out than p, with no vector between.
  predicate Beyond(a: Place, p: Place) { p.InObj? && (a == p.up || Beyond(a, p.up)) }

  // Null, an exception or no end.
  predicate Lost(r: Out<Value>) { r.Bad? || r.Hang? || r == Ok(Null, "") }

  // More has been read than up to p.
  ghost predicate Overrun(r: Out<Value>, p: Place) {
    Lost(r) || (r.Ok? && exists a :: Beyond(a, p) && r.rest == After(a))
  }

  ghost predicate ReadTo(r: Out<Value>, p: Place) { Overrun(r, p) || (r.Ok? && r.rest == After(p)) }

  lemma {:induction false} BeyondIsShorter(a: Place, p: Place)
    requires Beyond(a, p) && PlaceOk(p)
    ensures |After(a)| < |After(p)| && PlaceOk(a)
  {
    if a != p.up { BeyondIsShorter(a, p.up); }
  }

  lemma {:induction false} BeyondTransitive(a: Place, b: Place, p: Place)
    requires Beyond(a, b) && Beyond(b, p)
    ensures Beyond(a, p)
  {
    if b != p.up { BeyondTransitive(a, b, p.up); }
  }

  lemma OverrunFurther(r: Out<Value>, a: Place, p: Place)
    requires Overrun(r, a) && Beyond(a, p)
    ensures Overrun(r, p)
  {
    if !Lost(r) {
      var b :| Beyond(b, a) && r.rest == After(b);
      BeyondTransitive(b, a, p);
    }
  }

  // --- One object too deep ---

  // At the end of the text every loop gives null.
  lemma AtTheEnd(vec: Value, key: string)
    ensures VecLoop("", vec) == Ok(Null, "") && ObjLoop("", vec, key) == Ok(Null, "")
  {
  }

  // Where the text is in a vector, an object has no way to go on.
  lemma InVectorStuck(p: Place, obj: Value)
    requires p.InVec?
    ensures Lost(ObjLoop(After(p), obj, ""))
  {
    if p.items == [] {
      assert After(p)[0] == ']';
      assert ObjTurn(After(p), obj, "") == End(Hang);
    } else {
      var x, more := p.items[0], p.items[1..];
      var rest := if more == [] then "]" + After(p.up) else "," + (PrintItems(more) + ("]" + After(p.up)));
      var t := PrintItems(p.items) + ("]" + After(p.up));
      assert t == Print(x) + rest;
      NoKeyThere(x, obj, rest);
    }
  }

  // A value where a key should be.
  lemma NoKeyThere(x: Value, obj: Value, rest: string)
    requires rest != "" && rest[0] in {',', ']'}
    ensures Lost(ObjLoop("," + (Print(x) + rest), obj, ""))
  {
    var t := Print(x) + rest;
    Announced(x, rest);
    assert ("," + t)[1..] == t && SkipSpace(t) == t;
    if t[0] == '"' {
      ObjComma(t, obj);
      QuoteMeansString(x, rest);
      StringSurvivesIffNoReturn(x.s, rest);
      assert SkipSpace(rest) == rest;
    }
  }

  lemma QuoteMeansString(x: Value, rest: string)
    ensures At(Print(x) + rest) == '"' <==> x.Str?
  {
    if x.Num? && x.n >= 0 {
      DecimalDigits(x.n);
      assert Decimal(x.n)[0] in Decimal(x.n);
    }
  }

  /** An object loop that stands where the text is one level further out reads on beyond that level, or is lost. */
  lemma {:induction false} TooDeep(p: Place, obj: Value)
    requires PlaceOk(p)
    ensures Overrun(ObjLoop(After(p), obj, ""), p)
    ensures p.InObj? && MembersHaveNull(p.members) ==> Overrun(ObjLoop(After(p), obj, ""), p.up)
    decreases |After(p)|, 0
  {
    match p {
      case Top => AtTheEnd(obj, "");
      case InVec(_, _) => InVectorStuck(p, obj);
      case InObj(ms, up) =>
        assert Beyond(up, p);
        if ms == [] {
          ObjEnds(After(up), obj);
        } else {
          MembersStartWithQuote(ms, "}" + After(up));
          ObjComma(PrintMembers(ms) + ("}" + After(up)), obj);
          MembersOverrun(ms, up, obj);
          var r := ObjLoop(After(p), obj, "");
          if Overrun(r, up) { OverrunFurther(r, up, p); }
        }
    }
  }

  // --- Values with null members ---

  // A value has been read in an object, or more than that; the loop goes on where the reading ended.
  lemma {:induction false} GoesOn(r: Out<Value>, p: Place, obj: Value)
    requires p.InObj? && PlaceOk(p) && ReadTo(r, p)
    ensures var q := if r.Ok? then ObjLoop(r.rest, obj, "") else r;
      ReadTo(q, p.up) && (MembersHaveNull(p.members) || Overrun(r, p) ==> Overrun(q, p.up))
    decreases |After(p)|, 1
  {
    hide ObjLoop, After, MembersHaveNull, MembersOk;
    AtTheEnd(obj, "");
    if r.Ok? && r != Ok(Null, "") {
      var q := ObjLoop(r.rest, obj, "");
      if a :| Beyond(a, p) && r.rest == After(a) {
        BeyondIsShorter(a, p);
        TooDeep(a, obj);
        if a != p.up { OverrunFurther(q, a, p.up); }
      } else {
        TooDeep(p, obj);
      }
    }
  }

  lemma MemberPlace(ms: seq<Member>, up: Place)
    requires ms != [] && MembersOk(ms) && PlaceOk(up)
    ensures var p := InObj(ms[1..], up); var text := PrintMembers(ms) + ("}" + After(up));
      && text == "\"" + ms[0].key + "\"" + ":" + (Print(ms[0].value) + After(p))
      && |Print(ms[0].value) + After(p)| < |text| && |After(p)| < |text|
      && PlaceOk(p) && KeyOk(ms[0].key) && Keyed(ms[0].value) && After(p) != "" && After(p)[0] in {',', '}'}
      && (MembersHaveNull(ms) <==> ms[0].value.Null? || HasNull(ms[0].value) || MembersHaveNull(ms[1..]))
  {
    hide KeyOk, Keyed, HasNull, Print;
    MemberText(ms, "}" + After(up), After(InObj(ms[1..], up)));
    assert forall m :: m in ms <==> m == ms[0] || m in ms[1..];
  }

  // After a key the loop goes on with whatever reading the value gave.
  lemma ObjGoesOn(v: Value, obj: Value, key: string, rest: string)
    requires !v.Null? && key != ""
    ensures var r := Item(Print(v) + rest);
      ObjLoop(Print(v) + rest, obj, key) == if r.Ok? then ObjLoop(r.rest, Set(obj, key, r.v), "") else r
  {
    Announced(v, rest);
    hide Print, Item, Set;
  }

  lemma {:induction false} MembersOverrun(ms: seq<Member>, up: Place, obj: Value)
    requires ms != [] && MembersOk(ms) && PlaceOk(up)
    ensures var r := ObjLoop(PrintMembers(ms) + ("}" + After(up)), obj, "");
      ReadTo(r, up) && (MembersHaveNull(ms) ==> Overrun(r, up))
    decreases |PrintMembers(ms) + ("}" + After(up))|, 0
  {
    hide *;
    var m, p := ms[0], InObj(ms[1..], up);
    var next := After(p);
    MemberPlace(ms, up);
    KeyNotEmpty(m.key);
    KeyThenValue(m.key, obj, Print(m.value) + next);
    if m.value.Null? {
      NullMemberReadsOn(m.key, obj, next);
      TooDeep(p, Null);
      var r := ObjLoop(next, Null, "");
      OverrunReads(r, p);
      GoesOn(r, p, if r.Ok? then Set(Set(obj, m.key, Null), m.key, r.v) else Null);
    } else {
      ValueOverrun(m.value, p);
      ObjGoesOn(m.value, obj, m.key, next);
      var r := Item(Print(m.value) + next);
      GoesOn(r, p, if r.Ok? then Set(obj, m.key, r.v) else Null);
    }
  }

  lemma OverrunReads(r: Out<Value>, p: Place)
    requires Overrun(r, p)
    ensures ReadTo(r, p)
  {
  }

  /** A value is read up to its place, or the reading is lost; with a null member it runs over its place or is lost. */
  lemma {:induction false} ValueOverrun(v: Value, p: Place)
    requires Keyed(v) && PlaceOk(p) && !p.Top?
    ensures Print(v) + After(p) != ""
    ensures var r := Item(Print(v) + After(p)); ReadTo(r, p) && (HasNull(v) ==> Overrun(r, p))
    decreases |Print(v) + After(p)|, 2
  {
    if v.Vec? || v.Obj? {
      ContainerOverrun(v, p);
      ItemIsContainer(v, After(p));
    } else {
      PlaceDelimits(p);
      ItemIsRead(v, After(p));
      hide Item, Print, After;
    }
  }

  lemma PlaceDelimits(p: Place)
    requires !p.Top?
    ensures Delimited(After(p))
  {
  }

  lemma ItemIsContainer(v: Value, rest: string)
    requires v.Vec? || v.Obj?
    ensures var t := Print(v) + rest; t != "" && Item(t) == if v.Vec? then GetVec(t) else GetObj(t)
    ensures At(Print(v) + rest) == if v.Vec? then '[' else '{'
  {
    hide GetVec, GetObj;
  }

  lemma {:induction false} ContainerOverrun(v: Value, p: Place)
    requires Keyed(v) && PlaceOk(p) && (v.Vec? || v.Obj?)
    ensures var t := Print(v) + After(p); t != "" && t[0] == (if v.Vec? then '[' else '{')
    ensures var r := if v.Vec? then GetVec(Print(v) + After(p)) else GetObj(Print(v) + After(p));
      ReadTo(r, p) && (HasNull(v) ==> Overrun(r, p))
    decreases |Print(v) + After(p)|, 1
  {
    if v.Vec? { VecOverrun(v.items, p); } else { ObjOverrun(v.members, p); }
  }

  lemma {:induction false} VecOverrun(items: seq<Value>, p: Place)
    requires PlaceOk(p) && forall x :: x in items ==> Keyed(x)
    ensures var t := Print(Vec(items)) + After(p);
      && t != "" && t[0] == '[' && ReadTo(GetVec(t), p) && (ItemsHaveNull(items) ==> Overrun(GetVec(t), p))
    decreases |Print(Vec(items)) + After(p)|, 0
  {
    hide VecLoop, GetVec, Overrun, PrintItems, Keyed, HasNull;
    var t := PrintItems(items) + ("]" + After(p));
    assert Print(Vec(items)) + After(p) == "[" + t;
    VecTurns(t, Null);
    if items == [] {
      NoItems(items);
      assert t == "]" + After(p) by { NothingPrinted(); }
      VecTurns(After(p), Null);
    } else {
      ItemsOverrun(items, p, Null);
      if ItemsHaveNull(items) { LostOverruns(VecLoop(t, Null), p); }
    }
  }

  lemma {:induction false} ObjOverrun(ms: seq<Member>, p: Place)
    requires PlaceOk(p) && MembersOk(ms)
    ensures var t := Print(Obj(ms)) + After(p);
      && t != "" && t[0] == '{' && ReadTo(GetObj(t), p) && (MembersHaveNull(ms) ==> Overrun(GetObj(t), p))
    decreases |Print(Obj(ms)) + After(p)|, 0
  {
    hide ObjLoop, GetObj, Overrun, PrintMembers, MembersOk, HasNull;
    var t := PrintMembers(ms) + ("}" + After(p));
    assert Print(Obj(ms)) + After(p) == "{" + t;
    if ms == [] {
      NoMembers(ms);
      assert t == "}" + After(p) by { NothingPrinted(); }
      ObjOpens(t);
      ObjEnds(After(p), Null);
    } else {
      MembersStartWithQuote(ms, "}" + After(p));
      ObjOpens(t);
      MembersOverrun(ms, p, Null);
    }
  }

  lemma NothingPrinted()
    ensures PrintItems([]) == "" && PrintMembers([]) == ""
  {
  }

  lemma NoItems(items: seq<Value>)
    requires items == []
    ensures !ItemsHaveNull(items)
  {
  }

  lemma NoMembers(ms: seq<Member>)
    requires ms == []
    ensures !MembersHaveNull(ms)
  {
  }

  lemma LostOverruns(r: Out<Value>, p: Place)
    requires Lost(r)
    ensures Overrun(r, p)
  {
  }

  lemma ItemPlace(items: seq<Value>, up: Place)
    requires items != [] && PlaceOk(up) && forall x :: x in items ==> Keyed(x)
    ensures var p := InVec(items[1..], up); var text := PrintItems(items) + ("]" + After(up));
      && text == Print(items[0]) + After(p) && |After(p)| < |text| && PlaceOk(p) && Keyed(items[0])
      && (ItemsHaveNull(items) <==> HasNull(items[0]) || ItemsHaveNull(items[1..]))
  {
    hide HasNull, Keyed;
    Announced(items[0], "");
    assert forall x :: x in items <==> x == items[0] || x in items[1..];
  }

  // In a vector the loop goes on with whatever reading the value gave.
  lemma VecGoesOn(v: Value, vec: Value, rest: string)
    ensures Print(v) + rest != ""
    ensures var r := Item(Print(v) + rest);
      VecLoop(Print(v) + rest, vec) == if r.Ok? then VecLoop(r.rest, Add(vec, r.v)) else r
  {
    Announced(v, rest);
    hide Print, Item, Add;
  }

  lemma {:induction false} ItemsOverrun(items: seq<Value>, up: Place, vec: Value)
    requires items != [] && PlaceOk(up) && forall x :: x in items ==> Keyed(x)
    ensures var r := VecLoop(PrintItems(items) + ("]" + After(up)), vec);
      ReadTo(r, up) && (ItemsHaveNull(items) ==> Lost(r))
    decreases |PrintItems(items) + ("]" + After(up))|, 3
  {
    var x, p := items[0], InVec(items[1..], up);
    hide VecLoop, Item, Print, PrintItems, After, HasNull, Keyed, PlaceOk, ItemsHaveNull;
    ItemPlace(items, up);
    ValueOverrun(x, p);
    var r := Item(Print(x) + After(p));
    VecGoesOn(x, vec, After(p));
    if r == Ok(Null, "") {
      AtTheEnd(Add(vec, Null), "");
    } else if r.Ok? {
      assert !HasNull(x) && r.rest == After(p);
      AfterItem(items[1..], up);
      if items[1..] == [] {
        NoItems(items[1..]);
        VecTurns(After(up), Add(vec, r.v));
      } else {
        VecTurns(PrintItems(items[1..]) + ("]" + After(up)), Add(vec, r.v));
        ItemsOverrun(items[1..], up, Add(vec, r.v));
      }
    }
  }

  lemma AfterItem(more: seq<Value>, up: Place)
    ensures After(InVec(more, up)) == if more == [] then "]" + After(up) else "," + (PrintItems(more) + ("]" + After(up)))
  {
  }

  // --- build ---

  /** A document with a null member, at any depth, is built as null, or not at all. */
  lemma NullMemberIsLost(v: Value)
    requires Keyed(v) && HasNull(v)
    ensures Lost(Build(Print(v)))
  {
    hide Keyed, HasNull, GetVec;
    assert v.Vec? || v.Obj? by { HasNullInContainer(v); }
    ContainerOverrun(v, Top);
    assert Print(v) + "" == Print(v);
    if v.Vec? { BuildVec(Print(v)); }
  }

  lemma HasNullInContainer(v: Value)
    requires HasNull(v)
    ensures v.Vec? || v.Obj?
  {
  }

  lemma BuildVec(t: string)
    requires t != "" && t[0] == '['
    ensures Build(t) == GetVec(t)
  {
    assert SkipSpace(t) == t;
  }

  /**
   `build(v.str())` is v, and parsing stops exactly at the end of the text, if and only if all of v is plain:
   numbers from 0 to the greatest int64, strings without carriage return, no empty container, no null member.
   */
  lemma BuildInvertsPrintIff(v: Value)
    requires Keyed(v) && (v.Vec? || v.Obj?)
    ensures Build(Print(v)) == Ok(v, "") <==> Plain(v)
    ensures Build(Print(v)).Ok? && Build(Print(v)).v == v <==> Plain(v)
  {
    hide Plain, Shaped, Keyed, HasNull, Print, Build;
    ShapedIff(v);
    if HasNull(v) {
      NullMemberIsLost(v);
      if Plain(v) { PlainIsShaped(v); }
    } else {
      BuildInvertsShapedIff(v);
      BuildReads(v);
    }
  }
}
