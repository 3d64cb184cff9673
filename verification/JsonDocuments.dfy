/**
 Texts the printer does not write.  A document may have blanks wherever the grammar of section 2 of RFC 8259 allows
 them, characters escaped or not, zeros in front of its numbers, and members in any order; all such texts are built
 to what they say.
 */
module JsonDocuments {
  import opened Options
  import opened Json

  predicate Blank(w: string) { forall c :: c in w ==> c == ' ' || c == '\t' || c == '\n' || c == '\r' }

  // A character of a string as it is, or behind a backslash.
  datatype Glyph = Raw(c: char) | Escaped(c: char)

  const ESCAPABLE: set<char> := {'"', '\\', '/', 8 as char, 12 as char, '\n', '\t'}

  predicate GlyphOk(g: Glyph) {
    match g
    case Raw(c) => c != '"' && c != '\\'
    case Escaped(c) => c in ESCAPABLE
  }

  function GlyphText(g: Glyph): string
    requires GlyphOk(g)
  {
    match g
    case Raw(c) => [c]
    case Escaped(c) =>
      if c == '"' then "\\\"" else if c == '\\' then "\\\\" else if c == '/' then "\\/" else if c == 8 as char then "\\b"
      else if c == 12 as char then "\\f" else if c == '\n' then "\\n" else "\\t"
  }

  predicate GlyphsOk(gs: seq<Glyph>) { forall g :: g in gs ==> GlyphOk(g) }

  function GlyphsText(gs: seq<Glyph>): string
    requires GlyphsOk(gs)
  {
    if gs == [] then "" else GlyphText(gs[0]) + GlyphsText(gs[1..])
  }

  function Said(gs: seq<Glyph>): string { seq(|gs|, i requires 0 <= i < |gs| => gs[i].c) }

  // --- Documents as they may be written ---

  datatype Doc =
    | NullDoc | BoolDoc(b: bool) | NumberDoc(zeros: nat, n: nat) | StringDoc(text: seq<Glyph>)
    | VecDoc(open: string, elements: seq<Element>)
    | ObjDoc(open: string, fields: seq<Field>)

  // An element, the blanks behind it, and those behind the comma.
  datatype Element = Element(doc: Doc, after: string, next: string)
  datatype Field = Field(key: seq<Glyph>, colon: string, before: string, doc: Doc, after: string, next: string)

  predicate DocOk(d: Doc) {
    match d
    case NumberDoc(_, n) => n <= 0x7fff_ffff_ffff_ffff
    case StringDoc(text) => GlyphsOk(text)
    case VecDoc(open, es) => Blank(open) && forall e :: e in es ==> DocOk(e.doc) && Blank(e.after) && Blank(e.next)
    case ObjDoc(open, fs) => Blank(open) && forall f :: f in fs ==> FieldOk(f) && DocOk(f.doc)
    case _ => true
  }

  predicate FieldOk(f: Field) {
    && GlyphsOk(f.key) && f.key != [] && 0 as char !in Said(f.key) && !f.doc.NullDoc?
    && Blank(f.colon) && Blank(f.before) && Blank(f.after) && Blank(f.next)
  }

  function Text(d: Doc): string
    requires DocOk(d)
    decreases d, 1
  {
    match d
    case NullDoc => "null"
    case BoolDoc(b) => if b then "true" else "false"
    case NumberDoc(zeros, n) => seq(zeros, _ => '0') + Decimal(n)
    case StringDoc(text) => "\"" + GlyphsText(text) + "\""
    case VecDoc(open, es) => "[" + (open + (ElementsText(es) + "]"))
    case ObjDoc(open, fs) => "{" + (open + (FieldsText(fs) + "}"))
  }

  function ElementsText(es: seq<Element>): string
    requires forall e :: e in es ==> DocOk(e.doc)
    decreases es, 0
  {
    if es == [] then ""
    else Text(es[0].doc) + (es[0].after + if |es| == 1 then "" else "," + (es[0].next + ElementsText(es[1..])))
  }

  function FieldsText(fs: seq<Field>): string
    requires forall f :: f in fs ==> FieldOk(f) && DocOk(f.doc)
    decreases fs, 0
  {
    if fs == [] then ""
    else
      var f := fs[0];
      assert f in fs;
      FieldText(f, if |fs| == 1 then "" else "," + (f.next + FieldsText(fs[1..])))
  }

  // A member, and what comes after it.
  function FieldText(f: Field, end: string): string
    requires FieldOk(f) && DocOk(f.doc)
    decreases f, 0
  {
    "\"" + (GlyphsText(f.key) + ("\"" + (f.colon + (":" + (f.before + (Text(f.doc) + (f.after + end)))))))
  }

  /** What a document says.  Empty containers come back as null; of two members with one key the later one counts. */
  function Meaning(d: Doc): Value
    decreases d, 1
  {
    match d
    case NullDoc => Null
    case BoolDoc(b) => Bool(b)
    case NumberDoc(_, n) => Num(n)
    case StringDoc(text) => Str(Said(text))
    case VecDoc(_, es) => if es == [] then Null else Vec(Elements(es))
    case ObjDoc(_, fs) => if fs == [] then Null else Obj(Members([], fs))
  }

  function Elements(es: seq<Element>): seq<Value>
    decreases es, 0
  {
    if es == [] then [] else [Meaning(es[0].doc)] + Elements(es[1..])
  }

  function Members(done: seq<Member>, fs: seq<Field>): seq<Member>
    decreases fs, 0
  {
    if fs == [] then done else Members(Put(done, Said(fs[0].key), Meaning(fs[0].doc)), fs[1..])
  }

  // --- Blanks ---

  lemma BlankRest(w: string)
    requires Blank(w) && w != ""
    ensures Blank(w[1..]) && w[0] in {' ', '\t', '\n', '\r'}
  {
    assert w[0] in w && forall c :: c in w[1..] ==> c in w;
  }

  lemma {:induction false} VecBlank(w: string, t: string, vec: Value)
    requires Blank(w)
    ensures VecLoop(w + t, vec) == VecLoop(t, vec)
  {
    if w == "" {
      assert w + t == t;
    } else {
      BlankRest(w);
      assert (w + t)[1..] == w[1..] + t;
      VecBlank(w[1..], t, vec);
    }
  }

  lemma {:induction false} ObjBlank(w: string, t: string, obj: Value, key: string)
    requires Blank(w)
    ensures ObjLoop(w + t, obj, key) == ObjLoop(t, obj, key)
  {
    if w == "" {
      assert w + t == t;
    } else {
      BlankRest(w);
      assert (w + t)[1..] == w[1..] + t;
      assert ObjTurn(w + t, obj, key) == Go(obj, key, w[1..] + t);
      ObjBlank(w[1..], t, obj, key);
    }
  }

  lemma {:induction false} SkipBlank(w: string, t: string)
    requires Blank(w) && t != "" && !Blank([t[0]])
    ensures SkipSpace(w + t) == t
  {
    if w == "" {
      assert w + t == t && t[0] in [t[0]];
    } else {
      BlankRest(w);
      assert (w + t)[1..] == w[1..] + t;
      SkipBlank(w[1..], t);
    }
  }

  // --- Strings and numbers ---

  lemma GlyphRead(g: Glyph, text: string, tail: string)
    requires GlyphOk(g)
    ensures TextLoop(GlyphText(g) + tail, false, text) == TextLoop(tail, false, text + [g.c])
  {
    var e := GlyphText(g);
    if g.Escaped? {
      assert (e + tail)[1..] == [e[1]] + tail && ([e[1]] + tail)[1..] == tail;
    } else {
      assert (e + tail)[1..] == tail;
    }
  }

  lemma {:induction false} GlyphsRead(gs: seq<Glyph>, text: string, rest: string)
    requires GlyphsOk(gs)
    ensures TextLoop(GlyphsText(gs) + ("\"" + rest), false, text) == Ok(text + Said(gs), rest)
    decreases |gs|
  {
    if gs == [] {
      assert GlyphsText(gs) + ("\"" + rest) == "\"" + rest && text + Said(gs) == text;
    } else {
      hide TextLoop, GlyphText;
      var tail := GlyphsText(gs[1..]) + ("\"" + rest);
      assert GlyphsText(gs) + ("\"" + rest) == GlyphText(gs[0]) + tail;
      GlyphRead(gs[0], text, tail);
      GlyphsRead(gs[1..], text + [gs[0].c], rest);
      assert text + [gs[0].c] + Said(gs[1..]) == text + Said(gs);
    }
  }

  lemma StringRead(gs: seq<Glyph>, rest: string)
    requires GlyphsOk(gs)
    ensures GetText("\"" + (GlyphsText(gs) + ("\"" + rest))) == Ok(Said(gs), rest)
  {
    var t := "\"" + (GlyphsText(gs) + ("\"" + rest));
    assert t[1..] == GlyphsText(gs) + ("\"" + rest);
    GlyphsRead(gs, "", rest);
    assert "" + Said(gs) == Said(gs);
  }

  lemma {:induction false} ZerosCount(zeros: nat, n: nat)
    ensures var ds := seq(zeros, _ => '0') + Decimal(n); AllDigits(ds) && DigitsValue(ds) == n
    decreases n, zeros
  {
    var z := seq(zeros, _ => '0');
    var ds := z + Decimal(n);
    DecimalDigits(n);
    assert AllDigits(ds);
    if n >= 10 {
      ZerosCount(zeros, n / 10);
      assert ds[..|ds| - 1] == z + Decimal(n / 10);
    } else if zeros > 0 {
      ZerosCount(zeros - 1, 0);
      assert ds[..|ds| - 1] == z == seq(zeros - 1, _ => '0') + Decimal(0);
    }
  }

  // What follows a value.
  predicate Follows(rest: string) {
    rest != "" && rest[0] in {',', ']', '}', ' ', '\t', '\n', '\r'}
  }

  lemma NumberRead(zeros: nat, n: nat, rest: string)
    requires n <= 0x7fff_ffff_ffff_ffff && Follows(rest)
    ensures var t := seq(zeros, _ => '0') + Decimal(n) + rest; IsDigit(At(t)) && Item(t) == Ok(Num(n), rest)
  {
    var ds := seq(zeros, _ => '0') + Decimal(n);
    ZerosCount(zeros, n);
    hide Decimal;
    DigitsRead(ds, n, rest);
  }

  lemma DigitsRead(ds: string, n: nat, rest: string)
    requires ds != "" && AllDigits(ds) && DigitsValue(ds) == n <= 0x7fff_ffff_ffff_ffff && Follows(rest)
    ensures IsDigit(At(ds + rest)) && Item(ds + rest) == Ok(Num(n), rest)
  {
    DigitsStop(ds, rest);
    assert ds[0] in ds && (ds + rest)[0] == ds[0];
    hide Digits, AfterDigits, DigitsValue;
  }

  // --- Values ---

  // How a document begins: with nothing the loops take for something else.
  lemma Begins(d: Doc, rest: string)
    requires DocOk(d)
    ensures Text(d) + rest != ""
    ensures var c := (Text(d) + rest)[0];
      && c !in {',', ']', '}', ':', ' ', '\t', '\n', '\r'} && (c == 'n' <==> d.NullDoc?)
      && (c == '[' <==> d.VecDoc?) && (c == '{' <==> d.ObjDoc?) && (c == '"' <==> d.StringDoc?)
  {
    if d.NumberDoc? {
      ZerosCount(d.zeros, d.n);
      var ds := Text(d);
      assert ds[0] in ds;
    }
  }

  /** A value is read to what it says, and reading stops exactly at its end. */
  lemma {:induction false} DocRead(d: Doc, rest: string)
    requires DocOk(d) && Follows(rest)
    ensures Text(d) + rest != "" && Item(Text(d) + rest) == Ok(Meaning(d), rest)
    decreases d, 3
  {
    match d {
      case NullDoc => LettersStop("null", rest);
      case BoolDoc(b) => LettersStop(Text(d), rest);
      case NumberDoc(zeros, n) => NumberRead(zeros, n, rest);
      case StringDoc(text) =>
        assert Text(d) + rest == "\"" + (GlyphsText(text) + ("\"" + rest));
        StringRead(text, rest);
      case VecDoc(_, _) =>
        VecRead(d, rest);
        hide GetVec;
      case ObjDoc(_, _) =>
        ObjRead(d, rest);
        hide GetObj;
    }
  }

  lemma {:induction false} VecRead(d: Doc, rest: string)
    requires d.VecDoc? && DocOk(d)
    ensures Text(d) + rest != "" && (Text(d) + rest)[0] == '[' && GetVec(Text(d) + rest) == Ok(Meaning(d), rest)
    decreases d, 2
  {
    hide VecLoop, ObjLoop, GetVec, GetObj;
    var t := ElementsText(d.elements) + ("]" + rest);
    assert Text(d) + rest == "[" + (d.open + t);
    VecTurns(d.open + t, Null);
    VecBlank(d.open, t, Null);
    if d.elements == [] {
      assert t == "]" + rest;
      VecTurns(rest, Null);
    } else {
      ElementsRead(d.elements, Null, rest);
      assert [] + Elements(d.elements) == Elements(d.elements);
    }
  }

  lemma {:induction false} ElementsRead(es: seq<Element>, vec: Value, rest: string)
    requires es != [] && forall e :: e in es ==> DocOk(e.doc) && Blank(e.after) && Blank(e.next)
    ensures VecLoop(ElementsText(es) + ("]" + rest), vec) == Ok(Vec((if vec.Vec? then vec.items else []) + Elements(es)), rest)
    decreases es, 1
  {
    hide VecLoop, ObjLoop, Item, Text, Meaning, DocOk, Blank;
    var e, more := es[0], es[1..];
    var tail := if more == [] then "]" + rest else "," + (e.next + (ElementsText(more) + ("]" + rest)));
    var vec' := Add(vec, Meaning(e.doc));
    assert ElementsText(es) + ("]" + rest) == Text(e.doc) + (e.after + tail);
    BlankFollows(e.after, tail);
    DocRead(e.doc, e.after + tail);
    VecGoes(e.doc, vec, e.after + tail);
    VecBlank(e.after, tail, vec');
    assert Elements(es) == [Meaning(e.doc)] + Elements(more);
    if more == [] {
      assert Elements(more) == [] && Elements(es) == [Meaning(e.doc)];
      VecTurns(rest, vec');
    } else {
      VecTurns(e.next + (ElementsText(more) + ("]" + rest)), vec');
      VecBlank(e.next, ElementsText(more) + ("]" + rest), vec');
      ElementsRead(more, vec', rest);
      Regrouped(if vec.Vec? then vec.items else [], Meaning(e.doc), Elements(more));
    }
  }

  lemma Regrouped(a: seq<Value>, x: Value, b: seq<Value>)
    ensures a + [x] + b == a + ([x] + b)
  {
  }

  lemma BlankFollows(w: string, tail: string)
    requires Blank(w) && tail != "" && tail[0] in {',', ']', '}'}
    ensures Follows(w + tail)
  {
    if w != "" { assert w[0] in w; }
  }

  // The loops go on with the value that was read.
  lemma VecGoes(d: Doc, vec: Value, rest: string)
    requires DocOk(d) && Item(Text(d) + rest) == Ok(Meaning(d), rest)
    ensures VecLoop(Text(d) + rest, vec) == VecLoop(rest, Add(vec, Meaning(d)))
  {
    Begins(d, rest);
    hide Text, Meaning, Item, Add;
  }

  lemma ObjGoes(d: Doc, obj: Value, key: string, rest: string)
    requires DocOk(d) && !d.NullDoc? && key != "" && Item(Text(d) + rest) == Ok(Meaning(d), rest)
    ensures ObjLoop(Text(d) + rest, obj, key) == ObjLoop(rest, Set(obj, key, Meaning(d)), "")
  {
    Begins(d, rest);
    hide Text, Meaning, Item, Set;
  }

  lemma {:induction false} ObjRead(d: Doc, rest: string)
    requires d.ObjDoc? && DocOk(d)
    ensures Text(d) + rest != "" && (Text(d) + rest)[0] == '{' && GetObj(Text(d) + rest) == Ok(Meaning(d), rest)
    decreases d, 2
  {
    hide VecLoop, ObjLoop, GetVec, GetObj;
    var t := FieldsText(d.fields) + ("}" + rest);
    assert Text(d) + rest == "{" + (d.open + t);
    if d.open != "" {
      BlankRest(d.open);
    } else {
      assert d.open + t == t;
      if d.fields != [] { BeginsWithKey(d.fields, "}" + rest); } else { assert t == "}" + rest; }
    }
    ObjOpens(d.open + t);
    ObjBlank(d.open, t, Null, "");
    if d.fields == [] {
      assert t == "}" + rest;
      ObjEnds(rest, Null);
    } else {
      FieldsRead(d.fields, Null, rest);
    }
  }

  // A key with its colon, and the blanks around it.
  lemma KeyRead(f: Field, obj: Value, after: string)
    requires FieldOk(f)
    ensures ObjLoop("\"" + (GlyphsText(f.key) + ("\"" + (f.colon + (":" + (f.before + after))))), obj, "")
      == ObjLoop(after, obj, Said(f.key))
  {
    hide GlyphsText;
    var value := f.before + after;
    var t, key := "\"" + (GlyphsText(f.key) + ("\"" + (f.colon + (":" + value)))), Said(f.key);
    StringRead(f.key, f.colon + (":" + value));
    NotBlank();
    SkipBlank(f.colon, ":" + value);
    assert ObjTurn(t, obj, "") == Go(obj, key, ":" + value);
    assert (":" + value)[1..] == value;
    assert ObjTurn(":" + value, obj, key) == Go(obj, key, value);
    ObjBlank(f.before, after, obj, key);
  }

  lemma NotBlank()
    ensures !Blank(":") && !Blank("\"")
  {
    assert ':' in ":" && '"' in "\"";
  }

  // A comma, the blanks behind it, and the next key.
  lemma CommaRead(w: string, t: string, obj: Value)
    requires Blank(w) && At(t) == '"'
    ensures ObjLoop("," + (w + t), obj, "") == ObjLoop(t, obj, "")
  {
    NotBlank();
    assert [t[0]] == "\"";
    SkipBlank(w, t);
    assert ("," + (w + t))[1..] == w + t;
    assert ObjTurn("," + (w + t), obj, "") == Go(obj, "", t);
  }

  function Stored(obj: Value): seq<Member> { if obj.Obj? then obj.members else [] }

  lemma {:induction false} FieldsRead(fs: seq<Field>, obj: Value, rest: string)
    requires fs != [] && forall f :: f in fs ==> FieldOk(f) && DocOk(f.doc)
    ensures ObjLoop(FieldsText(fs) + ("}" + rest), obj, "") == Ok(Obj(Members(Stored(obj), fs)), rest)
    decreases fs, 1
  {
    hide VecLoop, ObjLoop, Item, Text, Meaning, DocOk, Blank, GlyphsText, Said, Put;
    var f, more := fs[0], fs[1..];
    var text := FieldsText(more) + ("}" + rest);
    var tail := if more == [] then "}" + rest else "," + (f.next + text);
    var obj' := Set(obj, Said(f.key), Meaning(f.doc));
    assert f in fs;
    FieldsClose(fs, "}" + rest);
    assert FieldsText(fs) + ("}" + rest) == FieldText(f, tail);
    KeyRead(f, obj, Text(f.doc) + (f.after + tail));
    BlankFollows(f.after, tail);
    DocRead(f.doc, f.after + tail);
    KeySaid(f);
    ObjGoes(f.doc, obj, Said(f.key), f.after + tail);
    ObjBlank(f.after, tail, obj', "");
    if more == [] {
      ObjEnds(rest, obj');
    } else {
      BeginsWithKey(more, "}" + rest);
      CommaRead(f.next, text, obj');
      FieldsRead(more, obj', rest);
    }
  }

  lemma KeySaid(f: Field)
    requires FieldOk(f)
    ensures Said(f.key) != "" && CString(Said(f.key)) == Said(f.key)
    ensures Blank(f.after) && Blank(f.next) && Blank(f.before) && Blank(f.colon) && !f.doc.NullDoc?
  {
    CStringWhole(Said(f.key));
  }

  lemma BeginsWithKey(fs: seq<Field>, tail: string)
    requires fs != [] && forall f :: f in fs ==> FieldOk(f) && DocOk(f.doc)
    ensures At(FieldsText(fs) + tail) == '"'
  {
    hide GlyphsText, Text;
  }

  // What closes the object goes behind the last member.
  lemma FieldsClose(fs: seq<Field>, close: string)
    requires fs != [] && forall f :: f in fs ==> FieldOk(f) && DocOk(f.doc)
    ensures FieldsText(fs) + close
      == FieldText(fs[0], if |fs| == 1 then close else "," + (fs[0].next + (FieldsText(fs[1..]) + close)))
  {
    hide FieldText, FieldOk, DocOk;
    assert fs[0] in fs;
    var f := fs[0];
    if |fs| == 1 {
      FieldClose(f, "", close);
      assert "" + close == close;
    } else {
      var more := FieldsText(fs[1..]);
      FieldClose(f, "," + (f.next + more), close);
      assert "," + (f.next + more) + close == "," + (f.next + (more + close));
    }
  }

  lemma FieldClose(f: Field, end: string, close: string)
    requires FieldOk(f) && DocOk(f.doc)
    ensures FieldText(f, end) + close == FieldText(f, end + close)
  {
    hide GlyphsText, Text, DocOk;
    var g := f.after + end;
    assert g + close == f.after + (end + close);
    Close("\"", GlyphsText(f.key), "\"", f.colon, ":", f.before, Text(f.doc), g, close);
  }

  lemma Close(a: string, b: string, c: string, d: string, e: string, f: string, g: string, h: string, z: string)
    ensures a + (b + (c + (d + (e + (f + (g + h)))))) + z == a + (b + (c + (d + (e + (f + (g + (h + z)))))))
  {
    assert g + h + z == g + (h + z);
    assert f + (g + h) + z == f + (g + h + z);
    assert e + (f + (g + h)) + z == e + (f + (g + h) + z);
    assert d + (e + (f + (g + h))) + z == d + (e + (f + (g + h)) + z);
    assert c + (d + (e + (f + (g + h)))) + z == c + (d + (e + (f + (g + h))) + z);
    assert b + (c + (d + (e + (f + (g + h))))) + z == b + (c + (d + (e + (f + (g + h)))) + z);
  }

  /**
   `build` of a document as it may be written, whatever blanks are before it and whatever comes after it, is what the
   document says, and parsing stops exactly at its end.
   */
  lemma BuildReadsText(lead: string, d: Doc, rest: string)
    requires Blank(lead) && DocOk(d) && (d.VecDoc? || d.ObjDoc?)
    ensures Build(lead + (Text(d) + rest)) == Ok(Meaning(d), rest)
  {
    hide Text, Meaning, GetVec, ObjLoop;
    var t := Text(d) + rest;
    if d.VecDoc? { VecRead(d, rest); } else { ObjRead(d, rest); }
    assert t[0] in [t[0]] && !Blank([t[0]]);
    SkipBlank(lead, t);
    SkipBlank("", t);
    assert "" + t == t;
    assert GetObj(lead + t) == if d.VecDoc? then GetVec(t) else GetObj(t);
  }

  // --- What members an object has ---

  function Lookup(ms: seq<Member>, k: string): Option<Value> {
    if ms == [] then None else if ms[0].key == k then Some(ms[0].value) else Lookup(ms[1..], k)
  }

  lemma {:induction false} LessTransitive(a: string, b: string, c: string)
    requires Less(a, b) && Less(b, c)
    ensures Less(a, c)
  {
    if a != "" && b[0] == a[0] == c[0] { LessTransitive(a[1..], b[1..], c[1..]); }
  }

  lemma {:induction false} LessTotal(a: string, b: string)
    ensures a == b || Less(a, b) || Less(b, a)
  {
    if a != "" && b != "" && a[0] == b[0] {
      LessTotal(a[1..], b[1..]);
      assert a == [a[0]] + a[1..] && b == [b[0]] + b[1..];
    }
  }

  /** The order of the keys: the first character in which they differ decides, and a beginning comes before the whole. */
  lemma {:induction false} LessIff(a: string, b: string)
    ensures Less(a, b) <==> a < b || exists i :: 0 <= i < |a| && i < |b| && a[..i] == b[..i] && a[i] < b[i]
  {
    if a != "" && b != "" && a[0] == b[0] {
      LessIff(a[1..], b[1..]);
      assert a == [a[0]] + a[1..] && b == [b[0]] + b[1..];
      if i :| 0 <= i < |a| && i < |b| && a[..i] == b[..i] && a[i] < b[i] {
        assert i > 0 && a[1..][..i - 1] == a[..i][1..] && b[1..][..i - 1] == b[..i][1..];
        assert a[1..][i - 1] < b[1..][i - 1];
      }
      if i :| 0 <= i < |a[1..]| && i < |b[1..]| && a[1..][..i] == b[1..][..i] && a[1..][i] < b[1..][i] {
        assert a[..i + 1] == [a[0]] + a[1..][..i] && b[..i + 1] == [b[0]] + b[1..][..i];
        assert a[i + 1] < b[i + 1];
      }
    } else if a != "" && b != "" && a[0] < b[0] {
      assert a[..0] == b[..0];
    } else if a != "" && b != "" {
      forall i | 0 < i < |a| && i < |b| ensures a[..i] != b[..i] {
        assert a[..i][0] == a[0] && b[..i][0] == b[0];
      }
    }
  }

  // k comes before all the keys.
  predicate Before(k: string, ms: seq<Member>) { forall m :: m in ms ==> Less(k, m.key) }

  lemma AscendingIff(m: Member, ms: seq<Member>)
    ensures Ascending([m] + ms) <==> Before(m.key, ms) && Ascending(ms)
  {
    var all := [m] + ms;
    if Ascending(all) {
      forall x | x in ms ensures Less(m.key, x.key) {
        var i :| 0 <= i < |ms| && ms[i] == x;
        assert all[0] == m && all[i + 1] == x;
      }
      forall i, j | 0 <= i < j < |ms| ensures Less(ms[i].key, ms[j].key) {
        assert all[i + 1] == ms[i] && all[j + 1] == ms[j];
      }
    }
    if Before(m.key, ms) && Ascending(ms) {
      forall i, j | 0 <= i < j < |all| ensures Less(all[i].key, all[j].key) {
        assert all[j] == ms[j - 1];
        if i > 0 { assert all[i] == ms[i - 1]; } else { assert ms[j - 1] in ms; }
      }
    }
  }

  /** Storing a member changes that member and no other, and keeps the keys in order. */
  lemma {:induction false} PutStores(ms: seq<Member>, k: string, v: Value, other: string)
    requires Ascending(ms)
    ensures Ascending(Put(ms, k, v))
    ensures Lookup(Put(ms, k, v), other) == if other == k then Some(v) else Lookup(ms, other)
    ensures forall m :: m in Put(ms, k, v) ==> m in ms || m == Member(k, v)
    decreases |ms|
  {
    hide Less, Ascending;
    if ms == [] {
      AscendingIff(Member(k, v), ms);
      assert [Member(k, v)] + ms == [Member(k, v)];
    } else {
      var m, more := ms[0], ms[1..];
      assert ms == [m] + more;
      AscendingIff(m, more);
      if m.key == k {
        AscendingIff(Member(k, v), more);
      } else if Less(m.key, k) {
        PutStores(more, k, v, other);
        AscendingIff(m, Put(more, k, v));
      } else {
        LessTotal(m.key, k);
        forall x | x in ms ensures Less(k, x.key) {
          if x != m { LessTransitive(k, m.key, x.key); }
        }
        AscendingIff(Member(k, v), ms);
      }
    }
  }

  /** An object has its keys in order, and for each key the value of the last field with that key. */
  lemma {:induction false} MembersAre(done: seq<Member>, fs: seq<Field>, k: string)
    requires Ascending(done)
    ensures Ascending(Members(done, fs))
    ensures var last := LastOf(fs, k);
      Lookup(Members(done, fs), k) == if last.Some? then Some(Meaning(last.value)) else Lookup(done, k)
    decreases |fs|
  {
    hide Meaning, Put, Ascending;
    if fs != [] {
      PutStores(done, Said(fs[0].key), Meaning(fs[0].doc), k);
      MembersAre(Put(done, Said(fs[0].key), Meaning(fs[0].doc)), fs[1..], k);
    }
  }

  function LastOf(fs: seq<Field>, k: string): Option<Doc> {
    if fs == [] then None
    else
      var later := LastOf(fs[1..], k);
      if later.Some? then later else if Said(fs[0].key) == k then Some(fs[0].doc) else None
  }

  // --- What the printer writes is such a text ---

  function Printed(s: string): seq<Glyph> {
    seq(|s|, i requires 0 <= i < |s| => if s[i] in ESCAPABLE then Escaped(s[i]) else Raw(s[i]))
  }

  /** A printed string has a backslash before each character that needs one, and no control character of those raw. */
  lemma {:induction false} PrintedString(s: string)
    ensures GlyphsOk(Printed(s)) && Said(Printed(s)) == s
    ensures '\r' !in s ==> EncodeStr(s) == GlyphsText(Printed(s))
    ensures forall c :: c in EncodeStr(s) ==> c !in {8 as char, 12 as char, '\t', '\n', '\r'}
    decreases |s|
  {
    if s != "" {
      hide EncodeChar, GlyphText, GlyphOk;
      var more := s[1..];
      PrintedString(more);
      PrintedGlyph(s[0]);
      assert Printed(s) == [Printed(s)[0]] + Printed(more);
      assert Printed(s)[1..] == Printed(more);
      assert '\r' !in s ==> '\r' !in more && s[0] != '\r';
    }
  }

  lemma PrintedGlyph(c: char)
    ensures var g := if c in ESCAPABLE then Escaped(c) else Raw(c); GlyphOk(g) && (c != '\r' ==> EncodeChar(c) == GlyphText(g))
    ensures forall x :: x in EncodeChar(c) ==> x !in {8 as char, 12 as char, '\t', '\n', '\r'}
  {
  }

  /** Numbers are printed in decimal digits, a negative one with a minus sign. */
  lemma PrintedNumber(n: int)
    ensures n < 0 ==> Print(Num(n)) == "-" + Print(Num(-n))
    ensures 0 <= n < 10 ==> Print(Num(n)) == ["0123456789"[n]]
    ensures 10 <= n ==> Print(Num(n)) == Print(Num(n / 10)) + ["0123456789"[n % 10]]
  {
    TenDigits();
  }

  lemma TenDigits()
    ensures forall d: nat :: d < 10 ==> Digit(d) == "0123456789"[d]
  {
  }
}
