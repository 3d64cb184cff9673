/**
 The JSON printer and the recursive-descent parser.  The parser reads a text from its front; what it
 leaves unread stands for its position.  Past the end the program reads the terminating zero character.
 */
module Json {
  import opened Options

  /** A value; the members of an object are in the order of the keys, as the program's map keeps them. */
  datatype Value = Null | Num(n: int) | Str(s: string) | Bool(b: bool) | Vec(items: seq<Value>) | Obj(members: seq<Member>)
  datatype Member = Member(key: string, value: Value)

  /** How parsing ends: with a value, with an exception, never, or with a number that has a point. */
  datatype Out<T> = Ok(v: T, rest: string) | Bad | Hang | Float {
    predicate IsFailure() { !Ok? }
    function PropagateFailure<U>(): Out<U>
      requires IsFailure()
    {
      if Bad? then Bad else if Hang? then Hang else Float
    }
    function Extract(): (T, string)
      requires Ok?
    {
      (v, rest)
    }
  }

  const INT64_MAX := 0x7fff_ffff_ffff_ffff

  // --- Printing ---

  function EncodeChar(c: char): string {
    if c == '\\' then "\\\\"
    else if c == '"' then "\\\""
    else if c == '/' then "\\/"
    else if c == 8 as char then "\\b"
    else if c == 12 as char then "\\f"
    else if c == '\t' then "\\t"
    else if c == '\n' then "\\n"
    else if c == '\r' then "\\r"
    else [c]
  }

  function EncodeStr(s: string): string {
    if s == "" then "" else EncodeChar(s[0]) + EncodeStr(s[1..])
  }

  function Digit(d: nat): char
    requires d < 10
  {
    ('0' as int + d) as char
  }

  function Decimal(n: nat): (r: string)
    ensures r != ""
  {
    if n < 10 then [Digit(n)] else Decimal(n / 10) + [Digit(n % 10)]
  }

  function Print(v: Value): string
    decreases v, 1
  {
    match v
    case Null => "null"
    case Num(n) => if n < 0 then "-" + Decimal(-n) else Decimal(n)
    case Str(s) => "\"" + EncodeStr(s) + "\""
    case Bool(b) => if b then "true" else "false"
    case Vec(items) => "[" + PrintItems(items) + "]"
    case Obj(ms) => "{" + PrintMembers(ms) + "}"
  }

  // Separated by commas, none at the end.
  function PrintItems(items: seq<Value>): string
    decreases items, 0
  {
    if items == [] then ""
    else Print(items[0]) + if |items| == 1 then "" else "," + PrintItems(items[1..])
  }

  function PrintMembers(ms: seq<Member>): string
    decreases ms, 0
  {
    if ms == [] then ""
    else "\"" + ms[0].key + "\"" + ":" + Print(ms[0].value) + if |ms| == 1 then "" else "," + PrintMembers(ms[1..])
  }

  // --- The parser ---

  function At(t: string): char {
    if t == "" then 0 as char else t[0]
  }

  predicate IsSpace(c: char) { c == ' ' || c == '\r' || c == '\n' || c == '\t' }
  predicate IsAlpha(c: char) { 'a' <= c <= 'z' || 'A' <= c <= 'Z' }
  predicate IsDigit(c: char) { '0' <= c <= '9' }

  function SkipSpace(t: string): (r: string)
    ensures |r| <= |t|
  {
    if t != "" && IsSpace(t[0]) then SkipSpace(t[1..]) else t
  }

  // The loop of get_text; rs says that the last character was an unanswered backslash.
  function TextLoop(t: string, rs: bool, text: string): (r: Out<string>)
    ensures r.Ok? ==> |r.rest| < |t|
    decreases |t|
  {
    if t == "" then Bad
    else if t[0] == '\\' then
      if rs then TextLoop(t[1..], false, text + [t[0]]) else TextLoop(t[1..], true, text)
    else if rs then
      var c := t[0];
      if c == 'f' then TextLoop(t[1..], false, text + [12 as char])
      else if c == 'b' then TextLoop(t[1..], false, text + [8 as char])
      else if c == '/' then TextLoop(t[1..], false, text + ['/'])
      else if c == '"' then TextLoop(t[1..], false, text + ['"'])
      else if c == 't' then TextLoop(t[1..], false, text + ['\t'])
      else if c == 'n' then TextLoop(t[1..], false, text + ['\n'])
      else Bad
    else if t[0] == '"' then Ok(text, t[1..])
    else TextLoop(t[1..], false, text + [t[0]])
  }

  function GetText(t: string): (r: Out<string>)
    requires t != ""
    ensures r.Ok? ==> |r.rest| < |t|
  {
    TextLoop(t[1..], false, "")
  }

  function Letters(t: string): string {
    if t != "" && IsAlpha(t[0]) then [t[0]] + Letters(t[1..]) else ""
  }

  function AfterLetters(t: string): (r: string)
    ensures |r| <= |t|
    ensures t != "" && IsAlpha(t[0]) ==> |r| < |t|
  {
    if t != "" && IsAlpha(t[0]) then AfterLetters(t[1..]) else t
  }

  function GetBool(t: string): Out<bool> {
    if Letters(t) == "true" then Ok(true, AfterLetters(t))
    else if Letters(t) == "false" then Ok(false, AfterLetters(t))
    else Bad
  }

  function GetNull(t: string): Out<()> {
    if Letters(t) == "null" then Ok((), AfterLetters(t)) else Bad
  }

  function Digits(t: string): string {
    if t != "" && IsDigit(t[0]) then [t[0]] + Digits(t[1..]) else ""
  }

  function DigitsValue(ds: string): nat {
    if ds == "" then 0
    else DigitsValue(ds[..|ds| - 1]) * 10 + if IsDigit(ds[|ds| - 1]) then ds[|ds| - 1] as int - '0' as int else 0
  }

  function AfterDigits(t: string): (r: string)
    ensures |r| <= |t|
    ensures t != "" && IsDigit(t[0]) ==> |r| < |t|
  {
    if t != "" && IsDigit(t[0]) then AfterDigits(t[1..]) else t
  }

  // get_num and strtoll.  At a minus sign nothing is read, and the loops around never move on.
  function GetNum(t: string): Out<int> {
    if At(t) == '-' then Hang
    else if At(AfterDigits(t)) == '.' then Float
    else if DigitsValue(Digits(t)) > INT64_MAX then Bad
    else Ok(DigitsValue(Digits(t)), AfterDigits(t))
  }

  // vec.add(x)
  function Add(vec: Value, x: Value): Value {
    Vec((if vec.Vec? then vec.items else []) + [x])
  }

  predicate Less(a: string, b: string) {
    if b == "" then false else if a == "" then true
    else a[0] < b[0] || (a[0] == b[0] && Less(a[1..], b[1..]))
  }

  function Put(ms: seq<Member>, k: string, v: Value): seq<Member> {
    if ms == [] then [Member(k, v)]
    else if ms[0].key == k then [Member(k, v)] + ms[1..]
    else if Less(ms[0].key, k) then [ms[0]] + Put(ms[1..], k, v)
    else [Member(k, v)] + ms
  }

  // The key is passed on as a C string.
  function CString(k: string): string {
    if k == "" || k[0] == 0 as char then "" else [k[0]] + CString(k[1..])
  }

  // obj[key] = v
  function Set(obj: Value, key: string, v: Value): Value {
    Obj(Put(if obj.Obj? then obj.members else [], CString(key), v))
  }

  function GetVec(t: string): (r: Out<Value>)
    requires t != "" && t[0] == '['
    ensures r.Ok? ==> |r.rest| < |t|
    decreases |t|, 0
  {
    VecLoop(t[1..], Null)
  }

  // The value the next character announces; the loops of get_vec and get_obj read the same ones.
  function Item(t: string): (r: Out<Value>)
    requires t != ""
    ensures r.Ok? ==> |r.rest| < |t|
    decreases |t|, 1
  {
    if t[0] == '[' then GetVec(t)
    else if t[0] == '{' then GetObj(t)
    else if t[0] == '"' then
      var (x, rest) :- GetText(t);
      Ok(Str(x), rest)
    else if t[0] == 'n' then
      var (_, rest) :- GetNull(t);
      Ok(Null, rest)
    else if t[0] == 'f' || t[0] == 't' then
      var (x, rest) :- GetBool(t);
      Ok(Bool(x), rest)
    else if t[0] == '-' || IsDigit(t[0]) then
      var (x, rest) :- GetNum(t);
      Ok(Num(x), rest)
    else Hang
  }

  function VecLoop(t: string, vec: Value): (r: Out<Value>)
    ensures r.Ok? ==> |r.rest| <= |t|
    decreases |t|, 2
  {
    if t == "" then Ok(Null, "")
    else if t[0] == ']' then Ok(vec, t[1..])
    else if t[0] == ',' || IsSpace(t[0]) then VecLoop(t[1..], vec)
    else
      var (x, rest) :- Item(t);
      VecLoop(rest, Add(vec, x))
  }

  // check_ahead: the next character that is no space must be ch.
  function CheckAhead(t: string, ch: char): (r: Out<()>)
    ensures r.Ok? ==> r.rest != "" && |r.rest| <= |t|
  {
    var u := SkipSpace(t);
    if u == "" || u[0] != ch then Bad else Ok((), u)
  }

  function GetKey(t: string): (r: Out<string>)
    requires t != ""
    ensures r.Ok? ==> |r.rest| < |t|
  {
    var (x, rest) :- GetText(t);
    var (_, ahead) :- CheckAhead(rest, ':');
    Ok(x, ahead)
  }

  function GetObj(t: string): (r: Out<Value>)
    ensures r.Ok? ==> |r.rest| <= |t| && (At(t) == '{' ==> |r.rest| < |t|)
    decreases |t|, if At(t) == '{' then 0 else 4
  {
    var u := SkipSpace(t);
    if u == "" then Bad
    else
      var w := if u[0] == '{' then u[1..] else u;
      if At(w) == '[' then GetVec(w) else ObjLoop(w, Null, "")
  }

  // The case for null runs on into the case for an object.
  function NullMember(t: string, key: string): (r: Out<Value>)
    requires t != "" && t[0] == 'n'
    ensures r.Ok? ==> |r.rest| < |t|
    decreases |t|, 1
  {
    var (_, rest) :- GetNull(t);
    if key == "" then Bad else GetObj(rest)
  }

  // One turn of the loop of get_obj: it ends, or goes on with the object and the key it has then.
  datatype Turn = End(out: Out<Value>) | Go(obj: Value, key: string, rest: string)

  function ObjTurn(t: string, obj: Value, key: string): (r: Turn)
    requires t != ""
    ensures r.Go? ==> |r.rest| < |t|
    ensures r.End? && r.out.Ok? ==> |r.out.rest| <= |t|
    decreases |t|, 2
  {
    if t[0] == '"' && key == "" then
      (match GetKey(t) case Ok(x, rest) => Go(obj, x, rest) case e => End(e.PropagateFailure()))
    else if t[0] == 'n' then
      (match NullMember(t, key)
       case Ok(x, rest) => Go(Set(Set(obj, key, Null), key, x), "", rest)
       case e => End(e))
    else if t[0] == '}' then End(if key != "" then Bad else Ok(obj, t[1..]))
    else if t[0] == ':' then if key == "" then End(Bad) else Go(obj, key, t[1..])
    else if t[0] == ',' then
      var ahead := CheckAhead(t[1..], '"');
      if ahead.Ok? then Go(obj, key, ahead.rest) else End(Bad)
    else if IsSpace(t[0]) then Go(obj, key, t[1..])
    else if key == "" && (t[0] == 'f' || t[0] == 't' || t[0] == '{') then End(Bad)
    else (match Item(t) case Ok(x, rest) => Go(Set(obj, key, x), "", rest) case e => End(e))
  }

  function ObjLoop(t: string, obj: Value, key: string): (r: Out<Value>)
    ensures r.Ok? ==> |r.rest| <= |t|
    decreases |t|, 3
  {
    if t == "" then Ok(Null, "")
    else
      match ObjTurn(t, obj, key)
      case End(out) => out
      case Go(obj', key', rest) => ObjLoop(rest, obj', key')
  }

  // --- Values that survive ---

  predicate KeyOk(k: string) {
    k != "" && '"' !in k && '\\' !in k && 0 as char !in k
  }

  predicate Ascending(ms: seq<Member>) {
    forall i, j :: 0 <= i < j < |ms| ==> Less(ms[i].key, ms[j].key)
  }

  predicate Plain(v: Value) {
    match v
    case Null => false
    case Num(n) => 0 <= n <= INT64_MAX
    case Str(s) => '\r' !in s
    case Bool(_) => true
    case Vec(items) => items != [] && forall x :: x in items ==> x.Null? || Plain(x)
    case Obj(ms) => ms != [] && Ascending(ms) && forall m :: m in ms ==> KeyOk(m.key) && Plain(m.value)
  }

  // Keys free of quote, backslash and zero, in the order of the map, and no null member.
  predicate Shaped(v: Value) {
    match v
    case Vec(items) => forall x :: x in items ==> Shaped(x)
    case Obj(ms) => Ascending(ms) && forall m :: m in ms ==> KeyOk(m.key) && !m.value.Null? && Shaped(m.value)
    case _ => true
  }

  // What is read where a value was printed: a value, perhaps another one, an exception, or nothing ever.
  datatype Reading = Back(v: Value) | Refused | Never

  function Read(v: Value): Reading
    decreases v, 1
  {
    match v
    case Num(n) => if n < 0 then Never else if n > INT64_MAX then Refused else Back(v)
    case Str(s) => if '\r' in s then Refused else Back(v)
    case Vec(items) => if items == [] then Back(Null) else ReadItems([], items)
    case Obj(ms) => if ms == [] then Back(Null) else ReadMembers([], ms)
    case _ => Back(v)
  }

  function ReadItems(done: seq<Value>, items: seq<Value>): Reading
    decreases items, 0
  {
    if items == [] then Back(Vec(done))
    else match Read(items[0]) case Back(x) => ReadItems(done + [x], items[1..]) case r => r
  }

  function ReadMembers(done: seq<Member>, ms: seq<Member>): Reading
    decreases ms, 0
  {
    if ms == [] then Back(Obj(done))
    else match Read(ms[0].value) case Back(x) => ReadMembers(done + [Member(ms[0].key, x)], ms[1..]) case r => r
  }

  // How the parser ends, with this still to come.
  function Ends(r: Reading, rest: string): Out<Value> {
    match r case Back(v) => Ok(v, rest) case Refused => Bad case Never => Hang
  }

  // What follows a value in a printed text.
  predicate Delimited(rest: string) {
    rest != "" && (rest[0] == ',' || rest[0] == ']' || rest[0] == '}')
  }

  // --- Scalars ---

  // What one printed character does to the reader.
  lemma CharRoundTrip(c: char, text: string, tail: string)
    ensures TextLoop(EncodeChar(c) + tail, false, text) == if c == '\r' then Bad else TextLoop(tail, false, text + [c])
  {
    var e := EncodeChar(c);
    if |e| == 2 {
      assert (e + tail)[1..] == [e[1]] + tail && ([e[1]] + tail)[1..] == tail;
    } else {
      assert (e + tail)[1..] == tail;
    }
  }

  lemma {:induction false} TextRoundTrip(s: string, text: string, rest: string)
    ensures TextLoop(EncodeStr(s) + "\"" + rest, false, text) == if '\r' in s then Bad else Ok(text + s, rest)
    decreases |s|
  {
    if s == "" {
      assert EncodeStr(s) + "\"" + rest == "\"" + rest;
      assert text + s == text;
    } else {
      hide TextLoop, EncodeChar;
      var tail := EncodeStr(s[1..]) + "\"" + rest;
      assert EncodeStr(s) + "\"" + rest == EncodeChar(s[0]) + tail;
      CharRoundTrip(s[0], text, tail);
      assert s == [s[0]] + s[1..];
      TextRoundTrip(s[1..], text + [s[0]], rest);
      assert text + [s[0]] + s[1..] == text + s;
    }
  }

  lemma {:induction false} KeyRoundTrip(k: string, text: string, rest: string)
    requires '"' !in k && '\\' !in k
    ensures TextLoop(k + "\"" + rest, false, text) == Ok(text + k, rest)
    decreases |k|
  {
    if k == "" {
      assert k + "\"" + rest == "\"" + rest && text + k == text;
    } else {
      assert (k + "\"" + rest)[1..] == k[1..] + "\"" + rest;
      KeyRoundTrip(k[1..], text + [k[0]], rest);
      assert text + [k[0]] + k[1..] == text + k;
    }
  }

  predicate AllDigits(ds: string) { forall c :: c in ds ==> IsDigit(c) }

  lemma {:induction false} DecimalDigits(n: nat)
    ensures AllDigits(Decimal(n)) && DigitsValue(Decimal(n)) == n
  {
    if n >= 10 {
      DecimalDigits(n / 10);
      var d := Decimal(n);
      assert d[..|d| - 1] == Decimal(n / 10);
    } else {
      assert Decimal(n)[..0] == "";
    }
  }

  lemma {:induction false} DigitsStop(ds: string, rest: string)
    requires AllDigits(ds) && (rest == "" || !IsDigit(rest[0]))
    ensures Digits(ds + rest) == ds && AfterDigits(ds + rest) == rest
  {
    if ds == "" {
      assert ds + rest == rest;
    } else {
      assert (ds + rest)[1..] == ds[1..] + rest;
      DigitsStop(ds[1..], rest);
    }
  }

  lemma {:induction false} LettersStop(w: string, rest: string)
    requires (forall c :: c in w ==> IsAlpha(c)) && (rest == "" || !IsAlpha(rest[0]))
    ensures Letters(w + rest) == w && AfterLetters(w + rest) == rest
  {
    if w == "" {
      assert w + rest == rest;
    } else {
      assert (w + rest)[1..] == w[1..] + rest;
      LettersStop(w[1..], rest);
    }
  }

  lemma {:induction false} PutLast(ms: seq<Member>, k: string, v: Value)
    requires forall m :: m in ms ==> Less(m.key, k)
    ensures Put(ms, k, v) == ms + [Member(k, v)]
  {
    if ms != [] {
      LessIrreflexive(k);
      assert ms[0] in ms;
      PutLast(ms[1..], k, v);
      assert ms == [ms[0]] + ms[1..];
    }
  }

  lemma {:induction false} LessIrreflexive(k: string)
    ensures !Less(k, k)
  {
    if k != "" { LessIrreflexive(k[1..]); }
  }

  lemma {:induction false} CStringWhole(k: string)
    requires 0 as char !in k
    ensures CString(k) == k
  {
    if k != "" {
      CStringWhole(k[1..]);
      assert k == [k[0]] + k[1..];
    }
  }

  // --- Whole values and what the loops do with them ---

  /** What the parser makes of any printed value: what Read says, and then reading stops exactly at its end. */
  lemma {:induction false} ItemIsRead(v: Value, rest: string)
    requires Shaped(v) && Delimited(rest)
    ensures Print(v) + rest != "" && Item(Print(v) + rest) == Ends(Read(v), rest)
    decreases v, 3
  {
    match v {
      case Null => LettersStop("null", rest);
      case Bool(b) => LettersStop(Print(v), rest);
      case Num(n) => if n >= 0 { NumberItem(n, rest); }
      case Str(s) => StringSurvivesIffNoReturn(s, rest);
      case Vec(_) => VecIsRead(v, rest);
      case Obj(_) => ObjIsRead(v, rest);
    }
  }

  lemma NumberItem(n: nat, rest: string)
    requires Delimited(rest)
    ensures IsDigit((Decimal(n) + rest)[0])
    ensures Item(Decimal(n) + rest) == if n <= INT64_MAX then Ok(Num(n), rest) else Bad
  {
    DecimalDigits(n);
    DigitsStop(Decimal(n), rest);
    assert Decimal(n)[0] in Decimal(n);
    hide Decimal, Digits, AfterDigits, DigitsValue;
  }

  /** A carriage return is printed as an escape the parser rejects: a string comes back exactly when it has none. */
  lemma StringSurvivesIffNoReturn(s: string, rest: string)
    ensures At(Print(Str(s)) + rest) == '"'
    ensures GetText(Print(Str(s)) + rest) == if '\r' in s then Bad else Ok(s, rest)
  {
    assert (Print(Str(s)) + rest)[1..] == EncodeStr(s) + "\"" + rest;
    TextRoundTrip(s, "", rest);
    assert "" + s == s;
  }

  // A printed value opens with a character of its own.
  lemma Announced(v: Value, rest: string)
    ensures Print(v) + rest != ""
    ensures !IsSpace((Print(v) + rest)[0]) && (Print(v) + rest)[0] !in {']', '}', ',', ':'}
    ensures (Print(v) + rest)[0] == 'n' <==> v.Null?
  {
    if v.Num? && v.n >= 0 {
      DecimalDigits(v.n);
      assert Decimal(v.n)[0] in Decimal(v.n);
    }
  }

  /** In a vector the loop adds the value it reads and goes on with what follows, or ends as the reading did. */
  lemma VecTakes(v: Value, r: Reading, vec: Value, rest: string)
    requires Item(Print(v) + rest) == Ends(r, rest)
    ensures VecLoop(Print(v) + rest, vec)
      == if r.Back? then VecLoop(rest, Add(vec, r.v)) else Ends(r, rest)
  {
    Announced(v, rest);
    hide Print, Item, Add;
  }

  /** After a key the loop stores the value it reads and clears the key, or ends as the reading did. */
  lemma ObjTakes(v: Value, r: Reading, obj: Value, key: string, rest: string)
    requires !v.Null? && key != "" && Item(Print(v) + rest) == Ends(r, rest)
    ensures ObjLoop(Print(v) + rest, obj, key)
      == if r.Back? then ObjLoop(rest, Set(obj, key, r.v), "") else Ends(r, rest)
  {
    Announced(v, rest);
    hide Print, Item, Set;
  }

  // Single turns of the loops.
  lemma VecTurns(t: string, vec: Value)
    ensures VecLoop("," + t, vec) == VecLoop(t, vec)
    ensures VecLoop("]" + t, vec) == Ok(vec, t)
    ensures GetVec("[" + t) == VecLoop(t, Null)
  {
    assert ("," + t)[1..] == t && ("]" + t)[1..] == t && ("[" + t)[1..] == t;
  }

  lemma ObjEnds(t: string, obj: Value)
    ensures ObjLoop("}" + t, obj, "") == Ok(obj, t)
  {
    assert ("}" + t)[1..] == t;
  }

  lemma ObjComma(t: string, obj: Value)
    requires At(t) == '"'
    ensures ObjLoop("," + t, obj, "") == ObjLoop(t, obj, "")
  {
    assert ("," + t)[1..] == t;
    assert SkipSpace(t) == t;
  }

  lemma ObjOpens(t: string)
    requires At(t) != '['
    ensures GetObj("{" + t) == ObjLoop(t, Null, "")
  {
    assert ("{" + t)[1..] == t;
    assert SkipSpace("{" + t) == "{" + t;
  }

  // Where an object is wanted and none is there, the loop starts with what is next.
  lemma ObjWithoutBrace(t: string)
    requires t != "" && !IsSpace(t[0]) && t[0] != '{' && t[0] != '['
    ensures GetObj(t) == ObjLoop(t, Null, "")
  {
    assert SkipSpace(t) == t;
  }

  lemma {:induction false} VecIsRead(v: Value, rest: string)
    requires v.Vec? && Shaped(v)
    ensures At(Print(v) + rest) == '[' && Print(v) + rest != "" && GetVec(Print(v) + rest) == Ends(Read(v), rest)
    decreases v, 2
  {
    hide VecLoop, ObjLoop, GetVec, GetObj;
    var t := PrintItems(v.items) + ("]" + rest);
    assert Print(v) + rest == "[" + t;
    VecTurns(t, Null);
    if v.items == [] {
      assert t == "]" + rest;
      VecTurns(rest, Null);
    } else {
      hide PrintItems, ReadItems;
      ItemsAreRead(v.items, Null, rest);
    }
  }

  lemma {:induction false} ItemsAreRead(items: seq<Value>, vec: Value, rest: string)
    requires items != [] && forall x :: x in items ==> Shaped(x)
    ensures VecLoop(PrintItems(items) + ("]" + rest), vec)
      == Ends(ReadItems(if vec.Vec? then vec.items else [], items), rest)
    decreases items, 1
  {
    hide VecLoop, ObjLoop, GetVec, GetObj, Item, Print, Shaped, Read;
    var tail, r := "]" + rest, Read(items[0]);
    var text := PrintItems(items[1..]) + tail;
    var next := if |items| == 1 then tail else "," + text;
    assert PrintItems(items) + tail == Print(items[0]) + next;
    ItemIsRead(items[0], next);
    VecTakes(items[0], r, vec, next);
    if r.Back? {
      if |items| == 1 {
        VecTurns(rest, Add(vec, r.v));
      } else {
        VecTurns(text, Add(vec, r.v));
        ItemsAreRead(items[1..], Add(vec, r.v), rest);
      }
    }
  }

  lemma MembersStartWithQuote(ms: seq<Member>, tail: string)
    requires ms != []
    ensures At(PrintMembers(ms) + tail) == '"'
  {
  }

  lemma {:induction false} ObjIsRead(v: Value, rest: string)
    requires v.Obj? && Shaped(v)
    ensures At(Print(v) + rest) == '{' && Print(v) + rest != "" && GetObj(Print(v) + rest) == Ends(Read(v), rest)
    decreases v, 2
  {
    hide VecLoop, ObjLoop, GetVec, GetObj;
    var t := PrintMembers(v.members) + ("}" + rest);
    assert Print(v) + rest == "{" + t;
    if v.members == [] {
      assert t == "}" + rest;
      ObjOpens(t);
      ObjEnds(rest, Null);
    } else {
      MembersStartWithQuote(v.members, "}" + rest);
      ObjOpens(t);
      hide PrintMembers, ReadMembers;
      assert [] + v.members == v.members;
      MembersAreRead([], v.members, Null, rest);
    }
  }

  // A key, its colon, and then the value is next.
  lemma KeyThenValue(key: string, obj: Value, after: string)
    requires KeyOk(key)
    ensures ObjLoop("\"" + key + "\"" + ":" + after, obj, "") == ObjLoop(after, obj, key)
  {
    var t := "\"" + key + "\"" + ":" + after;
    assert t[1..] == key + "\"" + (":" + after);
    KeyRoundTrip(key, "", ":" + after);
    assert "" + key == key;
    assert (":" + after)[1..] == after;
    assert SkipSpace(":" + after) == ":" + after;
    assert ObjTurn(t, obj, "") == Go(obj, key, ":" + after);
    assert ObjTurn(":" + after, obj, key) == Go(obj, key, after);
  }

  lemma {:induction false} MembersAreRead(done: seq<Member>, ms: seq<Member>, obj: Value, rest: string)
    requires ms != [] && Ascending(done + ms)
    requires forall m :: m in ms ==> KeyOk(m.key) && !m.value.Null? && Shaped(m.value)
    requires if obj.Obj? then obj.members == done else done == []
    ensures ObjLoop(PrintMembers(ms) + ("}" + rest), obj, "") == Ends(ReadMembers(done, ms), rest)
    decreases ms, 1
  {
    hide *;
    var m, tail := ms[0], "}" + rest;
    var text := PrintMembers(ms[1..]) + tail;
    var next := if |ms| == 1 then tail else "," + text;
    var r := Read(m.value);
    MemberText(ms, tail, next);
    KeyNotEmpty(m.key);
    KeyThenValue(m.key, obj, Print(m.value) + next);
    Delimits(next);
    ItemIsRead(m.value, next);
    ObjTakes(m.value, r, obj, m.key, next);
    ReadMembersStep(done, ms);
    if r.Back? {
      var stored := Member(m.key, r.v);
      StoresLast(done, ms, obj, r.v);
      SameKeysAscend(done, ms, r.v);
      if |ms| == 1 {
        ObjEnds(rest, Obj(done + [stored]));
        EndsBack(Obj(done + [stored]), rest);
      } else {
        MembersStartWithQuote(ms[1..], tail);
        ObjComma(text, Obj(done + [stored]));
        MembersAreRead(done + [stored], ms[1..], Obj(done + [stored]), rest);
      }
    } else {
      EndsFailed(r, next, rest);
    }
  }

  lemma ReadMembersStep(done: seq<Member>, ms: seq<Member>)
    requires ms != []
    ensures Read(ms[0].value).Back?
      ==> ReadMembers(done, ms) == ReadMembers(done + [Member(ms[0].key, Read(ms[0].value).v)], ms[1..])
    ensures !Read(ms[0].value).Back? ==> ReadMembers(done, ms) == Read(ms[0].value)
    ensures |ms| == 1 && Read(ms[0].value).Back?
      ==> ReadMembers(done, ms) == Back(Obj(done + [Member(ms[0].key, Read(ms[0].value).v)]))
  {
    hide Read;
  }

  lemma EndsBack(x: Value, rest: string)
    ensures Ends(Back(x), rest) == Ok(x, rest)
  {
  }

  // A reading that failed fails whatever is still to come.
  lemma EndsFailed(r: Reading, next: string, rest: string)
    requires !r.Back?
    ensures Ends(r, next) == Ends(r, rest)
  {
  }

  // The order is one of keys.
  lemma SameKeysAscend(done: seq<Member>, ms: seq<Member>, x: Value)
    requires ms != [] && Ascending(done + ms)
    ensures Ascending((done + [Member(ms[0].key, x)]) + ms[1..])
  {
    var a, b := done + ms, (done + [Member(ms[0].key, x)]) + ms[1..];
    hide Less;
    assert |a| == |b| && forall i :: 0 <= i < |a| ==> a[i].key == b[i].key;
  }

  lemma Delimits(next: string)
    requires next != "" && (next[0] == ',' || next[0] == '}')
    ensures Delimited(next)
  {
  }

  lemma KeyNotEmpty(k: string)
    requires KeyOk(k)
    ensures k != ""
  {
  }

  lemma MemberText(ms: seq<Member>, tail: string, next: string)
    requires ms != [] && next == if |ms| == 1 then tail else "," + (PrintMembers(ms[1..]) + tail)
    ensures PrintMembers(ms) + tail == "\"" + ms[0].key + "\"" + ":" + (Print(ms[0].value) + next)
  {
    var head, value := "\"" + ms[0].key + "\"" + ":", Print(ms[0].value);
    var more := if |ms| == 1 then "" else "," + PrintMembers(ms[1..]);
    assert PrintMembers(ms) == head + value + more;
    hide *;
    Regroup(head, value, more, tail);
    if |ms| > 1 { Regroup("", ",", PrintMembers(ms[1..]), tail); }
  }

  lemma Regroup(a: string, b: string, c: string, d: string)
    ensures a + b + c + d == a + (b + (c + d))
    ensures b + c + d == b + (c + d) && [] + d == d
  {
  }

  // The keys come in the order of the map, so each is stored after those before it.
  lemma StoresLast(done: seq<Member>, ms: seq<Member>, obj: Value, x: Value)
    requires ms != [] && Ascending(done + ms) && KeyOk(ms[0].key)
    requires if obj.Obj? then obj.members == done else done == []
    ensures Set(obj, ms[0].key, x) == Obj(done + [Member(ms[0].key, x)])
  {
    var all, n := done + ms, |done|;
    CStringWhole(ms[0].key);
    forall m | m in done ensures Less(m.key, ms[0].key) {
      var i :| 0 <= i < n && done[i] == m;
      assert all[i] == m && all[n] == ms[0];
    }
    PutLast(done, ms[0].key, x);
  }

  // --- Exactly the plain values come back ---

  lemma {:induction false} BackIff(v: Value)
    requires Shaped(v)
    ensures Read(v) == Back(v) <==> v.Null? || Plain(v)
    decreases v, 1
  {
    match v {
      case Vec(items) =>
        if items != [] {
          ItemsBackIff([], items);
          assert [] + items == items;
        }
      case Obj(ms) =>
        if ms != [] {
          MembersBackIff([], ms);
          assert [] + ms == ms;
        }
      case _ =>
    }
  }

  // What has been read stays in front.
  lemma {:induction false} ItemsKept(done: seq<Value>, items: seq<Value>)
    ensures ReadItems(done, items).Back?
      ==> ReadItems(done, items).v.Vec? && done <= ReadItems(done, items).v.items
    decreases |items|
  {
    hide Read;
    if items != [] && Read(items[0]).Back? {
      ItemsKept(done + [Read(items[0]).v], items[1..]);
    }
  }

  lemma {:induction false} ItemsBackIff(done: seq<Value>, items: seq<Value>)
    requires forall x :: x in items ==> Shaped(x)
    ensures ReadItems(done, items) == Back(Vec(done + items)) <==> forall x :: x in items ==> x.Null? || Plain(x)
    decreases items, 0
  {
    hide Read, Plain, Shaped;
    if items == [] {
      assert done + items == done;
    } else {
      BackIff(items[0]);
      var r := Read(items[0]);
      if r.Back? {
        ItemsKept(done + [r.v], items[1..]);
        ItemsBackIff(done + [r.v], items[1..]);
        AtPlace(done, items, r.v);
        if r.v == items[0] { assert done + [r.v] + items[1..] == done + items; }
      }
      assert forall x :: x in items <==> x == items[0] || x in items[1..];
    }
  }

  lemma AtPlace<T>(done: seq<T>, items: seq<T>, x: T)
    requires items != []
    ensures done + [x] <= done + items ==> x == items[0]
  {
    if done + [x] <= done + items { assert (done + items)[|done|] == (done + [x])[|done|]; }
  }

  lemma {:induction false} MembersKept(done: seq<Member>, ms: seq<Member>)
    ensures ReadMembers(done, ms).Back?
      ==> ReadMembers(done, ms).v.Obj? && done <= ReadMembers(done, ms).v.members
    decreases |ms|
  {
    hide Read;
    if ms != [] && Read(ms[0].value).Back? {
      MembersKept(done + [Member(ms[0].key, Read(ms[0].value).v)], ms[1..]);
    }
  }

  lemma {:induction false} MembersBackIff(done: seq<Member>, ms: seq<Member>)
    requires forall m :: m in ms ==> KeyOk(m.key) && !m.value.Null? && Shaped(m.value)
    ensures ReadMembers(done, ms) == Back(Obj(done + ms)) <==> forall m :: m in ms ==> Plain(m.value)
    decreases ms, 0
  {
    hide Read, Plain, Shaped, KeyOk;
    if ms == [] {
      assert done + ms == done;
    } else {
      BackIff(ms[0].value);
      var r := Read(ms[0].value);
      if r.Back? {
        var m := Member(ms[0].key, r.v);
        MembersKept(done + [m], ms[1..]);
        MembersBackIff(done + [m], ms[1..]);
        AtPlace(done, ms, m);
        if r.v == ms[0].value { assert done + [m] + ms[1..] == done + ms; }
      }
      assert forall m :: m in ms <==> m == ms[0] || m in ms[1..];
    }
  }

  lemma {:induction false} PlainIsShaped(v: Value)
    requires Plain(v)
    ensures Shaped(v) && !v.Null?
  {
    match v {
      case Vec(items) =>
        forall x | x in items ensures Shaped(x) { if !x.Null? { PlainIsShaped(x); } }
      case Obj(ms) =>
        forall m | m in ms ensures Shaped(m.value) && !m.value.Null? { PlainIsShaped(m.value); }
      case _ =>
    }
  }

  // --- build ---

  function Build(text: string): Out<Value> { GetObj(text) }

  /** What `build` makes of every printed array or object without null members. */
  lemma BuildReads(v: Value)
    requires Shaped(v) && (v.Vec? || v.Obj?)
    ensures Build(Print(v)) == Ends(Read(v), "")
  {
    assert Print(v) + "" == Print(v);
    if v.Vec? {
      VecIsRead(v, "");
      assert SkipSpace(Print(v)) == Print(v);
    } else {
      ObjIsRead(v, "");
    }
  }

  // Without null members exactly the plain documents come back.
  lemma BuildInvertsShapedIff(v: Value)
    requires Shaped(v) && (v.Vec? || v.Obj?)
    ensures Build(Print(v)) == Ok(v, "") <==> Plain(v)
  {
    hide Plain, Shaped, Read, Print;
    BuildReads(v);
    BackIff(v);
  }

  lemma BuildInvertsPrint(v: Value)
    requires Plain(v) && (v.Vec? || v.Obj?)
    ensures Build(Print(v)) == Ok(v, "")
  {
    PlainIsShaped(v);
    BuildInvertsShapedIff(v);
  }

  /** Two plain documents with the same text are the same. */
  lemma PrintInjective(v: Value, v': Value)
    requires Plain(v) && (v.Vec? || v.Obj?) && Plain(v') && (v'.Vec? || v'.Obj?)
    requires Print(v) == Print(v')
    ensures v == v'
  {
    BuildInvertsPrint(v);
    BuildInvertsPrint(v');
  }

  /** Keys are printed as they are; an object whose first key is empty is refused at the colon. */
  lemma EmptyKeyRefused(ms: seq<Member>)
    requires ms != [] && ms[0].key == ""
    ensures Build(Print(Obj(ms))) == Bad
  {
    var tail := Print(ms[0].value) + (if |ms| == 1 then "}" else "," + (PrintMembers(ms[1..]) + "}"));
    var t := PrintMembers(ms) + "}";
    MemberText(ms, "}", if |ms| == 1 then "}" else "," + (PrintMembers(ms[1..]) + "}"));
    assert Print(Obj(ms)) == "{" + t by { hide PrintMembers; }
    hide Print, PrintMembers;
    assert t == "\"\":" + tail;
    ObjOpens(t);
    NoKey(tail);
  }

  lemma NoKey(tail: string)
    ensures ObjLoop("\"\":" + tail, Null, "") == Bad
  {
    var t, colon := "\"\":" + tail, ":" + tail;
    assert t[1..] == "" + "\"" + colon;
    KeyRoundTrip("", "", colon);
    assert SkipSpace(colon) == colon;
    assert ObjTurn(t, Null, "") == Go(Null, "", colon);
    assert ObjTurn(colon, Null, "") == End(Bad);
  }

  // --- Null members ---

  /** The case for a null member runs on into the case for an object, which reads what follows as one. */
  lemma NullMemberReadsOn(key: string, obj: Value, next: string)
    requires key != "" && next != "" && next[0] in {',', '}'}
    ensures ObjLoop(Print(Null) + next, obj, key)
      == var r := ObjLoop(next, Null, ""); if r.Ok? then ObjLoop(r.rest, Set(Set(obj, key, Null), key, r.v), "") else r
  {
    LettersStop("null", next);
    ObjWithoutBrace(next);
    hide Set;
    var t := Print(Null) + next;
    assert NullMember(t, key) == ObjLoop(next, Null, "");
    assert t[0] == 'n';
  }

  // Members that are null or plain, in the order of the map.
  ghost predicate NullOrPlain(ms: seq<Member>) {
    Ascending(ms) && forall m :: m in ms ==> KeyOk(m.key) && (m.value.Null? || Plain(m.value))
  }

  // Up to the end of the text the loop reads members to some value; after a null one the last brace is used up too early.
  lemma {:induction false} MembersWithNull(ms: seq<Member>, obj: Value)
    requires ms != [] && NullOrPlain(ms)
    ensures var r := ObjLoop(PrintMembers(ms) + "}", obj, "");
      r.Ok? && r.rest == "" && ((exists m :: m in ms && m.value.Null?) ==> r.v == Null)
    decreases |ms|
  {
    hide ObjLoop, Print, PrintMembers, Plain, KeyOk, Set, Ascending, Item, Read, Shaped;
    var m := ms[0];
    var text := PrintMembers(ms[1..]) + "}";
    var next := if |ms| == 1 then "}" else "," + text;
    MemberText(ms, "}", next);
    KeyNotEmpty(m.key);
    KeyThenValue(m.key, obj, Print(m.value) + next);
    RestAscends(ms);
    if |ms| > 1 { MembersStartWithQuote(ms[1..], "}"); }
    if m.value.Null? {
      NullMemberReadsOn(m.key, obj, next);
      if |ms| == 1 {
        BraceEnds(Null);
      } else {
        ObjComma(text, Null);
        MembersWithNull(ms[1..], Null);
      }
      TextOver();
    } else {
      PlainIsShaped(m.value);
      Delimits(next);
      ItemIsRead(m.value, next);
      BackIff(m.value);
      ObjTakes(m.value, Read(m.value), obj, m.key, next);
      var stored := Set(obj, m.key, m.value);
      if |ms| == 1 {
        BraceEnds(stored);
      } else {
        ObjComma(text, stored);
        MembersWithNull(ms[1..], stored);
      }
    }
    assert forall x :: x in ms <==> x == m || x in ms[1..];
  }

  lemma RestAscends(ms: seq<Member>)
    requires ms != [] && NullOrPlain(ms)
    ensures NullOrPlain(ms[1..])
  {
  }

  lemma BraceEnds(obj: Value)
    ensures ObjLoop("}", obj, "") == Ok(obj, "")
  {
    assert "}" + "" == "}";
    ObjEnds("", obj);
  }

  lemma TextOver()
    ensures forall obj: Value :: ObjLoop("", obj, "") == Ok(Null, "")
  {
  }

  /** An object that has a null member among plain ones is built as null, so it never comes back. */
  lemma NullMemberLosesTheObject(ms: seq<Member>)
    requires NullOrPlain(ms) && exists m :: m in ms && m.value.Null?
    ensures Build(Print(Obj(ms))) == Ok(Null, "")
  {
    var t := PrintMembers(ms) + "}";
    assert Print(Obj(ms)) == "{" + t;
    hide ObjLoop, Print, PrintMembers, GetObj, NullOrPlain;
    MembersStartWithQuote(ms, "}");
    ObjOpens(t);
    MembersWithNull(ms, Null);
  }
}
