/**
 The printer and the parser as the program runs them: the printer appends to one string, the parser moves a
 position through the text and builds its containers as it goes.  Each is proved equal to its function in Json.
 Where the program would turn in its loop for ever without moving, the loop here ends with Endless.
 */
module JsonText {
  import opened Json
  import opened JsonNulls
  import D = JsonDocuments

  datatype Ended<T> = Got(v: T) | Thrown | Endless | Pointed

  // How a function of Json ends, in terms of what a method returns and what is left after its position.
  ghost predicate Agrees<T>(o: Out<T>, e: Ended<T>, rest: string) {
    match e
    case Got(v) => o == Ok(v, rest)
    case Thrown => o == Bad
    case Endless => o == Hang
    case Pointed => o == Float
  }

  // --- Printing ---

  lemma EncodeNext(s: string, i: nat, buffer: string)
    requires i < |s|
    ensures buffer + EncodeStr(s[i..]) == buffer + EncodeChar(s[i]) + EncodeStr(s[i + 1..])
  {
    assert s[i..][1..] == s[i + 1..];
  }

  method EncodeText(s: string) returns (buffer: string)
    ensures buffer == EncodeStr(s)
  {
    hide EncodeStr;
    buffer := "";
    for i := 0 to |s|
      invariant buffer + EncodeStr(s[i..]) == EncodeStr(s)
    {
      EncodeNext(s, i, buffer);
      var c := s[i];
      if c == '\\' {
        buffer := buffer + "\\\\";
      } else if c == '"' {
        buffer := buffer + "\\\"";
      } else if c == '/' {
        buffer := buffer + "\\/";
      } else if c == 8 as char {
        buffer := buffer + "\\b";
      } else if c == 12 as char {
        buffer := buffer + "\\f";
      } else if c == '\t' {
        buffer := buffer + "\\t";
      } else if c == '\n' {
        buffer := buffer + "\\n";
      } else if c == '\r' {
        buffer := buffer + "\\r";
      } else {
        buffer := buffer + [c];
      }
    }
    assert s[|s|..] == "";
    EncodeEmpty();
  }

  lemma EncodeEmpty()
    ensures EncodeStr("") == ""
  {
  }

  lemma {:induction false} PrintOneMoreItem(items: seq<Value>, x: Value)
    ensures PrintItems(items + [x]) == if items == [] then Print(x) else PrintItems(items) + "," + Print(x)
  {
    if items != [] {
      assert (items + [x])[1..] == items[1..] + [x];
      PrintOneMoreItem(items[1..], x);
    }
  }

  lemma {:induction false} PrintOneMoreMember(ms: seq<Member>, m: Member)
    ensures PrintMembers(ms + [m])
         == if ms == [] then PrintMembers([m]) else PrintMembers(ms) + "," + PrintMembers([m])
  {
    if ms == [] {
      assert ms + [m] == [m];
    } else {
      assert (ms + [m])[1..] == ms[1..] + [m];
      PrintOneMoreMember(ms[1..], m);
    }
  }

  // A container so far: every element with its comma.
  ghost predicate Open(text: string, bracket: string, printed: string, none: bool) {
    text == bracket + if none then "" else printed + ","
  }

  // The last comma is taken away again before the closing bracket.
  lemma Closed(text: string, bracket: string, printed: string, none: bool)
    requires Open(text, bracket, printed, none) && |bracket| == 1 && (none ==> printed == "")
    ensures (if |text| > 1 then text[..|text| - 1] else text) == bracket + printed
  {
    if !none { assert text == (bracket + printed) + ","; }
  }

  method ToText(v: Value) returns (text: string)
    ensures text == Print(v)
    decreases v
  {
    match v
    case Bool(b) => return if b then "true" else "false";
    case Num(n) => return if n < 0 then "-" + Decimal(-n) else Decimal(n);
    case Str(s) =>
      text := EncodeText(s);
      text := "\"" + text + "\"";
    case Obj(ms) =>
      text := ObjText(ms);
    case Vec(items) =>
      text := VecText(items);
    case Null => return "null";
  }

  method ObjText(ms: seq<Member>) returns (text: string)
    ensures text == "{" + PrintMembers(ms) + "}"
    decreases ms
  {
    hide Print;
    text := "{";
    for i := 0 to |ms|
      invariant Open(text, "{", PrintMembers(ms[..i]), i == 0)
    {
      hide PrintMembers;
      ghost var before := text;
      text := text + "\"" + ms[i].key + "\"";
      text := text + ":";
      var value := ToText(ms[i].value);
      text := text + value;
      assert text == before + PrintMembers([ms[i]]) by { MemberAlone(ms[i], before); }
      text := text + ",";
      OneMoreMember(ms, i, before, text);
    }
    assert ms[..|ms|] == ms;
    Closed(text, "{", PrintMembers(ms), |ms| == 0);
    if |text| > 1 {
      text := text[..|text| - 1];
    }
    text := text + "}";
  }

  lemma MemberAlone(m: Member, before: string)
    ensures before + "\"" + m.key + "\"" + ":" + Print(m.value) == before + PrintMembers([m])
  {
  }

  lemma OneMoreMember(ms: seq<Member>, i: nat, before: string, text: string)
    requires i < |ms| && Open(before, "{", PrintMembers(ms[..i]), i == 0)
    requires text == before + PrintMembers([ms[i]]) + ","
    ensures Open(text, "{", PrintMembers(ms[..i + 1]), false)
  {
    hide PrintMembers;
    PrintOneMoreMember(ms[..i], ms[i]);
    assert ms[..i] + [ms[i]] == ms[..i + 1];
  }

  method VecText(items: seq<Value>) returns (text: string)
    ensures text == "[" + PrintItems(items) + "]"
    decreases items
  {
    hide Print;
    text := "[";
    for i := 0 to |items|
      invariant Open(text, "[", PrintItems(items[..i]), i == 0)
    {
      PrintOneMoreItem(items[..i], items[i]);
      assert items[..i] + [items[i]] == items[..i + 1];
      var value := ToText(items[i]);
      text := text + value;
      text := text + ",";
    }
    assert items[..|items|] == items;
    Closed(text, "[", PrintItems(items), |items| == 0);
    if |text| > 1 {
      text := text[..|text| - 1];
    }
    text := text + "]";
  }

  // --- Reading scalars ---

  // One character further.
  lemma Next(str: string, pos: nat)
    requires pos < |str|
    ensures str[pos..] != "" && str[pos..][0] == str[pos] && str[pos..][1..] == str[pos + 1..]
  {
  }

  method SkipSpaces(str: string, pos: nat) returns (next: nat)
    requires pos <= |str|
    ensures pos <= next <= |str| && str[next..] == SkipSpace(str[pos..])
  {
    next := pos;
    while next < |str| && IsSpace(str[next])
      invariant pos <= next <= |str| && SkipSpace(str[pos..]) == SkipSpace(str[next..])
    {
      Next(str, next);
      next := next + 1;
    }
  }

  method ReadText(str: string, pos: nat) returns (end: Ended<string>, next: nat)
    requires pos < |str|
    ensures pos < next <= |str| && Agrees(GetText(str[pos..]), end, str[next..])
  {
    Next(str, pos);
    next := pos + 1;
    var text, rs := "", false;
    while next < |str|
      invariant pos < next <= |str| && GetText(str[pos..]) == TextLoop(str[next..], rs, text)
    {
      Next(str, next);
      var c := str[next];
      if c == '\\' {
        if !rs {
          rs := true;
        } else {
          rs := false;
          text := text + [c];
        }
      } else if rs {
        rs := false;
        if c == 'f' {
          text := text + [12 as char];
        } else if c == 'b' {
          text := text + [8 as char];
        } else if c == '/' {
          text := text + ['/'];
        } else if c == '"' {
          text := text + ['"'];
        } else if c == 't' {
          text := text + ['\t'];
        } else if c == 'n' {
          text := text + ['\n'];
        } else {
          return Thrown, next;
        }
      } else if c == '"' {
        next := next + 1;
        return Got(text), next;
      } else {
        text := text + [c];
      }
      next := next + 1;
    }
    end := Thrown;
  }

  method ReadLetters(str: string, pos: nat) returns (word: string, next: nat)
    requires pos <= |str|
    ensures pos <= next <= |str| && word == Letters(str[pos..]) && str[next..] == AfterLetters(str[pos..])
    ensures pos < |str| && IsAlpha(str[pos]) ==> pos < next
  {
    word, next := "", pos;
    while next < |str|
      invariant pos <= next <= |str| && word + Letters(str[next..]) == Letters(str[pos..])
      invariant AfterLetters(str[next..]) == AfterLetters(str[pos..])
      invariant pos < |str| && IsAlpha(str[pos]) && next == pos ==> word == ""
    {
      Next(str, next);
      if IsAlpha(str[next]) {
        word := word + [str[next]];
      } else {
        break;
      }
      next := next + 1;
    }
    assert Letters(str[next..]) == "";
  }

  method ReadBool(str: string, pos: nat) returns (end: Ended<bool>, next: nat)
    requires pos < |str| && IsAlpha(str[pos])
    ensures pos < next <= |str| && Agrees(GetBool(str[pos..]), end, str[next..])
  {
    var key;
    key, next := ReadLetters(str, pos);
    if key == "true" {
      return Got(true), next;
    } else if key == "false" {
      return Got(false), next;
    }
    end := Thrown;
  }

  method ReadNull(str: string, pos: nat) returns (end: Ended<()>, next: nat)
    requires pos < |str| && IsAlpha(str[pos])
    ensures pos < next <= |str| && Agrees(GetNull(str[pos..]), end, str[next..])
  {
    var key;
    key, next := ReadLetters(str, pos);
    end := if key == "null" then Got(()) else Thrown;
  }

  // sym says that a point was read; what follows a point does not matter here.
  method ReadDigits(str: string, pos: nat) returns (sym: bool, tmp: string, next: nat)
    requires pos <= |str|
    ensures pos <= next <= |str| && (sym <==> At(AfterDigits(str[pos..])) == '.')
    ensures !sym ==> tmp == Digits(str[pos..]) && str[next..] == AfterDigits(str[pos..])
    ensures pos < |str| && IsDigit(str[pos]) ==> pos < next
  {
    sym, tmp, next := false, "", pos;
    while next < |str|
      invariant pos <= next <= |str|
      invariant sym ==> At(AfterDigits(str[pos..])) == '.'
      invariant !sym ==> tmp + Digits(str[next..]) == Digits(str[pos..])
      invariant !sym ==> AfterDigits(str[next..]) == AfterDigits(str[pos..])
      invariant sym && pos < |str| && IsDigit(str[pos]) ==> pos < next
    {
      Next(str, next);
      if IsDigit(str[next]) {
        tmp := tmp + [str[next]];
        next := next + 1;
      } else if str[next] == '.' {
        tmp := tmp + [str[next]];
        next := next + 1;
        if !sym {
          sym := true;
        } else {
          return;
        }
      } else {
        break;
      }
    }
  }

  method ReadNum(str: string, pos: nat) returns (end: Ended<int>, next: nat)
    requires pos < |str| && (str[pos] == '-' || IsDigit(str[pos]))
    ensures pos <= next <= |str| && Agrees(GetNum(str[pos..]), end, str[next..])
    ensures end.Got? ==> pos < next
  {
    if str[pos] == '-' {
      return Endless, pos;
    }
    var sym, tmp;
    sym, tmp, next := ReadDigits(str, pos);
    if sym {
      end := Pointed;
    } else {
      end := if DigitsValue(tmp) > INT64_MAX then Thrown else Got(DigitsValue(tmp));
    }
  }

  // --- Reading containers ---

  method ParseVec(str: string, pos: nat) returns (end: Ended<Value>, next: nat)
    requires pos < |str| && str[pos] == '['
    ensures pos < next <= |str| && Agrees(GetVec(str[pos..]), end, str[next..])
    decreases |str| - pos, 0
  {
    Next(str, pos);
    next := pos + 1;
    var vec := Null;
    hide Item;
    while next < |str|
      invariant pos < next <= |str| && GetVec(str[pos..]) == VecLoop(str[next..], vec)
    {
      Next(str, next);
      var c := str[next];
      if c == ']' {
        next := next + 1;
        return Got(vec), next;
      } else if c == ',' || IsSpace(c) {
        next := next + 1;
      } else {
        end, next := ParseItem(str, next);
        if !end.Got? { return; }
        vec := Add(vec, end.v);
      }
    }
    end := Got(Null);
  }

  // The cases of the two loops that read a value.
  method ParseItem(str: string, pos: nat) returns (end: Ended<Value>, next: nat)
    requires pos < |str|
    ensures pos <= next <= |str| && Agrees(Item(str[pos..]), end, str[next..])
    ensures end.Got? ==> pos < next
    decreases |str| - pos, 2
  {
    hide GetVec, GetObj, GetText, GetNull, GetBool, GetNum;
    Next(str, pos);
    var c := str[pos];
    if c == '[' {
      end, next := ParseVec(str, pos);
    } else if c == '{' {
      end, next := ParseObj(str, pos);
    } else if c == '"' {
      var text;
      text, next := ReadText(str, pos);
      end := if text.Got? then Got(Str(text.v)) else Failed(text);
    } else if c == 'n' {
      var none;
      none, next := ReadNull(str, pos);
      end := if none.Got? then Got(Null) else Failed(none);
    } else if c == 'f' || c == 't' {
      var b;
      b, next := ReadBool(str, pos);
      end := if b.Got? then Got(Bool(b.v)) else Failed(b);
    } else if c == '-' || IsDigit(c) {
      var num;
      num, next := ReadNum(str, pos);
      end := if num.Got? then Got(Num(num.v)) else Failed(num);
    } else {
      return Endless, pos;
    }
  }

  function Failed<T, U>(e: Ended<T>): Ended<U>
    requires !e.Got?
  {
    if e.Thrown? then Thrown else if e.Endless? then Endless else Pointed
  }

  // A key and the check that a colon comes next.
  method ParseKey(str: string, pos: nat) returns (end: Ended<string>, next: nat)
    requires pos < |str|
    ensures pos < next <= |str| && Agrees(GetKey(str[pos..]), end, str[next..])
  {
    end, next := ReadText(str, pos);
    if !end.Got? { return; }
    var colon;
    colon, next := CheckNext(str, next, ':');
    if !colon.Got? { end := Failed(colon); }
  }

  method CheckNext(str: string, pos: nat, ch: char) returns (end: Ended<()>, next: nat)
    requires pos <= |str|
    ensures pos <= next <= |str| && Agrees(CheckAhead(str[pos..], ch), end, str[next..])
  {
    next := SkipSpaces(str, pos);
    if next >= |str| || str[next] != ch {
      return Thrown, next;
    }
    end := Got(());
  }

  method ParseObj(str: string, pos: nat) returns (end: Ended<Value>, next: nat)
    requires pos <= |str|
    ensures pos <= next <= |str| && Agrees(GetObj(str[pos..]), end, str[next..])
    ensures pos < |str| && str[pos] == '{' ==> pos < next
    decreases |str| - pos, if pos < |str| && str[pos] == '{' then 1 else 6
  {
    hide ObjLoop, GetVec;
    if pos < |str| { Next(str, pos); }
    next := SkipSpaces(str, pos);
    if next >= |str| { return Thrown, next; }
    Next(str, next);
    if str[next] == '{' {
      next := next + 1;
    }
    if next < |str| && str[next] == '[' {
      end, next := ParseVec(str, next);
    } else {
      end, next := ParseMembers(str, next);
    }
  }

  // The case for null, which runs on into the case for an object.
  method ParseNullMember(str: string, pos: nat, key: string) returns (end: Ended<Value>, next: nat)
    requires pos < |str| && str[pos] == 'n'
    ensures pos < next <= |str| && Agrees(NullMember(str[pos..], key), end, str[next..])
    decreases |str| - pos, 3
  {
    var none;
    none, next := ReadNull(str, pos);
    if !none.Got? { return Failed(none), next; }
    if key == "" { return Thrown, next; }
    end, next := ParseObj(str, next);
  }

  // How one turn of that loop ends: done says that get_obj returns or throws.
  ghost predicate Turned(turn: Turn, done: bool, end: Ended<Value>, obj: Value, key: string, rest: string) {
    if done then turn.End? && Agrees(turn.out, end, rest) else turn == Go(obj, key, rest)
  }

  method ParseTurn(str: string, pos: nat, obj: Value, key: string)
    returns (done: bool, end: Ended<Value>, obj': Value, key': string, next: nat)
    requires pos < |str|
    ensures pos <= next <= |str| && (!done ==> pos < next)
    ensures Turned(ObjTurn(str[pos..], obj, key), done, end, obj', key', str[next..])
    decreases |str| - pos, 4
  {
    hide Item, Set, NullMember, GetKey, CheckAhead;
    Next(str, pos);
    done, end, obj', key', next := false, Thrown, obj, key, pos;
    var c := str[pos];
    if c == '"' && key == "" {
      var text;
      text, next := ParseKey(str, pos);
      if text.Got? {
        key' := text.v;
      } else {
        done, end := true, Failed(text);
      }
    } else if c == 'n' {
      obj' := Set(obj, key, Null);
      end, next := ParseNullMember(str, pos, key);
      done := !end.Got?;
      if !done { obj', key' := Set(obj', key, end.v), ""; }
    } else if c == '}' {
      done := true;
      if key == "" {
        next := pos + 1;
        end := Got(obj);
      }
    } else if c == ':' {
      if key == "" {
        done := true;
      } else {
        next := pos + 1;
      }
    } else if c == ',' {
      var quote;
      quote, next := CheckNext(str, pos + 1, '"');
      done := !quote.Got?;
    } else if IsSpace(c) {
      next := pos + 1;
    } else if key == "" && (c == 'f' || c == 't' || c == '{') {
      done := true;
    } else {
      end, next := ParseItem(str, pos);
      done := !end.Got?;
      if !done { obj', key' := Set(obj, key, end.v), ""; }
    }
  }

  // The loop of get_obj.
  method ParseMembers(str: string, pos: nat) returns (end: Ended<Value>, next: nat)
    requires pos <= |str|
    ensures pos <= next <= |str| && Agrees(ObjLoop(str[pos..], Null, ""), end, str[next..])
    decreases |str| - pos, 5
  {
    hide ObjTurn;
    next := pos;
    var obj, key, done := Null, "", false;
    while next < |str|
      invariant pos <= next <= |str| && ObjLoop(str[pos..], Null, "") == ObjLoop(str[next..], obj, key)
    {
      done, end, obj, key, next := ParseTurn(str, next, obj, key);
      if done { return; }
    }
    end := Got(Null);
  }

  function EndOf<T>(o: Out<T>): Ended<T> {
    match o
    case Ok(v, _) => Got(v)
    case Bad => Thrown
    case Hang => Endless
    case Float => Pointed
  }

  /**
   What a text is built to: from a printed document the document, exactly when it is plain; from a document written
   with blanks, escapes and members in any order what it says.
   */
  method BuildText(text: string) returns (end: Ended<Value>)
    ensures end == EndOf(Build(text))
    ensures forall v: Value :: Keyed(v) && (v.Vec? || v.Obj?) && text == Print(v) ==> (end == Got(v) <==> Plain(v))
    ensures forall lead: string, d: D.Doc, rest: string ::
      D.Blank(lead) && D.DocOk(d) && (d.VecDoc? || d.ObjDoc?) && text == lead + (D.Text(d) + rest) ==> end == Got(D.Meaning(d))
  {
    var next;
    end, next := ParseObj(text, 0);
    assert text[0..] == text;
    forall v: Value | Keyed(v) && (v.Vec? || v.Obj?) && text == Print(v)
      ensures end == Got(v) <==> Plain(v)
    {
      BuildInvertsPrintIff(v);
    }
    forall lead: string, d: D.Doc, rest: string |
        D.Blank(lead) && D.DocOk(d) && (d.VecDoc? || d.ObjDoc?) && text == lead + (D.Text(d) + rest)
      ensures end == Got(D.Meaning(d))
    {
      D.BuildReadsText(lead, d, rest);
    }
  }
}
