/** Exactly which texts are read as a string, a number or a word, whatever stands behind them. */
module JsonTokens {
  import opened Options
  import opened Json
  import opened JsonDocuments

  // --- Strings ---

  // What a string in the text stands for.
  ghost predicate Quoted(t: string, s: string, rest: string) {
    exists gs: seq<Glyph> :: GlyphsOk(gs) && Said(gs) == s && t == GlyphsText(gs) + ("\"" + rest)
  }

  lemma QuotedMore(g: Glyph, t: string, s: string, rest: string)
    requires GlyphOk(g) && Quoted(t, s, rest)
    ensures Quoted(GlyphText(g) + t, [g.c] + s, rest)
  {
    var gs: seq<Glyph> :| GlyphsOk(gs) && Said(gs) == s && t == GlyphsText(gs) + ("\"" + rest);
    var all := [g] + gs;
    assert all[1..] == gs && GlyphsOk(all) && Said(all) == [g.c] + s;
    assert GlyphText(g) + t == GlyphsText(all) + ("\"" + rest);
  }

  // The escape a backslash and the next character make, if they make one.
  function EscapeOf(c: char): Option<Glyph> {
    if c == '\\' || c == '/' || c == '"' then Some(Escaped(c))
    else if c == 'f' then Some(Escaped(12 as char)) else if c == 'b' then Some(Escaped(8 as char))
    else if c == 't' then Some(Escaped('\t')) else if c == 'n' then Some(Escaped('\n')) else None
  }

  lemma EscapeIs(c: char)
    requires EscapeOf(c).Some?
    ensures GlyphOk(EscapeOf(c).value) && GlyphText(EscapeOf(c).value) == ['\\', c]
  {
  }

  // What the loop does with the glyph in front.
  lemma GlyphInFront(t: string, text: string) returns (g: Glyph, tail: string)
    requires TextLoop(t, false, text).Ok? && t[0] != '"'
    ensures GlyphOk(g) && t == GlyphText(g) + tail && |tail| < |t|
    ensures TextLoop(tail, false, text + [g.c]) == TextLoop(t, false, text)
  {
    if t[0] == '\\' {
      var u := t[1..];
      assert TextLoop(t, false, text) == TextLoop(u, true, text);
      assert u != "" && EscapeOf(u[0]).Some?;
      g, tail := EscapeOf(u[0]).value, u[1..];
      EscapeIs(u[0]);
      assert t == [t[0], u[0]] + tail;
    } else {
      g, tail := Raw(t[0]), t[1..];
      assert t == [t[0]] + tail;
    }
  }

  lemma {:induction false} ReadIsQuoted(t: string, text: string, rest: string)
    requires TextLoop(t, false, text).Ok? && TextLoop(t, false, text).rest == rest
    ensures text <= TextLoop(t, false, text).v && Quoted(t, TextLoop(t, false, text).v[|text|..], rest)
    decreases |t|
  {
    var s := TextLoop(t, false, text).v;
    if t[0] == '"' {
      assert s == text && rest == t[1..];
      assert GlyphsOk([]) && Said([]) == s[|text|..] && t == GlyphsText([]) + ("\"" + rest);
    } else {
      hide TextLoop, Quoted, GlyphText, GlyphOk;
      var g, tail := GlyphInFront(t, text);
      ReadIsQuoted(tail, text + [g.c], rest);
      QuotedMore(g, tail, s[|text| + 1..], rest);
      assert [g.c] + s[|text| + 1..] == s[|text|..];
    }
  }

  /** A string is read if and only if it consists of characters as they are and of escapes that there are, up to a quote. */
  lemma StringIff(t: string, s: string, rest: string)
    requires t != ""
    ensures GetText(t) == Ok(s, rest) <==> Quoted(t[1..], s, rest)
  {
    if GetText(t) == Ok(s, rest) {
      ReadIsQuoted(t[1..], "", rest);
      assert s[0..] == s;
    }
    if Quoted(t[1..], s, rest) {
      var gs: seq<Glyph> :| GlyphsOk(gs) && Said(gs) == s && t[1..] == GlyphsText(gs) + ("\"" + rest);
      GlyphsRead(gs, "", rest);
      assert "" + Said(gs) == s;
    }
  }

  // --- Numbers and words ---

  predicate IsNumeral(c: char) { c in {'0', '1', '2', '3', '4', '5', '6', '7', '8', '9'} }

  function Worth(c: char): nat
    requires IsNumeral(c)
  {
    c as int - '0' as int
  }

  function NumeralValue(ds: string): nat
    requires forall c :: c in ds ==> IsNumeral(c)
  {
    if ds == "" then 0
    else
      var c := ds[|ds| - 1];
      assert c in ds && IsNumeral(c);
      10 * NumeralValue(ds[..|ds| - 1]) + Worth(c)
  }

  lemma {:induction false} ValueIs(ds: string)
    requires forall c :: c in ds ==> IsNumeral(c)
    ensures AllDigits(ds) && DigitsValue(ds) == NumeralValue(ds)
  {
    if ds != "" { ValueIs(ds[..|ds| - 1]); }
  }

  lemma {:induction false} DigitsSplit(t: string)
    ensures t == Digits(t) + AfterDigits(t) && (forall c :: c in Digits(t) ==> IsNumeral(c))
    ensures AfterDigits(t) == "" || !IsNumeral(AfterDigits(t)[0])
  {
    if t != "" && IsDigit(t[0]) { DigitsSplit(t[1..]); }
  }

  // The text begins with these digits and no others, and no point or minus sign is near.
  predicate IsNumber(t: string, ds: string, n: int, rest: string) {
    && (forall c :: c in ds ==> IsNumeral(c)) && n == NumeralValue(ds) <= 9_223_372_036_854_775_807
    && t == ds + rest && At(t) != '-' && At(rest) != '.' && !IsNumeral(At(rest))
  }

  /** A number is read if and only if it consists of digits only, no point follows, and its value is at most the greatest
      int64; a minus sign is never got over, and a number with a point has no value here. */
  lemma NumberIff(t: string, n: int, rest: string)
    ensures GetNum(t).Hang? <==> t != "" && t[0] == '-'
    ensures GetNum(t) == Ok(n, rest) <==>
      exists ds: string :: IsNumber(t, ds, n, rest)
  {
    DigitsSplit(t);
    ValueIs(Digits(t));
    assert GetNum(t) == Ok(n, rest) ==> IsNumber(t, Digits(t), n, rest);
    if ds: string :| IsNumber(t, ds, n, rest) {
      ValueIs(ds);
      DigitsStop(ds, rest);
    }
  }

  predicate IsLetter(c: char) { 'a' <= c <= 'z' || 'A' <= c <= 'Z' }

  lemma {:induction false} LettersSplit(t: string)
    ensures t == Letters(t) + AfterLetters(t) && (forall c :: c in Letters(t) ==> IsLetter(c))
    ensures AfterLetters(t) == "" || !IsLetter(AfterLetters(t)[0])
  {
    if t != "" && IsAlpha(t[0]) { LettersSplit(t[1..]); }
  }

  /** A word is read if and only if it is there as a whole, with no letter behind it. */
  lemma WordIff(t: string, rest: string)
    ensures GetBool(t) == Ok(true, rest) <==> t == "true" + rest && (rest == "" || !IsLetter(rest[0]))
    ensures GetBool(t) == Ok(false, rest) <==> t == "false" + rest && (rest == "" || !IsLetter(rest[0]))
    ensures GetNull(t) == Ok((), rest) <==> t == "null" + rest && (rest == "" || !IsLetter(rest[0]))
  {
    LettersSplit(t);
    if rest == "" || !IsLetter(rest[0]) {
      LettersStop("true", rest);
      LettersStop("false", rest);
      LettersStop("null", rest);
    }
  }
}
