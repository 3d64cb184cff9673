/**
 A frame that arrives in two calls of do_parse.  The parser starts again with every call: the bytes of a length or
 of a key are stored from the field's beginning, and the payload is unmasked from the key's first byte.  For every
 frame and every cut this module says exactly when that does no harm.
 */
module WebSocketCuts {
  import opened Options
  import opened Bytes
  import opened WebSocketFrames
  import opened WebSocketStreams

  // --- The condition ---

  function ExtBytes(n: nat): nat { if n <= 125 then 0 else if n <= 65535 then 2 else 8 }

  // After p of the length's bytes: two bytes never survive a cut, of eight all after the cut must be zero.
  predicate LengthCutOk(n: nat, p: nat)
    requires p <= 8
  {
    n > 65535 && n % Pow(8 - p) == 0
  }

  // The byte in place i when q of the key's bytes came in the call before.
  function KeyByte(key: seq<byte>, q: nat, i: nat): byte
    requires |key| == 4 && q <= 4 && i < 4
  {
    if q + i < 4 then key[q + i] else if i < q then key[i] else 0
  }

  // After q of the key's bytes: what is stored in place of a byte that is used must be that byte.
  predicate KeyCutOk(key: seq<byte>, q: nat, n: nat)
    requires |key| == 4 && q <= 4
  {
    forall i | 0 <= i < 4 && i < n :: KeyByte(key, q, i) == key[i]
  }

  // After p bytes of the payload: the key's bytes that are due must be those from its beginning.
  predicate PayloadCutOk(key: seq<byte>, p: nat, n: nat)
    requires |key| == 4
  {
    forall i, j | p <= i < n && 0 <= j < n && i == p + j :: key[i % 4] == key[j % 4]
  }

  predicate CutOk(f: Frame, k: nat)
    requires FrameOk(f)
  {
    var n := |f.payload|;
    var rest := k - 2 - ExtBytes(n);
    if 2 < k && rest < 0 then LengthCutOk(n, k - 2)
    else if rest <= 0 || !IsMasked(f) then true
    else if rest < 4 then KeyCutOk(KeyBytes(f), rest, n)
    else PayloadCutOk(KeyBytes(f), rest - 4, n)
  }

  // --- Two calls ---

  function TwoCalls(s: State, a: seq<byte>, b: seq<byte>): (r: Fed)
    requires Ok(s)
    ensures r.Going? ==> Ok(r.s)
  {
    match Feed(s, a)
    case Going(t) => Feed(NewCall(t), b)
    case Beyond => Beyond
  }

  lemma OneChunk(s: State, b: seq<byte>)
    requires Ok(s)
    ensures Ok(NewCall(s)) && FeedChunks(s, [b]) == Feed(NewCall(s), b)
  {
    hide Feed;
    assert Ok(NewCall(s));
    var r := Feed(NewCall(s), b);
    if r.Going? { assert FeedChunks(r.s, [b][1..]) == r; }
  }

  lemma TwoChunks(s: State, a: seq<byte>, b: seq<byte>)
    requires Ok(s) && s.since == 0
    ensures FeedChunks(s, [a, b]) == TwoCalls(s, a, b)
  {
    hide Feed, Ok;
    assert [a, b][1..] == [b];
    var r := Feed(s, a);
    if r.Going? {
      OneChunk(r.s, b);
    }
  }

  // What is handed on after d does not begin with m.
  predicate Without(r: Fed, d: seq<Message>, m: Message) { r.Going? ==> !(d + [m] <= r.s.delivered) }

  // Nor will it, whatever follows.
  ghost predicate Spoiled(r: Fed, d: seq<Message>, m: Message)
    requires r.Going? ==> Ok(r.s)
  {
    forall more: seq<byte> :: Without(Then(r, more), d, m)
  }

  lemma {:induction false} DeliveredGrows(s: State, data: seq<byte>)
    requires Ok(s)
    ensures Feed(s, data).Going? ==> s.delivered <= Feed(s, data).s.delivered
    decreases |data|
  {
    hide Turn, Ok;
    if data != [] {
      TurnGrows(s, data[0]);
      var r := Turn(s, data[0]);
      if r.Going? { DeliveredGrows(r.s, data[1..]); }
    }
  }

  lemma TurnGrows(s: State, b: byte)
    requires Ok(s)
    ensures Turn(s, b).Going? ==> s.delivered <= Turn(s, b).s.delivered
  {
    hide Xor, FromBE;
  }

  lemma WrongMessageSpoils(d: seq<Message>, m: Message, got: Message)
    requires got != m
    ensures Ok(Reset(d + [got])) && Spoiled(Going(Reset(d + [got])), d, m)
  {
    var s := Reset(d + [got]);
    forall more: seq<byte> ensures Without(Then(Going(s), more), d, m) {
      DeliveredGrows(s, more);
      assert (d + [got])[|d|] == got && (d + [m])[|d|] == m;
    }
  }

  // --- A wrong length ---

  predicate Waits(s: State, n: nat, d: seq<Message>) {
    (s.step.MaskKey? || s.step.Payload?) && s.header.realLen == n && s.delivered == d
  }

  predicate GotLength(s: State, n: nat, d: seq<Message>) {
    |s.delivered| > |d| && s.delivered[..|d|] == d && |s.delivered[|d|].payload| == n
  }

  lemma TurnWaits(s: State, b: byte, n: nat, d: seq<Message>)
    requires Ok(s) && (Waits(s, n, d) || GotLength(s, n, d))
    ensures var r := Turn(s, b); r.Going? ==> Waits(r.s, n, d) || GotLength(r.s, n, d)
  {
    hide Xor, FromBE;
  }

  // The next message has the length that was announced.
  lemma {:induction false} NextHasLength(s: State, data: seq<byte>, n: nat, d: seq<Message>)
    requires Ok(s) && (Waits(s, n, d) || GotLength(s, n, d))
    ensures var r := Feed(s, data); r.Going? ==> r.s.delivered == d || GotLength(r.s, n, d)
    decreases |data|
  {
    hide Turn, Ok, GotLength;
    if data != [] {
      TurnWaits(s, data[0], n, d);
      var r := Turn(s, data[0]);
      if r.Going? { NextHasLength(r.s, data[1..], n, d); }
    }
  }

  lemma WrongLengthSpoils(s: State, data: seq<byte>, n: nat, d: seq<Message>, m: Message)
    requires Ok(s) && Waits(s, n, d) && |m.payload| != n
    ensures Spoiled(Feed(s, data), d, m)
  {
    forall more: seq<byte> ensures Without(Then(Feed(s, data), more), d, m) {
      FeedJoins(s, data, more);
      NextHasLength(s, data + more, n, d);
      assert (d + [m])[|d|] == m;
    }
  }

  // --- Cuts in the length ---

  // What is stored of the length b when p of its bytes came in the call before.
  function StoredLength(b: seq<byte>, p: nat): seq<byte>
    requires |b| <= 8 && p <= |b|
  {
    b[p..] + (b[..p] + NO_HEADER.ext[p..])[|b| - p..|b|]
  }

  lemma LengthInTwoCalls(t: State, b: seq<byte>, p: nat)
    requires Ok(t) && t.step.ExtLen? && t.since == 0 && t.extPos == 0 && t.header.ext == NO_HEADER.ext
    requires |b| == ExtSize(t.header) && 0 < p < |b|
    ensures var u := TwoCalls(t, b[..p], b[p..]); var n := FromBE(StoredLength(b, p));
      if n >= LIMIT then u.Beyond?
      else u.Going? && u.s == AfterLength(u.s) && u.s.header == t.header.(ext := u.s.header.ext, realLen := n)
           && u.s.payload == [] && u.s.keyPos == 0 && u.s.delivered == t.delivered && u.s.step == AfterLength(t).step
  {
    hide Feed, FromBE, DecodeExt;
    FirstStored(t, b, p);
    var v := NewCall(ExtTaken(t, b[..p]));
    SecondStored(v, b, p);
    hide StoredLength, ExtTaken;
    LengthDecoded(ExtTaken(v, b[p..]), FromBE(StoredLength(b, p)));
  }

  lemma SecondStored(v: State, b: seq<byte>, p: nat)
    requires Ok(v) && v.step.ExtLen? && v.since == 0 && v.extPos == p && 0 < p < |b| == ExtSize(v.header)
    requires v.header.ext == b[..p] + NO_HEADER.ext[p..]
    ensures var w := ExtTaken(v, b[p..]); Feed(v, b[p..]) == DecodeExt(w) && w.header.ext[..|b|] == StoredLength(b, p)
  {
    hide Feed, DecodeExt, StoredLength, ExtTaken;
    FeedExt(v, b[p..]);
    TakenFromBeginning(v, b[p..]);
    Overwritten(b, p);
  }

  lemma TakenFromBeginning(v: State, d: seq<byte>)
    requires |v.header.ext| == 8 && v.since == 0 && |d| <= 8
    ensures var w := ExtTaken(v, d);
      w.header.ext == d + v.header.ext[|d|..] && w.extPos == v.extPos + |d| && w.header.len7 == v.header.len7
  {
    assert v.header.ext[..0] + d == d;
  }

  lemma Overwritten(b: seq<byte>, p: nat)
    requires |b| <= 8 && p <= |b|
    ensures var e := b[..p] + NO_HEADER.ext[p..]; (b[p..] + e[|b| - p..])[..|b|] == StoredLength(b, p)
  {
  }

  lemma FirstStored(t: State, b: seq<byte>, p: nat)
    requires Ok(t) && t.step.ExtLen? && t.since == 0 && t.extPos == 0 && t.header.ext == NO_HEADER.ext
    requires |b| == ExtSize(t.header) && 0 < p < |b|
    ensures var u := ExtTaken(t, b[..p]); Feed(t, b[..p]) == Going(u) && u.header.ext == b[..p] + NO_HEADER.ext[p..]
  {
    hide Feed, DecodeExt;
    FeedExt(t, b[..p]);
  }

  lemma LengthDecoded(w: State, n: nat)
    requires |w.header.ext| == 8 && n == FromBE(w.header.ext[..ExtSize(w.header)])
    ensures var u := DecodeExt(w);
      if n >= LIMIT then u.Beyond?
      else u == Going(AfterLength(w.(header := w.header.(realLen := n)))) && u.s == AfterLength(u.s)
  {
    hide FromBE;
  }

  lemma {:induction false} LowBytes(n: nat, k: nat, j: nat)
    requires j <= k
    ensures n % Pow(j) == 0 <==> forall i | k - j <= i < k :: BE(n, k)[i] == 0
    decreases j
  {
    if j > 0 {
      var q, m := n / 256, Pow(j - 1);
      LowBytes(q, k - 1, j - 1);
      assert BE(n, k) == BE(q, k - 1) + [n % 256];
      Remainder(n, m);
      if n % Pow(j) == 0 {
        forall i | k - j <= i < k ensures BE(n, k)[i] == 0 {
          if i < k - 1 { assert BE(n, k)[i] == BE(q, k - 1)[i]; }
        }
      }
      if forall i | k - j <= i < k :: BE(n, k)[i] == 0 {
        assert BE(n, k)[k - 1] == 0;
        var high := BE(q, k - 1);
        forall i | k - j <= i < k - 1 ensures high[i] == 0 {
          assert BE(n, k)[i] == high[i];
        }
      }
    }
  }

  lemma Remainder(n: nat, m: nat)
    requires m > 0
    ensures n % (256 * m) == 0 <==> n % 256 == 0 && n / 256 % m == 0
  {
    var q, r := n / 256, n % 256;
    var a, b := q / m, q % m;
    assert n == 256 * m * a + (256 * b + r) by {
      assert 256 * (m * a + b) == 256 * m * a + 256 * b;
    }
    assert 256 * b + r < 256 * m;
    Quotient(n, 256 * m, a, 256 * b + r);
  }

  lemma Times(m: nat, a: nat, b: nat)
    requires a <= b
    ensures m * a <= m * b
  {
  }

  lemma Quotient(n: nat, m: nat, a: nat, r: nat)
    requires m > 0 && n == m * a + r && r < m
    ensures n % m == r
  {
    var q := n / m;
    assert m * q <= n < m * q + m;
    if q < a { Times(m, q + 1, a); } else if q > a { Times(m, a + 1, q); }
  }

  lemma StoredAt(b: seq<byte>, p: nat, i: nat)
    requires |b| <= 8 && p <= |b| && i < |b|
    ensures |StoredLength(b, p)| == |b|
    ensures StoredLength(b, p)[i] == if p + i < |b| then b[p + i] else if i < p then b[i] else 0
  {
    var m, old8 := |b|, b[..p] + NO_HEADER.ext[p..];
    if p + i >= m {
      assert StoredLength(b, p)[i] == old8[m - p..m][i - (m - p)] == old8[i];
      if i >= p { assert old8[i] == NO_HEADER.ext[p..][i - p] == NO_HEADER.ext[i]; }
    }
  }

  // Which bytes must be alike for the length to be stored as it is.
  lemma StoredAlike(b: seq<byte>, p: nat)
    requires |b| in {2, 8} && 0 < p < |b| && (|b| == 8 ==> forall i | 0 <= i < 4 :: b[i] == 0)
    ensures StoredLength(b, p) == b <==> forall i | (if |b| == 8 then p else 0) <= i < |b| :: b[i] == 0
  {
    hide StoredLength;
    var s, m := StoredLength(b, p), |b|;
    StoredAt(b, p, 0);
    if s == b {
      forall i | (if m == 8 then p else 0) <= i < m ensures b[i] == 0 {
        if m == 8 {
          Repeats(b, p, i);
        } else {
          StoredAt(b, p, 1);
        }
      }
    }
    if forall i | (if m == 8 then p else 0) <= i < m :: b[i] == 0 {
      forall i | 0 <= i < m ensures s[i] == b[i] {
        StoredAt(b, p, i);
        if p + i < m { assert b[p + i] == 0; }
        if i >= 4 { assert p + i < m ==> p <= i; }
      }
    }
  }

  lemma {:induction false} Repeats(b: seq<byte>, p: nat, i: nat)
    requires |b| == 8 && 0 < p && p <= i < 8 && StoredLength(b, p) == b
    requires forall j | 0 <= j < 4 :: b[j] == 0
    ensures b[i] == 0
    decreases i
  {
    StoredAt(b, p, i - p);
    if i - p >= 4 { Repeats(b, p, i - p); }
  }

  lemma LengthStoredIff(n: nat, p: nat)
    requires 125 < n < LIMIT && 0 < p < ExtBytes(n)
    ensures FromBE(StoredLength(BE(n, ExtBytes(n)), p)) == n <==> LengthCutOk(n, p)
  {
    hide FromBE, StoredLength;
    var m := ExtBytes(n);
    var b := BE(n, m);
    PowValues();
    BERoundTrip(n, m);
    FromBERoundTrip(StoredLength(b, p)) by { StoredLengthSize(b, p); }
    StoredLengthSize(b, p);
    if m == 8 {
      BE8(n);
      assert BE(n / LIMIT, 4) == [0, 0, 0, 0] by { BE4(0); }
      LowBytes(n, 8, 8 - p);
    } else {
      LowBytes(n, 2, 2);
    }
    StoredAlike(b, p);
  }

  lemma StoredLengthSize(b: seq<byte>, p: nat)
    requires |b| <= 8 && p <= |b|
    ensures |StoredLength(b, p)| == |b|
  {
  }

  // --- Cuts in the key and in the payload ---

  lemma UnmaskedIff(a: byte, x: byte, y: byte)
    ensures Xor(Xor(a, x), y) == a <==> x == y
  {
    hide Xor;
    XorTwice(a, x);
    XorInjective(Xor(a, x), x, y);
  }

  // Masked from the key's beginning and unmasked with another key from its own.
  lemma RemaskedIff(d: seq<byte>, key: seq<byte>, other: seq<byte>, i: nat)
    requires |key| == 4 && |other| == 4
    ensures Masked(Masked(d, key, i), other, 0) == d <==> forall h, j | i <= h < i + |d| && 0 <= j < i + |d| && h == i + j :: key[h % 4] == other[j % 4]
  {
    hide Xor;
    var r := Masked(Masked(d, key, i), other, 0);
    forall j | 0 <= j < |d| ensures r[j] == d[j] <==> key[(i + j) % 4] == other[j % 4] {
      assert r[j] == Xor(Xor(d[j], key[(i + j) % 4]), other[j % 4]);
      UnmaskedIff(d[j], key[(i + j) % 4], other[j % 4]);
    }
  }

  function StoredKey(key: seq<byte>, q: nat): (r: seq<byte>)
    requires |key| == 4 && q <= 4
    ensures |r| == 4
  {
    key[q..] + (key[..q] + NO_HEADER.key[q..])[4 - q..]
  }

  lemma StoredKeyAt(key: seq<byte>, q: nat, i: nat)
    requires |key| == 4 && q <= 4 && i < 4
    ensures StoredKey(key, q)[i] == KeyByte(key, q, i)
  {
    var old4 := key[..q] + NO_HEADER.key[q..];
    if q + i >= 4 {
      assert StoredKey(key, q)[i] == old4[4 - q..][i - (4 - q)] == old4[i];
      if i >= q { assert old4[i] == NO_HEADER.key[q..][i - q] == NO_HEADER.key[i]; }
    }
  }

  lemma KeyStoredIff(key: seq<byte>, q: nat, n: nat)
    requires |key| == 4 && q <= 4
    ensures KeyCutOk(key, q, n) <==> forall i, j | 0 <= i < 0 + n && 0 <= j < 0 + n && i == 0 + j :: key[i % 4] == StoredKey(key, q)[j % 4]
  {
    hide StoredKey, KeyByte;
    var s := StoredKey(key, q);
    forall i | 0 <= i < 4 ensures s[i] == KeyByte(key, q, i) {
      StoredKeyAt(key, q, i);
    }
    if KeyCutOk(key, q, n) {
      forall i, j | 0 <= i < 0 + n && 0 <= j < 0 + n && i == 0 + j ensures key[i % 4] == s[j % 4] {
        assert 0 <= j % 4 < 4 && j % 4 < n;
        assert KeyByte(key, q, j % 4) == key[j % 4];
      }
    }
    if forall i, j | 0 <= i < 0 + n && 0 <= j < 0 + n && i == 0 + j :: key[i % 4] == s[j % 4] {
      forall i | 0 <= i < 4 && i < n ensures KeyByte(key, q, i) == key[i] {
        assert key[i % 4] == s[i % 4];
      }
    }
  }

  // Where the key begins: the frame's length has been read.
  predicate AtBody(s: State, f: Frame) {
    && Ok(s) && s.since == 0 && s.header.realLen == |f.payload| > 0 && s.payload == [] && s.keyPos == 0
    && s.header.key == NO_HEADER.key
    && FrameOk(f) && s.header.masked == IsMasked(f) && s.header.masked == s.step.MaskKey? && s.step == AfterLength(s).step
  }

  function Got(s: State, payload: seq<byte>): Message {
    Message(payload, s.header.opcode, s.header.fin != 0)
  }

  lemma CutInKey(s: State, f: Frame, q: nat)
    requires AtBody(s, f) && IsMasked(f) && 0 < q < 4
    ensures var all := MaskAndPayload(f);
      TwoCalls(s, all[..q], all[q..])
      == Going(Reset(s.delivered + [Got(s, Masked(Masked(f.payload, KeyBytes(f), 0), StoredKey(KeyBytes(f), q), 0))]))
  {
    hide Feed, TwoCalls, Masked, BE, StoredKey;
    var key, all := KeyBytes(f), MaskAndPayload(f);
    var d := Masked(f.payload, key, 0);
    assert all[..q] == key[..q] && all[q..] == key[q..] + d;
    KeyInTwoCalls(s, key, q);
    LaterMore(s, key[..q], key[q..], d);
    var u := TwoCalls(s, key[..q], key[q..]).s;
    FeedPayload(u, d);
    assert [] + Masked(d, StoredKey(key, q), 0) == Masked(d, StoredKey(key, q), 0);
  }

  lemma KeyInTwoCalls(s: State, key: seq<byte>, q: nat)
    requires Ok(s) && s.step.MaskKey? && s.since == 0 && s.keyPos == 0 && s.header.key == NO_HEADER.key
    requires |key| == 4 && 0 < q < 4
    ensures TwoCalls(s, key[..q], key[q..])
      == Going(s.(header := s.header.(key := StoredKey(key, q)), keyPos := 4, step := Payload, since := 0))
  {
    hide Feed, StoredKey, KeyTaken;
    FeedKey(s, key[..q]);
    KeyTakenFromBeginning(s, key[..q]);
    var t := NewCall(KeyTaken(s, key[..q]));
    FeedKey(t, key[q..]);
    KeyTakenFromBeginning(t, key[q..]);
    KeyOverwritten(key, q);
  }

  lemma KeyTakenFromBeginning(s: State, d: seq<byte>)
    requires |s.header.key| == 4 && s.since == 0 && |d| <= 4
    ensures KeyTaken(s, d)
      == s.(header := s.header.(key := d + s.header.key[|d|..]), keyPos := s.keyPos + |d|, since := |d|)
  {
    assert s.header.key[..0] + d == d;
  }

  lemma KeyOverwritten(key: seq<byte>, q: nat)
    requires |key| == 4 && q <= 4
    ensures var e := key[..q] + NO_HEADER.key[q..]; key[q..] + e[4 - q..] == StoredKey(key, q)
  {
  }

  lemma CutInPayload(s: State, f: Frame, p: nat)
    requires AtBody(s, f) && 0 < p < |f.payload|
    ensures var all := MaskAndPayload(f); var k := if IsMasked(f) then 4 + p else p;
      TwoCalls(s, all[..k], all[k..])
      == Going(Reset(s.delivered + [Got(s, if IsMasked(f)
           then f.payload[..p] + Masked(Masked(f.payload[p..], KeyBytes(f), p), KeyBytes(f), 0) else f.payload)]))
  {
    hide Feed, Masked, BE;
    var all, a, b := MaskAndPayload(f), f.payload[..p], f.payload[p..];
    assert a + b == f.payload;
    if IsMasked(f) {
      var key := KeyBytes(f);
      MaskedApart(f.payload, key, p);
      var x, y := Masked(a, key, 0), Masked(b, key, p);
      assert all[..4 + p] == key + x && all[4 + p..] == y;
      FeedJoins(s, key, x);
      FeedKey(s, key);
      var t := KeyTaken(s, key);
      assert t.header.key == key;
      var u := t.(step := Payload, since := 0);
      FeedPayload(u, x);
      MaskedTwice(a, key, 0);
      assert [] + a == a;
      var v := NewCall(PayloadTaken(u, x));
      FeedPayload(v, y);
    } else {
      FeedPayload(s, a);
      assert [] + a == a;
      FeedPayload(NewCall(PayloadTaken(s, a)), b);
    }
  }

  lemma MaskedApart(d: seq<byte>, key: seq<byte>, p: nat)
    requires |key| == 4 && p <= |d|
    ensures Masked(d, key, 0) == Masked(d[..p], key, 0) + Masked(d[p..], key, p)
  {
    hide Xor;
    var all, x, y := Masked(d, key, 0), Masked(d[..p], key, 0), Masked(d[p..], key, p);
    forall j | 0 <= j < |d| ensures all[j] == (x + y)[j] {
      if j >= p { assert p + (j - p) == j; }
    }
  }

  lemma PrefixedIff(a: seq<byte>, b: seq<byte>, c: seq<byte>)
    ensures a + b == a + c <==> b == c
  {
    assert (a + b)[|a|..] == b && (a + c)[|a|..] == c;
  }

  // --- All cuts ---

  // A cut where nothing of a field has been taken yet.
  lemma CutBetween(s: State, a: seq<byte>, b: seq<byte>)
    requires Ok(s) && (Feed(s, a).Going? ==> Feed(s, a).s.since == 0)
    ensures TwoCalls(s, a, b) == Feed(s, a + b)
  {
    FeedJoins(s, a, b);
  }

  // A cut after a first part that is taken whole.
  lemma CutLater(s: State, a: seq<byte>, b: seq<byte>, c: seq<byte>)
    requires Ok(s) && Feed(s, a).Going?
    ensures TwoCalls(s, a + b, c) == TwoCalls(Feed(s, a).s, b, c)
  {
    FeedJoins(s, a, b);
  }

  // After the first two bytes, when the length has more.
  lemma LongHead(s: State, n: nat, flag: byte)
    requires AtLength(s) && flag in {0, 128} && 125 < n < LIMIT
    ensures var len7 := if n <= 65535 then 126 else 127;
      Feed(s, LengthBytes(n, flag)[..1])
      == Going(s.(header := s.header.(masked := flag == 128, len7 := len7), step := ExtLen, since := 0))
  {
    var len7: byte := if n <= 65535 then 126 else 127;
    FirstLengthByte(n, flag, len7);
    hide LengthBytes, Turn;
    FeedOne(s, flag + len7);
    LongTurn(s, flag, len7);
  }

  lemma FirstLengthByte(n: nat, flag: byte, len7: byte)
    requires flag in {0, 128} && 125 < n < LIMIT && len7 == if n <= 65535 then 126 else 127
    ensures LengthBytes(n, flag)[..1] == [flag + len7]
  {
    hide BE;
  }

  lemma LongTurn(s: State, flag: byte, len7: byte)
    requires AtLength(s) && flag in {0, 128} && len7 in {126, 127}
    ensures Turn(s, flag + len7)
      == Going(s.(header := s.header.(masked := flag == 128, len7 := len7), step := ExtLen, since := 0))
  {
    hide Deliver, AfterLength;
    SecondByte(flag, len7);
  }

  lemma SecondByte(flag: byte, len7: byte)
    requires flag in {0, 128} && len7 < 128
    ensures (flag + len7) % 128 == len7 && (flag + len7 >= 128 <==> flag == 128)
  {
  }

  lemma CutInLength(d: seq<Message>, f: Frame, k: nat)
    requires FrameOk(f) && 2 < k < 2 + ExtBytes(|f.payload|)
    ensures var w := MakeFrame(f); var r := TwoCalls(Reset(d), w[..k], w[k..]);
      if CutOk(f, k) then r == Going(Reset(d + [Sent(f)])) else Spoiled(r, d, Sent(f))
  {
    hide Feed, MaskAndPayload, BE, FromBE, StoredLength, LengthCutOk;
    var n, flag, w := |f.payload|, if IsMasked(f) then 128 else 0, MakeFrame(f);
    var s, m, p := OnFixedHeader(Reset(d), FirstByte(f)), ExtBytes(n), k - 2;
    var b, body, two := BE(n, m), MaskAndPayload(f), [FirstByte(f)] + LengthBytes(n, flag)[..1];
    HeaderTaken(d, f);
    FeedJoins(Reset(d), [FirstByte(f)], LengthBytes(n, flag)[..1]);
    LongHead(s, n, flag);
    var t := Feed(Reset(d), two).s;
    assert w == two + b + body;
    assert w[..k] == two + b[..p] && w[k..] == b[p..] + body;
    CutLater(Reset(d), two, b[..p], w[k..]);
    LengthInTwoCalls(t, b, p);
    LaterMore(t, b[..p], b[p..], body);
    LengthStoredIff(n, p);
    var r, q := TwoCalls(t, b[..p], b[p..]), FromBE(StoredLength(b, p));
    if r.Going? {
      if q == n {
        BodyTaken(r.s, f);
      } else {
        WrongLengthSpoils(r.s, body, q, d, Sent(f));
      }
    }
  }

  // More bytes in the second call.
  lemma LaterMore(s: State, a: seq<byte>, b: seq<byte>, c: seq<byte>)
    requires Ok(s)
    ensures TwoCalls(s, a, b + c) == Then(TwoCalls(s, a, b), c)
  {
    hide Turn;
    var r := Feed(s, a);
    if r.Going? { FeedJoins(NewCall(r.s), b, c); }
  }

  // A frame's bytes up to its key or payload.
  lemma HeadTaken(d: seq<Message>, f: Frame) returns (s: State, head: seq<byte>)
    requires FrameOk(f) && f.payload != []
    ensures MakeFrame(f) == head + MaskAndPayload(f) && |head| == 2 + ExtBytes(|f.payload|)
    ensures Feed(Reset(d), head) == Going(s) && AtBody(s, f) && s.delivered == d
    ensures forall p :: Got(s, p) == Message(p, f.opcode, f.fin)
  {
    hide Feed, MaskAndPayload, BE;
    var n, flag, h := |f.payload|, if IsMasked(f) then 128 else 0, OnFixedHeader(Reset(d), FirstByte(f));
    head := [FirstByte(f)] + LengthBytes(n, flag);
    HeaderTaken(d, f);
    FeedJoins(Reset(d), [FirstByte(f)], LengthBytes(n, flag));
    if n <= 125 { ShortLength(h, n, flag); } else { LongLength(h, n, flag); }
    s := Announced(h, n, flag == 128);
  }

  // No byte of the key, or none of the payload, has been taken.
  lemma BodyBetween(s: State, f: Frame, at: nat)
    requires AtBody(s, f) && (at == 0 || (at == 4 && IsMasked(f)))
    ensures at <= |MaskAndPayload(f)|
    ensures TwoCalls(s, MaskAndPayload(f)[..at], MaskAndPayload(f)[at..]) == Going(Reset(s.delivered + [Got(s, f.payload)]))
  {
    hide Masked, BE, Feed;
    var all := MaskAndPayload(f);
    assert all[..at] + all[at..] == all;
    BodyTaken(s, f);
    if at == 4 {
      assert all[..4] == KeyBytes(f);
      FeedKey(s, KeyBytes(f));
    } else {
      assert all[..0] == [];
      NothingMore(s);
    }
    CutBetween(s, all[..at], all[at..]);
  }

  // What a cut at this place makes of the payload.
  function Received(f: Frame, at: nat): seq<byte>
    requires FrameOk(f) && at < |MaskAndPayload(f)|
  {
    if !IsMasked(f) || at in {0, 4} then f.payload
    else
      var key := KeyBytes(f);
      if at < 4 then Masked(Masked(f.payload, key, 0), StoredKey(key, at), 0)
      else f.payload[..at - 4] + Masked(Masked(f.payload[at - 4..], key, at - 4), key, 0)
  }

  lemma BodyReceived(s: State, f: Frame, at: nat)
    requires AtBody(s, f) && at < |MaskAndPayload(f)|
    ensures TwoCalls(s, MaskAndPayload(f)[..at], MaskAndPayload(f)[at..]) == Going(Reset(s.delivered + [Got(s, Received(f, at))]))
  {
    hide Feed, TwoCalls, Masked, BE, StoredKey;
    if at == 0 || (at == 4 && IsMasked(f)) {
      BodyBetween(s, f, at);
    } else if IsMasked(f) && at < 4 {
      CutInKey(s, f, at);
    } else {
      CutInPayload(s, f, if IsMasked(f) then at - 4 else at);
    }
  }

  lemma ReceivedIff(f: Frame, at: nat)
    requires FrameOk(f) && at < |MaskAndPayload(f)|
    ensures Received(f, at) == f.payload <==> CutOk(f, 2 + ExtBytes(|f.payload|) + at)
  {
    hide Masked, BE, KeyCutOk, StoredKey;
    if IsMasked(f) && at > 0 {
      var key, n := KeyBytes(f), |f.payload|;
      if at < 4 {
        RemaskedIff(f.payload, key, StoredKey(key, at), 0);
        KeyStoredIff(key, at, n);
      } else {
        var p := at - 4;
        var a, b := f.payload[..p], f.payload[p..];
        assert a + b == f.payload && n == p + |b|;
        RemaskedIff(b, key, key, p);
        assert PayloadCutOk(key, p, n) <==> Masked(Masked(b, key, p), key, 0) == b;
        PrefixedIff(a, Masked(Masked(b, key, p), key, 0), b);
      }
    }
  }

  lemma CutInBody(d: seq<Message>, f: Frame, k: nat)
    requires FrameOk(f) && 2 + ExtBytes(|f.payload|) <= k < |MakeFrame(f)|
    ensures var w := MakeFrame(f); var r := TwoCalls(Reset(d), w[..k], w[k..]);
      if CutOk(f, k) then r == Going(Reset(d + [Sent(f)])) else Spoiled(r, d, Sent(f))
  {
    var w := MakeFrame(f);
    assert f.payload != [];
    hide Feed, TwoCalls, Received, MaskAndPayload, MakeFrame, CutOk, AtBody;
    var s, head := HeadTaken(d, f);
    var all, at := MaskAndPayload(f), k - |head|;
    assert w[..k] == head + all[..at] && w[k..] == all[at..];
    CutLaterAt(d, s, f, head, all[..at], all[at..]);
    BodyReceived(s, f, at);
    ReceivedIff(f, at);
    if Received(f, at) != f.payload { WrongMessageSpoils(d, Sent(f), Got(s, Received(f, at))); }
  }

  lemma CutLaterAt(d: seq<Message>, s: State, f: Frame, head: seq<byte>, a: seq<byte>, b: seq<byte>)
    requires Feed(Reset(d), head) == Going(s) && AtBody(s, f)
    ensures Ok(Reset(d)) && TwoCalls(Reset(d), head + a, b) == TwoCalls(s, a, b)
  {
    hide Feed;
    CutLater(Reset(d), head, a, b);
  }

  // Before the length, and after the whole frame.
  lemma CutAtEnds(d: seq<Message>, f: Frame, k: nat)
    requires FrameOk(f) && k <= |MakeFrame(f)| && (k <= 2 || k == |MakeFrame(f)|)
    ensures TwoCalls(Reset(d), MakeFrame(f)[..k], MakeFrame(f)[k..]) == Going(Reset(d + [Sent(f)]))
  {
    hide Feed, MaskAndPayload, BE;
    var w, n, flag := MakeFrame(f), |f.payload|, if IsMasked(f) then 128 else 0;
    var s := OnFixedHeader(Reset(d), FirstByte(f));
    assert w[..k] + w[k..] == w;
    FrameRoundTrip(d, f);
    if k == |w| {
      assert w[..k] == w && w[k..] == [];
    } else if k == 0 {
      assert w[..0] == [];
      NothingMore(Reset(d));
    } else if k == 1 {
      assert w[..1] == [FirstByte(f)];
      HeaderTaken(d, f);
    } else {
      HeaderTaken(d, f);
      assert w[..2] == [FirstByte(f)] + LengthBytes(n, flag)[..1];
      FeedJoins(Reset(d), [FirstByte(f)], LengthBytes(n, flag)[..1]);
      if n > 125 {
        LongHead(s, n, flag);
      } else {
        assert LengthBytes(n, flag)[..1] == LengthBytes(n, flag);
        if n > 0 { ShortLength(s, n, flag); } else { EmptyTaken(s, f); }
      }
    }
    CutBetween(Reset(d), w[..k], w[k..]);
  }

  lemma FrameInTwoCalls(d: seq<Message>, f: Frame, k: nat)
    requires FrameOk(f) && k <= |MakeFrame(f)|
    ensures var w := MakeFrame(f); var r := TwoCalls(Reset(d), w[..k], w[k..]);
      if CutOk(f, k) then r == Going(Reset(d + [Sent(f)])) else Spoiled(r, d, Sent(f))
  {
    hide Feed, Ok, TwoCalls, CutOk;
    if k <= 2 || k == |MakeFrame(f)| {
      CutAtEnds(d, f, k);
      EndsOk(f, k);
    } else if k < 2 + ExtBytes(|f.payload|) {
      CutInLength(d, f, k);
    } else {
      CutInBody(d, f, k);
    }
  }

  /** Cut in two anywhere, a frame is handed on as it was sent exactly when the cut is one that does no harm. */
  lemma CutHarmlessIff(d: seq<Message>, f: Frame, k: nat)
    requires FrameOk(f) && k <= |MakeFrame(f)|
    ensures var w := MakeFrame(f);
      FeedChunks(Reset(d), [w[..k], w[k..]]) == Going(Reset(d + [Sent(f)])) <==> CutOk(f, k)
  {
    hide Feed, Ok, TwoCalls, CutOk;
    var w := MakeFrame(f);
    ResetOk(d);
    TwoChunks(Reset(d), w[..k], w[k..]);
    FrameInTwoCalls(d, f, k);
    var r := TwoCalls(Reset(d), w[..k], w[k..]);
    if !CutOk(f, k) && r.Going? {
      NothingMore(r.s);
      assert Without(Then(r, []), d, Sent(f));
    }
  }

  /** So is a whole stream of frames, cut in two anywhere. */
  lemma StreamCutHarmlessIff(before: seq<Frame>, f: Frame, after: seq<Frame>, k: nat)
    requires FramesOk(before) && FrameOk(f) && FramesOk(after) && k <= |MakeFrame(f)|
    ensures var w := MakeFrame(f);
      var r := FeedChunks(Reset([]), [MakeFrames(before) + w[..k], w[k..] + MakeFrames(after)]);
      r.Going? && r.s.delivered == SentAll(before + [f] + after) <==> CutOk(f, k)
  {
    hide Feed, Ok, TwoCalls, CutOk, MakeFrame, FrameOk;
    var w, d, rest := MakeFrame(f), SentAll(before), MakeFrames(after);
    ResetOk([]);
    ResetOk(d);
    StreamRoundTrip([], before);
    assert [] + d == d;
    TwoChunks(Reset([]), MakeFrames(before) + w[..k], w[k..] + rest);
    CutLater(Reset([]), MakeFrames(before), w[..k], w[k..] + rest);
    LaterMore(Reset(d), w[..k], w[k..], rest);
    FrameInTwoCalls(d, f, k);
    SentJoined(before, f, after);
    if CutOk(f, k) {
      StreamRoundTrip(d + [Sent(f)], after);
    } else {
      var r := TwoCalls(Reset(d), w[..k], w[k..]);
      assert Without(Then(r, rest), d, Sent(f));
      assert d + [Sent(f)] <= d + [Sent(f)] + SentAll(after);
    }
  }

  lemma {:induction false} SentJoined(before: seq<Frame>, f: Frame, after: seq<Frame>)
    ensures SentAll(before + [f] + after) == SentAll(before) + [Sent(f)] + SentAll(after)
    decreases |before|
  {
    var all := before + [f] + after;
    if before == [] {
      assert all[1..] == after;
    } else {
      assert all[1..] == before[1..] + [f] + after;
      SentJoined(before[1..], f, after);
    }
  }

  lemma EndsOk(f: Frame, k: nat)
    requires FrameOk(f) && k <= |MakeFrame(f)| && (k <= 2 || k == |MakeFrame(f)|)
    ensures CutOk(f, k)
  {
  }
}
