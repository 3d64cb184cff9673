/**
 Streams of packets.  A stream is taken apart into its packets without the parser; what one call of do_parse makes
 of it is then a walk over the packets, and a caller that gives up as soon as do_parse returns false sees the same
 under every cutting exactly when no refusal can be overlooked.
 */
module MqttStreams {
  import opened Options
  import opened Bytes
  import opened MqttMessages
  import opened MqttParser

  datatype Packet = Packet(header: Header, body: seq<byte>)

  // --- The packets of a stream ---

  datatype Length = Length(n: nat, rest: seq<byte>) | Short | FiveBytes

  function LengthOf(data: seq<byte>, shift: nat, sofar: nat): (r: Length)
    ensures r.Length? ==> |r.rest| < |data| && r.rest == data[|data| - |r.rest|..]
    decreases |data|
  {
    if data == [] then Short
    else if shift > 21 then FiveBytes
    else if data[0] < 128 then Length(sofar + data[0] * Power(shift), data[1..])
    else LengthOf(data[1..], shift + 7, sofar + ContinuationBits(data[0], shift))
  }

  // What a stream begins with: a whole packet, a part of one, or a packet whose length has a fifth byte.
  datatype Head = Whole(p: Packet, rest: seq<byte>) | Part | Endless

  function HeadOf(data: seq<byte>): (r: Head)
    ensures r.Whole? ==> |r.rest| + |r.p.body| < |data| && r.rest == data[|data| - |r.rest|..]
  {
    if data == [] then Part
    else
      match LengthOf(data[1..], 0, 0)
      case Short => Part
      case FiveBytes => Endless
      case Length(n, rest) =>
        if |rest| < n then Part else Whole(Packet(HeaderOf(data[0]).(remaining := n), rest[..n]), rest[n..])
  }

  function Packets(data: seq<byte>): seq<Packet>
    decreases |data|
  {
    match HeadOf(data)
    case Whole(p, rest) => [p] + Packets(rest)
    case _ => []
  }

  // --- What packets mean to a caller ---

  // What a caller learns: the messages handed on so far, and whether to go on.
  datatype Outcome = Outcome(delivered: seq<Msg>, ok: bool)

  function OutcomeOf(r: Fed): Option<Outcome> {
    match r
    case Going(t) => Some(Outcome(t.delivered, t.status))
    case Stopped(t) => Some(Outcome(t.delivered, false))
    case TooLong => None
  }

  predicate WellFormed(p: Packet) { ParseBody(p.header, p.body).Some? }

  function HandedOn(p: Packet, d: seq<Msg>): seq<Msg> {
    if WellFormed(p) then d + [Msg(p.header, ParseBody(p.header, p.body).value)] else d
  }

  predicate Refused(p: Packet, d: seq<Msg>, accept: Handlers) { !WellFormed(p) || !accept(HandedOn(p, d)) }

  // A refused packet with a body ends the call; one without a body only sets the verdict, until the next such packet.
  function Meaning(ps: seq<Packet>, d: seq<Msg>, ok: bool, accept: Handlers): Outcome {
    if ps == [] then Outcome(d, ok)
    else
      var refused := Refused(ps[0], d, accept);
      if ps[0].body == [] then Meaning(ps[1..], HandedOn(ps[0], d), !refused, accept)
      else if refused then Outcome(HandedOn(ps[0], d), false)
      else Meaning(ps[1..], HandedOn(ps[0], d), ok, accept)
  }

  // A handler gets another packet before one with a body is found to be malformed.
  predicate MoreHandedOn(ps: seq<Packet>) {
    ps != [] && (WellFormed(ps[0]) || (ps[0].body == [] && MoreHandedOn(ps[1..])))
  }

  /** The first packet that is refused has no body, and another packet is handed on after it. */
  predicate RefusalOverlooked(ps: seq<Packet>, d: seq<Msg>, accept: Handlers) {
    ps != [] &&
    if Refused(ps[0], d, accept) then ps[0].body == [] && MoreHandedOn(ps[1..])
    else RefusalOverlooked(ps[1..], HandedOn(ps[0], d), accept)
  }

  // --- Part of a packet ---

  predicate AtRest(s: State) { s.step.TypeStep? && s.shift == 0 }

  // Nothing is handed on and no verdict changes.
  predicate Quiet(s: State, r: Fed) {
    r.TooLong? || (r.Going? && r.s.status == s.status && r.s.delivered == s.delivered)
  }

  lemma {:induction false} LengthPrefix(data: seq<byte>, k: nat, shift: nat, sofar: nat)
    requires k <= |data|
    ensures var r := LengthOf(data, shift, sofar);
      var q := LengthOf(data[..k], shift, sofar);
      if r.Length? && |data| - |r.rest| <= k then q == Length(r.n, data[..k][|data| - |r.rest|..])
      else q.Short? || (q.FiveBytes? && r.FiveBytes?)
    decreases |data|
  {
    hide Power, ContinuationBits;
    if k == 0 {
      assert data[..0] == [];
    } else {
      assert data[..k][1..] == data[1..][..k - 1];
      if shift <= 21 && data[0] >= 128 {
        LengthPrefix(data[1..], k - 1, shift + 7, sofar + ContinuationBits(data[0], shift));
      }
    }
  }

  lemma HeadPrefix(data: seq<byte>, k: nat)
    requires k <= |data| && (HeadOf(data).Whole? ==> k < |data| - |HeadOf(data).rest|)
    ensures !HeadOf(data[..k]).Whole?
  {
    if k > 0 {
      assert data[..k][1..] == data[1..][..k - 1];
      LengthPrefix(data[1..], k - 1, 0, 0);
    }
  }

  // The length is known to be n.
  function Sized(s: State, n: nat, accept: Handlers): State {
    var t := s.(header := s.header.(remaining := n), step := DataStep, buffer := [], bufferLen := n, shift := 0);
    if n != 0 then t
    else
      var (u, ok) := Handle(t, accept);
      u.(status := ok, step := TypeStep)
  }

  lemma {:induction false} LengthTaken(s: State, data: seq<byte>, accept: Handlers)
    requires s.step.LengthStep?
    ensures var r := LengthOf(data, s.shift, s.header.remaining);
      match r
      case Short => Feed(s, data, accept).Going? && Quiet(s, Feed(s, data, accept))
      case FiveBytes => Feed(s, data, accept).TooLong?
      case Length(n, rest) => Feed(s, data, accept) == Feed(Sized(s, n, accept), rest, accept)
    decreases |data|
  {
    hide Feed, Sized, Power, ContinuationBits, LengthOf;
    LengthStepwise(data, s.shift, s.header.remaining);
    FeedStepwise(s, data, accept);
    if data != [] {
      LengthByte(s, data[0], accept);
      if s.shift <= 21 && data[0] >= 128 {
        var t := Continued(s, data[0]);
        LengthTaken(t, data[1..], accept);
        var r := LengthOf(data[1..], t.shift, t.header.remaining);
        if r.Length? { SizedAlike(s, data[0], r.n, accept); }
      }
    }
  }

  lemma FeedStepwise(s: State, data: seq<byte>, accept: Handlers)
    ensures data == [] ==> Feed(s, data, accept) == Going(s)
    ensures data != [] ==> Feed(s, data, accept) == Then(Turn(s, data[0], accept), data[1..], accept)
  {
    hide Turn;
  }

  lemma LengthStepwise(data: seq<byte>, shift: nat, sofar: nat)
    ensures LengthOf(data, shift, sofar) == if data == [] then Short
      else if shift > 21 then FiveBytes
      else if data[0] < 128 then Length(sofar + data[0] * Power(shift), data[1..])
      else LengthOf(data[1..], shift + 7, sofar + ContinuationBits(data[0], shift))
  {
    hide Power, ContinuationBits;
  }

  lemma LengthByte(s: State, b: byte, accept: Handlers)
    requires s.step.LengthStep?
    ensures Turn(s, b, accept) == if s.shift > 21 then TooLong
      else if b < 128 then Going(Sized(s, s.header.remaining + b * Power(s.shift), accept)) else Going(Continued(s, b))
  {
    hide Handle, Power, ContinuationBits;
  }

  lemma SizedAlike(s: State, b: byte, n: nat, accept: Handlers)
    ensures Sized(Continued(s, b), n, accept) == Sized(s, n, accept)
  {
    hide Handle, ContinuationBits;
  }

  lemma PartIsQuiet(s: State, data: seq<byte>, accept: Handlers)
    requires AtRest(s) && !HeadOf(data).Whole?
    ensures Quiet(s, Feed(s, data, accept))
    ensures HeadOf(data).Endless? ==> Feed(s, data, accept).TooLong?
  {
    if data != [] {
      hide Handle;
      var t := s.(header := HeaderOf(data[0]), step := LengthStep);
      assert Feed(s, data, accept) == Feed(t, data[1..], accept);
      LengthTaken(t, data[1..], accept);
      var r := LengthOf(data[1..], 0, 0);
      if r.Length? {
        var u := Sized(t, r.n, accept);
        FeedBody(u, r.rest, accept);
      }
    }
  }

  // --- A whole packet ---

  // What the parser is left in after the packet, as far as it matters.
  predicate Passed(p: Packet, s: State, r: Fed, accept: Handlers) {
    var refused := Refused(p, s.delivered, accept);
    !r.TooLong? && AtRest(r.s) && r.s.delivered == HandedOn(p, s.delivered)
    && (r.Stopped? <==> p.body != [] && refused)
    && (r.Going? ==> r.s.status == if p.body == [] then !refused else s.status)
  }

  lemma PacketTaken(s: State, data: seq<byte>, accept: Handlers)
    requires AtRest(s) && HeadOf(data).Whole? && HeadOf(data).rest == []
    ensures Passed(HeadOf(data).p, s, Feed(s, data, accept), accept)
  {
    var t := s.(header := HeaderOf(data[0]), step := LengthStep);
    assert Feed(s, data, accept) == Feed(t, data[1..], accept);
    var r, p := LengthOf(data[1..], 0, 0), HeadOf(data).p;
    assert r.rest == p.body;
    LengthTaken(t, data[1..], accept);
    hide Turn, LengthOf, HeadOf;
    SizedTaken(t, p, s, accept);
  }

  lemma SizedTaken(t: State, p: Packet, s: State, accept: Handlers)
    requires t == s.(header := t.header, step := LengthStep) && t.shift == 0
    requires p.header == t.header.(remaining := |p.body|)
    ensures Passed(p, s, Feed(Sized(t, |p.body|, accept), p.body, accept), accept)
  {
    hide ParseBody;
    if p.body != [] {
      var u := Sized(t, |p.body|, accept);
      FeedBody(u, p.body, accept);
      assert u.buffer + p.body == p.body;
    }
  }

  // A stream that begins with a whole packet: the packet's own bytes, and the rest.
  lemma HeadApart(data: seq<byte>) returns (m: nat)
    requires HeadOf(data).Whole?
    ensures m == |data| - |HeadOf(data).rest| && data == data[..m] + HeadOf(data).rest
    ensures HeadOf(data[..m]) == Whole(HeadOf(data).p, [])
  {
    hide LengthOf, HeaderOf;
    var h := HeadOf(data);
    m := |data| - |h.rest|;
    var r := LengthOf(data[1..], 0, 0);
    assert data[..m][1..] == data[1..][..m - 1];
    LengthPrefix(data[1..], m - 1, 0, 0);
    var q := LengthOf(data[..m][1..], 0, 0);
    assert q.rest[..r.n] == r.rest[..r.n];
    assert q.rest[r.n..] == [];
  }

  // --- Whole streams ---

  /** One call does with a stream what its packets say. */
  lemma {:induction false} StreamMeansItsPackets(s: State, data: seq<byte>, accept: Handlers)
    requires AtRest(s) && !Feed(s, data, accept).TooLong?
    ensures OutcomeOf(Feed(s, data, accept)) == Some(Meaning(Packets(data), s.delivered, s.status, accept))
    decreases |data|
  {
    hide Turn, WellFormed, HandedOn, Refused, HeadOf;
    if HeadOf(data).Whole? {
      var m := HeadApart(data);
      var h := HeadOf(data);
      PacketTaken(s, data[..m], accept);
      FeedJoins(s, data[..m], h.rest, accept);
      var r := Feed(s, data[..m], accept);
      assert Packets(data)[1..] == Packets(h.rest);
      if r.Going? { StreamMeansItsPackets(r.s, h.rest, accept); }
    } else {
      PartIsQuiet(s, data, accept);
    }
  }

  // --- A caller that gives up as soon as do_parse returns false ---

  function FeedWhileTrue(s: State, chunks: seq<seq<byte>>, accept: Handlers): Fed
    decreases |chunks|
  {
    if chunks == [] then Going(s)
    else
      match Feed(s, chunks[0], accept)
      case Going(t) => if t.status then FeedWhileTrue(t, chunks[1..], accept) else Stopped(t)
      case r => r
  }

  // A cut after k bytes shows: the caller gives up there and learns something else than without the cut.
  ghost predicate CutShows(s: State, data: seq<byte>, k: nat, accept: Handlers)
    requires k <= |data|
  {
    var r := Feed(s, data[..k], accept);
    r.Going? && !r.s.status && OutcomeOf(r) != OutcomeOf(Feed(s, data, accept))
  }

  ghost predicate SomeCutShows(s: State, data: seq<byte>, accept: Handlers) {
    exists k: nat :: k <= |data| && CutShows(s, data, k, accept)
  }

  // The rest of the stream from where the first m bytes led.
  lemma ShowsLater(s: State, data: seq<byte>, m: nat, k: nat, accept: Handlers)
    requires m <= k <= |data| && Feed(s, data[..m], accept).Going?
    ensures CutShows(s, data, k, accept) <==> CutShows(Feed(s, data[..m], accept).s, data[m..], k - m, accept)
  {
    assert data[..k] == data[..m] + data[m..][..k - m];
    FeedJoins(s, data[..m], data[m..][..k - m], accept);
    assert data == data[..m] + data[m..];
    FeedJoins(s, data[..m], data[m..], accept);
  }

  lemma SomeShowsLater(s: State, data: seq<byte>, m: nat, accept: Handlers)
    requires m <= |data| && Feed(s, data[..m], accept).Going?
    requires forall k: nat | k < m :: !CutShows(s, data, k, accept)
    ensures SomeCutShows(s, data, accept) <==> SomeCutShows(Feed(s, data[..m], accept).s, data[m..], accept)
  {
    hide CutShows;
    var t, rest := Feed(s, data[..m], accept).s, data[m..];
    if k: nat :| k <= |data| && CutShows(s, data, k, accept) {
      ShowsLater(s, data, m, k, accept);
      assert CutShows(t, rest, k - m, accept);
    }
    if k: nat :| k <= |rest| && CutShows(t, rest, k, accept) {
      ShowsLater(s, data, m, m + k, accept);
    }
  }

  // After a stop no cut shows.
  lemma StoppedShowsNothing(s: State, data: seq<byte>, m: nat, k: nat, accept: Handlers)
    requires m <= k <= |data| && !Feed(s, data[..m], accept).Going?
    ensures !CutShows(s, data, k, accept)
  {
    assert data[..k] == data[..m] + data[m..k];
    FeedJoins(s, data[..m], data[m..k], accept);
  }

  lemma {:induction false} NoShowNoDifference(s: State, chunks: seq<seq<byte>>, accept: Handlers)
    requires !SomeCutShows(s, Joined(chunks), accept)
    ensures OutcomeOf(FeedWhileTrue(s, chunks, accept)) == OutcomeOf(Feed(s, Joined(chunks), accept))
    decreases |chunks|
  {
    hide Turn;
    if chunks != [] {
      var head, data := chunks[0], Joined(chunks);
      var m := |head|;
      assert data[..m] == head && data[m..] == Joined(chunks[1..]);
      assert !CutShows(s, data, m, accept);
      var r := Feed(s, head, accept);
      FeedJoins(s, head, data[m..], accept);
      if r.Going? && r.s.status {
        if k: nat :| k <= |data[m..]| && CutShows(r.s, data[m..], k, accept) {
          ShowsLater(s, data, m, m + k, accept);
        }
        NoShowNoDifference(r.s, chunks[1..], accept);
      }
    }
  }

  // However the stream is cut into chunks, the caller learns what it learns from the stream in one chunk.
  ghost predicate EveryCuttingAlike(s: State, data: seq<byte>, accept: Handlers) {
    forall chunks: seq<seq<byte>> | Joined(chunks) == data && [] !in chunks ::
      OutcomeOf(FeedWhileTrue(s, chunks, accept)) == OutcomeOf(FeedWhileTrue(s, [data], accept))
  }

  lemma Uncut(s: State, data: seq<byte>, accept: Handlers)
    ensures OutcomeOf(FeedWhileTrue(s, [data], accept)) == OutcomeOf(Feed(s, data, accept))
  {
    hide Feed;
    assert [data][1..] == [];
  }

  lemma JoinedPair(a: seq<byte>, b: seq<byte>)
    ensures Joined([a, b]) == a + b && [a, b][1..] == [b]
  {
    assert [a, b][1..] == [b];
    assert Joined([b]) == b + Joined([b][1..]) == b;
  }

  lemma AlikeIffNoCutShows(s: State, data: seq<byte>, accept: Handlers)
    requires s.status
    ensures EveryCuttingAlike(s, data, accept) <==> !SomeCutShows(s, data, accept)
  {
    hide Turn;
    Uncut(s, data, accept);
    if k: nat :| k <= |data| && CutShows(s, data, k, accept) {
      assert data[..0] == [] && data[..|data|] == data;
      var chunks := [data[..k], data[k..]];
      JoinedPair(data[..k], data[k..]);
      assert data[..k] + data[k..] == data;
      assert FeedWhileTrue(s, chunks, accept) == Stopped(Feed(s, data[..k], accept).s);
    } else {
      forall chunks: seq<seq<byte>> | Joined(chunks) == data && [] !in chunks
        ensures OutcomeOf(FeedWhileTrue(s, chunks, accept)) == OutcomeOf(FeedWhileTrue(s, [data], accept))
      {
        NoShowNoDifference(s, chunks, accept);
      }
    }
  }

  // Nothing shows before the first packet is whole.
  lemma QuietWithinPacket(s: State, data: seq<byte>, k: nat, accept: Handlers)
    requires AtRest(s) && s.status && k <= |data| && (HeadOf(data).Whole? ==> k < |data| - |HeadOf(data).rest|)
    ensures !CutShows(s, data, k, accept)
  {
    hide HeadOf, Feed;
    HeadPrefix(data, k);
    PartIsQuiet(s, data[..k], accept);
  }

  // --- After a refused packet without a body ---

  lemma {:induction false} MoreGrows(ps: seq<Packet>, d: seq<Msg>, ok: bool, accept: Handlers)
    ensures |Meaning(ps, d, ok, accept).delivered| >= |d|
    ensures MoreHandedOn(ps) ==> |Meaning(ps, d, ok, accept).delivered| > |d|
    decreases |ps|
  {
    if ps != [] {
      hide WellFormed;
      var refused := Refused(ps[0], d, accept);
      MoreGrows(ps[1..], HandedOn(ps[0], d), if ps[0].body == [] then !refused else ok, accept);
    }
  }

  lemma {:induction false} NoMoreSame(ps: seq<Packet>, d: seq<Msg>, accept: Handlers)
    requires !MoreHandedOn(ps)
    ensures Meaning(ps, d, false, accept) == Outcome(d, false)
    decreases |ps|
  {
    if ps != [] && ps[0].body == [] {
      hide WellFormed;
      NoMoreSame(ps[1..], d, accept);
    }
  }

  lemma {:induction false} MoreOfPrefix(data: seq<byte>, k: nat)
    requires k <= |data| && MoreHandedOn(Packets(data[..k]))
    ensures MoreHandedOn(Packets(data))
    decreases |data|
  {
    hide WellFormed, HeadOf;
    var part := data[..k];
    if !HeadOf(data).Whole? || k < |data| - |HeadOf(data).rest| {
      HeadPrefix(data, k);
    } else {
      var h := HeadOf(data);
      var m := HeadApart(data);
      HeadOfMore(data, k);
      assert Packets(part)[1..] == Packets(HeadOf(part).rest) && Packets(data)[1..] == Packets(h.rest);
      if !WellFormed(h.p) { MoreOfPrefix(h.rest, k - m); }
    }
  }

  // The first packet does not depend on what comes after it.
  lemma HeadOfMore(data: seq<byte>, k: nat)
    requires HeadOf(data).Whole? && |data| - |HeadOf(data).rest| <= k <= |data|
    ensures HeadOf(data[..k]) == Whole(HeadOf(data).p, HeadOf(data).rest[..k - (|data| - |HeadOf(data).rest|)])
  {
    hide LengthOf, HeaderOf;
    assert data[..k][1..] == data[1..][..k - 1];
    LengthPrefix(data[1..], k - 1, 0, 0);
    var r, q := LengthOf(data[1..], 0, 0), LengthOf(data[..k][1..], 0, 0);
    assert q.rest[..r.n] == r.rest[..r.n];
  }

  lemma AfterRefusal(s: State, data: seq<byte>, accept: Handlers)
    requires AtRest(s) && !s.status && !Feed(s, data, accept).TooLong?
    ensures SomeCutShows(s, data, accept) <==> MoreHandedOn(Packets(data))
  {
    hide Turn, Packets;
    StreamMeansItsPackets(s, data, accept);
    if MoreHandedOn(Packets(data)) {
      MoreGrows(Packets(data), s.delivered, false, accept);
      assert data[..0] == [];
      assert CutShows(s, data, 0, accept);
    } else {
      NoMoreSame(Packets(data), s.delivered, accept);
      forall k: nat | k <= |data| ensures !CutShows(s, data, k, accept) {
        if Feed(s, data[..k], accept).Going? {
          StreamMeansItsPackets(s, data[..k], accept);
          if MoreHandedOn(Packets(data[..k])) { MoreOfPrefix(data, k); }
          NoMoreSame(Packets(data[..k]), s.delivered, accept);
        }
      }
    }
  }

  // --- The condition ---

  lemma {:induction false} CutShowsIff(s: State, data: seq<byte>, accept: Handlers)
    requires AtRest(s) && s.status && !Feed(s, data, accept).TooLong?
    ensures SomeCutShows(s, data, accept) <==> RefusalOverlooked(Packets(data), s.delivered, accept)
    decreases |data|
  {
    hide Turn, CutShows, Refused, HandedOn, HeadOf, MoreHandedOn;
    forall k: nat | k <= |data| && (HeadOf(data).Whole? ==> k < |data| - |HeadOf(data).rest|)
      ensures !CutShows(s, data, k, accept)
    {
      QuietWithinPacket(s, data, k, accept);
    }
    if HeadOf(data).Whole? {
      var m := HeadApart(data);
      var h := HeadOf(data);
      PacketTaken(s, data[..m], accept);
      FeedJoins(s, data[..m], h.rest, accept);
      assert Packets(data)[1..] == Packets(h.rest);
      var r := Feed(s, data[..m], accept);
      if r.Stopped? {
        forall k: nat | m <= k <= |data| ensures !CutShows(s, data, k, accept) {
          StoppedShowsNothing(s, data, m, k, accept);
        }
      } else {
        SomeShowsLater(s, data, m, accept);
        if r.s.status { CutShowsIff(r.s, h.rest, accept); } else { AfterRefusal(r.s, h.rest, accept); }
      }
    }
  }

  /** The caller learns the same under every cutting exactly when no refusal of a packet without a body is overlooked. */
  lemma CallerSeesTheSameIff(s: State, data: seq<byte>, accept: Handlers)
    requires AtRest(s) && s.status && !Feed(s, data, accept).TooLong?
    ensures EveryCuttingAlike(s, data, accept) <==> !RefusalOverlooked(Packets(data), s.delivered, accept)
  {
    AlikeIffNoCutShows(s, data, accept);
    CutShowsIff(s, data, accept);
  }

  /** A ping with a reserved bit set is refused, and the refusal forgotten when a good ping follows in the same chunk. */
  lemma RefusalForgotten(accept: Handlers)
    ensures RefusalOverlooked(Packets([0xc1, 0, 0xc0, 0]), [], accept)
    ensures !EveryCuttingAlike(INITIAL, [0xc1, 0, 0xc0, 0], accept)
  {
    var bad, good: seq<byte> := [0xc1, 0], [0xc0, 0];
    var data := bad + good;
    assert data == [0xc1, 0, 0xc0, 0];
    EmptyPacket(data);
    EmptyPacket(good);
    assert data[2..] == good;
    assert Packets(data)[1..] == Packets(good);
    assert data[..2] == bad;
    EmptyPacket(bad);
    PacketTaken(INITIAL, bad, accept);
    PacketTaken(Feed(INITIAL, bad, accept).s, good, accept);
    FeedJoins(INITIAL, bad, good, accept);
    CallerSeesTheSameIff(INITIAL, data, accept);
  }

  lemma EmptyPacket(data: seq<byte>)
    requires |data| >= 2 && data[1] == 0
    ensures HeadOf(data) == Whole(Packet(HeaderOf(data[0]), []), data[2..])
  {
    assert data[1..][1..] == data[2..];
  }
}
