/**
 The resumable packet parser.  Its meaning is a machine that takes one byte at a time, so how the stream is
 cut into chunks cannot matter; the class, which takes whole chunks in turns, is proved to do what the machine does.
 */
module MqttParser {
  import opened Options
  import opened Bytes
  import opened MqttMessages

  // Whether the handler takes the last message of those handed on so far; it may remember the ones before.
  type Handlers = seq<Msg> -> bool

  datatype Step = TypeStep | LengthStep | DataStep
  datatype State = State(step: Step, header: Header, shift: nat, buffer: seq<byte>, bufferLen: nat,
                         status: bool, delivered: seq<Msg>)

  // TooLong: a fifth byte of a remaining length, which this model does not follow.
  datatype Fed = Going(s: State) | Stopped(s: State) | TooLong

  const NO_HEADER := Header(0, 0, 0, 0, 0, 0)
  const INITIAL := State(TypeStep, NO_HEADER, 0, [], 0, true, [])

  // What `value & 0x7f << shift` is for a byte of 128 or more: the shift binds tighter than the mask.
  function ContinuationBits(b: byte, shift: nat): nat {
    if shift == 0 then b % 128 else if shift == 7 then 128 else 0
  }

  lemma ShiftBindsTighter(v: bv32)
    requires 128 <= v < 256
    ensures v & (0x7f << 0) == v - 128
    ensures v & (0x7f << 7) == 128
    ensures v & (0x7f << 14) == 0 && v & (0x7f << 21) == 0
  {
  }

  // The bits joined by `|=` are apart, so joining them is adding them.
  lemma JoinedBitsAreApart(low: bv32, v: bv32)
    requires v < 128
    ensures low < 128 ==> low & (v << 7) == 0 && low & 128 == 0
    ensures low < 256 ==> low & (v << 14) == 0 && low & (v << 21) == 0
  {
  }

  function Power(shift: nat): nat {
    if shift == 0 then 1 else if shift == 7 then 0x80 else if shift == 14 then 0x4000 else 0x20_0000
  }

  // parse_msg: the body is read and given to its handler.
  function Handle(s: State, accept: Handlers): (State, bool) {
    match ParseBody(s.header, s.buffer)
    case None => (s, false)
    case Some(body) => (s.(delivered := s.delivered + [Msg(s.header, body)]), accept(s.delivered + [Msg(s.header, body)]))
  }

  // The body is complete.  A refused packet ends the call.
  function Complete(s: State, accept: Handlers): Fed {
    var (t, ok) := Handle(s.(step := TypeStep), accept);
    if ok then Going(t) else Stopped(t)
  }

  // The length is complete.  A packet without a body is handled at once, and the verdict is only noted.
  function Measured(s: State, b: byte, accept: Handlers): State {
    var h := s.header.(remaining := s.header.remaining + b * Power(s.shift));
    var t := s.(header := h, step := DataStep, buffer := [], bufferLen := h.remaining, shift := 0);
    if h.remaining != 0 then t
    else
      var (u, ok) := Handle(t, accept);
      u.(status := ok, step := TypeStep)
  }

  function Continued(s: State, b: byte): State {
    s.(header := s.header.(remaining := s.header.remaining + ContinuationBits(b, s.shift)), shift := s.shift + 7)
  }

  function Turn(s: State, b: byte, accept: Handlers): Fed {
    match s.step
    case TypeStep => Going(s.(header := HeaderOf(b), step := LengthStep))
    case LengthStep =>
      if s.shift > 21 then TooLong
      else if b < 128 then Going(Measured(s, b, accept))
      else Going(Continued(s, b))
    case DataStep =>
      var t := s.(buffer := s.buffer + [b]);
      if |t.buffer| == t.bufferLen then Complete(t, accept) else Going(t)
  }

  function Feed(s: State, data: seq<byte>, accept: Handlers): Fed
    decreases |data|
  {
    if data == [] then Going(s)
    else
      match Turn(s, data[0], accept)
      case Going(t) => Feed(t, data[1..], accept)
      case r => r
  }

  // --- States the parser can be in ---

  predicate Ok(s: State) {
    match s.step
    case TypeStep => s.shift == 0
    case LengthStep => LengthOk(s.shift, s.header.remaining)
    case DataStep => s.shift == 0 && |s.buffer| < s.bufferLen && s.bufferLen == s.header.remaining
  }

  predicate LengthOk(shift: nat, remaining: nat) {
    || (shift == 0 && remaining == 0)
    || (shift == 7 && remaining < 128)
    || (shift in {14, 21, 28} && 128 <= remaining < 256)
  }

  lemma TurnKeepsOk(s: State, b: byte, accept: Handlers)
    requires Ok(s)
    ensures match Turn(s, b, accept) case Going(t) => Ok(t) case Stopped(t) => Ok(t) case TooLong => true
  {
    hide ParseBody;
  }

  lemma {:induction false} FeedKeepsOk(s: State, data: seq<byte>, accept: Handlers)
    requires Ok(s)
    ensures match Feed(s, data, accept) case Going(t) => Ok(t) case Stopped(t) => Ok(t) case TooLong => true
    decreases |data|
  {
    hide Turn, Ok;
    if data != [] {
      TurnKeepsOk(s, data[0], accept);
      var r := Turn(s, data[0], accept);
      if r.Going? { FeedKeepsOk(r.s, data[1..], accept); }
    }
  }

  // --- Chunks ---

  function Then(r: Fed, data: seq<byte>, accept: Handlers): Fed {
    match r case Going(t) => Feed(t, data, accept) case other => other
  }

  /** Feeding two pieces one after the other is feeding them joined, until a packet is refused. */
  lemma {:induction false} FeedJoins(s: State, a: seq<byte>, b: seq<byte>, accept: Handlers)
    ensures Feed(s, a + b, accept) == Then(Feed(s, a, accept), b, accept)
    decreases |a|
  {
    hide Turn;
    if a == [] {
      assert a + b == b;
    } else {
      assert (a + b)[1..] == a[1..] + b;
      var r := Turn(s, a[0], accept);
      if r.Going? { FeedJoins(r.s, a[1..], b, accept); }
    }
  }

  function Joined(chunks: seq<seq<byte>>): seq<byte> {
    if chunks == [] then [] else chunks[0] + Joined(chunks[1..])
  }

  function FeedChunks(s: State, chunks: seq<seq<byte>>, accept: Handlers): Fed
    decreases |chunks|
  {
    if chunks == [] then Going(s)
    else
      match Feed(s, chunks[0], accept)
      case Going(t) => FeedChunks(t, chunks[1..], accept)
      case r => r
  }

  /** However a stream is cut, the handlers get the same messages and the parser ends in the same state. */
  lemma {:induction false} CuttingDoesNotMatter(s: State, chunks: seq<seq<byte>>, accept: Handlers)
    ensures FeedChunks(s, chunks, accept) == Feed(s, Joined(chunks), accept)
    decreases |chunks|
  {
    if chunks != [] {
      FeedJoins(s, chunks[0], Joined(chunks[1..]), accept);
      var r := Feed(s, chunks[0], accept);
      if r.Going? { CuttingDoesNotMatter(r.s, chunks[1..], accept); }
    }
  }

  // --- What the handlers get ---

  ghost predicate AllTopicsOk(ms: seq<Msg>) {
    forall m :: m in ms ==> TopicsOk(m.body)
  }

  lemma HandleTopicsOk(s: State, accept: Handlers)
    requires AllTopicsOk(s.delivered)
    ensures AllTopicsOk(Handle(s, accept).0.delivered)
  {
    hide ParseBody, TopicsOk;
    ParsedTopicsOk(s.header, s.buffer);
  }

  lemma TurnTopicsOk(s: State, b: byte, accept: Handlers)
    requires AllTopicsOk(s.delivered)
    ensures var r := Turn(s, b, accept); !r.TooLong? ==> AllTopicsOk(r.s.delivered)
  {
    hide Handle, AllTopicsOk;
    if s.step.LengthStep? {
      var h := s.header.(remaining := s.header.remaining + b * Power(s.shift));
      HandleTopicsOk(s.(header := h, step := DataStep, buffer := [], bufferLen := h.remaining, shift := 0), accept);
    } else if s.step.DataStep? {
      HandleTopicsOk(s.(buffer := s.buffer + [b], step := TypeStep), accept);
    }
  }

  /** In every run, every topic a handler gets is not empty and well-formed. */
  lemma {:induction false} HandlersGetWellFormedTopics(s: State, data: seq<byte>, accept: Handlers)
    requires AllTopicsOk(s.delivered)
    ensures var r := Feed(s, data, accept); !r.TooLong? ==> AllTopicsOk(r.s.delivered)
    decreases |data|
  {
    hide Turn, AllTopicsOk;
    if data != [] {
      TurnTopicsOk(s, data[0], accept);
      var r := Turn(s, data[0], accept);
      if r.Going? { HandlersGetWellFormedTopics(r.s, data[1..], accept); }
    }
  }

  // --- Body bytes taken together ---

  lemma {:induction false} FeedBody(s: State, d: seq<byte>, accept: Handlers)
    requires s.step == DataStep && |s.buffer| < s.bufferLen && |s.buffer| + |d| <= s.bufferLen
    ensures Feed(s, d, accept)
         == if |s.buffer| + |d| == s.bufferLen then Complete(s.(buffer := s.buffer + d), accept)
            else Going(s.(buffer := s.buffer + d))
    decreases |d|
  {
    hide Complete;
    if d == [] {
      assert s.buffer + d == s.buffer;
    } else {
      var t := s.(buffer := s.buffer + [d[0]]);
      assert t.buffer + d[1..] == s.buffer + d;
      if |d| == 1 {
        assert s.buffer + d == t.buffer;
        assert d[1..] == [];
      } else {
        FeedBody(t, d[1..], accept);
      }
    }
  }

  // --- The parser as it runs ---

  class PacketParser {
    const accept: Handlers
    var step: Step
    var header: Header
    var shift: nat
    var buffer: seq<byte>
    var bufferLen: nat
    var status: bool
    var delivered: seq<Msg>

    constructor (accept: Handlers)
      ensures Now() == INITIAL && this.accept == accept
    {
      this.accept := accept;
      step, header, shift, buffer, bufferLen, status, delivered := TypeStep, NO_HEADER, 0, [], 0, true, [];
    }

    function Now(): State
      reads this
    {
      State(step, header, shift, buffer, bufferLen, status, delivered)
    }

    method ParseMsg() returns (ok: bool)
      modifies this`delivered
      ensures (Now(), ok) == Handle(old(Now()), accept)
    {
      var body := ReadBody(header, buffer);
      if body.None? { return false; }
      delivered := delivered + [Msg(header, body.value)];
      ok := accept(delivered);
    }

    method ParseLastLengthByte(value: byte)
      requires value < 128
      modifies this
      ensures Now() == Measured(old(Now()), value, accept)
    {
      header := header.(remaining := header.remaining + value * Power(shift));
      step := DataStep;
      buffer := [];
      bufferLen := header.remaining;
      shift := 0;
      if header.remaining == 0 {
        status := ParseMsg();
        step := TypeStep;
      }
    }

    method ParseLength(data: seq<byte>, from: nat) returns (pos: nat)
      requires from < |data| && step == LengthStep && Ok(Now())
      requires !Feed(Now(), data[from..], accept).TooLong?
      modifies this
      ensures from < pos <= |data| && Ok(Now())
      ensures Feed(old(Now()), data[from..pos], accept) == Going(Now())
    {
      hide Measured, Ok;
      pos := from;
      ghost var s0 := Now();
      while true
        invariant from <= pos < |data| && step == LengthStep && Ok(Now())
        invariant Feed(s0, data[from..pos], accept) == Going(Now())
        decreases |data| - pos
      {
        hide Feed, Turn;
        ghost var s := Now();
        NotTooLong(s0, data, from, pos, accept);
        var value := data[pos];
        LengthTurn(s, value, accept);
        TurnKeepsOk(s, value, accept);
        OneMore(s0, s, data, from, pos, accept);
        pos := pos + 1;
        if value >= 128 {
          header := header.(remaining := header.remaining + ContinuationBits(value, shift));
          shift := shift + 7;
          if pos == |data| || shift >= 21 { return; }
        } else {
          ParseLastLengthByte(value);
          return;
        }
      }
    }

    method ParseFixedHeader(data: seq<byte>, from: nat) returns (pos: nat)
      requires from < |data| && !step.DataStep? && Ok(Now())
      requires !Feed(Now(), data[from..], accept).TooLong?
      modifies this
      ensures from < pos <= |data| && Ok(Now())
      ensures Feed(old(Now()), data[from..pos], accept) == Going(Now())
    {
      pos := from;
      ghost var s0 := Now();
      if step == TypeStep {
        TypeTurn(s0, data[from], accept);
        Alone(s0, data, from, accept);
        header := HeaderOf(data[from]);
        step := LengthStep;
        pos := from + 1;
        if pos == |data| { return; }
      }
      hide Turn, Feed, Ok;
      ghost var s := Now();
      if pos == from { Nothing(s0, data, from, accept); }
      Beyond(s0, s, data, from, pos, accept);
      var next := ParseLength(data, pos);
      Stretch(s0, s, data, from, pos, next, accept);
      pos := next;
    }

    method StoreRemainingData(data: seq<byte>, from: nat) returns (n: nat, full: bool)
      requires from < |data| && step.DataStep? && Ok(Now())
      modifies this`buffer
      ensures n > 0 && from + n <= |data|
      ensures Now() == old(Now()).(buffer := old(buffer) + data[from..from + n])
      ensures |buffer| <= bufferLen && (full <==> |buffer| == bufferLen)
      ensures !full ==> from + n == |data|
    {
      n := if |data| - from <= bufferLen - |buffer| then |data| - from else bufferLen - |buffer|;
      buffer := buffer + data[from..from + n];
      full := |buffer| == bufferLen;
    }

    /** One chunk: the machine is fed with it, and the verdict says whether to go on. */
    method DoParse(data: seq<byte>) returns (ok: bool)
      requires data != [] && Ok(Now())
      requires !Feed(Now(), data, accept).TooLong?
      modifies this
      ensures Ok(Now())
      ensures Feed(old(Now()), data, accept) == if Feed(old(Now()), data, accept).Stopped? then Stopped(Now()) else Going(Now())
      ensures ok <==> Feed(old(Now()), data, accept).Going? && status
    {
      hide Ok, Turn, Handle;
      var pos := 0;
      ghost var s0 := Now();
      while pos < |data|
        invariant 0 <= pos <= |data| && Ok(Now())
        invariant Feed(s0, data[0..pos], accept) == Going(Now())
      {
        ghost var s := Now();
        assert data[0..] == data;
        Beyond(s0, s, data, 0, pos, accept);
        if !step.DataStep? {
          var next := ParseFixedHeader(data, pos);
          Stretch(s0, s, data, 0, pos, next, accept);
          pos := next;
        } else {
          var n, full := StoreRemainingData(data, pos);
          BodyPart(s, data[pos..pos + n], accept);
          Stretch(s0, s, data, 0, pos, pos + n, accept);
          pos := pos + n;
          if full {
            step := TypeStep;
            var r := ParseMsg();
            CompleteOk(s.(buffer := s.buffer + data[pos - n..pos]), accept);
            if !r {
              StopsFor(s0, data, pos, accept);
              return false;
            }
          }
        }
      }
      assert data[0..pos] == data;
      ok := status;
    }
  }

  // --- Bookkeeping for the methods ---

  // One byte more after a stretch that led to s.
  lemma OneMore(s0: State, s: State, data: seq<byte>, from: nat, pos: nat, accept: Handlers)
    requires from <= pos < |data| && Feed(s0, data[from..pos], accept) == Going(s)
    ensures Feed(s0, data[from..pos + 1], accept) == Turn(s, data[pos], accept)
  {
    hide Turn;
    assert data[from..pos + 1] == data[from..pos] + [data[pos]];
    FeedJoins(s0, data[from..pos], [data[pos]], accept);
    assert [data[pos]][1..] == [];
    assert Feed(s, [data[pos]], accept) == Turn(s, data[pos], accept);
  }

  lemma Nothing(s: State, data: seq<byte>, from: nat, accept: Handlers)
    requires from <= |data|
    ensures Feed(s, data[from..from], accept) == Going(s)
  {
  }

  lemma Alone(s: State, data: seq<byte>, from: nat, accept: Handlers)
    requires from < |data|
    ensures Feed(s, data[from..from + 1], accept) == Turn(s, data[from], accept)
  {
    Nothing(s, data, from, accept);
    OneMore(s, s, data, from, from, accept);
  }

  lemma TypeTurn(s: State, b: byte, accept: Handlers)
    requires Ok(s) && s.step == TypeStep
    ensures Turn(s, b, accept) == Going(s.(header := HeaderOf(b), step := LengthStep))
    ensures Ok(s.(header := HeaderOf(b), step := LengthStep))
  {
  }

  lemma LengthTurn(s: State, b: byte, accept: Handlers)
    requires s.step == LengthStep && !Turn(s, b, accept).TooLong?
    ensures b < 128 ==> Turn(s, b, accept) == Going(Measured(s, b, accept))
    ensures b >= 128 ==> Turn(s, b, accept) == Going(Continued(s, b))
  {
    hide Measured;
  }

  lemma Beyond(s0: State, s: State, data: seq<byte>, from: nat, pos: nat, accept: Handlers)
    requires from <= pos <= |data| && Feed(s0, data[from..pos], accept) == Going(s)
    ensures Feed(s0, data[from..], accept) == Feed(s, data[pos..], accept)
  {
    assert data[from..] == data[from..pos] + data[pos..];
    FeedJoins(s0, data[from..pos], data[pos..], accept);
  }

  lemma Stretch(s0: State, s: State, data: seq<byte>, from: nat, pos: nat, next: nat, accept: Handlers)
    requires from <= pos <= next <= |data| && Feed(s0, data[from..pos], accept) == Going(s)
    ensures Feed(s0, data[from..next], accept) == Feed(s, data[pos..next], accept)
  {
    assert data[from..next] == data[from..pos] + data[pos..next];
    FeedJoins(s0, data[from..pos], data[pos..next], accept);
  }

  lemma NotTooLong(s0: State, data: seq<byte>, from: nat, pos: nat, accept: Handlers)
    requires from <= pos < |data| && Feed(s0, data[from..pos], accept).Going?
    requires !Feed(s0, data[from..], accept).TooLong?
    ensures !Turn(Feed(s0, data[from..pos], accept).s, data[pos], accept).TooLong?
  {
    hide Turn;
    assert data[from..] == data[from..pos] + data[pos..];
    FeedJoins(s0, data[from..pos], data[pos..], accept);
  }

  lemma StopsFor(s0: State, data: seq<byte>, pos: nat, accept: Handlers)
    requires pos <= |data| && Feed(s0, data[0..pos], accept).Stopped?
    ensures Feed(s0, data, accept) == Feed(s0, data[0..pos], accept)
  {
    assert data == data[0..pos] + data[pos..];
    FeedJoins(s0, data[0..pos], data[pos..], accept);
  }

  lemma BodyPart(s: State, d: seq<byte>, accept: Handlers)
    requires Ok(s) && s.step == DataStep && |s.buffer| + |d| <= s.bufferLen
    ensures Feed(s, d, accept)
         == if |s.buffer| + |d| == s.bufferLen then Complete(s.(buffer := s.buffer + d), accept)
            else Going(s.(buffer := s.buffer + d))
    ensures s.shift == 0
    ensures |s.buffer| + |d| < s.bufferLen ==> Ok(s.(buffer := s.buffer + d))
  {
    FeedBody(s, d, accept);
  }

  lemma CompleteOk(s: State, accept: Handlers)
    requires s.shift == 0
    ensures var r := Complete(s, accept); Ok(r.s) && r == (if Handle(s.(step := TypeStep), accept).1
      then Going(Handle(s.(step := TypeStep), accept).0) else Stopped(Handle(s.(step := TypeStep), accept).0))
  {
    hide ParseBody;
  }
}
