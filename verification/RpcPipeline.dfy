/**
 Pipelined calls: a client session, a server session and two byte streams between them.  Bytes move
 in pieces of any size; a session is called back when the number of bytes it asked for has arrived.
 Responses are matched to requests only by their place in a queue.
 */
module RpcPipeline {
  import opened Options
  import opened Bytes
  import opened Endec
  import opened RpcFrames

  datatype Status = Open | Done | Cancelled | Failed
  /** What caller and session share about one call. */
  datatype Item = Item(id: int, buffer: seq<byte>, status: Status, result: seq<byte>)

  // "lost connection"
  const LOST: seq<byte> := [108, 111, 115, 116, 32, 99, 111, 110, 110, 101, 99, 116, 105, 111, 110]

  /** The client session.  Lists hold the numbers of items; `want` is what the last async_recv asked for. */
  datatype Client = Client(
    items: seq<Item>,
    unsent: seq<nat>, unanswered: seq<nat>,
    isSend: bool, out: seq<byte>,
    want: nat, closed: bool)
  {
    predicate Sound() {
      (forall i :: i in unsent ==> i < |items|) && (forall i :: i in unanswered ==> i < |items|)
    }
  }

  datatype Step = MsgLen | MsgData

  datatype Server = Server(
    step: Step, want: nat,
    serving: Option<Request>,
    isSend: bool, out: seq<byte>, queue: seq<seq<byte>>,
    closed: bool)

  // --- What the callbacks do ---

  function PushReq(c: Client, item: Item): Client {
    c.(items := c.items + [item], unsent := c.unsent + [|c.items|])
  }

  function DoSend(c: Client): Client
    requires c.Sound()
  {
    if c.isSend || c.unsent == [] then c
    else
      assert c.unsent[0] in c.unsent;
      var i := c.unsent[0];
      c.(isSend := true, out := c.items[i].buffer, items := c.items[i := c.items[i].(buffer := [])],
         unanswered := c.unanswered + [i], unsent := c.unsent[1..])
  }

  function Sent(c: Client): Client
    requires c.Sound()
  {
    DoSend(c.(isSend := false))
  }

  function Fail(items: seq<Item>, which: seq<nat>): seq<Item> {
    seq(|items|, i requires 0 <= i < |items| => if i in which then items[i].(status := Failed, result := LOST) else items[i])
  }

  function Close(c: Client): Client {
    c.(items := Fail(Fail(c.items, c.unanswered), c.unsent), closed := true)
  }

  /**
   The receive callback.  A piece of four bytes is taken for a header and any other for a body.
   Taking the first of the unanswered calls needs one to be there.
   */
  function Received(c: Client, data: seq<byte>): Client
    requires c.Sound() && (|data| != 4 ==> c.unanswered != [])
  {
    if |data| == 4 then
      if FromBE(data) < MIN_LENGTH then Close(c) else c.(want := FromBE(data) - 4)
    else
      var magic := GetString(data);
      if !magic.Got? || magic.v != MAGIC then Close(c)
      else
        assert c.unanswered[0] in c.unanswered;
        var i, c' := c.unanswered[0], c.(unanswered := c.unanswered[1..]);
        var resp := ParseResp(data);
        if resp.None? || c.items[i].id != resp.value.0 then Close(c')
        else c'.(items := c.items[i := c.items[i].(result := resp.value.1, status := Done)], want := 4)
  }

  function Cancel(c: Client, i: nat): Client
    requires i < |c.items|
  {
    c.(items := c.items[i := c.items[i].(status := Cancelled)])
  }

  // The server's receive callback, up to the call of the service.
  function ServerReceived(s: Server, data: seq<byte>): Server
    requires s.step.MsgLen? && |data| == 4 ==> FromBE(data) >= 4
  {
    if s.step.MsgLen? && |data| == 4 then s.(step := MsgData, want := FromBE(data) - 4)
    else if s.step.MsgData? then
      var req := ParseReq(data);
      if req.None? then s.(step := MsgLen, closed := true) else s.(step := MsgLen, serving := req)
    else s.(closed := true)
  }

  function SendResp(s: Server, resp: seq<byte>): Server {
    if s.isSend then s.(queue := s.queue + [resp]) else s.(isSend := true, out := resp)
  }

  function Signed(id: nat): int { ToSigned(id, 8) }

  // The rest of the callback: the service has thrown or given its answer; send it and ask for the next header.
  function Served(s: Server, answer: Option<seq<byte>>): Server
    requires s.serving.Some?
    requires IdOk(Signed(s.serving.value.id))
  {
    if answer.None? then s.(serving := None, closed := true)
    else SendResp(s, Frame(RespBody(Signed(s.serving.value.id), answer.value))).(serving := None, want := 4)
  }

  function ServerSent(s: Server): Server {
    if s.queue == [] then s.(isSend := false)
    else s.(isSend := true, out := s.queue[0], queue := s.queue[1..])
  }

  // --- The system ---

  datatype Call = Call(name: seq<byte>, id: int, args: seq<byte>)

  // What a service answered, and to which request.
  datatype Answer = Answer(request: RpcFrames.Request, data: seq<byte>)

  // Beside the sessions and the streams: the calls that were made and the answers that were given.
  datatype State = State(c: Client, s: Server, toServer: seq<byte>, toClient: seq<byte>, calls: seq<Call>, answers: seq<Answer>)

  const INITIAL :=
    State(Client([], [], [], false, [], 4, false), Server(MsgLen, 4, None, false, [], [], false), [], [], [], [])

  datatype Action =
    | Request(call: Call) | RunPosted | ClientSent | MoveToServer(n: nat)
    | ServerReceive | Serve(answer: Option<seq<byte>>) | ServerSends | MoveToClient(n: nat)
    | ClientReceive | CancelCall(i: nat) | ConnectionLost

  // What the callers and the services promise: ids of 64 bits, messages whose length fits 32 bits.
  predicate CallOk(call: Call) {
    IdOk(call.id) && Fits(ReqBody(call.name, call.id, call.args))
  }

  predicate AnswerOk(data: seq<byte>) { |data| + 31 < COUNT_LIMIT }

  // A step can happen, and no callback does anything undefined in it.
  predicate Enabled(x: State, a: Action) {
    match a
    case Request(call) => !x.c.closed && CallOk(call)
    case RunPosted => !x.c.closed
    case ClientSent => !x.c.closed && x.c.isSend && x.c.out == []
    case MoveToServer(n) => 1 <= n <= |x.c.out|
    case ServerReceive => !x.s.closed && x.s.serving.None? && |x.toServer| >= x.s.want
    case Serve(answer) => !x.s.closed && x.s.serving.Some? && (answer.Some? ==> AnswerOk(answer.value))
    case ServerSends => !x.s.closed && x.s.serving.None? && x.s.isSend && x.s.out == []
    case MoveToClient(n) => 1 <= n <= |x.s.out|
    case ClientReceive => !x.c.closed && |x.toClient| >= x.c.want
    case CancelCall(i) => i < |x.c.items|
    case ConnectionLost => !x.c.closed && x.s.closed
  }

  predicate Defined(x: State, a: Action)
    requires Enabled(x, a)
  {
    match a
    case RunPosted => x.c.Sound()
    case ClientSent => x.c.Sound()
    case ServerReceive => x.s.step.MsgLen? && x.s.want == 4 ==> FromBE(x.toServer[..4]) >= 4
    case Serve(_) => IdOk(Signed(x.s.serving.value.id))
    case ClientReceive => x.c.Sound() && (x.c.want != 4 ==> x.c.unanswered != [])
    case _ => true
  }

  function Apply(x: State, a: Action): State
    requires Enabled(x, a) && Defined(x, a)
  {
    match a
    case Request(call) =>
      x.(c := PushReq(x.c, Item(call.id, Frame(ReqBody(call.name, call.id, call.args)), Open, [])), calls := x.calls + [call])
    case RunPosted => x.(c := DoSend(x.c))
    case ClientSent => x.(c := Sent(x.c))
    case MoveToServer(n) => x.(c := x.c.(out := x.c.out[n..]), toServer := x.toServer + x.c.out[..n])
    case ServerReceive => x.(s := ServerReceived(x.s, x.toServer[..x.s.want]), toServer := x.toServer[x.s.want..])
    case Serve(answer) =>
      x.(s := Served(x.s, answer),
         answers := if answer.None? then x.answers else x.answers + [Answer(x.s.serving.value, answer.value)])
    case ServerSends => x.(s := ServerSent(x.s))
    case MoveToClient(n) => x.(s := x.s.(out := x.s.out[n..]), toClient := x.toClient + x.s.out[..n])
    case ClientReceive => x.(c := Received(x.c, x.toClient[..x.c.want]), toClient := x.toClient[x.c.want..])
    case CancelCall(i) => x.(c := Cancel(x.c, i))
    case ConnectionLost => x.(c := Close(x.c))
  }

  // --- What every reachable state satisfies ---

  /** How far the calls have come: answers taken by the client, requests answered, requests handed to the network. */
  datatype Progress = Progress(taken: nat, answered: nat, sent: nat)

  function Range(lo: nat, hi: nat): seq<nat>
    requires lo <= hi
  {
    seq(hi - lo, i => lo + i)
  }

  function Body(call: Call): seq<byte> {
    if IdOk(call.id) then ReqBody(call.name, call.id, call.args) else []
  }

  function RequestOf(call: Call): RpcFrames.Request
    requires IdOk(call.id)
  {
    RpcFrames.Request(ToUnsigned(call.id, 8), call.name, call.args)
  }

  function RespOf(a: Answer): seq<byte> {
    if IdOk(Signed(a.request.id)) then RespBody(Signed(a.request.id), a.data) else []
  }

  function Reqs(calls: seq<Call>): seq<seq<byte>> {
    seq(|calls|, i requires 0 <= i < |calls| => Body(calls[i]))
  }

  function Resps(answers: seq<Answer>): seq<seq<byte>> {
    seq(|answers|, i requires 0 <= i < |answers| => RespOf(answers[i]))
  }

  // The bytes of bodies lo to hi, the first without its header when that has been read.
  ghost predicate Carries(stream: seq<byte>, bodies: seq<seq<byte>>, lo: nat, hi: nat, headerRead: bool, want: nat) {
    && lo <= hi <= |bodies|
    && if headerRead then lo < hi && want == |bodies[lo]| && stream == bodies[lo] + Frames(bodies[lo + 1..hi])
       else want == 4 && stream == Frames(bodies[lo..hi])
  }

  function Concat(parts: seq<seq<byte>>): seq<byte> {
    if parts == [] then [] else parts[0] + Concat(parts[1..])
  }

  function Parsed(s: Server, g: Progress): nat {
    if s.serving.Some? then g.answered + 1 else g.answered
  }

  ghost predicate ListsOk(c: Client, calls: seq<Call>, g: Progress) {
    && |calls| == |c.items| && (forall call :: call in calls ==> CallOk(call))
    && g.taken <= g.answered <= g.sent <= |calls|
    && c.unanswered == Range(g.taken, g.sent) && c.unsent == Range(g.sent, |calls|)
    && (forall i :: 0 <= i < |calls| ==> c.items[i].id == calls[i].id)
    && (forall i :: g.sent <= i < |calls| ==> c.items[i].buffer == Frame(Body(calls[i])))
    && (!c.isSend ==> c.out == [])
  }

  // What the server asked for; while it serves it has asked for nothing and the next thing is a header.
  function Wants(s: Server): nat {
    if s.serving.Some? then 4 else s.want
  }

  ghost predicate RequestsOk(calls: seq<Call>, s: Server, stream: seq<byte>, g: Progress) {
    && g.answered <= Parsed(s, g) <= g.sent <= |calls|
    && Carries(stream, Reqs(calls), Parsed(s, g), g.sent, s.step.MsgData?, Wants(s))
    && (s.serving.Some? ==>
          var call := calls[g.answered];
          s.step.MsgLen? && IdOk(call.id) && s.serving.value == RequestOf(call))
  }

  // The answers were given to the calls, in their order.
  ghost predicate AnswersOk(calls: seq<Call>, answers: seq<Answer>) {
    && |answers| <= |calls|
    && forall i :: 0 <= i < |answers|
         ==> IdOk(calls[i].id) && answers[i].request == RequestOf(calls[i]) && AnswerOk(answers[i].data)
  }

  ghost predicate ResponsesOk(answers: seq<Answer>, isSend: bool, out: seq<byte>, queue: seq<seq<byte>>, toClient: seq<byte>,
                              want: nat, g: Progress) {
    && g.taken <= g.answered == |answers|
    && Carries(toClient + (out + Concat(queue)), Resps(answers), g.taken, g.answered, want != 4, want)
    && (!isSend ==> out == [] && queue == [])
  }

  /** Every call whose answer was taken has the result of its own request. */
  ghost predicate ResultsOk(items: seq<Item>, calls: seq<Call>, answers: seq<Answer>, taken: nat) {
    && |items| == |calls| && taken <= |answers| && AnswersOk(calls, answers)
    && (forall i :: 0 <= i < |items| && items[i].status.Done? ==> i < taken)
    && (forall i :: 0 <= i < taken ==>
          (items[i].status.Done? || items[i].status.Cancelled?) && items[i].result == answers[i].data)
  }

  ghost predicate Inv(x: State, g: Progress) {
    && ResultsOk(x.c.items, x.calls, x.answers, g.taken)
    && (x.c.closed ==> x.s.closed)
    && (!x.c.closed ==> ListsOk(x.c, x.calls, g) && ResponsesOk(x.answers, x.s.isSend, x.s.out, x.s.queue, x.toClient, x.c.want, g))
    && (!x.s.closed ==> RequestsOk(x.calls, x.s, x.toServer + x.c.out, g) && g.answered == |x.answers|)
  }

  // --- Streams ---

  lemma {:induction false} FramesAppend(xs: seq<seq<byte>>, ys: seq<seq<byte>>)
    ensures Frames(xs + ys) == Frames(xs) + Frames(ys)
  {
    if xs == [] {
      assert xs + ys == ys;
    } else {
      assert (xs + ys)[1..] == xs[1..] + ys;
      FramesAppend(xs[1..], ys);
    }
  }

  lemma {:induction false} ConcatAppend(parts: seq<seq<byte>>, x: seq<byte>)
    ensures Concat(parts + [x]) == Concat(parts) + x
  {
    if parts != [] {
      assert (parts + [x])[1..] == parts[1..] + [x];
      ConcatAppend(parts[1..], x);
    } else {
      assert parts + [x] == [x] && [x][1..] == [];
    }
  }

  // One more frame at the end of the stream.
  lemma CarriesMore(stream: seq<byte>, bodies: seq<seq<byte>>, lo: nat, hi: nat, headerRead: bool, want: nat)
    requires Carries(stream, bodies, lo, hi, headerRead, want) && hi < |bodies|
    ensures Carries(stream + Frame(bodies[hi]), bodies, lo, hi + 1, headerRead, want)
  {
    hide Frame;
    var k := if headerRead then lo + 1 else lo;
    assert bodies[k..hi + 1] == bodies[k..hi] + [bodies[hi]];
    FramesAppend(bodies[k..hi], [bodies[hi]]);
    assert Frames([bodies[hi]]) == Frame(bodies[hi]) + Frames([]) == Frame(bodies[hi]);
    if headerRead {
      assert (bodies[lo] + Frames(bodies[k..hi])) + Frame(bodies[hi]) == bodies[lo] + (Frames(bodies[k..hi]) + Frame(bodies[hi]));
    }
  }

  // More calls do not change what is under way.
  lemma CarriesPrefix(stream: seq<byte>, bodies: seq<seq<byte>>, more: seq<seq<byte>>, lo: nat, hi: nat, headerRead: bool, want: nat)
    requires Carries(stream, bodies, lo, hi, headerRead, want) && bodies <= more
    ensures Carries(stream, more, lo, hi, headerRead, want)
  {
    assert more[lo..hi] == bodies[lo..hi];
    if headerRead { assert more[lo + 1..hi] == bodies[lo + 1..hi]; }
  }

  /** The reader's next piece, when it has arrived, is the next header or the next body. */
  lemma NextHeader(here: seq<byte>, later: seq<byte>, bodies: seq<seq<byte>>, lo: nat, hi: nat)
    requires Carries(here + later, bodies, lo, hi, false, 4) && |here| >= 4
    requires forall b :: b in bodies ==> Fits(b)
    ensures lo < hi && FromBE(here[..4]) == |bodies[lo]| + 4
    ensures Carries(here[4..] + later, bodies, lo, hi, true, |bodies[lo]|)
  {
    assert lo < hi;
    var b := bodies[lo];
    assert b in bodies;
    assert bodies[lo..hi] == [b] + bodies[lo + 1..hi];
    assert bodies[lo..hi][1..] == bodies[lo + 1..hi];
    FrameHeader(b, Frames(bodies[lo + 1..hi]));
    assert (here + later)[..4] == here[..4] && (here + later)[4..] == here[4..] + later;
  }

  lemma NextBody(here: seq<byte>, later: seq<byte>, bodies: seq<seq<byte>>, lo: nat, hi: nat, want: nat)
    requires Carries(here + later, bodies, lo, hi, true, want) && |here| >= want
    ensures want == |bodies[lo]| && here[..want] == bodies[lo]
    ensures Carries(here[want..] + later, bodies, lo + 1, hi, false, 4)
  {
    assert (here + later)[..want] == here[..want] && (here + later)[want..] == here[want..] + later;
  }

  lemma BodiesFit(calls: seq<Call>)
    requires forall call :: call in calls ==> CallOk(call)
    ensures forall b :: b in Reqs(calls) ==> Fits(b)
  {
    forall b | b in Reqs(calls) ensures Fits(b) {
      var i :| 0 <= i < |calls| && Reqs(calls)[i] == b;
      assert calls[i] in calls;
    }
  }

  lemma AnswersFit(calls: seq<Call>, answers: seq<Answer>)
    requires AnswersOk(calls, answers)
    ensures forall b :: b in Resps(answers) ==> Fits(b) && |b| >= 27
    ensures forall i :: 0 <= i < |answers| ==> Resps(answers)[i] == RespBody(calls[i].id, answers[i].data)
  {
    hide RespBody;
    forall i | 0 <= i < |answers|
      ensures Resps(answers)[i] == RespBody(calls[i].id, answers[i].data) && Fits(Resps(answers)[i]) && |Resps(answers)[i]| >= 27
    {
      SignedRoundTrip(calls[i].id, 8);
      RespBodyLength(calls[i].id, answers[i].data);
    }
  }

  // --- Every step keeps it ---

  lemma RequestStep(x: State, g: Progress, a: Action)
    requires Inv(x, g) && a.Request? && Enabled(x, a)
    ensures Inv(Apply(x, a), g)
  {
    hide Carries;
    var x' := Apply(x, a);
    var n := |x.calls|;
    assert Reqs(x.calls) <= Reqs(x'.calls);
    assert Range(g.sent, n) + [n] == Range(g.sent, n + 1);
    if !x.s.closed {
      CarriesPrefix(x.toServer + x.c.out, Reqs(x.calls), Reqs(x'.calls), Parsed(x.s, g), g.sent, x.s.step.MsgData?, Wants(x.s));
    }
  }

  // do_send_rpc on a session whose last send is finished.
  lemma DoSendLists(c: Client, calls: seq<Call>, g: Progress)
    requires ListsOk(c, calls, g) && c.out == [] && c.unsent != []
    ensures c.Sound() && g.sent < |calls|
    ensures var c' := DoSend(c.(isSend := false));
      && ListsOk(c', calls, g.(sent := g.sent + 1)) && c'.out == Frame(Body(calls[g.sent])) && c'.want == c.want && c'.closed == c.closed
      && |c'.items| == |c.items| && forall i :: 0 <= i < |c.items| ==> c'.items[i] == c.items[i].(buffer := c'.items[i].buffer)
  {
    assert c.Sound();
    assert Range(g.sent, |calls|)[1..] == Range(g.sent + 1, |calls|);
    assert Range(g.taken, g.sent) + [g.sent] == Range(g.taken, g.sent + 1);
  }

  lemma DoSendStep(x: State, g: Progress, c: Client) returns (g': Progress)
    requires Inv(x, g) && !x.c.closed
    requires c == x.c || (x.c.out == [] && c == x.c.(isSend := false))
    ensures c.Sound() && Inv(x.(c := DoSend(c)), g')
  {
    hide Carries;
    g' := g;
    assert c.Sound();
    if !c.isSend && c.unsent != [] {
      g' := g.(sent := g.sent + 1);
      DoSendLists(x.c, x.calls, g);
      assert c == x.c.(isSend := false);
      if !x.s.closed {
        assert x.toServer + [] == x.toServer;
        assert Reqs(x.calls)[g.sent] == Body(x.calls[g.sent]);
        CarriesMore(x.toServer, Reqs(x.calls), Parsed(x.s, g), g.sent, x.s.step.MsgData?, Wants(x.s));
      }
    }
  }

  lemma MoveStep(x: State, g: Progress, a: Action)
    requires Inv(x, g) && (a.MoveToServer? || a.MoveToClient?) && Enabled(x, a)
    ensures Inv(Apply(x, a), g)
  {
    hide Carries, ResultsOk;
    var x' := Apply(x, a);
    if a.MoveToServer? {
      assert x'.toServer + x'.c.out == x.toServer + x.c.out;
    } else {
      assert x'.toClient + (x'.s.out + Concat(x'.s.queue)) == x.toClient + (x.s.out + Concat(x.s.queue));
    }
  }

  /** The server never closes over what it reads: a header is followed by its body, and a body is the next call's request. */
  lemma ServerReceiveStep(x: State, g: Progress, a: Action)
    requires Inv(x, g) && a.ServerReceive? && Enabled(x, a)
    ensures Defined(x, a) && Inv(Apply(x, a), g) && !Apply(x, a).s.closed
    ensures g.answered < |x.calls| && CallOk(x.calls[g.answered])
    ensures var call, s' := x.calls[g.answered], Apply(x, a).s;
      if x.s.step.MsgLen? then s'.step.MsgData? && s'.want == |ReqBody(call.name, call.id, call.args)| && s'.serving.None?
      else s'.step.MsgLen? && s'.serving == Some(RequestOf(call))
  {
    hide ResponsesOk, ResultsOk, Frames, ParseReq;
    BodiesFit(x.calls);
    var bodies := Reqs(x.calls);
    if x.s.step.MsgLen? {
      NextHeader(x.toServer, x.c.out, bodies, g.answered, g.sent);
    } else {
      NextBody(x.toServer, x.c.out, bodies, g.answered, g.sent, x.s.want);
      var call := x.calls[g.answered];
      assert call in x.calls;
      ReqRoundTrip(call.name, call.id, call.args);
    }
  }

  // A new response goes to the end of what is on its way to the client.
  lemma AnswerQueued(answers: seq<Answer>, a: Answer, s: Server, toClient: seq<byte>, want: nat, g: Progress, resp: seq<byte>)
    requires ResponsesOk(answers, s.isSend, s.out, s.queue, toClient, want, g) && resp == Frame(RespOf(a))
    ensures var s' := SendResp(s, resp);
      ResponsesOk(answers + [a], s'.isSend, s'.out, s'.queue, toClient, want, g.(answered := g.answered + 1))
  {
    hide Carries, Frame, RespOf;
    var pending, s' := s.out + Concat(s.queue), SendResp(s, resp);
    var more := Resps(answers + [a]);
    assert Resps(answers) <= more && more[g.answered] == RespOf(a);
    CarriesPrefix(toClient + pending, Resps(answers), more, g.taken, g.answered, want != 4, want);
    CarriesMore(toClient + pending, more, g.taken, g.answered, want != 4, want);
    if s.isSend {
      ConcatAppend(s.queue, resp);
      assert s'.out + Concat(s'.queue) == pending + resp;
    }
    assert toClient + (s'.out + Concat(s'.queue)) == (toClient + pending) + resp;
  }

  lemma ServeStep(x: State, g: Progress, a: Action) returns (g': Progress)
    requires Inv(x, g) && a.Serve? && Enabled(x, a)
    ensures Defined(x, a) && Inv(Apply(x, a), g')
  {
    hide Carries, ParseReq, ResponsesOk, ResultsOk, FromBE;
    var call := x.calls[g.answered];
    SignedRoundTrip(call.id, 8);
    g' := g;
    if a.answer.Some? {
      g' := g.(answered := g.answered + 1);
      var answer := Answer(x.s.serving.value, a.answer.value);
      if !x.c.closed {
        AnswerQueued(x.answers, answer, x.s, x.toClient, x.c.want, g, Frame(RespBody(call.id, answer.data)));
      }
      AnswerGiven(x.c.items, x.calls, x.answers, answer, g.taken);
    }
  }

  lemma AnswerGiven(items: seq<Item>, calls: seq<Call>, answers: seq<Answer>, a: Answer, taken: nat)
    requires ResultsOk(items, calls, answers, taken) && |answers| < |calls| && AnswerOk(a.data)
    requires IdOk(calls[|answers|].id) && a.request == RequestOf(calls[|answers|])
    ensures ResultsOk(items, calls, answers + [a], taken)
  {
  }

  lemma ServerSendsStep(x: State, g: Progress, a: Action)
    requires Inv(x, g) && a.ServerSends? && Enabled(x, a)
    ensures Inv(Apply(x, a), g)
  {
    hide Carries, ResultsOk, ListsOk;
    var s' := ServerSent(x.s);
    assert x.s.out + Concat(x.s.queue) == s'.out + Concat(s'.queue);
  }

  // What the callback does with the response to the first unanswered call.
  lemma AcceptsOwnResponse(c: Client, id: int, data: seq<byte>)
    requires c.Sound() && c.unanswered != [] && c.unanswered[0] < |c.items| && c.items[c.unanswered[0]].id == id
    requires IdOk(id) && |data| + 31 < COUNT_LIMIT
    ensures var i := c.unanswered[0];
      Received(c, RespBody(id, data)) ==
        c.(items := c.items[i := c.items[i].(result := data, status := Done)], unanswered := c.unanswered[1..], want := 4)
  {
    hide FromBE, BE, ParseResp;
    assert RespBody(id, data) == Str(MAGIC) + (Id(id) + Str(data));
    StrRoundTrip(MAGIC, Id(id) + Str(data));
    RespRoundTrip(id, data);
    RespBodyLength(id, data);
  }

  lemma TakeAnswer(c: Client, calls: seq<Call>, answers: seq<Answer>, g: Progress)
    requires ListsOk(c, calls, g) && ResultsOk(c.items, calls, answers, g.taken) && g.taken < g.answered == |answers|
    ensures c.Sound() && c.unanswered != []
    ensures var c' := Received(c, Resps(answers)[g.taken]);
      && ListsOk(c', calls, g.(taken := g.taken + 1)) && ResultsOk(c'.items, calls, answers, g.taken + 1)
      && c' == c.(items := c'.items, unanswered := c'.unanswered, want := 4)
  {
    hide Received, Resps, ListsOk, ResultsOk;
    ListsFirst(c, calls, g);
    assert AnswersOk(calls, answers) by { ResultsAnswers(c.items, calls, answers, g.taken); }
    AnswersFit(calls, answers);
    var i, data := g.taken, answers[g.taken].data;
    AcceptsOwnResponse(c, calls[i].id, data);
    ListsTaken(c, calls, g, c.items[i].(result := data, status := Done));
    ResultTaken(c.items, calls, answers, i);
  }

  lemma ResultsAnswers(items: seq<Item>, calls: seq<Call>, answers: seq<Answer>, taken: nat)
    requires ResultsOk(items, calls, answers, taken)
    ensures AnswersOk(calls, answers) && |items| == |calls|
  {
  }

  lemma ListsFirst(c: Client, calls: seq<Call>, g: Progress)
    requires ListsOk(c, calls, g) && g.taken < g.answered
    ensures c.Sound() && c.unanswered != [] && c.unanswered[0] == g.taken < |c.items| == |calls|
    ensures c.items[g.taken].id == calls[g.taken].id
  {
    hide Frame, Body;
    assert Range(g.taken, g.sent)[0] == g.taken;
    assert c.Sound();
  }

  lemma ListsTaken(c: Client, calls: seq<Call>, g: Progress, item: Item)
    requires ListsOk(c, calls, g) && g.taken < g.answered && c.unanswered != [] && item.id == calls[g.taken].id
    ensures ListsOk(c.(items := c.items[g.taken := item], unanswered := c.unanswered[1..], want := 4), calls, g.(taken := g.taken + 1))
  {
    hide Frame, Body;
    assert Range(g.taken, g.sent)[1..] == Range(g.taken + 1, g.sent);
  }

  lemma ResultTaken(items: seq<Item>, calls: seq<Call>, answers: seq<Answer>, i: nat)
    requires ResultsOk(items, calls, answers, i) && i < |answers|
    ensures ResultsOk(items[i := items[i].(result := answers[i].data, status := Done)], calls, answers, i + 1)
  {
    hide AnswersOk;
    assert |answers| <= |calls| by { AnswersFewer(calls, answers); }
  }

  lemma AnswersFewer(calls: seq<Call>, answers: seq<Answer>)
    requires AnswersOk(calls, answers)
    ensures |answers| <= |calls|
  {
  }

  // What the client makes of a header: it asks for the body, and closes nothing.
  lemma HeaderReceived(c: Client, isSend: bool, out: seq<byte>, queue: seq<seq<byte>>, toClient: seq<byte>,
                       calls: seq<Call>, answers: seq<Answer>, g: Progress)
    requires c.Sound() && c.want == 4 && |toClient| >= 4 && AnswersOk(calls, answers)
    requires ResponsesOk(answers, isSend, out, queue, toClient, 4, g)
    ensures var c' := Received(c, toClient[..4]);
      c' == c.(want := c'.want) && ResponsesOk(answers, isSend, out, queue, toClient[4..], c'.want, g)
  {
    hide Frames, BE, FromBE, Concat, Resps;
    AnswersFit(calls, answers);
    var bodies := Resps(answers);
    NextHeader(toClient, out + Concat(queue), bodies, g.taken, g.answered);
    assert bodies[g.taken] in bodies;
  }

  lemma ClientHeaderStep(x: State, g: Progress, a: Action)
    requires Inv(x, g) && a.ClientReceive? && Enabled(x, a) && x.c.want == 4
    ensures Defined(x, a) && Inv(Apply(x, a), g) && !Apply(x, a).c.closed
  {
    hide RequestsOk, ResponsesOk, ResultsOk, Received, Frame, Body;
    assert x.c.Sound();
    ResultsAnswers(x.c.items, x.calls, x.answers, g.taken);
    HeaderReceived(x.c, x.s.isSend, x.s.out, x.s.queue, x.toClient, x.calls, x.answers, g);
  }

  lemma ClientBodyStep(x: State, g: Progress, a: Action) returns (g': Progress)
    requires Inv(x, g) && a.ClientReceive? && Enabled(x, a) && x.c.want != 4
    ensures Defined(x, a) && Inv(Apply(x, a), g') && !Apply(x, a).c.closed
  {
    hide Carries, ResultsOk, Received, BE, FromBE;
    NextBody(x.toClient, x.s.out + Concat(x.s.queue), Resps(x.answers), g.taken, g.answered, x.c.want);
    TakeAnswer(x.c, x.calls, x.answers, g);
    g' := g.(taken := g.taken + 1);
  }

  /** The client's callback finds the call it expects: the list is not empty and the id test succeeds. */
  lemma ClientReceiveStep(x: State, g: Progress, a: Action) returns (g': Progress)
    requires Inv(x, g) && a.ClientReceive? && Enabled(x, a)
    ensures Defined(x, a) && Inv(Apply(x, a), g') && !Apply(x, a).c.closed
  {
    hide Inv, Defined, Apply, Enabled;
    g' := g;
    if x.c.want == 4 { ClientHeaderStep(x, g, a); } else { g' := ClientBodyStep(x, g, a); }
  }

  lemma CancelStep(x: State, g: Progress, a: Action)
    requires Inv(x, g) && a.CancelCall? && Enabled(x, a)
    ensures Inv(Apply(x, a), g)
    ensures var after := Apply(x, a).c.items; |after| == |x.c.items| && forall j :: 0 <= j < |after| ==>
      (after[j].result == x.c.items[j].result && (if j == a.i then after[j].status.Cancelled? else after[j] == x.c.items[j]))
  {
    hide Carries;
  }

  /** A lost connection fails exactly the calls not answered yet, and leaves the others as they are. */
  lemma LostStep(x: State, g: Progress, a: Action)
    requires Inv(x, g) && a.ConnectionLost? && Enabled(x, a)
    ensures Inv(Apply(x, a), g)
    ensures var after := Apply(x, a).c.items; |after| == |x.c.items| && forall i :: 0 <= i < |after| ==>
      (after[i].status.Failed? <==> i >= g.taken) && (i < g.taken ==> after[i] == x.c.items[i])
      && (i >= g.taken ==> Says(after[i].result, "lost connection"))
  {
    hide Carries, ListsOk, ResultsOk, RequestsOk, ResponsesOk, Close;
    CloseKeepsAnswered(x.c, x.calls, g);
    ClosedResults(x.c.items, Close(x.c).items, x.calls, x.answers, g.taken);
  }

  predicate Says(bytes: seq<byte>, text: string) {
    |bytes| == |text| && forall k :: 0 <= k < |text| ==> bytes[k] == text[k] as int
  }

  lemma ClosedResults(items: seq<Item>, after: seq<Item>, calls: seq<Call>, answers: seq<Answer>, taken: nat)
    requires ResultsOk(items, calls, answers, taken) && |after| == |items| && taken <= |items|
    requires forall i :: 0 <= i < taken ==> after[i] == items[i]
    requires forall i :: taken <= i < |items| ==> after[i].status.Failed?
    ensures ResultsOk(after, calls, answers, taken)
    ensures forall i :: 0 <= i < |after| ==> (after[i].status.Failed? <==> i >= taken)
  {
    hide AnswersOk;
  }

  // Closing fails the calls that wait for a response or have not been sent, and no others.
  lemma CloseKeepsAnswered(c: Client, calls: seq<Call>, g: Progress)
    requires !c.closed ==> ListsOk(c, calls, g)
    requires !c.closed
    ensures |Close(c).items| == |c.items| == |calls| && g.taken <= |calls| && Close(c).closed
    ensures forall i :: 0 <= i < g.taken ==> Close(c).items[i] == c.items[i]
    ensures forall i :: g.taken <= i < |calls| ==> Close(c).items[i].status.Failed? && Says(Close(c).items[i].result, "lost connection")
  {
    hide Frame, Body, Says, Close;
    FailureSays(c);
    assert |calls| == |c.items| == |Close(c).items|;
    forall i | 0 <= i < g.taken ensures Close(c).items[i] == c.items[i] {
      assert i !in Range(g.taken, g.sent) && i !in Range(g.sent, |calls|);
    }
    forall i | g.taken <= i < |calls| ensures Close(c).items[i].status.Failed? && Says(Close(c).items[i].result, "lost connection") {
      if i < g.sent { assert Range(g.taken, g.sent)[i - g.taken] == i; } else { assert Range(g.sent, |calls|)[i - g.sent] == i; }
    }
  }

  // Closing fails the calls that wait, and says why.
  lemma FailureSays(c: Client)
    ensures Close(c).closed && |Close(c).items| == |c.items|
    ensures forall i :: 0 <= i < |c.items| && i !in c.unanswered && i !in c.unsent ==> Close(c).items[i] == c.items[i]
    ensures forall i | 0 <= i < |c.items| && (i in c.unanswered || i in c.unsent) ::
      Close(c).items[i].status.Failed? && Says(Close(c).items[i].result, "lost connection")
  {
    hide Says;
    assert Says(LOST, "lost connection") by { LostSays(); }
  }

  lemma LostSays()
    ensures Says(LOST, "lost connection")
  {
  }

  lemma InvStep(x: State, g: Progress, a: Action) returns (g': Progress)
    requires Inv(x, g) && Enabled(x, a)
    ensures Defined(x, a) && Inv(Apply(x, a), g')
    ensures a.ClientReceive? ==> !Apply(x, a).c.closed
    ensures Apply(x, a).s.closed ==> x.s.closed || a == Serve(None)
    ensures Apply(x, a).c.closed ==> x.c.closed || a.ConnectionLost?
  {
    hide Inv, Apply, Enabled;
    g' := g;
    match a {
      case Request(_) => RequestStep(x, g, a);
      case RunPosted => g' := SendStep(x, g, a);
      case ClientSent => g' := SendStep(x, g, a);
      case MoveToServer(_) => MoveStep(x, g, a);
      case MoveToClient(_) => MoveStep(x, g, a);
      case ServerReceive => ServerReceiveStep(x, g, a);
      case Serve(_) => g' := ServeStep(x, g, a);
      case ServerSends => ServerSendsStep(x, g, a);
      case ClientReceive => g' := ClientReceiveStep(x, g, a);
      case CancelCall(_) => CancelStep(x, g, a);
      case ConnectionLost => LostStep(x, g, a);
    }
    Closing(x, a);
  }

  // What closes a session, the two receive callbacks apart.
  lemma Closing(x: State, a: Action)
    requires Enabled(x, a) && Defined(x, a)
    ensures Apply(x, a).s.closed ==> x.s.closed || a == Serve(None) || a.ServerReceive?
    ensures Apply(x, a).c.closed ==> x.c.closed || a.ConnectionLost? || a.ClientReceive?
  {
    hide Received, ServerReceived, Frame, ReqBody, RespBody;
  }

  lemma SendStep(x: State, g: Progress, a: Action) returns (g': Progress)
    requires Inv(x, g) && Enabled(x, a) && (a.RunPosted? || a.ClientSent?)
    ensures Defined(x, a)
    ensures Inv(Apply(x, a), g')
  {
    hide Inv;
    var c := if a.RunPosted? then x.c else x.c.(isSend := false);
    g' := DoSendStep(x, g, c);
    assert x.c.Sound() by { assert c.Sound(); }
    assert Apply(x, a) == x.(c := DoSend(c));
  }

  // --- All runs ---

  predicate Runnable(x: State, run: seq<Action>)
    decreases |run|
  {
    run != [] ==> Enabled(x, run[0]) && Defined(x, run[0]) && Runnable(Apply(x, run[0]), run[1..])
  }

  function Exec(x: State, run: seq<Action>): State
    requires Runnable(x, run)
    decreases |run|
  {
    if run == [] then x else Exec(Apply(x, run[0]), run[1..])
  }

  lemma {:induction false} InvRun(x: State, g: Progress, run: seq<Action>) returns (g': Progress)
    requires Inv(x, g) && Runnable(x, run)
    ensures Inv(Exec(x, run), g')
    decreases |run|
  {
    hide Inv, Apply, Enabled, Defined;
    g' := g;
    if run != [] {
      var mid := InvStep(x, g, run[0]);
      g' := InvRun(Apply(x, run[0]), mid, run[1..]);
    }
  }

  lemma InitInv()
    ensures Inv(INITIAL, Progress(0, 0, 0))
  {
  }

  /**
   In every reachable state, whatever callback comes next does nothing undefined, and a response that
   reaches the client is accepted: an unanswered call is there and has the id of the response.
   */
  lemma ResponsesAlwaysMatch(run: seq<Action>, a: Action)
    requires Runnable(INITIAL, run) && Enabled(Exec(INITIAL, run), a)
    ensures Defined(Exec(INITIAL, run), a)
    ensures a.ClientReceive? ==> !Apply(Exec(INITIAL, run), a).c.closed
  {
    InitInv();
    var g := InvRun(INITIAL, Progress(0, 0, 0), run);
    var _ := InvStep(Exec(INITIAL, run), g, a);
  }

  /**
   A caller that is told its call is done has the answer that was given to its own request and no other, even where two
   calls are equal, whatever else was timed out or cancelled.
   */
  lemma EachCallerGetsItsOwnResult(run: seq<Action>, i: nat)
    requires Runnable(INITIAL, run)
    requires i < |Exec(INITIAL, run).c.items| && Exec(INITIAL, run).c.items[i].status.Done?
    ensures var x := Exec(INITIAL, run);
      && i < |x.answers| && i < |x.calls| && IdOk(x.calls[i].id)
      && x.answers[i].request == RequestOf(x.calls[i]) && x.c.items[i].result == x.answers[i].data
  {
    InitInv();
    var g := InvRun(INITIAL, Progress(0, 0, 0), run);
  }

  /**
   While the connection stands, the client's waiting list is, in order: the calls whose responses are
   under way, the call being served, the calls whose requests are under way.  Both streams consist of
   exactly the bytes of these, but for a header already read.
   */
  lemma WaitingListIsWhatIsUnderWay(run: seq<Action>) returns (g: Progress)
    requires Runnable(INITIAL, run)
    ensures var x := Exec(INITIAL, run);
      !x.s.closed ==>
        && g.taken <= g.answered <= Parsed(x.s, g) <= g.sent <= |x.calls|
        && x.c.unanswered == Range(g.taken, g.answered) + Range(g.answered, Parsed(x.s, g)) + Range(Parsed(x.s, g), g.sent)
        && Carries(x.toClient + (x.s.out + Concat(x.s.queue)), Resps(x.answers), g.taken, g.answered, x.c.want != 4, x.c.want)
        && (x.s.serving.Some? ==> Signed(x.s.serving.value.id) == x.calls[g.answered].id)
        && Carries(x.toServer + x.c.out, Reqs(x.calls), Parsed(x.s, g), g.sent, x.s.step.MsgData?, Wants(x.s))
  {
    hide Carries, Inv, Parsed, Wants, Resps, Reqs, Range, Concat;
    InitInv();
    g := InvRun(INITIAL, Progress(0, 0, 0), run);
    UnderWay(Exec(INITIAL, run), g);
  }

  lemma UnderWay(x: State, g: Progress)
    requires Inv(x, g)
    ensures !x.s.closed ==>
      && g.taken <= g.answered <= Parsed(x.s, g) <= g.sent <= |x.calls|
      && x.c.unanswered == Range(g.taken, g.answered) + Range(g.answered, Parsed(x.s, g)) + Range(Parsed(x.s, g), g.sent)
      && Carries(x.toClient + (x.s.out + Concat(x.s.queue)), Resps(x.answers), g.taken, g.answered, x.c.want != 4, x.c.want)
      && (x.s.serving.Some? ==> Signed(x.s.serving.value.id) == x.calls[g.answered].id)
      && Carries(x.toServer + x.c.out, Reqs(x.calls), Parsed(x.s, g), g.sent, x.s.step.MsgData?, Wants(x.s))
  {
    hide Carries, ResultsOk, Frame, Body, Wants, Resps, Reqs, Concat;
    if !x.s.closed {
      RangesJoin(g.taken, g.answered, Parsed(x.s, g), g.sent);
      if x.s.serving.Some? { SignedRoundTrip(x.calls[g.answered].id, 8); }
    }
  }

  lemma RangesJoin(a: nat, b: nat, c: nat, d: nat)
    requires a <= b <= c <= d
    ensures Range(a, d) == Range(a, b) + Range(b, c) + Range(c, d)
  {
  }

  // --- Nothing closes, nothing is lost, nothing gets stuck ---

  /** As long as the service does not throw, neither session ever closes. */
  lemma {:induction false} StaysOpen(x: State, g: Progress, run: seq<Action>)
    requires Inv(x, g) && Runnable(x, run) && !x.s.closed && Serve(None) !in run
    ensures !Exec(x, run).s.closed && !Exec(x, run).c.closed
    decreases |run|
  {
    if run == [] {
      assert !x.c.closed;
    } else {
      hide Inv, Apply, Enabled, Defined;
      assert run[0] in run;
      var mid := InvStep(x, g, run[0]);
      StaysOpen(Apply(x, run[0]), mid, run[1..]);
    }
  }

  lemma NeverCloses(run: seq<Action>)
    requires Runnable(INITIAL, run) && Serve(None) !in run
    ensures !Exec(INITIAL, run).s.closed && !Exec(INITIAL, run).c.closed
  {
    InitInv();
    StaysOpen(INITIAL, Progress(0, 0, 0), run);
  }

  // Nothing waits to be sent, is under way or is being served.
  predicate Quiet(x: State) {
    && x.c.unsent == [] && x.c.out == [] && x.toServer == [] && x.s.serving.None?
    && x.s.out == [] && x.s.queue == [] && x.toClient == []
  }

  lemma SomethingUnderWay(stream: seq<byte>, bodies: seq<seq<byte>>, lo: nat, hi: nat, headerRead: bool, want: nat)
    requires Carries(stream, bodies, lo, hi, headerRead, want) && forall b :: b in bodies ==> |b| > 0
    ensures lo < hi <==> stream != []
    ensures lo < hi ==> |stream| >= want > 0
  {
    if lo < hi {
      assert bodies[lo] in bodies;
      if !headerRead { assert bodies[lo..hi][0] == bodies[lo]; }
    }
  }

  lemma RequestsLong(calls: seq<Call>)
    requires forall call :: call in calls ==> CallOk(call)
    ensures forall b :: b in Reqs(calls) ==> |b| > 0
  {
    forall b | b in Reqs(calls) ensures |b| > 0 {
      var i :| 0 <= i < |calls| && Reqs(calls)[i] == b;
      assert calls[i] in calls;
      RequestLong(calls[i]);
    }
  }

  lemma RequestLong(call: Call)
    requires CallOk(call)
    ensures |Body(call)| > 0
  {
    hide BE;
  }

  lemma QuietMeansAnswered(x: State, g: Progress)
    requires Inv(x, g) && !x.s.closed && Quiet(x)
    ensures g.taken == g.sent == |x.calls|
  {
    hide Carries, Frame, Body, BE, FromBE;
    RequestsLong(x.calls);
    AnswersFit(x.calls, x.answers);
    assert Concat([]) == [];
    SomethingUnderWay(x.toClient + (x.s.out + Concat(x.s.queue)), Resps(x.answers), g.taken, g.answered, x.c.want != 4, x.c.want);
    SomethingUnderWay(x.toServer + x.c.out, Reqs(x.calls), Parsed(x.s, g), g.sent, x.s.step.MsgData?, Wants(x.s));
    assert |Range(g.sent, |x.calls|)| == |x.calls| - g.sent;
  }

  /** When the service has not thrown and nothing is left to send, to move or to serve, every call has its own answer. */
  lemma EveryCallIsAnswered(run: seq<Action>, i: nat)
    requires Runnable(INITIAL, run) && Serve(None) !in run && Quiet(Exec(INITIAL, run))
    ensures var x := Exec(INITIAL, run);
      i < |x.calls| ==>
        && i < |x.c.items| && i < |x.answers| && IdOk(x.calls[i].id)
        && (x.c.items[i].status.Done? || x.c.items[i].status.Cancelled?)
        && x.answers[i].request == RequestOf(x.calls[i]) && x.c.items[i].result == x.answers[i].data
  {
    hide Quiet;
    NeverCloses(run);
    InitInv();
    var g := InvRun(INITIAL, Progress(0, 0, 0), run);
    QuietMeansAnswered(Exec(INITIAL, run), g);
  }

  lemma ServerCanRead(x: State, g: Progress)
    requires Inv(x, g) && !x.s.closed && x.c.out == [] && x.s.serving.None? && x.toServer != []
    ensures |x.toServer| >= x.s.want > 0
  {
    hide Carries, Reqs, Frame, Body, ResponsesOk, ResultsOk;
    RequestsLong(x.calls);
    assert x.toServer + x.c.out == x.toServer;
    SomethingUnderWay(x.toServer, Reqs(x.calls), g.answered, g.sent, x.s.step.MsgData?, x.s.want);
  }

  lemma ClientCanRead(x: State, g: Progress)
    requires Inv(x, g) && !x.s.closed && x.s.out == [] && x.s.queue == [] && x.toClient != []
    ensures |x.toClient| >= x.c.want > 0
  {
    hide Carries, Resps, Frame, Body, RequestsOk, ListsOk;
    AnswersFit(x.calls, x.answers);
    assert x.toClient + (x.s.out + Concat(x.s.queue)) == x.toClient;
    SomethingUnderWay(x.toClient, Resps(x.answers), g.taken, g.answered, x.c.want != 4, x.c.want);
  }

  /** And as long as something is left, some session or stream can go on. */
  lemma SomeStep(x: State, g: Progress) returns (a: Action)
    requires Inv(x, g) && !x.s.closed && !Quiet(x)
    ensures Enabled(x, a) && Defined(x, a) && Apply(x, a) != x
    ensures !a.Request? && !a.CancelCall? && !a.ConnectionLost? && a != Serve(None)
  {
    assert !x.c.closed;
    if x.c.out != [] {
      a := MoveToServer(1);
      assert |Apply(x, a).toServer| == |x.toServer| + 1;
    } else if x.s.serving.None? && x.s.out != [] {
      a := MoveToClient(1);
      assert |Apply(x, a).toClient| == |x.toClient| + 1;
    } else {
      hide Inv;
      a := SomeCallback(x, g);
    }
  }

  lemma SomeCallback(x: State, g: Progress) returns (a: Action)
    requires Inv(x, g) && !x.s.closed && !x.c.closed && !Quiet(x) && x.c.out == [] && (x.s.serving.None? ==> x.s.out == [])
    ensures Enabled(x, a) && Defined(x, a) && Apply(x, a) != x
    ensures !a.Request? && !a.CancelCall? && !a.ConnectionLost? && a != Serve(None)
  {
    hide Inv, Received, ServerReceived, DoSend, Frame, RespBody, FromBE;
    if x.c.isSend {
      a := ClientSent;
    } else if x.c.unsent != [] {
      a := RunPosted;
    } else if x.s.serving.Some? {
      a := Serve(Some([]));
    } else if x.s.isSend {
      a := ServerSends;
    } else if x.toServer != [] {
      ServerCanRead(x, g);
      a := ServerReceive;
    } else {
      QueueEmpty(x, g);
      ClientCanRead(x, g);
      a := ClientReceive;
    }
    var _ := InvStep(x, g, a);
    StepMoves(x, a);
  }

  lemma QueueEmpty(x: State, g: Progress)
    requires Inv(x, g) && !x.s.closed && !x.s.isSend
    ensures x.s.queue == [] && x.s.out == []
  {
    hide Carries, ListsOk, ResultsOk, RequestsOk;
  }

  // Each of these steps changes something.
  lemma StepMoves(x: State, a: Action)
    requires Enabled(x, a) && Defined(x, a)
    requires a.ClientSent? || (a.RunPosted? && !x.c.isSend && x.c.unsent != []) || a == Serve(Some([])) || a.ServerSends?
             || (a.ServerReceive? && x.s.want > 0) || (a.ClientReceive? && x.c.want > 0)
    ensures Apply(x, a) != x
  {
    hide Received, ServerReceived, FromBE;
    var y := Apply(x, a);
    if a.ServerReceive? {
      assert |y.toServer| < |x.toServer|;
    } else if a.ClientReceive? {
      assert |y.toClient| < |x.toClient|;
    } else if a.ServerSends? && x.s.queue != [] {
      assert |y.s.queue| < |x.s.queue|;
    } else if a.ClientSent? && x.c.unsent != [] {
      assert |y.c.unsent| < |x.c.unsent|;
    }
  }
}
