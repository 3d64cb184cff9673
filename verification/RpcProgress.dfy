/** Which calls end as cancelled, and that every call is answered in the end. */
module RpcProgress {
  import opened Options
  import opened Bytes
  import opened Endec
  import opened RpcFrames
  import opened RpcPipeline

  // --- Cancelling ---

  // Not answered yet: waiting to be sent, or for its answer.
  predicate Waits(x: State, i: nat) { i in x.c.unsent || i in x.c.unanswered }

  predicate CountsAsCancelled(x: State, i: nat) { i < |x.c.items| && !Waits(x, i) && x.c.items[i].status.Cancelled? }

  predicate CancelledLate(x: State, a: Action, i: nat) { a == CancelCall(i) && i < |x.c.items| && !Waits(x, i) }

  // Some cancelling of the call comes when it has been answered.
  predicate SomeLateCancel(x: State, run: seq<Action>, i: nat)
    requires Runnable(x, run)
    decreases |run|
  {
    run != [] && (CancelledLate(x, run[0], i) || SomeLateCancel(Apply(x, run[0]), run[1..], i))
  }

  // The client's two ways of sending, and what they leave alone.
  lemma SendingCancelsNothing(c: Client, i: nat)
    requires c.Sound()
    ensures var after := DoSend(c);
      && |after.items| == |c.items| && (i in after.unsent || i in after.unanswered <==> i in c.unsent || i in c.unanswered)
      && (i < |c.items| ==> after.items[i].status == c.items[i].status)
  {
    if !c.isSend && c.unsent != [] {
      InFront(c.unsent, i);
      assert c.unsent[0] in c.unsent;
      assert DoSend(c).unanswered == c.unanswered + [c.unsent[0]];
    }
  }

  lemma InFront(s: seq<nat>, i: nat)
    requires s != []
    ensures i in s <==> i == s[0] || i in s[1..]
  {
    assert s == [s[0]] + s[1..];
  }

  // An answer that comes makes its call done, whether it was cancelled or not.
  lemma AnswerCancelsNothing(c: Client, data: seq<byte>, i: nat)
    requires c.Sound() && (|data| != 4 ==> c.unanswered != []) && !Received(c, data).closed
    ensures var after := Received(c, data);
      && |after.items| == |c.items| && after.unsent == c.unsent
      && (i < |c.items| ==>
            (i !in c.unsent && i !in after.unanswered && after.items[i].status.Cancelled?
             <==> i !in c.unsent && i !in c.unanswered && c.items[i].status.Cancelled?))
  {
    hide GetString, ParseResp, FromBE;
    if |data| != 4 {
      InFront(c.unanswered, i);
      assert c.unanswered[0] in c.unanswered;
      assert Received(c, data).unanswered == c.unanswered[1..];
      assert Received(c, data).items[c.unanswered[0]].status.Done?;
    }
  }

  lemma StepCancels(x: State, g: Progress, a: Action, i: nat)
    requires Inv(x, g) && Enabled(x, a) && Defined(x, a)
    ensures CountsAsCancelled(Apply(x, a), i) <==> CountsAsCancelled(x, i) || CancelledLate(x, a, i)
  {
    hide Inv, Received, DoSend, Close, ServerReceived, Served, ServerSent, Frame, ReqBody, FromBE;
    match a {
      case RunPosted => SendingCancelsNothing(x.c, i);
      case ClientSent => SendingCancelsNothing(x.c.(isSend := false), i);
      case ClientReceive =>
        var _ := InvStep(x, g, a);
        AnswerCancelsNothing(x.c, x.toClient[..x.c.want], i);
      case ConnectionLost => FailureCancelsNothing(x, i);
      case Request(_) => NewCallWaits(x, g, a, i);
      case _ =>
    }
  }

  lemma FailureCancelsNothing(x: State, i: nat)
    ensures CountsAsCancelled(x.(c := Close(x.c)), i) <==> CountsAsCancelled(x, i)
  {
    FailureSays(x.c);
  }

  lemma NewCallWaits(x: State, g: Progress, a: Action, i: nat)
    requires Inv(x, g) && Enabled(x, a) && a.Request?
    ensures CountsAsCancelled(Apply(x, a), i) <==> CountsAsCancelled(x, i)
  {
    hide Inv, Frame, ReqBody;
    assert Apply(x, a).c.unsent == x.c.unsent + [|x.c.items|];
  }

  lemma {:induction false} RunCancels(x: State, g: Progress, run: seq<Action>, i: nat)
    requires Inv(x, g) && Runnable(x, run)
    ensures CountsAsCancelled(Exec(x, run), i) <==> CountsAsCancelled(x, i) || SomeLateCancel(x, run, i)
    decreases |run|
  {
    if run != [] {
      hide Inv, Apply, Enabled, Defined, CountsAsCancelled, CancelledLate;
      var mid := InvStep(x, g, run[0]);
      StepCancels(x, g, run[0], i);
      RunCancels(Apply(x, run[0]), mid, run[1..], i);
    }
  }

  /** In every run an answered call ends as cancelled exactly if it was cancelled after its answer had come: an earlier
      cancelling is overwritten by the answer. */
  lemma CancelledIff(run: seq<Action>, i: nat)
    requires Runnable(INITIAL, run)
    ensures CountsAsCancelled(Exec(INITIAL, run), i) <==> SomeLateCancel(INITIAL, run, i)
  {
    InitInv();
    RunCancels(INITIAL, Progress(0, 0, 0), run, i);
  }

  /** So when nothing is left to do, every call is done with its own answer, or was cancelled after that had come. */
  lemma EveryCallEndsAs(run: seq<Action>, i: nat)
    requires Runnable(INITIAL, run) && Serve(None) !in run && Quiet(Exec(INITIAL, run))
    requires i < |Exec(INITIAL, run).calls|
    ensures var x := Exec(INITIAL, run);
      && i < |x.c.items| && i < |x.answers| && x.c.items[i].result == x.answers[i].data
      && (if SomeLateCancel(INITIAL, run, i) then x.c.items[i].status.Cancelled? else x.c.items[i].status.Done?)
  {
    EveryCallIsAnswered(run, i);
    CancelledIff(run, i);
    NothingWaits(run, i);
  }

  lemma NothingWaits(run: seq<Action>, i: nat)
    requires Runnable(INITIAL, run) && Serve(None) !in run && Quiet(Exec(INITIAL, run))
    ensures !Waits(Exec(INITIAL, run), i)
  {
    hide Quiet, Inv;
    NeverCloses(run);
    InitInv();
    var g := InvRun(INITIAL, Progress(0, 0, 0), run);
    QuietMeansAnswered(Exec(INITIAL, run), g);
    ListsAreRanges(Exec(INITIAL, run), g);
  }

  lemma ListsAreRanges(x: State, g: Progress)
    requires Inv(x, g) && !x.c.closed && g.taken == g.sent == |x.calls|
    ensures x.c.unsent == [] && x.c.unanswered == []
  {
    hide ResultsOk, ResponsesOk, RequestsOk;
  }

  // --- Coming to an end ---

  /** What a session or a stream can still do, the weightiest first. */
  datatype Rank = Rank(unsent: nat, sending: nat, toServer: nat, serving: nat, queue: nat, toClient: nat, answering: nat)

  function RankOf(x: State): Rank {
    Rank(|x.c.unsent|, if x.c.isSend then 1 else 0, 2 * |x.c.out| + |x.toServer|, if x.s.serving.Some? then 1 else 0,
         |x.s.queue|, 2 * |x.s.out| + |x.toClient|, if x.s.isSend then 1 else 0)
  }

  predicate Below(a: Rank, b: Rank) {
    || a.unsent < b.unsent
    || (a.unsent == b.unsent
        && (|| a.sending < b.sending
            || (a.sending == b.sending
                && (|| a.toServer < b.toServer
                    || (a.toServer == b.toServer
                        && (|| a.serving < b.serving
                            || (a.serving == b.serving
                                && (|| a.queue < b.queue
                                    || (a.queue == b.queue
                                        && (|| a.toClient < b.toClient
                                            || (a.toClient == b.toClient && a.answering < b.answering)))))))))))
  }

  // A step of the sessions or the streams, of their own accord.
  predicate Goes(a: Action) { !a.Request? && !a.CancelCall? && !a.ConnectionLost? }

  lemma WantsSomething(x: State, g: Progress)
    requires Inv(x, g) && !x.c.closed
    ensures x.c.want > 0 && (!x.s.closed && x.s.serving.None? ==> x.s.want > 0)
  {
    hide Frame, Body, Reqs, Resps, Carries;
    RequestsLong(x.calls);
    AnswersFit(x.calls, x.answers);
    WantIsLong(x.toClient + (x.s.out + Concat(x.s.queue)), Resps(x.answers), g.taken, g.answered, x.c.want != 4, x.c.want);
    if !x.s.closed && x.s.serving.None? {
      WantIsLong(x.toServer + x.c.out, Reqs(x.calls), Parsed(x.s, g), g.sent, x.s.step.MsgData?, Wants(x.s));
    }
  }

  lemma WantIsLong(stream: seq<byte>, bodies: seq<seq<byte>>, lo: nat, hi: nat, headerRead: bool, want: nat)
    requires Carries(stream, bodies, lo, hi, headerRead, want) && forall b :: b in bodies ==> |b| > 0
    ensures want > 0
  {
    if headerRead { assert bodies[lo] in bodies; }
  }

  /** Every such step goes down, or is one that changes nothing. */
  lemma StepGoesDown(x: State, g: Progress, a: Action)
    requires Inv(x, g) && !x.c.closed && Enabled(x, a) && Defined(x, a) && Goes(a)
    ensures Apply(x, a) == x || Below(RankOf(Apply(x, a)), RankOf(x))
  {
    hide Inv, Below, Received, DoSend, ServerReceived, Served, ServerSent, RankOf;
    match a {
      case RunPosted => SendGoesDown(x, x.c);
      case ClientSent => SendGoesDown(x, x.c.(isSend := false));
      case MoveToServer(_) => MoveGoesDown(x, a);
      case MoveToClient(_) => MoveGoesDown(x, a);
      case _ =>
        WantsSomething(x, g);
        if a.ClientReceive? { var _ := InvStep(x, g, a); }
        CallbackGoesDown(x, a);
    }
  }

  lemma SendGoesDown(x: State, c: Client)
    requires c.Sound() && !x.c.closed && (c == x.c || (x.c.isSend && c == x.c.(isSend := false) && c.out == []))
    ensures x.(c := DoSend(c)) == x || Below(RankOf(x.(c := DoSend(c))), RankOf(x))
  {
  }

  lemma MoveGoesDown(x: State, a: Action)
    requires Enabled(x, a) && Defined(x, a) && (a.MoveToServer? || a.MoveToClient?)
    ensures Below(RankOf(Apply(x, a)), RankOf(x))
  {
  }

  lemma CallbackGoesDown(x: State, a: Action)
    requires Enabled(x, a) && Defined(x, a) && (a.ServerReceive? || a.Serve? || a.ServerSends? || a.ClientReceive?)
    requires x.c.want > 0 && (a.ServerReceive? ==> x.s.want > 0) && (a.ClientReceive? ==> !Apply(x, a).c.closed)
    ensures Below(RankOf(Apply(x, a)), RankOf(x))
  {
    hide FromBE, Frame, RespBody, ParseReq, ParseResp, GetString, ReqBody;
    var y := Apply(x, a);
    if a.ClientReceive? {
      assert y.c.unsent == x.c.unsent && y.c.isSend == x.c.isSend && y.c.out == x.c.out;
      assert |y.toClient| < |x.toClient|;
    } else if a.ServerReceive? {
      assert |y.toServer| < |x.toServer|;
    }
  }

  /** From every state the sessions and streams can go on, of their own accord, until nothing is left to do. */
  lemma ReachesQuiet(x: State, g: Progress) returns (run: seq<Action>)
    requires Inv(x, g) && !x.s.closed
    ensures Runnable(x, run) && Quiet(Exec(x, run)) && Serve(None) !in run && forall a :: a in run ==> Goes(a)
    decreases RankOf(x).unsent, RankOf(x).sending, RankOf(x).toServer, RankOf(x).serving, RankOf(x).queue,
              RankOf(x).toClient, RankOf(x).answering
  {
    run := [];
    if !Quiet(x) {
      hide Inv, Apply, Enabled, Defined, Quiet, RankOf;
      StaysOpen(x, g, []);
      var a := SomeStep(x, g);
      StepGoesDown(x, g, a);
      var mid := InvStep(x, g, a);
      var more := ReachesQuiet(Apply(x, a), mid);
      run := [a] + more;
      assert run[1..] == more;
    }
  }
}
