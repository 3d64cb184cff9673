/** The two sessions as the program writes them: callbacks that update fields, step for step those of RpcPipeline. */
module RpcSessions {
  import opened Options
  import opened Bytes
  import opened Endec
  import opened RpcFrames
  import opened RpcPipeline

  /** A service may throw, or return encoded bytes. */
  type Service = (seq<byte>, seq<byte>) -> Option<seq<byte>>

  ghost predicate ServiceOk(f: Service) {
    forall name, args :: f(name, args).Some? ==> AnswerOk(f(name, args).value)
  }

  lemma DoSendSound(c: Client)
    requires c.Sound()
    ensures DoSend(c).Sound()
  {
    if !c.isSend && c.unsent != [] {
      assert c.unsent[0] in c.unsent;
      assert forall i :: i in c.unsent[1..] ==> i in c.unsent;
    }
  }

  // The body of a response to the request with this id.
  predicate AnswerTo(body: seq<byte>, id: int) { ParseResp(body).Some? && ParseResp(body).value.0 == id }

  ghost predicate OthersStay(before: seq<Item>, after: seq<Item>, i: nat) {
    |after| == |before| && forall k :: 0 <= k < |after| && k != i ==> after[k] == before[k]
  }

  function Result(body: seq<byte>): Option<seq<byte>> {
    var resp :- ParseResp(body);
    Some(resp.1)
  }

  class ClientSession {
    var items: seq<Item>
    var unsent: seq<nat>
    var unanswered: seq<nat>
    var isSend: bool
    var out: seq<byte>
    var want: nat
    var closed: bool

    function View(): Client
      reads this
    {
      Client(items, unsent, unanswered, isSend, out, want, closed)
    }

    predicate Valid()
      reads this
    {
      View().Sound()
    }

    // The calls without an answer, in the order in which they were made.
    function Waiting(): seq<nat>
      reads this
    {
      unanswered + unsent
    }

    // init_conn: ask for the first header.
    constructor ()
      ensures Valid() && View() == INITIAL.c && Waiting() == []
    {
      items, unsent, unanswered, isSend, out, want, closed := [], [], [], false, [], 4, false;
    }

    method PushRpcReq(id: int, buffer: seq<byte>)
      requires Valid()
      modifies this
      ensures Valid() && Waiting() == old(Waiting()) + [old(|items|)]
      ensures View() == PushReq(old(View()), Item(id, buffer, Open, []))
    {
      unsent := unsent + [|items|];
      items := items + [Item(id, buffer, Open, [])];
    }

    /** The next request goes out, unless one is still on its way out; no call is lost or overtaken. */
    method DoSendRpc()
      requires Valid()
      modifies this
      ensures Valid() && Waiting() == old(Waiting())
      ensures old(isSend) ==> out == old(out)
      ensures isSend || unsent == []
      ensures View() == DoSend(old(View()))
    {
      DoSendSound(View());
      if isSend || unsent == [] {
        return;
      }
      isSend := true;
      assert unsent[0] in unsent;
      var i := unsent[0];
      out := items[i].buffer;
      items := items[i := items[i].(buffer := [])];
      unanswered := unanswered + [i];
      unsent := unsent[1..];
    }

    method OnSent()
      requires Valid()
      modifies this
      ensures Valid() && Waiting() == old(Waiting())
      ensures isSend <==> old(unsent) != []
      ensures View() == Sent(old(View()))
    {
      isSend := false;
      DoSendRpc();
    }

    // close(): every call not yet answered fails; the loops run over both lists.
    method CloseSession()
      requires Valid()
      modifies this`items, this`closed
      ensures Valid() && |items| == |old(items)|
      ensures forall i | 0 <= i < |items| ::
        items[i] == if i in Waiting() then old(items)[i].(status := Failed, result := LOST) else old(items)[i]
      ensures View() == Close(old(View()))
    {
      FailEach(unanswered);
      FailEach(unsent);
      closed := true;
    }

    method FailEach(which: seq<nat>)
      requires forall i :: i in which ==> i < |items|
      modifies this`items
      ensures items == Fail(old(items), which)
    {
      for k := 0 to |which|
        invariant items == Fail(old(items), which[..k])
      {
        assert which[k] in which;
        items := items[which[k] := items[which[k]].(status := Failed, result := LOST)];
      }
      assert which[..|which|] == which;
    }

    // The id of the call that waits longest.
    ghost function Expected(): int
      reads this
      requires Valid() && unanswered != []
    {
      assert unanswered[0] in unanswered;
      items[unanswered[0]].id
    }

    /** The receive callback; a body that is accepted answers the call that waits longest, and no other. */
    method OnReceived(data: seq<byte>)
      requires Valid() && (|data| != 4 ==> unanswered != [])
      modifies this
      ensures Valid()
      ensures closed == old(closed) && |data| == 4 ==> Waiting() == old(Waiting())
      ensures !closed && |data| != 4 ==>
        && Waiting() == old(Waiting())[1..]
        && old(unanswered[0]) < |items| && items[old(unanswered[0])].status.Done?
      ensures unsent == old(unsent) && isSend == old(isSend) && out == old(out)
      ensures |data| == 4 ==> (closed <==> old(closed) || FromBE(data) < 31) && (FromBE(data) >= 31 ==> want == FromBE(data) - 4)
      ensures |data| != 4 && !old(closed) ==> (closed <==> !AnswerTo(data, old(Expected())))
      ensures |data| != 4 && !closed ==> want == 4 && Result(data) == Some(items[old(unanswered[0])].result)
      ensures |data| != 4 && !closed ==> OthersStay(old(items), items, old(unanswered[0]))
      ensures View() == Received(old(View()), data)
    {
      hide FromBE;
      if |data| == 4 {
        var msgLen := FromBE(data);
        if msgLen < MIN_LENGTH {
          CloseSession();
        } else {
          want := msgLen - 4;
        }
        return;
      }
      OnBody(data);
    }

    method OnBody(data: seq<byte>)
      requires Valid() && |data| != 4 && unanswered != []
      modifies this
      ensures Valid()
      ensures !closed ==>
        && unanswered == old(unanswered)[1..]
        && old(unanswered[0]) < |items| && items[old(unanswered[0])].status.Done?
      ensures unsent == old(unsent) && isSend == old(isSend) && out == old(out)
      ensures !old(closed) ==> (closed <==> !AnswerTo(data, old(Expected())))
      ensures !closed ==> want == 4 && Result(data) == Some(items[old(unanswered[0])].result)
      ensures !closed ==> OthersStay(old(items), items, old(unanswered[0]))
      ensures View() == Received(old(View()), data)
    {
      hide FromBE, Fail;
      var magic := GetString(data);
      if !magic.Got? || magic.v != MAGIC {
        CloseSession();
        return;
      }
      var i := unanswered[0];
      assert i in unanswered;
      unanswered := unanswered[1..];
      assert forall k :: k in unanswered ==> k in old(unanswered);
      var id := GetBytes(magic.rest, 8);
      if !id.Got? || items[i].id != ToSigned(FromBE(id.v), 8) {
        CloseSession();
        return;
      }
      var result := GetString(id.rest);
      if !result.Got? {
        CloseSession();
        return;
      }
      items := items[i := items[i].(result := result.v, status := Done)];
      want := 4;
    }
  }

  class ServerSession {
    var step: Step
    var want: nat
    var serving: Option<RpcFrames.Request>
    var isSend: bool
    var out: seq<byte>
    var queue: seq<seq<byte>>
    var closed: bool

    function View(): Server
      reads this
    {
      Server(step, want, serving, isSend, out, queue, closed)
    }

    predicate Valid()
      reads this
    {
      isSend || queue == []
    }

    // The responses that are to go out, the first of them being sent.
    function Outbox(): seq<seq<byte>>
      reads this
    {
      if isSend then [out] + queue else queue
    }

    constructor ()
      ensures Valid() && View() == INITIAL.s && Outbox() == []
    {
      step, want, serving, isSend, out, queue, closed := MsgLen, 4, None, false, [], [], false;
    }

    /** One response more to go out, after all the others; one send at most is under way. */
    method DoSendResp(resp: seq<byte>)
      requires Valid()
      modifies this`queue, this`isSend, this`out
      ensures Valid() && Outbox() == old(Outbox()) + [resp] && (old(isSend) ==> out == old(out))
      ensures View() == SendResp(old(View()), resp)
    {
      if isSend {
        queue := queue + [resp];
        return;
      }
      isSend := true;
      out := resp;
    }

    method OnSent()
      requires Valid() && isSend
      modifies this`queue, this`isSend, this`out
      ensures Valid() && Outbox() == old(Outbox())[1..]
      ensures View() == ServerSent(old(View()))
    {
      isSend := false;
      if queue == [] {
        return;
      }
      isSend := true;
      out := queue[0];
      queue := queue[1..];
    }

    method OnReceived(data: seq<byte>)
      requires Valid() && (step.MsgLen? && |data| == 4 ==> FromBE(data) >= 4)
      modifies this
      ensures Valid() && Outbox() == old(Outbox())
      ensures old(step.MsgLen?) && |data| == 4 ==> step.MsgData? && want == FromBE(data) - 4 && closed == old(closed)
      ensures old(step.MsgData?) ==> step.MsgLen? && (ParseReq(data).None? ==> closed)
      ensures old(step.MsgData?) && ParseReq(data).Some? ==> serving == ParseReq(data) && closed == old(closed)
      ensures old(step.MsgLen?) && |data| != 4 ==> closed
      ensures View() == ServerReceived(old(View()), data)
    {
      if step.MsgLen? && |data| == 4 {
        step := MsgData;
        want := FromBE(data) - 4;
      } else if step.MsgData? {
        step := MsgLen;
        var req := ParseReq(data);
        if req.None? {
          closed := true;
        } else {
          serving := req;
        }
      } else {
        closed := true;
      }
    }

    /** Calls the service and queues its answer, or closes when the service throws. */
    method Serve(f: Service)
      requires Valid() && serving.Some? && IdOk(Signed(serving.value.id)) && ServiceOk(f)
      modifies this
      ensures Valid()
      ensures var req := old(serving).value; var answer := f(req.name, req.args);
        && View() == Served(old(View()), answer)
        && Outbox() == old(Outbox()) + if answer.None? then [] else [Frame(RespBody(Signed(req.id), answer.value))]
    {
      var req := serving.value;
      serving := None;
      var result := f(req.name, req.args);
      if result.None? {
        closed := true;
        return;
      }
      var resp := MakeResp(Signed(req.id), result.value);
      DoSendResp(resp);
      want := 4;
    }
  }
}
