/**
 What was sent and what becomes of it.  The messages sent to an actor are read off the actions of a run alone;
 every run handles them in order, and once nothing more is sent every run ends, with all of them handled.
 */
module ActorDelivery {
  import opened Options
  import P = Pipe
  import opened Actors

  // --- What was sent, from the actions alone ---

  // The actors that were spawned and not deleted since.
  function Known<M>(run: seq<Action<M>>): set<nat>
    decreases |run|
  {
    if run == [] then {}
    else
      var before := Known(run[..|run| - 1]);
      match run[|run| - 1]
      case Spawn(id) => before + {id}
      case Delete(id) => before - {id}
      case _ => before
  }

  // The message whose sender has the mutex and has not looked for the actor yet.
  function Pending<M>(run: seq<Action<M>>): Option<(nat, M)>
    decreases |run|
  {
    if run == [] then None
    else
      match run[|run| - 1]
      case Lock(to, m) => Some((to, m))
      case Sender(_) => None
      case _ => Pending(run[..|run| - 1])
  }

  /** The messages to actor a whose sender looked for a while it was known, in that order. */
  function SentTo<M>(run: seq<Action<M>>, a: nat): seq<M>
    decreases |run|
  {
    if run == [] then []
    else
      var before := run[..|run| - 1];
      var m := Pending(before);
      if run[|run| - 1].Sender? && m.Some? && m.value.0 == a && a in Known(before)
      then SentTo(before, a) + [m.value.1] else SentTo(before, a)
  }

  // The message the sender has looked up the actor for and not written yet.
  function UnderWay<M>(s: State<M>, a: nat): seq<M> {
    if s.sender.Some? && s.sender.value.0 == a && s.sender.value.1.Deliver? then [s.sender.value.1.msg] else []
  }

  ghost predicate SenderAgrees<M>(s: State<M>, run: seq<Action<M>>) {
    && s.registered == Known(run)
    && match Pending(run)
       case Some(m) => s.sender == Some((m.0, Find(m.1)))
       case None => s.sender.Some? ==> !s.sender.value.1.Find?
  }

  ghost predicate MailboxAgrees<M>(s: State<M>, run: seq<Action<M>>, a: nat) {
    if a in s.actors then s.actors[a].vals + UnderWay(s, a) == SentTo(run, a) else SentTo(run, a) == []
  }

  // The mailboxes hold what was sent.
  ghost predicate Agrees<M>(s: State<M>, run: seq<Action<M>>) {
    SenderAgrees(s, run) && forall a :: MailboxAgrees(s, run, a)
  }

  // The message a step of the sender finds the actor for.
  function Found<M>(s: State<M>, act: Action<M>, a: nat): seq<M> {
    if act.Sender? && s.sender.Some? && s.sender.value.0 == a && s.sender.value.1.Find? && a in s.registered
    then [s.sender.value.1.msg] else []
  }

  lemma SentGrows<M>(s: State<M>, run: seq<Action<M>>, act: Action<M>, a: nat)
    requires Enabled(s, act) && SenderAgrees(s, run)
    ensures SentTo(run + [act], a) == SentTo(run, a) + Found(s, act, a)
  {
    assert (run + [act])[..|run|] == run;
  }

  lemma MailboxGains<M>(s: State<M>, act: Action<M>, a: nat)
    requires Inv(s) && Enabled(s, act) && a in s.actors
    ensures var s' := Apply(s, act);
      a in s'.actors && s'.actors[a].vals + UnderWay(s', a) == s.actors[a].vals + UnderWay(s, a) + Found(s, act, a)
  {
    hide Inv;
    if act.Read? && s.workers[act.worker].on == a { ReaderKeepsValues(s.actors[a], act.step); }
    if act.Sender? && s.sender.value.0 == a && (s.sender.value.1.Deliver? || s.sender.value.1.Flush?) {
      DeliveryWrites(s.actors[a], s.sender.value.1);
    }
  }

  lemma NewMailboxEmpty<M>(s: State<M>, act: Action<M>, a: nat)
    requires Inv(s) && Enabled(s, act) && a !in s.actors
    ensures var s' := Apply(s, act); a in s'.actors ==> s'.actors[a].vals + UnderWay(s', a) == []
    ensures Found(s, act, a) == []
  {
    KnownSpawned(s);
    hide Inv;
  }

  lemma MailboxStep<M>(s: State<M>, run: seq<Action<M>>, act: Action<M>, a: nat)
    requires Inv(s) && Enabled(s, act) && SenderAgrees(s, run) && MailboxAgrees(s, run, a)
    ensures MailboxAgrees(Apply(s, act), run + [act], a)
  {
    hide Inv, Enabled, Apply, UnderWay, SentTo, Found;
    SentGrows(s, run, act, a);
    if a in s.actors { MailboxGains(s, act, a); } else { NewMailboxEmpty(s, act, a); }
  }

  lemma KnownSpawned<M>(s: State<M>)
    requires Inv(s)
    ensures s.registered <= s.actors.Keys
  {
  }

  lemma ReaderKeepsValues<M>(p: P.State<M>, b: P.Action<M>)
    requires P.Enabled(p, b) && P.ByReader(b)
    ensures P.Apply(p, b).vals == p.vals
  {
  }

  lemma DeliveryWrites<M>(p: P.State<M>, pc: SenderPc<M>)
    requires (pc.Deliver? || pc.Flush?) && P.Enabled(p, DeliveryStep(p, pc))
    ensures P.Apply(p, DeliveryStep(p, pc)).vals == p.vals + if pc.Deliver? then [pc.msg] else []
  {
  }

  lemma AgreesStep<M>(s: State<M>, run: seq<Action<M>>, act: Action<M>)
    requires Inv(s) && Enabled(s, act) && Agrees(s, run)
    ensures Agrees(Apply(s, act), run + [act])
  {
    hide Inv, MailboxAgrees;
    assert (run + [act])[..|run|] == run;
    forall a ensures MailboxAgrees(Apply(s, act), run + [act], a) {
      assert MailboxAgrees(s, run, a);
      MailboxStep(s, run, act, a);
    }
  }

  lemma {:induction false} AgreesRun<M>(s: State<M>, before: seq<Action<M>>, run: seq<Action<M>>)
    requires Inv(s) && Agrees(s, before) && Runnable(s, run)
    ensures Inv(Exec(s, run)) && Agrees(Exec(s, run), before + run)
    decreases |run|
  {
    hide Inv, Agrees, Enabled, Apply;
    if run == [] {
      assert before + run == before;
    } else {
      InvStep(s, run[0]);
      AgreesStep(s, before, run[0]);
      AgreesRun(Apply(s, run[0]), before + [run[0]], run[1..]);
      assert before + [run[0]] + run[1..] == before + run;
    }
  }

  lemma Reached<M>(size: nat, run: seq<Action<M>>)
    requires Runnable(Init<M>(size), run)
    ensures Inv(Exec(Init<M>(size), run)) && Agrees(Exec(Init<M>(size), run), run)
  {
    InvInit<M>(size);
    AgreesRun(Init<M>(size), [], run);
    assert [] + run == run;
  }

  /** In every run a mailbox has been given what was sent to its actor, in order, up to the delivery under way. */
  lemma AcceptedIsSent<M>(size: nat, run: seq<Action<M>>, a: nat)
    requires Runnable(Init<M>(size), run)
    ensures var s := Exec(Init<M>(size), run);
      if a in s.actors then s.actors[a].vals + UnderWay(s, a) == SentTo(run, a) else SentTo(run, a) == []
    ensures Exec(Init<M>(size), run).registered == Known(run)
  {
    Reached(size, run);
    assert MailboxAgrees(Exec(Init<M>(size), run), run, a);
  }

  /** In every run each actor has handled a beginning of what was sent to it, in order, each message once. */
  lemma HandledInOrder<M>(size: nat, run: seq<Action<M>>, a: nat)
    requires Runnable(Init<M>(size), run) && a in Exec(Init<M>(size), run).actors
    ensures a in Exec(Init<M>(size), run).handled && Exec(Init<M>(size), run).handled[a] <= SentTo(run, a)
  {
    AcceptedIsSent(size, run, a);
    HandledIsAccepted(size, run, a);
  }

  /** An actor without a job anywhere and without a delivery under way has handled all that was sent to it. */
  lemma IdleActorHandledAll<M>(size: nat, run: seq<Action<M>>, a: nat)
    requires Runnable(Init<M>(size), run) && a in Known(run)
    ensures var s := Exec(Init<M>(size), run);
      && a in s.actors && a in s.handled
      && (Tokens(s, a) == 0 && s.sender.None? ==> s.handled[a] == SentTo(run, a))
  {
    AcceptedIsSent(size, run, a);
    IdleHandledAccepted(size, run, a);
  }
}
