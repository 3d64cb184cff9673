/**
 The actor engine: mailboxes, senders that deliver under the actors mutex, and a pool of workers
 that take jobs from each other's queues.  A job carries only the number of an actor.
 */
module Actors {
  import opened Options
  import P = Pipe

  /** Where the sender that holds the actors mutex is. */
  datatype SenderPc<M> = Find(msg: M) | Deliver(msg: M) | Flush | Post | Leave

  /** Where a worker is: in its loop, with a job in hand, or inside a step of `apply_once` on an actor. */
  datatype WorkerPc<M> =
    | Looking | GotJob(on: nat) | Reading(on: nat) | Handling(on: nat, msg: M) | Checking(on: nat) | Reposting(on: nat)

  datatype State<M> = State(
    actors: map<nat, P.State<M>>,    // the mailbox of every actor ever spawned
    registered: set<nat>,            // the keys of the actor map
    handled: map<nat, seq<M>>,
    sender: Option<(nat, SenderPc<M>)>,   // the holder of the mutex: its target and where it is
    queues: seq<seq<nat>>,           // one job queue for each worker
    workers: seq<WorkerPc<M>>)

  datatype Action<M> =
    | Spawn(id: nat) | Delete(id: nat)
    | Lock(to: nat, msg: M) | Sender(queue: nat)
    | TakeJob(worker: nat, queue: nat) | LockActor(worker: nat, alive: bool)
    | Read(worker: nat, step: P.Action<M>) | Handle(worker: nat) | Repost(worker: nat, queue: nat)

  // A mailbox after the `check_read` of `spawn`: empty, with its reader asleep.
  function NewMailbox<M>(): P.State<M> {
    P.CheckRead(P.Init<M>()).0
  }

  function Init<M>(size: nat): State<M> {
    State(map[], {}, map[], None, seq(size, i => []), seq(size, i => Looking))
  }

  // The next step of `recv` on the mailbox.
  function DeliveryStep<M>(p: P.State<M>, pc: SenderPc<M>): P.Action<M>
    requires pc.Deliver? || pc.Flush?
  {
    if pc.Deliver? then P.Write(pc.msg, true)
    else match p.wpc
      case WWrote(_) => P.Complete
      case WIdle => P.FlushTest
      case WCas => P.FlushCas
      case WStore => P.FlushStore
  }

  function AfterDelivery(r: P.Outcome): SenderPc {
    if r == P.Flushed(true) then Leave else if r == P.Flushed(false) then Post else Flush
  }

  predicate Enabled<M>(s: State<M>, a: Action<M>) {
    match a
    case Spawn(id) => s.sender.None? && id !in s.actors
    case Delete(_) => s.sender.None?
    case Lock(_, _) => s.sender.None?
    case Sender(q) =>
      && s.sender.Some?
      && var (to, pc) := s.sender.value;
      && (pc.Post? ==> q < |s.queues|)
      && (pc.Deliver? || pc.Flush? ==> to in s.actors && P.Enabled(s.actors[to], DeliveryStep(s.actors[to], pc)))
    case TakeJob(i, q) => i < |s.workers| && s.workers[i].Looking? && q < |s.queues| && s.queues[q] != []
    case LockActor(i, alive) => i < |s.workers| && s.workers[i].GotJob? && (s.workers[i].on in s.registered ==> alive)
    case Read(i, b) =>
      && i < |s.workers| && (s.workers[i].Reading? || s.workers[i].Checking?)
      && s.workers[i].on in s.actors
      && P.ByReader(b) && (b.ReadTest? ==> b.reading == s.workers[i].Reading?)
      && P.Enabled(s.actors[s.workers[i].on], b)
    case Handle(i) => i < |s.workers| && s.workers[i].Handling? && s.workers[i].on in s.handled
    case Repost(i, q) => i < |s.workers| && s.workers[i].Reposting? && q < |s.queues|
  }

  function Add(queues: seq<seq<nat>>, q: nat, job: nat): seq<seq<nat>>
    requires q < |queues|
  {
    queues[q := queues[q] + [job]]
  }

  // Where a worker goes after a step of `read` or of the final `check_read`.
  function AfterRead<M>(pc: WorkerPc<M>, b: P.Action<M>, r: P.Outcome, taken: seq<M>): WorkerPc<M>
    requires pc.Reading? || pc.Checking?
  {
    if r == P.Checked(false) then Looking
    else if pc.Checking? then if r == P.Checked(true) then Reposting(pc.on) else pc
    else if b.Pop? && taken != [] then Handling(pc.on, taken[|taken| - 1]) else pc
  }

  function Apply<M>(s: State<M>, a: Action<M>): State<M>
    requires Enabled(s, a)
  {
    match a
    case Spawn(id) =>
      s.(actors := s.actors[id := NewMailbox()], registered := s.registered + {id}, handled := s.handled[id := []])
    case Delete(id) => s.(registered := s.registered - {id})
    case Lock(to, msg) => s.(sender := Some((to, Find(msg))))
    case Sender(q) =>
      var (to, pc) := s.sender.value;
      if pc.Find? then s.(sender := Some((to, if to in s.registered then Deliver(pc.msg) else Leave)))
      else if pc.Post? then s.(queues := Add(s.queues, q, to), sender := Some((to, Leave)))
      else if pc.Leave? then s.(sender := None)
      else
        var b := DeliveryStep(s.actors[to], pc);
        s.(actors := s.actors[to := P.Apply(s.actors[to], b)],
           sender := Some((to, AfterDelivery(P.Returns(s.actors[to], b)))))
    case TakeJob(i, q) =>
      s.(queues := s.queues[q := s.queues[q][1..]], workers := s.workers[i := GotJob(s.queues[q][0])])
    case LockActor(i, alive) =>
      s.(workers := s.workers[i := if alive then Reading(s.workers[i].on) else Looking])
    case Read(i, b) =>
      var on := s.workers[i].on;
      var p := P.Apply(s.actors[on], b);
      s.(actors := s.actors[on := p], workers := s.workers[i := AfterRead(s.workers[i], b, P.Returns(s.actors[on], b), p.taken)])
    case Handle(i) =>
      var on := s.workers[i].on;
      s.(handled := s.handled[on := s.handled[on] + [s.workers[i].msg]], workers := s.workers[i := Checking(on)])
    case Repost(i, q) =>
      s.(queues := Add(s.queues, q, s.workers[i].on), workers := s.workers[i := Looking])
  }

  // --- Counting the right to read ---

  function Queued(queues: seq<seq<nat>>, a: nat): nat {
    if queues == [] then 0 else multiset(queues[0])[a] + Queued(queues[1..], a)
  }

  function On<M>(pc: WorkerPc<M>, a: nat): nat {
    if !pc.Looking? && pc.on == a then 1 else 0
  }

  function Working<M>(workers: seq<WorkerPc<M>>, a: nat): nat {
    if workers == [] then 0 else On(workers[0], a) + Working(workers[1..], a)
  }

  function Posting<M>(sender: Option<(nat, SenderPc<M>)>, a: nat): nat {
    if sender.Some? && sender.value.0 == a && sender.value.1.Post? then 1 else 0
  }

  function Tokens<M>(s: State<M>, a: nat): nat {
    Queued(s.queues, a) + Working(s.workers, a) + Posting(s.sender, a)
  }

  lemma {:induction false} QueuedUpdate(queues: seq<seq<nat>>, q: nat, x: seq<nat>, a: nat)
    requires q < |queues|
    ensures Queued(queues[q := x], a) == Queued(queues, a) - multiset(queues[q])[a] + multiset(x)[a]
  {
    var after := queues[q := x];
    if q == 0 {
      assert after[1..] == queues[1..];
    } else {
      assert after[1..] == queues[1..][q - 1 := x];
      QueuedUpdate(queues[1..], q - 1, x, a);
    }
  }

  lemma AddCounts(queues: seq<seq<nat>>, q: nat, job: nat, a: nat)
    requires q < |queues|
    ensures Queued(Add(queues, q, job), a) == Queued(queues, a) + (if job == a then 1 else 0)
  {
    QueuedUpdate(queues, q, queues[q] + [job], a);
  }

  lemma RemoveCounts(queues: seq<seq<nat>>, q: nat, a: nat)
    requires q < |queues| && queues[q] != []
    ensures Queued(queues[q := queues[q][1..]], a) == Queued(queues, a) - (if queues[q][0] == a then 1 else 0)
  {
    QueuedUpdate(queues, q, queues[q][1..], a);
    assert queues[q] == [queues[q][0]] + queues[q][1..];
  }

  lemma {:induction false} WorkingUpdate<M>(workers: seq<WorkerPc<M>>, i: nat, pc: WorkerPc<M>, a: nat)
    requires i < |workers|
    ensures Working(workers[i := pc], a) == Working(workers, a) - On(workers[i], a) + On(pc, a)
  {
    var after := workers[i := pc];
    if i == 0 {
      assert after[1..] == workers[1..];
    } else {
      assert after[1..] == workers[1..][i - 1 := pc];
      WorkingUpdate(workers[1..], i - 1, pc, a);
    }
  }

  lemma {:induction false} WorkingAtLeast<M>(workers: seq<WorkerPc<M>>, i: nat, a: nat)
    requires i < |workers|
    ensures Working(workers, a) >= On(workers[i], a)
  {
    if i > 0 { WorkingAtLeast(workers[1..], i - 1, a); }
  }

  lemma {:induction false} WorkingTwo<M>(workers: seq<WorkerPc<M>>, i: nat, j: nat, a: nat)
    requires i < j < |workers|
    ensures Working(workers, a) >= On(workers[i], a) + On(workers[j], a)
  {
    if i == 0 { WorkingAtLeast(workers[1..], j - 1, a); } else { WorkingTwo(workers[1..], i - 1, j - 1, a); }
  }

  // --- What holds of one actor ---

  /** Where the sender is with regard to actor a. */
  function SenderAt<M>(s: State<M>, a: nat): SenderPc<M> {
    if s.sender.Some? && s.sender.value.0 == a then s.sender.value.1 else Leave
  }

  ghost predicate MailboxOk<M>(p: P.State<M>, pc: SenderPc<M>) {
    && P.Inv(p)
    && (!pc.Flush? ==> p.wpc.WIdle? && p.w == p.f == |p.vals|)
    && (pc.Flush? ==> if p.wpc.WWrote? then p.wpc.complete && p.w == p.f && p.f + 1 == |p.vals|
                      else p.w < p.f == |p.vals|)
  }

  ghost predicate TokenOk<M>(p: P.State<M>, registered: bool, tokens: nat) {
    && tokens <= 1
    && (tokens == 1 ==> !P.Asleep(p))
    && (registered ==> tokens == (if P.Asleep(p) then 0 else 1))
  }

  // A worker on the actor: before it reads there is something to read.
  ghost predicate WorkerOk<M>(p: P.State<M>, handled: seq<M>, pc: WorkerPc<M>) {
    match pc
    case Looking => true
    case GotJob(_) => p.rpc.RIdle? && p.front < p.w && handled == p.taken
    case Reading(_) =>
      && p.front < p.w && (p.rpc.RCas? ==> p.rpc.reading)
      && if p.rpc.RPop? then p.taken != [] && handled == p.taken[..|p.taken| - 1] else handled == p.taken
    case Handling(_, m) => p.rpc.RIdle? && p.taken == handled + [m]
    case Checking(_) => (p.rpc.RIdle? || p.rpc == P.RCas(false)) && handled == p.taken
    case Reposting(_) => p.rpc.RIdle? && p.front < p.w && handled == p.taken
  }

  // Nobody works on the actor.
  ghost predicate RestOk<M>(p: P.State<M>, handled: seq<M>, waiting: bool) {
    p.rpc.RIdle? && handled == p.taken && (waiting ==> p.front < p.w)
  }

  ghost predicate ActorOk<M>(s: State<M>, a: nat)
    requires a in s.actors && a in s.handled
  {
    && MailboxOk(s.actors[a], SenderAt(s, a))
    && TokenOk(s.actors[a], a in s.registered, Tokens(s, a))
    && (Working(s.workers, a) == 0 ==>
          RestOk(s.actors[a], s.handled[a], Queued(s.queues, a) > 0 || SenderAt(s, a).Post?))
    && (forall i :: 0 <= i < |s.workers| && On(s.workers[i], a) == 1 ==> WorkerOk(s.actors[a], s.handled[a], s.workers[i]))
  }

  // Jobs, workers and the sender refer to actors that were spawned.
  ghost predicate Closed<M>(s: State<M>) {
    && s.handled.Keys == s.actors.Keys
    && s.registered <= s.actors.Keys
    && (forall a :: Tokens(s, a) > 0 ==> a in s.actors)
    && (s.sender.Some? && !s.sender.value.1.Find? && !s.sender.value.1.Leave? ==> s.sender.value.0 in s.actors)
  }

  ghost predicate Inv<M>(s: State<M>) {
    && Closed(s)
    && (forall a :: a in s.actors ==> ActorOk(s, a))
  }

  // --- Every step keeps it ---

  // An actor the step has nothing to do with.
  ghost predicate Untouched<M>(s: State<M>, s': State<M>, a: nat) {
    && a in s.actors && a in s.handled && a in s'.actors && a in s'.handled
    && s'.actors[a] == s.actors[a] && s'.handled[a] == s.handled[a]
    && SenderAt(s', a) == SenderAt(s, a) && (a in s'.registered ==> a in s.registered)
    && Queued(s'.queues, a) == Queued(s.queues, a)
    && Working(s'.workers, a) == Working(s.workers, a)
    && (forall i :: 0 <= i < |s'.workers| && On(s'.workers[i], a) == 1 ==> i < |s.workers| && s'.workers[i] == s.workers[i])
  }

  lemma UntouchedOk<M>(s: State<M>, s': State<M>, a: nat)
    requires Untouched(s, s', a) && ActorOk(s, a)
    ensures ActorOk(s', a)
  {
    assert Posting(s.sender, a) == if SenderAt(s, a).Post? then 1 else 0;
    assert Posting(s'.sender, a) == if SenderAt(s', a).Post? then 1 else 0;
  }

  lemma SpawnStep<M>(s: State<M>, act: Action<M>, a: nat)
    requires Inv(s) && Enabled(s, act) && act.Spawn? && a in Apply(s, act).actors
    ensures ActorOk(Apply(s, act), a)
  {
    if a == act.id {
      assert Tokens(s, a) == 0;
      P.CheckReadVerdict(P.Init<M>());
      forall i | 0 <= i < |s.workers| ensures On(s.workers[i], a) == 0 { WorkingAtLeast(s.workers, i, a); }
    } else {
      UntouchedOk(s, Apply(s, act), a);
    }
  }

  lemma MutexStep<M>(s: State<M>, act: Action<M>, a: nat)
    requires Inv(s) && Enabled(s, act) && (act.Delete? || act.Lock?) && a in s.actors
    ensures ActorOk(Apply(s, act), a)
  {
    var s' := Apply(s, act);
    assert Posting(s'.sender, a) == Posting(s.sender, a) == 0;
    assert ActorOk(s, a);
  }

  lemma SenderControlStep<M>(s: State<M>, act: Action<M>, a: nat)
    requires Inv(s) && Enabled(s, act) && act.Sender? && a in s.actors
    requires s.sender.value.1.Find? || s.sender.value.1.Leave? || s.sender.value.1.Post?
    ensures ActorOk(Apply(s, act), a)
  {
    var s' := Apply(s, act);
    assert ActorOk(s, a);
    if s.sender.value.1.Post? {
      AddCounts(s.queues, act.queue, s.sender.value.0, a);
    }
    assert Tokens(s', a) == Tokens(s, a);
  }

  // One step of `recv` keeps what holds of a mailbox, whoever works on it.
  lemma DeliveryOk<M>(p: P.State<M>, pc: SenderPc<M>, handled: seq<M>)
    requires MailboxOk(p, pc) && (pc.Deliver? || pc.Flush?)
    requires P.Enabled(p, DeliveryStep(p, pc))
    ensures var b := DeliveryStep(p, pc);
      var p', pc' := P.Apply(p, b), AfterDelivery(P.Returns(p, b));
      && MailboxOk(p', pc')
      && p'.front == p.front && p'.rpc == p.rpc && p'.taken == p.taken && p.w <= p'.w
      && (P.Asleep(p') <==> P.Asleep(p) && !pc'.Post?)
      && (pc'.Post? ==> P.Asleep(p) && p'.front < p'.w)
  {
    P.InvStep(p, DeliveryStep(p, pc));
  }

  lemma DeliveryActorStep<M>(s: State<M>, act: Action<M>, a: nat)
    requires Inv(s) && Enabled(s, act) && act.Sender? && a in s.actors
    requires s.sender.value.1.Deliver? || s.sender.value.1.Flush?
    ensures ActorOk(Apply(s, act), a)
  {
    hide ActorOk, MailboxOk;
    var s' := Apply(s, act);
    var (to, pc) := s.sender.value;
    assert ActorOk(s, a);
    if a == to {
      assert MailboxOk(s.actors[to], pc) by { MailboxOf(s, to); }
      DeliveryOk(s.actors[to], pc, s.handled[to]);
      Delivered(s, to, s'.actors[to], s'.sender.value.1);
    } else {
      UntouchedOk(s, s', a);
    }
  }

  lemma MailboxOf<M>(s: State<M>, a: nat)
    requires a in s.actors && a in s.handled && ActorOk(s, a)
    ensures MailboxOk(s.actors[a], SenderAt(s, a))
  {
  }

  // The mailbox is another one, but for its reader nothing has changed.
  lemma Delivered<M>(s: State<M>, to: nat, p: P.State<M>, pc: SenderPc<M>)
    requires to in s.actors && to in s.handled && ActorOk(s, to)
    requires s.sender.Some? && s.sender.value.0 == to && !s.sender.value.1.Post?
    requires MailboxOk(p, pc)
    requires var was := s.actors[to];
      && p.front == was.front && p.rpc == was.rpc && p.taken == was.taken && was.w <= p.w
      && (P.Asleep(p) <==> P.Asleep(was) && !pc.Post?) && (pc.Post? ==> P.Asleep(was) && p.front < p.w)
    ensures ActorOk(s.(actors := s.actors[to := p], sender := Some((to, pc))), to)
  {
    hide MailboxOk;
    forall i | 0 <= i < |s.workers| && On(s.workers[i], to) == 1 ensures WorkerOk(p, s.handled[to], s.workers[i]) {
      assert WorkerOk(s.actors[to], s.handled[to], s.workers[i]);
    }
  }

  lemma TakeJobStep<M>(s: State<M>, act: Action<M>, a: nat)
    requires Inv(s) && Enabled(s, act) && act.TakeJob? && a in s.actors
    ensures ActorOk(Apply(s, act), a)
  {
    var s' := Apply(s, act);
    var job := s.queues[act.queue][0];
    assert ActorOk(s, a);
    RemoveCounts(s.queues, act.queue, a);
    WorkingUpdate(s.workers, act.worker, GotJob(job), a);
    if a == job {
      forall i | 0 <= i < |s.workers| && i != act.worker ensures On(s.workers[i], a) == 0 { WorkingAtLeast(s.workers, i, a); }
    } else {
      UntouchedOk(s, s', a);
    }
  }

  /** At most one worker is on an actor, and while one is no job for it is queued or about to be posted. */
  lemma OnlyWorker<M>(s: State<M>, i: nat)
    requires Inv(s) && i < |s.workers| && !s.workers[i].Looking?
    ensures var a := s.workers[i].on;
      && a in s.actors && ActorOk(s, a) && WorkerOk(s.actors[a], s.handled[a], s.workers[i])
      && Working(s.workers, a) == 1 && Queued(s.queues, a) == 0 && Posting(s.sender, a) == 0
      && !P.Asleep(s.actors[a])
      && forall j :: 0 <= j < |s.workers| && j != i ==> On(s.workers[j], a) == 0
  {
    var a := s.workers[i].on;
    WorkingAtLeast(s.workers, i, a);
    assert Tokens(s, a) > 0;
    assert ActorOk(s, a);
    forall j | 0 <= j < |s.workers| && j != i ensures On(s.workers[j], a) == 0 {
      if i < j { WorkingTwo(s.workers, i, j, a); } else { WorkingTwo(s.workers, j, i, a); }
    }
  }

  lemma LockActorStep<M>(s: State<M>, act: Action<M>, a: nat)
    requires Inv(s) && Enabled(s, act) && a in s.actors && act.LockActor?
    ensures ActorOk(Apply(s, act), a)
  {
    hide MailboxOk;
    var s', i := Apply(s, act), act.worker;
    OnlyWorker(s, i);
    WorkingUpdate(s.workers, i, s'.workers[i], a);
    assert ActorOk(s, a);
    if a != s.workers[i].on { UntouchedOk(s, s', a); }
  }

  lemma HandleStep<M>(s: State<M>, act: Action<M>, a: nat)
    requires Inv(s) && Enabled(s, act) && a in s.actors && act.Handle?
    ensures ActorOk(Apply(s, act), a)
  {
    hide MailboxOk;
    var s', i := Apply(s, act), act.worker;
    OnlyWorker(s, i);
    WorkingUpdate(s.workers, i, s'.workers[i], a);
    assert ActorOk(s, a);
    if a != s.workers[i].on { UntouchedOk(s, s', a); }
  }

  lemma RepostStep<M>(s: State<M>, act: Action<M>, a: nat)
    requires Inv(s) && Enabled(s, act) && a in s.actors && act.Repost?
    ensures ActorOk(Apply(s, act), a)
  {
    hide MailboxOk;
    var s', i := Apply(s, act), act.worker;
    OnlyWorker(s, i);
    WorkingUpdate(s.workers, i, s'.workers[i], a);
    AddCounts(s.queues, act.queue, s.workers[i].on, a);
    assert ActorOk(s, a);
    if a != s.workers[i].on { UntouchedOk(s, s', a); }
  }

  // One step of `apply_once` on a mailbox that nobody else reads.
  lemma ReadOk<M>(p: P.State<M>, handled: seq<M>, sender: SenderPc<M>, pc: WorkerPc<M>, b: P.Action<M>)
    requires MailboxOk(p, sender) && WorkerOk(p, handled, pc) && (pc.Reading? || pc.Checking?) && !P.Asleep(p)
    requires P.ByReader(b) && (b.ReadTest? ==> b.reading == pc.Reading?) && P.Enabled(p, b)
    ensures var p' := P.Apply(p, b);
      var pc' := AfterRead(pc, b, P.Returns(p, b), p'.taken);
      && MailboxOk(p', sender) && WorkerOk(p', handled, pc')
      && (pc'.Looking? ==> pc.Checking? && P.Asleep(p') && RestOk(p', handled, false))
      && (!pc'.Looking? ==> !P.Asleep(p') && pc'.on == pc.on)
  {
    P.InvStep(p, b);
  }

  lemma ReadStep<M>(s: State<M>, act: Action<M>, a: nat)
    requires Inv(s) && Enabled(s, act) && act.Read? && a in s.actors
    ensures ActorOk(Apply(s, act), a)
  {
    hide MailboxOk, WorkerOk, RestOk;
    var s', i := Apply(s, act), act.worker;
    OnlyWorker(s, i);
    WorkingUpdate(s.workers, i, s'.workers[i], a);
    assert ActorOk(s, a);
    if a == s.workers[i].on {
      ReadOk(s.actors[a], s.handled[a], SenderAt(s, a), s.workers[i], act.step);
    } else {
      UntouchedOk(s, s', a);
    }
  }

  // A step makes no right to read for an actor that was never spawned.
  lemma TokensStep<M>(s: State<M>, act: Action<M>, a: nat)
    requires Inv(s) && Enabled(s, act) && a !in s.actors
    ensures Tokens(Apply(s, act), a) == 0
  {
    hide ActorOk;
    var s' := Apply(s, act);
    assert Tokens(s, a) == 0;
    match act {
      case Sender(q) =>
        if s.sender.value.1.Post? { AddCounts(s.queues, q, s.sender.value.0, a); }
      case TakeJob(i, q) =>
        RemoveCounts(s.queues, q, a);
        WorkingUpdate(s.workers, i, s'.workers[i], a);
      case Repost(i, q) =>
        AddCounts(s.queues, q, s.workers[i].on, a);
        WorkingUpdate(s.workers, i, s'.workers[i], a);
      case LockActor(i, _) => WorkingUpdate(s.workers, i, s'.workers[i], a);
      case Read(i, _) => WorkingUpdate(s.workers, i, s'.workers[i], a);
      case Handle(i) => WorkingUpdate(s.workers, i, s'.workers[i], a);
      case _ =>
    }
  }

  lemma ClosedStep<M>(s: State<M>, act: Action<M>)
    requires Inv(s) && Enabled(s, act)
    ensures Closed(Apply(s, act))
  {
    hide ActorOk, Tokens;
    forall a | Tokens(Apply(s, act), a) > 0 ensures a in Apply(s, act).actors {
      if a !in s.actors { TokensStep(s, act, a); }
    }
  }

  lemma InvStep<M>(s: State<M>, act: Action<M>)
    requires Inv(s) && Enabled(s, act)
    ensures Inv(Apply(s, act))
  {
    hide ActorOk;
    ClosedStep(s, act);
    forall a | a in Apply(s, act).actors ensures ActorOk(Apply(s, act), a) {
      match act {
        case Spawn(_) => SpawnStep(s, act, a);
        case Delete(_) => MutexStep(s, act, a);
        case Lock(_, _) => MutexStep(s, act, a);
        case Sender(_) =>
          if s.sender.value.1.Deliver? || s.sender.value.1.Flush? { DeliveryActorStep(s, act, a); } else { SenderControlStep(s, act, a); }
        case TakeJob(_, _) => TakeJobStep(s, act, a);
        case Read(_, _) => ReadStep(s, act, a);
        case LockActor(_, _) => LockActorStep(s, act, a);
        case Handle(_) => HandleStep(s, act, a);
        case Repost(_, _) => RepostStep(s, act, a);
      }
    }
  }

  // --- All interleavings ---

  predicate Runnable<M>(s: State<M>, run: seq<Action<M>>)
    decreases |run|
  {
    run != [] ==> Enabled(s, run[0]) && Runnable(Apply(s, run[0]), run[1..])
  }

  function Exec<M>(s: State<M>, run: seq<Action<M>>): State<M>
    requires Runnable(s, run)
    decreases |run|
  {
    if run == [] then s else Exec(Apply(s, run[0]), run[1..])
  }

  lemma {:induction false} InvRun<M>(s: State<M>, run: seq<Action<M>>)
    requires Inv(s) && Runnable(s, run)
    ensures Inv(Exec(s, run))
    decreases |run|
  {
    hide Inv, Enabled, Apply;
    if run != [] {
      InvStep(s, run[0]);
      InvRun(Apply(s, run[0]), run[1..]);
    }
  }

  lemma InvInit<M>(size: nat)
    ensures Inv(Init<M>(size))
  {
    forall a: nat ensures Tokens(Init<M>(size), a) == 0 { EmptyCounts<M>(size, a); }
  }

  lemma {:induction false} EmptyCounts<M>(size: nat, a: nat)
    ensures Queued(Init<M>(size).queues, a) == 0 && Working(Init<M>(size).workers, a) == 0
  {
    if size > 0 {
      assert Init<M>(size).queues[1..] == Init<M>(size - 1).queues;
      assert Init<M>(size).workers[1..] == Init<M>(size - 1).workers;
      EmptyCounts<M>(size - 1, a);
    }
  }

  /**
   Mutual exclusion and no lost job.  For any number of senders and workers, in every interleaving,
   every actor has at most one job queued, running or about to be posted; a registered actor has
   exactly one as soon as its mailbox holds a flushed message that nobody has read.
   */
  lemma OneJobPerActor<M>(size: nat, run: seq<Action<M>>, a: nat)
    requires Runnable(Init<M>(size), run)
    requires a in Exec(Init<M>(size), run).actors
    ensures var s := Exec(Init<M>(size), run);
      && Tokens(s, a) <= 1
      && (a in s.registered && s.actors[a].front < s.actors[a].w ==> Tokens(s, a) == 1)
  {
    InvInit<M>(size);
    InvRun(Init<M>(size), run);
    assert ActorOk(Exec(Init<M>(size), run), a);
  }

  /** Two workers are never inside jobs of the same actor. */
  lemma ActorsRunAlone<M>(size: nat, run: seq<Action<M>>, i: nat, j: nat)
    requires Runnable(Init<M>(size), run)
    ensures var s := Exec(Init<M>(size), run);
      i < j < |s.workers| && !s.workers[i].Looking? && !s.workers[j].Looking? ==> s.workers[i].on != s.workers[j].on
  {
    InvInit<M>(size);
    InvRun(Init<M>(size), run);
    var s := Exec(Init<M>(size), run);
    if i < j < |s.workers| && !s.workers[i].Looking? { OnlyWorker(s, i); }
  }

  /** The `read` that starts a job never finds the mailbox empty. */
  lemma JobFindsMessage<M>(size: nat, run: seq<Action<M>>, i: nat, b: P.Action<M>)
    requires Runnable(Init<M>(size), run)
    ensures var s := Exec(Init<M>(size), run);
      Enabled(s, Read(i, b)) && s.workers[i].Reading? ==> P.Returns(s.actors[s.workers[i].on], b) != P.Checked(false)
  {
    InvInit<M>(size);
    InvRun(Init<M>(size), run);
    var s := Exec(Init<M>(size), run);
    if i < |s.workers| && !s.workers[i].Looking? { OnlyWorker(s, i); }
  }

  // Every actor has handled a prefix of the messages accepted for it.
  lemma HandledIsAccepted<M>(size: nat, run: seq<Action<M>>, a: nat)
    requires Runnable(Init<M>(size), run)
    requires a in Exec(Init<M>(size), run).actors
    ensures var s := Exec(Init<M>(size), run);
      a in s.handled && s.handled[a] <= s.actors[a].vals
  {
    InvInit<M>(size);
    InvRun(Init<M>(size), run);
    var s := Exec(Init<M>(size), run);
    assert ActorOk(s, a);
    if Working(s.workers, a) > 0 {
      var i := SomeWorker(s.workers, a);
      assert WorkerOk(s.actors[a], s.handled[a], s.workers[i]);
    }
    assert s.handled[a] <= s.actors[a].taken;
    assert s.actors[a].taken <= s.actors[a].vals;
  }

  lemma {:induction false} SomeWorker<M>(workers: seq<WorkerPc<M>>, a: nat) returns (i: nat)
    requires Working(workers, a) > 0
    ensures i < |workers| && On(workers[i], a) == 1
  {
    if On(workers[0], a) == 1 {
      i := 0;
    } else {
      i := SomeWorker(workers[1..], a);
      i := i + 1;
    }
  }

  // When no job of a registered actor is anywhere and nobody is delivering to it, it has handled everything accepted.
  lemma IdleHandledAccepted<M>(size: nat, run: seq<Action<M>>, a: nat)
    requires Runnable(Init<M>(size), run)
    requires a in Exec(Init<M>(size), run).registered
    ensures var s := Exec(Init<M>(size), run);
      && a in s.actors && a in s.handled
      && (Tokens(s, a) == 0 && s.sender.None? ==> s.handled[a] == s.actors[a].vals)
  {
    InvInit<M>(size);
    InvRun(Init<M>(size), run);
    assert ActorOk(Exec(Init<M>(size), run), a);
  }
}
