/**
 Every job moves on.  Each step of the sender and of the workers uses up a finite store, and while anything is left
 to do some such step can be taken; so when nothing more is sent, the engine comes to rest with everything handled.
 */
module ActorProgress {
  import opened Options
  import P = Pipe
  import opened Actors
  import D = ActorDelivery

  // The steps the engine takes by itself.
  predicate Internal<M>(act: Action<M>) {
    !act.Spawn? && !act.Delete? && !act.Lock?
  }

  // --- How much is left to do ---

  function Unread<M>(p: P.State<M>): nat {
    if |p.taken| <= |p.vals| then |p.vals| - |p.taken| else 0
  }

  ghost function TotalUnread<M>(actors: map<nat, P.State<M>>): nat
    decreases |actors|
  {
    if actors == map[] then 0
    else
      var a :| a in actors;
      Unread(actors[a]) + TotalUnread(actors - {a})
  }

  lemma {:induction false} TotalSplit<M>(actors: map<nat, P.State<M>>, a: nat)
    requires a in actors
    ensures TotalUnread(actors) == Unread(actors[a]) + TotalUnread(actors - {a})
    decreases |actors|
  {
    var b :| b in actors && TotalUnread(actors) == Unread(actors[b]) + TotalUnread(actors - {b});
    if a != b {
      TotalSplit(actors - {b}, a);
      TotalSplit(actors - {a}, b);
      assert actors - {b} - {a} == actors - {a} - {b};
    }
  }

  lemma TotalUpdate<M>(actors: map<nat, P.State<M>>, a: nat, p: P.State<M>)
    requires a in actors
    ensures TotalUnread(actors[a := p]) == TotalUnread(actors) - Unread(actors[a]) + Unread(p)
  {
    TotalSplit(actors, a);
    TotalSplit(actors[a := p], a);
    assert actors[a := p] - {a} == actors - {a};
  }

  function Jobs(queues: seq<seq<nat>>): nat {
    if queues == [] then 0 else |queues[0]| + Jobs(queues[1..])
  }

  lemma {:induction false} JobsUpdate(queues: seq<seq<nat>>, q: nat, x: seq<nat>)
    requires q < |queues|
    ensures Jobs(queues[q := x]) == Jobs(queues) - |queues[q]| + |x|
  {
    if q == 0 {
      assert queues[q := x][1..] == queues[1..];
    } else {
      assert queues[q := x][1..] == queues[1..][q - 1 := x];
      JobsUpdate(queues[1..], q - 1, x);
    }
  }

  // How far a reader is in its call.
  function Reading(pc: P.ReaderPc): nat {
    match pc case RIdle => 13 case RCas(_) => 12 case RTake => 11 case RPop => 20
  }

  // A message that is read pays for the next turn of the job.
  function Rank<M>(actors: map<nat, P.State<M>>, pc: WorkerPc<M>): nat {
    match pc
    case Looking => 0
    case GotJob(_) => 14
    case Reading(on) => if on in actors then Reading(actors[on].rpc) else 0
    case Handling(_, _) => 19
    case Checking(on) => if on in actors && actors[on].rpc.RIdle? then 18 else 17
    case Reposting(_) => 16
  }

  function Ranks<M>(actors: map<nat, P.State<M>>, workers: seq<WorkerPc<M>>): nat {
    if workers == [] then 0 else Rank(actors, workers[0]) + Ranks(actors, workers[1..])
  }

  lemma {:induction false} RanksUpdate<M>(actors: map<nat, P.State<M>>, actors': map<nat, P.State<M>>,
                                          workers: seq<WorkerPc<M>>, i: nat, pc: WorkerPc<M>)
    requires i < |workers|
    requires forall j :: 0 <= j < |workers| && j != i ==> Rank(actors', workers[j]) == Rank(actors, workers[j])
    ensures Ranks(actors', workers[i := pc]) == Ranks(actors, workers) - Rank(actors, workers[i]) + Rank(actors', pc)
  {
    hide Rank;
    var after, rest := workers[i := pc], workers[1..];
    forall j | 0 <= j < |rest| && j + 1 != i ensures Rank(actors', rest[j]) == Rank(actors, rest[j]) {
      assert rest[j] == workers[j + 1];
    }
    if i == 0 {
      assert after[1..] == rest;
      RanksSame(actors, actors', rest);
    } else {
      assert after[1..] == rest[i - 1 := pc];
      RanksUpdate(actors, actors', rest, i - 1, pc);
    }
  }

  lemma {:induction false} RanksSame<M>(actors: map<nat, P.State<M>>, actors': map<nat, P.State<M>>, workers: seq<WorkerPc<M>>)
    requires forall j :: 0 <= j < |workers| ==> Rank(actors', workers[j]) == Rank(actors, workers[j])
    ensures Ranks(actors', workers) == Ranks(actors, workers)
  {
    hide Rank;
    if workers != [] {
      var rest := workers[1..];
      forall j | 0 <= j < |rest| ensures Rank(actors', rest[j]) == Rank(actors, rest[j]) {
        assert rest[j] == workers[j + 1];
      }
      RanksSame(actors, actors', rest);
    }
  }

  function SenderRank<M>(s: State<M>): nat {
    if s.sender.None? then 0
    else
      match s.sender.value.1
      case Find(_) => 51
      case Deliver(_) => 50
      case Flush =>
        if s.sender.value.0 !in s.actors then 0
        else (match s.actors[s.sender.value.0].wpc case WWrote(_) => 24 case WIdle => 23 case WCas => 22 case WStore => 21)
      case Post => 20
      case Leave => 1
  }

  /** The store that every step of the engine uses up. */
  ghost function Left<M>(s: State<M>): nat {
    20 * TotalUnread(s.actors) + Ranks(s.actors, s.workers) + 15 * Jobs(s.queues) + SenderRank(s)
  }

  // --- Every step uses some of it up ---

  lemma SenderUses<M>(s: State<M>, act: Action<M>)
    requires Inv(s) && Enabled(s, act) && act.Sender?
    ensures Left(Apply(s, act)) < Left(s)
  {
    hide Inv, TotalUnread, Ranks, Jobs;
    var (to, pc) := s.sender.value;
    if pc.Post? {
      JobsUpdate(s.queues, act.queue, s.queues[act.queue] + [to]);
    } else if pc.Deliver? || pc.Flush? {
      var p := P.Apply(s.actors[to], DeliveryStep(s.actors[to], pc));
      DeliveryUses(s.actors[to], pc);
      TotalUpdate(s.actors, to, p);
      RanksSame(s.actors, s.actors[to := p], s.workers);
    }
  }

  lemma DeliveryUses<M>(p: P.State<M>, pc: SenderPc<M>)
    requires (pc.Deliver? || pc.Flush?) && P.Enabled(p, DeliveryStep(p, pc))
    ensures var b := DeliveryStep(p, pc);
      && P.Apply(p, b).rpc == p.rpc
      && Unread(P.Apply(p, b)) <= Unread(p) + if pc.Deliver? then 1 else 0
  {
  }

  lemma TakeJobUses<M>(s: State<M>, act: Action<M>)
    requires Inv(s) && Enabled(s, act) && act.TakeJob?
    ensures Left(Apply(s, act)) < Left(s)
  {
    hide Inv, TotalUnread, Ranks, Jobs;
    JobsUpdate(s.queues, act.queue, s.queues[act.queue][1..]);
    RanksUpdate(s.actors, s.actors, s.workers, act.worker, GotJob(s.queues[act.queue][0]));
  }

  lemma RepostUses<M>(s: State<M>, act: Action<M>)
    requires Inv(s) && Enabled(s, act) && act.Repost?
    ensures Left(Apply(s, act)) < Left(s)
  {
    hide Inv, TotalUnread, Ranks, Jobs;
    JobsUpdate(s.queues, act.queue, s.queues[act.queue] + [s.workers[act.worker].on]);
    RanksUpdate(s.actors, s.actors, s.workers, act.worker, Looking);
  }

  // A worker that reads: nobody else is on its actor, and what has been taken agrees with where the reader is.
  lemma Reader<M>(s: State<M>, i: nat)
    requires Inv(s) && i < |s.workers| && !s.workers[i].Looking?
    ensures var a := s.workers[i].on;
      && a in s.actors && a in s.handled && WorkerOk(s.actors[a], s.handled[a], s.workers[i])
      && |s.actors[a].taken| <= s.actors[a].front + 1
      && (s.actors[a].rpc.RTake? ==> |s.actors[a].taken| == s.actors[a].front)
    ensures forall j :: 0 <= j < |s.workers| && j != i ==> On(s.workers[j], s.workers[i].on) == 0
  {
    OnlyWorker(s, i);
  }

  lemma OthersRank<M>(actors: map<nat, P.State<M>>, a: nat, p: P.State<M>, pc: WorkerPc<M>)
    requires On(pc, a) == 0
    ensures Rank(actors[a := p], pc) == Rank(actors, pc)
  {
  }

  lemma JobUses<M>(s: State<M>, act: Action<M>)
    requires Inv(s) && Enabled(s, act) && (act.LockActor? || act.Handle?)
    ensures Left(Apply(s, act)) < Left(s)
  {
    Reader(s, act.worker);
    hide Inv;
    NextRank(s, act);
    hide Apply, Enabled, TotalUnread, Ranks, Jobs, Rank;
    RanksUpdate(s.actors, s.actors, s.workers, act.worker, Apply(s, act).workers[act.worker]);
  }

  // Only this worker moves, and to a place with less to do.
  lemma NextRank<M>(s: State<M>, act: Action<M>)
    requires Enabled(s, act) && (act.LockActor? || act.Handle?)
    requires var pc := s.workers[act.worker];
      pc.on in s.actors && pc.on in s.handled && WorkerOk(s.actors[pc.on], s.handled[pc.on], pc)
    ensures var s', i := Apply(s, act), act.worker;
      && s'.workers == s.workers[i := s'.workers[i]] && s'.actors == s.actors && s'.queues == s.queues && s'.sender == s.sender
      && Rank(s.actors, s'.workers[i]) < Rank(s.actors, s.workers[i])
  {
  }

  lemma ReadUses<M>(s: State<M>, act: Action<M>)
    requires Inv(s) && Enabled(s, act) && act.Read?
    ensures Left(Apply(s, act)) < Left(s)
  {
    var i := act.worker;
    var on := s.workers[i].on;
    Reader(s, i);
    var p := P.Apply(s.actors[on], act.step);
    var pc := AfterRead(s.workers[i], act.step, P.Returns(s.actors[on], act.step), p.taken);
    var s' := s.(actors := s.actors[on := p], workers := s.workers[i := pc]);
    assert Apply(s, act) == s' by { hide Inv, P.Apply, AfterRead, P.Returns; }
    ReadingUses(s.actors, s.actors[on], s.handled[on], s.workers[i], act.step);
    ReaderKeepsSender(s, on, p, act.step);
    OneReads(s, i, p, pc);
  }

  lemma OneReads<M>(s: State<M>, i: nat, p: P.State<M>, pc: WorkerPc<M>)
    requires i < |s.workers| && !s.workers[i].Looking? && s.workers[i].on in s.actors
    requires forall j :: 0 <= j < |s.workers| && j != i ==> On(s.workers[j], s.workers[i].on) == 0
    requires var on := s.workers[i].on;
      && 20 * Unread(p) + Rank(s.actors[on := p], pc) < 20 * Unread(s.actors[on]) + Rank(s.actors, s.workers[i])
      && SenderRank(s.(actors := s.actors[on := p])) == SenderRank(s)
    ensures Left(s.(actors := s.actors[s.workers[i].on := p], workers := s.workers[i := pc])) < Left(s)
  {
    hide TotalUnread, Ranks, Jobs, Rank, Unread, On;
    var on := s.workers[i].on;
    TotalUpdate(s.actors, on, p);
    forall j | 0 <= j < |s.workers| && j != i ensures Rank(s.actors[on := p], s.workers[j]) == Rank(s.actors, s.workers[j]) {
      OthersRank(s.actors, on, p, s.workers[j]);
    }
    RanksUpdate(s.actors, s.actors[on := p], s.workers, i, pc);
  }

  lemma ReaderKeepsSender<M>(s: State<M>, on: nat, p: P.State<M>, b: P.Action<M>)
    requires on in s.actors && P.ByReader(b) && P.Enabled(s.actors[on], b) && p == P.Apply(s.actors[on], b)
    ensures SenderRank(s.(actors := s.actors[on := p])) == SenderRank(s)
  {
  }

  lemma ReadingUses<M>(actors: map<nat, P.State<M>>, p: P.State<M>, handled: seq<M>, pc: WorkerPc<M>, b: P.Action<M>)
    requires (pc.Reading? || pc.Checking?) && pc.on in actors && actors[pc.on] == p && WorkerOk(p, handled, pc)
    requires P.ByReader(b) && (b.ReadTest? ==> b.reading == pc.Reading?) && P.Enabled(p, b)
    requires |p.taken| <= p.front + 1 && (p.rpc.RTake? ==> |p.taken| == p.front)
    ensures var p' := P.Apply(p, b);
      var pc' := AfterRead(pc, b, P.Returns(p, b), p'.taken);
      20 * Unread(p') + Rank(actors[pc.on := p'], pc') < 20 * Unread(p) + Rank(actors, pc)
  {
  }

  /** Each step of the sender and of the workers uses some of the store up. */
  lemma StepUses<M>(s: State<M>, act: Action<M>)
    requires Inv(s) && Enabled(s, act) && Internal(act)
    ensures Left(Apply(s, act)) < Left(s)
  {
    match act {
      case Sender(_) => SenderUses(s, act);
      case TakeJob(_, _) => TakeJobUses(s, act);
      case LockActor(_, _) => JobUses(s, act);
      case Handle(_) => JobUses(s, act);
      case Read(_, _) => ReadUses(s, act);
      case Repost(_, _) => RepostUses(s, act);
    }
  }

  /** However the engine goes on by itself, it takes no more steps than there were units in the store. */
  lemma {:induction false} RunsEnd<M>(s: State<M>, run: seq<Action<M>>)
    requires Inv(s) && Runnable(s, run) && forall act :: act in run ==> Internal(act)
    ensures |run| <= Left(s)
    decreases |run|
  {
    hide Inv, Enabled, Apply, Left, Internal;
    if run != [] {
      assert run[0] in run;
      InvStep(s, run[0]);
      StepUses(s, run[0]);
      RunsEnd(Apply(s, run[0]), run[1..]);
    }
  }

  // --- It does not stop before everything is handled ---

  predicate AtRest<M>(s: State<M>) {
    && s.sender.None?
    && (forall i :: 0 <= i < |s.workers| ==> s.workers[i].Looking?)
    && (forall q :: 0 <= q < |s.queues| ==> s.queues[q] == [])
  }

  lemma WorkerCanGoOn<M>(s: State<M>, i: nat) returns (act: Action<M>)
    requires Inv(s) && |s.queues| > 0 && i < |s.workers| && !s.workers[i].Looking?
    ensures Internal(act) && Enabled(s, act)
  {
    OnlyWorker(s, i);
    var pc := s.workers[i];
    var p := s.actors[pc.on];
    match pc {
      case GotJob(_) => act := LockActor(i, true);
      case Handling(_, _) => act := Handle(i);
      case Reposting(_) => act := Repost(i, 0);
      case Reading(_) => act := Read(i, NextRead(p, true));
      case Checking(_) => act := Read(i, NextRead(p, false));
    }
  }

  function NextRead<M>(p: P.State<M>, reading: bool): P.Action<M> {
    match p.rpc case RIdle => P.ReadTest(reading) case RCas(_) => P.ReadCas case RTake => P.Take case RPop => P.Pop
  }

  lemma SenderCanGoOn<M>(s: State<M>) returns (act: Action<M>)
    requires Inv(s) && |s.queues| > 0 && s.sender.Some?
    ensures Internal(act) && Enabled(s, act)
  {
    act := Sender(0);
    var (to, pc) := s.sender.value;
    if pc.Deliver? || pc.Flush? {
      assert ActorOk(s, to);
    }
  }

  /** While anything is left to do, some step can be taken. */
  lemma SomeStep<M>(s: State<M>) returns (act: Action<M>)
    requires Inv(s) && |s.queues| == |s.workers| > 0 && !AtRest(s)
    ensures Internal(act) && Enabled(s, act)
  {
    hide Inv;
    if s.sender.Some? {
      act := SenderCanGoOn(s);
    } else if i: nat :| i < |s.workers| && !s.workers[i].Looking? {
      act := WorkerCanGoOn(s, i);
    } else {
      var q: nat :| q < |s.queues| && s.queues[q] != [];
      act := TakeJob(0, q);
    }
  }

  lemma {:induction false} SizesStay<M>(s: State<M>, run: seq<Action<M>>)
    requires Runnable(s, run)
    ensures |Exec(s, run).queues| == |s.queues| && |Exec(s, run).workers| == |s.workers|
    decreases |run|
  {
    if run != [] { SizesStay(Apply(s, run[0]), run[1..]); }
  }

  lemma {:induction false} NothingQueued(queues: seq<seq<nat>>, a: nat)
    requires forall q :: 0 <= q < |queues| ==> queues[q] == []
    ensures Queued(queues, a) == 0
  {
    if queues != [] { NothingQueued(queues[1..], a); }
  }

  lemma {:induction false} NobodyWorks<M>(workers: seq<WorkerPc<M>>, a: nat)
    requires forall i :: 0 <= i < |workers| ==> workers[i].Looking?
    ensures Working(workers, a) == 0
  {
    if workers != [] { NobodyWorks(workers[1..], a); }
  }

  /**
   When neither the sender nor a worker can take a step, every actor that is known has handled all that was sent to
   it.  With RunsEnd: when nothing more is sent, that is how every run ends.
   */
  lemma EndsWithAllHandled<M>(size: nat, run: seq<Action<M>>, a: nat)
    requires size > 0 && Runnable(Init<M>(size), run) && a in D.Known(run)
    requires forall act :: Internal(act) ==> !Enabled(Exec(Init<M>(size), run), act)
    ensures var s := Exec(Init<M>(size), run); a in s.handled && s.handled[a] == D.SentTo(run, a)
  {
    hide Inv, Enabled, Apply;
    var s := Exec(Init<M>(size), run);
    D.Reached(size, run);
    SizesStay(Init<M>(size), run);
    if !AtRest(s) { var act := SomeStep(s); }
    NothingQueued(s.queues, a);
    NobodyWorks(s.workers, a);
    D.IdleActorHandledAll(size, run, a);
  }
}
