/**
 The message box: any number of senders put items in a pipe under a mutex, and the sender whose
 flush finds the reader asleep sends one byte; the owner's event loop, on a byte, drains the pipe.
 */
module MsgBox {
  import opened Options
  import P = Pipe
  import Y = YPipe

  /** Where the sender that holds the mutex is; the flush itself is told by the pipe's writer state. */
  datatype SenderPc<T> = SWrite(value: T) | SFlush | SNotify | SUnlock
  /** The owner waits in its event loop, is inside `recv`, or runs an item. */
  datatype OwnerPc<T> = Waiting | Draining | Running(item: T)

  datatype State<T> = State(
    p: P.State<T>,
    holder: Option<nat>, spc: SenderPc<T>,
    bytes: nat,          // wake-up bytes sent and not received
    owner: OwnerPc<T>,
    handled: seq<T>)

  datatype Action<T> =
    | Lock(sender: nat, value: T) | Sender | Unlock
    | Wake(received: nat) | Owner(step: P.Action<T>) | RunItem

  // `init` calls `recv` once on the new pipe, which puts the reader to sleep.
  function Init<T>(): State<T> {
    var p := P.Apply(P.Apply(P.Init<T>(), P.ReadTest(true)), P.ReadCas);
    State(p, None, SUnlock, 0, Waiting, [])
  }

  // The next step of the sender inside `send`, on the pipe.
  function SenderStep<T>(s: State<T>): P.Action<T>
    requires s.spc.SWrite? || s.spc.SFlush?
  {
    if s.spc.SWrite? then P.Write(s.spc.value, true)
    else match s.p.wpc
      case WWrote(_) => P.Complete
      case WIdle => P.FlushTest
      case WCas => P.FlushCas
      case WStore => P.FlushStore
  }

  predicate Enabled<T>(s: State<T>, a: Action<T>) {
    match a
    case Lock(_, _) => s.holder.None?
    case Sender => s.holder.Some? && (s.spc.SNotify? || ((s.spc.SWrite? || s.spc.SFlush?) && P.Enabled(s.p, SenderStep(s))))
    case Unlock => s.holder.Some? && s.spc.SUnlock?
    case Wake(k) => s.owner.Waiting? && 1 <= k <= s.bytes
    case Owner(b) => s.owner.Draining? && P.ByReader(b) && (b.ReadTest? ==> b.reading) && P.Enabled(s.p, b)
    case RunItem => s.owner.Running?
  }

  function Apply<T>(s: State<T>, a: Action<T>): State<T>
    requires Enabled(s, a)
  {
    match a
    case Lock(sender, v) => s.(holder := Some(sender), spc := SWrite(v))
    case Sender =>
      if s.spc.SNotify? then s.(bytes := s.bytes + 1, spc := SUnlock)
      else
        var b := SenderStep(s);
        s.(p := P.Apply(s.p, b),
           spc := if P.Returns(s.p, b) == P.Flushed(true) then SUnlock
                  else if P.Returns(s.p, b) == P.Flushed(false) then SNotify else SFlush)
    case Unlock => s.(holder := None)
    case Wake(k) => s.(bytes := s.bytes - k, owner := Draining)
    case Owner(b) =>
      var p := P.Apply(s.p, b);
      s.(p := p,
         owner := if P.Returns(s.p, b) == P.Checked(false) then Waiting
                  else if b.Pop? && p.taken != [] then Running(p.taken[|p.taken| - 1]) else Draining)
    case RunItem => s.(handled := s.handled + [s.owner.item], owner := Draining)
  }

  predicate Runnable<T>(s: State<T>, run: seq<Action<T>>)
    decreases |run|
  {
    run != [] ==> Enabled(s, run[0]) && Runnable(Apply(s, run[0]), run[1..])
  }

  function Exec<T>(s: State<T>, run: seq<Action<T>>): State<T>
    requires Runnable(s, run)
    decreases |run|
  {
    if run == [] then s else Exec(Apply(s, run[0]), run[1..])
  }

  predicate InSend(s: State) { s.holder.Some? }

  /** The right to read: with the draining owner, in a byte under way, or with a sender about to send one. */
  function Tokens(s: State): nat {
    (if s.owner.Waiting? then 0 else 1) + s.bytes + (if InSend(s) && s.spc.SNotify? then 1 else 0)
  }

  ghost predicate Inv<T>(s: State<T>) {
    && P.Inv(s.p)
    && Tokens(s) == (if P.Asleep(s.p) then 0 else 1)
    // outside the critical section nothing is left unflushed
    && (s.p.wpc.WWrote? || s.p.wpc.WCas? || s.p.wpc.WStore? ==> InSend(s) && s.spc.SFlush?)
    && (s.p.wpc.WWrote? ==> s.p.wpc.complete)
    && (!(InSend(s) && s.spc.SFlush?) ==> s.p.w == s.p.f == |s.p.vals|)
    && (InSend(s) && s.spc.SFlush? && !s.p.wpc.WWrote? ==> s.p.f == |s.p.vals|)
    && (InSend(s) && s.spc.SFlush? && s.p.wpc.WIdle? ==> s.p.w < s.p.f)
    && (InSend(s) && s.spc.SFlush? && s.p.wpc.WWrote? ==> s.p.f < |s.p.vals| && s.p.w == s.p.f)
    // a wake-up is never for nothing
    && (s.bytes > 0 || (InSend(s) && s.spc.SNotify?) ==> s.p.front < s.p.w)
    // handling order
    && (!s.owner.Draining? ==> s.p.rpc.RIdle?)
    && (s.p.rpc.RCas? ==> s.p.rpc.reading)
    && (s.owner.Running? ==> s.p.taken == s.handled + [s.owner.item])
    && (s.owner.Draining? && s.p.rpc.RPop? ==> s.p.taken != [] && s.handled == s.p.taken[..|s.p.taken| - 1])
    && (!s.owner.Running? && !s.p.rpc.RPop? ==> s.handled == s.p.taken)
  }

  lemma SenderInv<T>(s: State<T>)
    requires Inv(s) && Enabled(s, Sender)
    ensures Inv(Apply(s, Sender))
  {
    if !s.spc.SNotify? { P.InvStep(s.p, SenderStep(s)); }
  }

  lemma OwnerInv<T>(s: State<T>, b: P.Action<T>)
    requires Inv(s) && Enabled(s, Owner(b))
    ensures Inv(Apply(s, Owner(b)))
  {
    P.InvStep(s.p, b);
  }

  lemma InvStep<T>(s: State<T>, a: Action<T>)
    requires Inv(s) && Enabled(s, a)
    ensures Inv(Apply(s, a))
  {
    if a.Sender? { SenderInv(s); }
    else if a.Owner? { OwnerInv(s, a.step); }
  }

  lemma {:induction false} InvRun<T>(s: State<T>, run: seq<Action<T>>)
    requires Inv(s) && Runnable(s, run)
    ensures Inv(Exec(s, run))
    decreases |run|
  {
    hide Inv, Enabled, Apply;
    if run != [] {
      InvStep(s, run[0]);
      InvRun(Apply(s, run[0]), run[1..]);
    }
  }

  lemma InitInv<T>()
    ensures Inv(Init<T>())
  {
  }

  /**
   No lost wake-up.  In every reachable state an item flushed and not read means that the owner is
   draining, or a byte is under way, or a sender is about to send one; never two of these, and in
   particular never more than one byte is under way.
   */
  lemma NoLostWakeup<T>(run: seq<Action<T>>)
    requires Runnable(Init<T>(), run)
    ensures var s := Exec(Init<T>(), run);
      && Tokens(s) <= 1
      && (s.p.front < s.p.w ==> Tokens(s) == 1)
      && (s.bytes > 0 ==> s.p.front < s.p.w)
  {
    InitInv<T>();
    InvRun(Init<T>(), run);
  }

  // --- What was sent, from the actions alone ---

  /** The values whose senders took the mutex, in that order. */
  function Sent<T>(run: seq<Action<T>>): seq<T> {
    if run == [] then [] else (if run[0].Lock? then [run[0].value] else []) + Sent(run[1..])
  }

  // The value of a sender that has the mutex and has not written yet.
  function UnderWay<T>(s: State<T>): seq<T> {
    if InSend(s) && s.spc.SWrite? then [s.spc.value] else []
  }

  lemma Gains<T>(s: State<T>, a: Action<T>)
    requires Inv(s) && Enabled(s, a)
    ensures Apply(s, a).p.vals + UnderWay(Apply(s, a)) == s.p.vals + UnderWay(s) + if a.Lock? then [a.value] else []
  {
  }

  lemma {:induction false} AcceptedRun<T>(s: State<T>, run: seq<Action<T>>)
    requires Inv(s) && Runnable(s, run)
    ensures Exec(s, run).p.vals + UnderWay(Exec(s, run)) == s.p.vals + UnderWay(s) + Sent(run)
    decreases |run|
  {
    hide Inv, Enabled, Apply, UnderWay;
    if run != [] {
      InvStep(s, run[0]);
      Gains(s, run[0]);
      AcceptedRun(Apply(s, run[0]), run[1..]);
    }
  }

  /** In every run the pipe has been given what was sent, in the order of the mutex, up to the value under way. */
  lemma AcceptedIsSent<T>(run: seq<Action<T>>)
    requires Runnable(Init<T>(), run)
    ensures Inv(Exec(Init<T>(), run))
    ensures Exec(Init<T>(), run).p.vals + UnderWay(Exec(Init<T>(), run)) == Sent(run)
  {
    InitInv<T>();
    InvRun(Init<T>(), run);
    AcceptedRun(Init<T>(), run);
  }

  /** At rest (owner waiting, no byte under way, nobody inside `send`) every item sent has been handled, in order. */
  lemma QuiescentMeansAllHandled<T>(run: seq<Action<T>>)
    requires Runnable(Init<T>(), run)
    ensures var s := Exec(Init<T>(), run);
      s.owner.Waiting? && s.bytes == 0 && !InSend(s) ==> s.handled == Sent(run)
  {
    AcceptedIsSent(run);
  }

  /** What has been handled is always a prefix of what was sent, in the order of the mutex. */
  lemma HandledInOrder<T>(run: seq<Action<T>>)
    requires Runnable(Init<T>(), run)
    ensures Exec(Init<T>(), run).handled <= Sent(run)
  {
    AcceptedIsSent(run);
    var s := Exec(Init<T>(), run);
    assert s.handled <= s.p.taken;
    assert s.p.taken <= s.p.vals;
  }

  // --- Every item moves on ---

  // The steps taken when nobody sends anything more.
  predicate Internal<T>(a: Action<T>) { !a.Lock? }

  function SenderRank<T>(s: State<T>): nat {
    if !InSend(s) then 0
    else
      match s.spc
      case SWrite(_) => 50
      case SFlush => (match s.p.wpc case WWrote(_) => 24 case WIdle => 23 case WCas => 22 case WStore => 21)
      case SNotify => 20
      case SUnlock => 1
  }

  function OwnerRank<T>(s: State<T>): nat {
    match s.owner
    case Waiting => 0
    case Draining => (match s.p.rpc case RIdle => 13 case RCas(_) => 12 case RTake => 11 case RPop => 20)
    case Running(_) => 19
  }

  /** The store that every step uses up; an item that is read pays for the next turn of the loop. */
  function Left<T>(s: State<T>): int {
    20 * (|s.p.vals| - |s.p.taken|) + 14 * s.bytes + SenderRank(s) + OwnerRank(s)
  }

  lemma LeftNotNegative<T>(s: State<T>)
    requires Inv(s)
    ensures Left(s) >= 0
  {
  }

  /** Each step of senders and owner uses some of the store up. */
  lemma StepUses<T>(s: State<T>, a: Action<T>)
    requires Inv(s) && Enabled(s, a) && Internal(a)
    ensures Left(Apply(s, a)) < Left(s)
  {
  }

  lemma {:induction false} RunsEnd<T>(s: State<T>, run: seq<Action<T>>)
    requires Inv(s) && Runnable(s, run) && forall a :: a in run ==> Internal(a)
    ensures |run| <= Left(s)
    decreases |run|
  {
    hide Inv, Enabled, Apply, Left, Internal;
    LeftNotNegative(s);
    if run != [] {
      assert run[0] in run;
      InvStep(s, run[0]);
      StepUses(s, run[0]);
      RunsEnd(Apply(s, run[0]), run[1..]);
    }
  }

  // The owner's next step inside `recv`.
  function NextRead<T>(p: P.State<T>): P.Action<T> {
    match p.rpc case RIdle => P.ReadTest(true) case RCas(_) => P.ReadCas case RTake => P.Take case RPop => P.Pop
  }

  /** While anything is left to do, some step can be taken; so when nothing more is sent every run ends at rest. */
  lemma SomeStep<T>(s: State<T>) returns (a: Action<T>)
    requires Inv(s) && !(s.owner.Waiting? && s.bytes == 0 && !InSend(s))
    ensures Internal(a) && Enabled(s, a)
  {
    if InSend(s) {
      a := if s.spc.SUnlock? then Unlock else Sender;
    } else if s.owner.Running? {
      a := RunItem;
    } else if s.owner.Draining? {
      a := Owner(NextRead(s.p));
    } else {
      a := Wake(1);
    }
  }

  /** When no step can be taken, everything sent has been handled. */
  lemma EndsWithAllHandled<T>(run: seq<Action<T>>)
    requires Runnable(Init<T>(), run) && forall a :: Internal(a) ==> !Enabled(Exec(Init<T>(), run), a)
    ensures Exec(Init<T>(), run).handled == Sent(run)
  {
    hide Inv, Enabled;
    var s := Exec(Init<T>(), run);
    AcceptedIsSent(run);
    if !(s.owner.Waiting? && s.bytes == 0 && !InSend(s)) { var a := SomeStep(s); }
    QuiescentMeansAllHandled(run);
  }

  /** The first `recv` after a wake-up always finds an item. */
  lemma WakeFindsItem<T>(s: State<T>, k: nat)
    requires Inv(s) && Enabled(s, Wake(k))
    ensures k == s.bytes == 1 && s.p.front < s.p.w && !P.Asleep(s.p)
  {
  }

  // --- The class, calls without interference ---

  class MsgBox<T> {
    const pipe: Y.YPipe<T>
    var bytes: nat
    var handled: seq<T>

    ghost predicate Valid()
      reads this, pipe
    {
      && pipe.Valid() && pipe.wpc.WIdle? && pipe.rpc.RIdle?
      && pipe.Abs().w == pipe.Abs().f == |pipe.Abs().vals|
      && handled == pipe.Abs().taken
      && bytes == (if P.Asleep(pipe.Abs()) then 0 else 1)
    }

    /** Every item ever sent. */
    ghost function Given(): seq<T>
      reads this, pipe
    {
      pipe.Abs().vals
    }

    constructor (n: nat, a: nat, b: nat, junk: seq<T>)
      requires n > 0 && |junk| == n && a != b
      ensures Valid() && fresh(pipe) && Given() == [] && handled == []
    {
      var q := new Y.YPipe(n, a, b, junk);
      var item := q.Read();
      pipe := q;
      bytes, handled := 0, [];
    }

    /** Sends a byte exactly when the item is the first since the owner went to sleep. */
    method Send(value: T, addr: nat, junk: seq<T>)
      requires Valid() && addr !in pipe.heap && |junk| == pipe.N
      modifies this`bytes, pipe
      ensures Valid() && Given() == old(Given()) + [value] && handled == old(handled)
      ensures bytes == 1
    {
      hide Y.C.Refines;
      pipe.Write(value, true, addr, junk);
      Y.C.Views(pipe.N, pipe.Memory(), pipe.g);
      var ok := pipe.Flush();
      if !ok {
        bytes := bytes + 1;
      }
    }

    method Recv() returns (item: Option<T>)
      requires pipe.Valid() && pipe.rpc.RIdle?
      modifies pipe
      ensures pipe.Valid() && pipe.rpc.RIdle? && pipe.wpc == old(pipe.wpc)
      ensures item.None? ==> P.Asleep(pipe.Abs()) && pipe.Abs().front == pipe.Abs().w && pipe.Abs().w == old(pipe.Abs().w)
                             && pipe.Abs().f == old(pipe.Abs().f) && pipe.Abs().vals == old(Given()) && pipe.Abs().taken == old(pipe.Abs().taken)
      ensures item.Some? ==> pipe.Abs().(r := None) == old(pipe.Abs()).(r := None, front := old(pipe.Abs()).front + 1,
                                                                       taken := old(pipe.Abs()).taken + [item.value])
      ensures item.Some? ==> old(pipe.Abs()).front < old(pipe.Abs()).w
    {
      hide Y.C.Refines;
      Y.C.Views(pipe.N, pipe.Memory(), pipe.g);
      item := pipe.Read();
    }

    /** The loop run on a wake-up byte: afterwards everything sent has been handled and the reader sleeps. */
    method Drain()
      requires Valid() && bytes > 0
      modifies this, pipe
      ensures Valid() && bytes == 0 && Given() == old(Given()) && handled == Given()
    {
      hide Y.C.Refines;
      bytes := bytes - 1;
      while true
        invariant pipe.Valid() && pipe.wpc.WIdle? && pipe.rpc.RIdle?
        invariant pipe.Abs().w == pipe.Abs().f == |pipe.Abs().vals| && handled == pipe.Abs().taken
        invariant bytes == 0 && Given() == old(Given())
        decreases pipe.Abs().w - pipe.Abs().front
      {
        var item := Recv();
        if item.None? {
          break;
        }
        handled := handled + [item.value];
      }
      Y.C.Views(pipe.N, pipe.Memory(), pipe.g);
    }
  }
}
