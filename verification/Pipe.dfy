/**
 The single-producer single-consumer pipe as a step machine.

 Slots are numbered in queue order, so a pointer of the program is the number of the slot
 it points to and the null pointer is `None`.  Every access to the shared cell `c` is a step
 of its own, and the gap between a failed compare-and-swap and the store that follows it is
 the writer state `WStore`.  ChunkPipe shows that the program's pointers behave like this.
 */
module Pipe {
  import opened Options

  datatype WriterPc = WIdle | WWrote(complete: bool) | WCas | WStore
  // `reading` tells a `read` from a bare `check_read`.
  datatype ReaderPc = RIdle | RCas(reading: bool) | RTake | RPop

  datatype State<T> = State(
    vals: seq<T>,      // every value written so far; slot |vals| is the back slot
    w: nat,            // first slot not flushed
    f: nat,            // first slot after the last complete item
    wpc: WriterPc,
    front: nat,
    r: Option<nat>,    // first slot not prefetched
    rpc: ReaderPc,
    c: Option<nat>,    // the shared cell
    taken: seq<T>)     // what `read` has handed out

  datatype Action<T> =
    | Write(value: T, complete: bool) | Complete
    | FlushTest | FlushCas | FlushStore
    | ReadTest(reading: bool) | ReadCas | Take | Pop

  function Init<T>(): State<T> {
    State([], 0, 0, WIdle, 0, Some(0), RIdle, Some(0), [])
  }

  predicate ByReader(a: Action) {
    a.ReadTest? || a.ReadCas? || a.Take? || a.Pop?
  }

  predicate Enabled<T>(s: State<T>, a: Action<T>) {
    match a
    case Write(_, _) => s.wpc.WIdle?
    case Complete => s.wpc.WWrote?
    case FlushTest => s.wpc.WIdle?
    case FlushCas => s.wpc.WCas?
    case FlushStore => s.wpc.WStore?
    case ReadTest(_) => s.rpc.RIdle?
    case ReadCas => s.rpc.RCas?
    case Take => s.rpc.RTake? && s.front < |s.vals|
    case Pop => s.rpc.RPop?
  }

  // Items are prefetched and need no look at the shared cell.
  predicate Hit(s: State) {
    s.r.Some? && s.r != Some(s.front)
  }

  function Apply<T>(s: State<T>, a: Action<T>): State<T>
    requires Enabled(s, a)
  {
    match a
    case Write(v, complete) => s.(vals := s.vals + [v], wpc := WWrote(complete))
    case Complete => s.(f := if s.wpc.complete then |s.vals| else s.f, wpc := WIdle)
    case FlushTest => s.(wpc := if s.w == s.f then WIdle else WCas)
    case FlushCas =>
      if s.c == Some(s.w) then s.(c := Some(s.f), w := s.f, wpc := WIdle)
      else s.(wpc := WStore)
    case FlushStore => s.(c := Some(s.f), w := s.f, wpc := WIdle)
    case ReadTest(reading) =>
      s.(rpc := if !Hit(s) then RCas(reading) else if reading then RTake else RIdle)
    case ReadCas =>
      if s.c == Some(s.front) then s.(c := None, r := Some(s.front), rpc := RIdle)
      else s.(r := s.c, rpc := if s.c.Some? && s.rpc.reading then RTake else RIdle)
    case Take => s.(taken := s.taken + [s.vals[s.front]], rpc := RPop)
    case Pop => s.(front := s.front + 1, rpc := RIdle)
  }

  /** What a step makes a call return: the flag of `flush`, or of `check_read` inside or outside `read`. */
  datatype Outcome = Going | Flushed(ok: bool) | Checked(ok: bool)

  function Returns<T>(s: State<T>, a: Action<T>): Outcome
    requires Enabled(s, a)
  {
    match a
    case FlushTest => if s.w == s.f then Flushed(true) else Going
    case FlushCas => if s.c == Some(s.w) then Flushed(true) else Going
    case FlushStore => Flushed(false)
    case ReadTest(_) => if Hit(s) then Checked(true) else Going
    case ReadCas => Checked(s.c.Some? && s.c != Some(s.front))
    case _ => Going
  }

  // --- Runs: any interleaving of one writer's and one reader's steps ---

  predicate Runnable<T>(s: State<T>, run: seq<Action<T>>)
    decreases |run|
  {
    run != [] ==> Enabled(s, run[0]) && Runnable(Apply(s, run[0]), run[1..])
  }

  function Exec<T>(s: State<T>, run: seq<Action<T>>): State<T>
    requires Runnable(s, run)
    decreases |run|
  {
    if run == [] then s else Exec(Apply(s, run[0]), run[1..])
  }

  predicate Asleep(s: State) { s.c.None? }

  // How often the reader swapped null into the cell, and how often `flush` returned false.
  function Sleeps<T>(s: State<T>, run: seq<Action<T>>): nat
    requires Runnable(s, run)
    decreases |run|
  {
    if run == [] then 0
    else (if run[0].ReadCas? && s.c == Some(s.front) then 1 else 0) + Sleeps(Apply(s, run[0]), run[1..])
  }

  function Wakes<T>(s: State<T>, run: seq<Action<T>>): nat
    requires Runnable(s, run)
    decreases |run|
  {
    if run == [] then 0
    else (if Returns(s, run[0]) == Flushed(false) then 1 else 0) + Wakes(Apply(s, run[0]), run[1..])
  }

  ghost predicate Inv<T>(s: State<T>) {
    && s.front <= s.w <= s.f <= |s.vals|
    && (s.c.Some? ==> s.c == Some(s.w))
    && (s.c.None? ==> s.front == s.w)
    && (s.wpc.WStore? ==> s.c.None?)
    && (s.wpc.WCas? || s.wpc.WStore? ==> s.w < s.f)
    && (s.r.Some? ==> s.front <= s.r.value <= s.w)
    && (s.r.Some? && s.c.None? ==> s.r == Some(s.front))
    && (s.r.None? ==> !s.rpc.RTake? && !s.rpc.RPop?)
    && (s.rpc.RCas? ==> !Hit(s))
    && (s.rpc.RTake? || s.rpc.RPop? ==> Hit(s))
    && s.taken == s.vals[..if s.rpc.RPop? then s.front + 1 else s.front]
  }

  lemma InvStep<T>(s: State<T>, a: Action<T>)
    requires Inv(s) && Enabled(s, a)
    ensures Inv(Apply(s, a))
  {
    if a.Take? {
      assert s.vals[..s.front] + [s.vals[s.front]] == s.vals[..s.front + 1];
    }
  }

  lemma {:induction false} InvRun<T>(s: State<T>, run: seq<Action<T>>)
    requires Inv(s) && Runnable(s, run)
    ensures Inv(Exec(s, run))
    decreases |run|
  {
    if run != [] {
      InvStep(s, run[0]);
      InvRun(Apply(s, run[0]), run[1..]);
    }
  }

  // --- What was written, from the actions alone ---

  function Written<T>(run: seq<Action<T>>): seq<T> {
    if run == [] then [] else (if run[0].Write? then [run[0].value] else []) + Written(run[1..])
  }

  // How many values have been written when the last item was completed; `written` and `whole` are the counts before
  // the run, and `last` says whether the last value written completes its item.
  function WholeItems<T>(run: seq<Action<T>>, written: nat, whole: nat, last: bool): nat {
    if run == [] then whole
    else
      match run[0]
      case Write(_, complete) => WholeItems(run[1..], written + 1, whole, complete)
      case Complete => WholeItems(run[1..], written, if last then written else whole, last)
      case _ => WholeItems(run[1..], written, whole, last)
  }

  lemma {:induction false} RunWrites<T>(s: State<T>, run: seq<Action<T>>, last: bool)
    requires Runnable(s, run) && (s.wpc.WWrote? ==> s.wpc.complete == last)
    ensures Exec(s, run).vals == s.vals + Written(run)
    ensures Exec(s, run).f == WholeItems(run, |s.vals|, s.f, last)
    decreases |run|
  {
    if run == [] {
      assert s.vals + [] == s.vals;
    } else {
      RunWrites(Apply(s, run[0]), run[1..], if run[0].Write? then run[0].complete else last);
      Regroup(s.vals, if run[0].Write? then [run[0].value] else [], Written(run[1..]));
    }
  }

  lemma Regroup<T>(a: seq<T>, b: seq<T>, c: seq<T>)
    ensures a + b + c == a + (b + c) && a + [] == a
  {
  }

  /** In every interleaving the pipe has been given what was written, in order, and `f_` is behind the last whole item. */
  lemma HoldsWhatWasWritten<T>(run: seq<Action<T>>)
    requires Runnable(Init<T>(), run)
    ensures Exec(Init<T>(), run).vals == Written(run)
    ensures Exec(Init<T>(), run).f == WholeItems(run, 0, 0, false)
  {
    RunWrites(Init<T>(), run, false);
    assert [] + Written(run) == Written(run);
  }

  /** In every interleaving, what has been read is a prefix of what has been flushed, in order. */
  lemma ReadsArePrefixOfFlushed<T>(run: seq<Action<T>>)
    requires Runnable(Init<T>(), run)
    ensures var s := Exec(Init<T>(), run);
      && s.w <= WholeItems(run, 0, 0, false) <= |Written(run)|
      && s.taken <= Written(run)[..s.w]
  {
    InvRun(Init<T>(), run);
    HoldsWhatWasWritten(run);
  }

  /** In every interleaving the pointers stay in queue order. */
  lemma PointersStayInOrder<T>(run: seq<Action<T>>)
    requires Runnable(Init<T>(), run)
    ensures var s := Exec(Init<T>(), run);
      && s.front <= s.w <= s.f <= |s.vals|
      && (s.r.Some? ==> s.front <= s.r.value <= s.w)
      && (s.c.Some? ==> s.c.value == s.w)
  {
    InvRun(Init<T>(), run);
  }

  /** The slot the reader takes or pops is never the slot the writer may write next, nor a later one. */
  lemma ReaderAndWriterSlotsDisjoint<T>(run: seq<Action<T>>)
    requires Runnable(Init<T>(), run)
    ensures var s := Exec(Init<T>(), run);
      s.rpc.RTake? || s.rpc.RPop? ==> s.front < s.w && s.front < |s.vals|
  {
    InvRun(Init<T>(), run);
  }

  /** `read` that found an item can always go on to take it: the reader is never stuck. */
  lemma ReaderNeverStuck<T>(run: seq<Action<T>>)
    requires Runnable(Init<T>(), run)
    ensures var s := Exec(Init<T>(), run);
      exists a: Action<T> :: ByReader(a) && Enabled(s, a)
  {
    InvRun(Init<T>(), run);
    var s := Exec(Init<T>(), run);
    var a: Action<T> := match s.rpc case RIdle => ReadTest(true) case RCas(_) => ReadCas case RTake => Take case RPop => Pop;
    assert ByReader(a) && Enabled(s, a);
  }

  lemma {:induction false} SleepBalance<T>(s: State<T>, run: seq<Action<T>>)
    requires Inv(s) && Runnable(s, run)
    ensures Sleeps(s, run) + (if Asleep(s) then 1 else 0) == Wakes(s, run) + (if Asleep(Exec(s, run)) then 1 else 0)
    decreases |run|
  {
    if run != [] {
      InvStep(s, run[0]);
      SleepBalance(Apply(s, run[0]), run[1..]);
    }
  }

  /**
   No lost wake-up, on the pipe itself.  At the compare-and-swap of a flush, over any run that led
   there: the flush will report a sleeping reader exactly when the reader went to sleep one time more
   than flushes have reported it, and then everything flushed before has been read.
   */
  lemma FlushReportsSleep<T>(run: seq<Action<T>>)
    requires Runnable(Init<T>(), run) && Exec(Init<T>(), run).wpc.WCas?
    ensures var s := Exec(Init<T>(), run);
      var k := Sleeps(Init<T>(), run) - Wakes(Init<T>(), run);
      && 0 <= k <= 1
      && (Returns(s, FlushCas) == Flushed(true) <==> k == 0)
      && (k == 1 ==> Apply(s, FlushCas).wpc.WStore? && s.w <= |s.vals| && s.taken == s.vals[..s.w])
  {
    InvRun(Init<T>(), run);
    SleepBalance(Init<T>(), run);
  }

  /** Between a failed swap and its store only the store can wake the reader: reads in the gap find nothing. */
  lemma GapStaysQuiet<T>(s: State<T>, a: Action<T>)
    requires Inv(s) && s.wpc.WStore? && Enabled(s, a) && a != FlushStore
    ensures Asleep(Apply(s, a)) && Apply(s, a).wpc.WStore? && Apply(s, a).taken == s.taken
    ensures Returns(s, a) != Checked(true)
  {
    InvStep(s, a);
  }

  /** A reader that is told there is nothing has read everything flushed, unless a flush is in its gap. */
  lemma EmptyMeansDrained<T>(s: State<T>, a: Action<T>)
    requires Inv(s) && Enabled(s, a) && Returns(s, a) == Checked(false)
    ensures Asleep(Apply(s, a)) && s.w <= |s.vals| && s.taken == s.vals[..s.w]
  {
  }

  // --- Calls that run without interference ---

  /** A whole `flush` by itself: returns false exactly when something was flushed to a sleeping reader. */
  function Flush<T>(s: State<T>): (State<T>, bool)
    requires s.wpc.WIdle?
  {
    var s1 := Apply(s, FlushTest);
    if s1.wpc.WIdle? then (s1, true)
    else
      var s2 := Apply(s1, FlushCas);
      if s2.wpc.WIdle? then (s2, true) else (Apply(s2, FlushStore), false)
  }

  lemma FlushVerdict<T>(s: State<T>)
    requires Inv(s) && s.wpc.WIdle?
    ensures var (s', ok) := Flush(s);
      && Inv(s')
      && s' == s.(w := s.f, c := if s.w == s.f then s.c else Some(s.f))
      && (ok <==> s.w == s.f || !Asleep(s))
  {
    InvStep(s, FlushTest);
  }

  /** A whole `check_read` by itself. */
  function CheckRead<T>(s: State<T>): (State<T>, bool)
    requires s.rpc.RIdle?
  {
    var s1 := Apply(s, ReadTest(false));
    if s1.rpc.RIdle? then (s1, true) else (Apply(s1, ReadCas), Returns(s1, ReadCas).ok)
  }

  /** It answers whether a flushed item is waiting, and puts the reader to sleep exactly when there is none. */
  lemma CheckReadVerdict<T>(s: State<T>)
    requires Inv(s) && s.rpc.RIdle? && !s.wpc.WStore?
    ensures var (s', ok) := CheckRead(s);
      && Inv(s') && s'.taken == s.taken && s'.rpc.RIdle?
      && (ok <==> s.front < s.w)
      && (ok <==> !Asleep(s'))
      && (ok ==> Hit(s'))
  {
    InvStep(s, ReadTest(false));
  }
}
