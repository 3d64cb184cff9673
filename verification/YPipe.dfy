/**
 The pipe class as the program writes it: fields updated by `write`, `flush`, `check_read` and `read`.
 A call here runs without interference, but the other thread may be anywhere inside its own call.
 Each call is a sequence of ChunkPipe steps, and its contract is stated on the abstract pipe.
 */
module YPipe {
  import opened Options
  import P = Pipe
  import opened C = ChunkPipe

  // --- The steps one by one: what each does to the memory and to the abstract pipe ---

  lemma Stepped<T>(N: nat, s: State<T>, g: Ghost<T>, a: Action<T>) returns (g': Ghost<T>)
    requires Refines(N, s, g) && Enabled(N, s, a)
    ensures Safe(N, s, a) && Refines(N, Apply(N, s, a), g') && Matches(s, a, g.p, g'.p) && P.Inv(g.p) && P.Inv(g'.p)
    ensures N > 0 && g.p.wpc == WriterView(s.wpc) && g.p.rpc == ReaderView(s.rpc)
  {
    hide *;
    g' := StepRefines(N, s, g, a);
    Views(N, s, g);
    Views(N, Apply(N, s, a), g');
  }

  lemma ValueStored<T>(N: nat, s: State<T>, g: Ghost<T>, value: T, complete: bool) returns (g': Ghost<T>)
    requires Refines(N, s, g) && s.wpc.WIdle?
    ensures SlotOk(s.m.heap, s.m.back) && g'.p == g.p && g.p.wpc.WIdle?
    ensures Refines(N, s.(m := SetBack(s.m, value), wpc := WPush(complete)), g')
  {
    hide Refines, P.Inv, SlotOk, SetBack;
    g' := Stepped(N, s, g, StoreValue(value, complete));
  }

  lemma Pushed<T>(N: nat, s: State<T>, g: Ghost<T>) returns (g': Ghost<T>)
    requires Refines(N, s, g) && s.wpc.WPush?
    ensures SlotOk(s.m.heap, s.m.back) && P.Enabled(g.p, P.Write(At(s.m.heap, s.m.back), s.wpc.complete))
    ensures g'.p == P.Apply(g.p, P.Write(At(s.m.heap, s.m.back), s.wpc.complete))
    ensures Refines(N, s.(m := Advance(s.m),
      wpc := if s.m.end.pos + 1 != N then WComplete(s.wpc.complete) else WExchange(s.wpc.complete)), g')
  {
    hide Refines, P.Inv, SlotOk;
    BackAllocated(N, s, g);
    g' := Stepped(N, s, g, C.Push);
  }

  lemma SpareTaken<T>(N: nat, s: State<T>, g: Ghost<T>) returns (g': Ghost<T>)
    requires Refines(N, s, g) && s.wpc.WExchange?
    ensures Refines(N, s.(m := s.m.(spare := None), wpc := WLink(s.wpc.complete, s.m.spare)), g') && g'.p == g.p
  {
    hide Refines, P.Inv;
    g' := Stepped(N, s, g, TakeSpare);
  }

  lemma LinkDone<T>(N: nat, s: State<T>, g: Ghost<T>, addr: nat, junk: seq<T>) returns (g': Ghost<T>)
    requires Refines(N, s, g) && s.wpc.WLink? && addr !in s.m.heap && |junk| == N
    ensures s.m.end.chunk in s.m.heap && (s.wpc.sc.Some? ==> s.wpc.sc.value in s.m.heap) && g'.p == g.p
    ensures var m := if s.wpc.sc.Some? then Append(s.m, s.wpc.sc.value)
                     else Append(s.m.(heap := s.m.heap[addr := Chunk(junk, None, None)]), addr);
      Refines(N, s.(m := m, wpc := WComplete(s.wpc.complete)), g')
  {
    hide Refines, P.Inv, Append;
    g' := Stepped(N, s, g, Link(addr, junk));
  }

  lemma Completed<T>(N: nat, s: State<T>, g: Ghost<T>) returns (g': Ghost<T>)
    requires Refines(N, s, g) && s.wpc.WComplete?
    ensures Refines(N, s.(f := if s.wpc.complete then s.m.back else s.f, wpc := WIdle), g')
    ensures g'.p == g.p.(f := if s.wpc.complete then |g.p.vals| else g.p.f, wpc := P.WIdle)
  {
    hide Refines, P.Inv;
    g' := Stepped(N, s, g, Complete);
  }

  lemma FlushTested<T>(N: nat, s: State<T>, g: Ghost<T>) returns (g': Ghost<T>)
    requires Refines(N, s, g) && s.wpc.WIdle?
    ensures (s.w == s.f <==> g.p.w == g.p.f) && g.p.wpc.WIdle?
    ensures Refines(N, s.(wpc := if s.w == s.f then WIdle else WCas), g')
    ensures g'.p == g.p.(wpc := if g.p.w == g.p.f then P.WIdle else P.WCas)
  {
    hide Refines, P.Inv;
    TestsAgree(N, s, g);
    g' := Stepped(N, s, g, FlushTest);
  }

  lemma FlushSwapped<T>(N: nat, s: State<T>, g: Ghost<T>) returns (g': Ghost<T>)
    requires Refines(N, s, g) && s.wpc.WCas?
    ensures s.c == Some(s.w) <==> !P.Asleep(g.p)
    ensures Refines(N, if s.c == Some(s.w) then s.(c := Some(s.f), w := s.f, wpc := WIdle) else s.(wpc := WStore), g')
    ensures g'.p == if !P.Asleep(g.p) then g.p.(c := Some(g.p.f), w := g.p.f, wpc := P.WIdle) else g.p.(wpc := P.WStore)
  {
    hide Refines;
    TestsAgree(N, s, g);
    g' := Stepped(N, s, g, FlushCas);
  }

  lemma FlushStored<T>(N: nat, s: State<T>, g: Ghost<T>) returns (g': Ghost<T>)
    requires Refines(N, s, g) && s.wpc.WStore?
    ensures Refines(N, s.(c := Some(s.f), w := s.f, wpc := WIdle), g')
    ensures g'.p == g.p.(c := Some(g.p.f), w := g.p.f, wpc := P.WIdle)
  {
    hide Refines, P.Inv;
    g' := Stepped(N, s, g, FlushStore);
  }

  lemma ReadTested<T>(N: nat, s: State<T>, g: Ghost<T>, reading: bool) returns (g': Ghost<T>)
    requires Refines(N, s, g) && s.rpc.RIdle?
    ensures (s.r.Some? && s.r != Some(s.m.begin) <==> P.Hit(g.p)) && (P.Hit(g.p) ==> g.p.front < g.p.w)
    ensures var pc := if !P.Hit(g.p) then RCas(reading) else if reading then RTake else RIdle;
      Refines(N, s.(rpc := pc), g') && g'.p == g.p.(rpc := ReaderView(pc)) && g.p.rpc.RIdle?
  {
    hide Refines;
    TestsAgree(N, s, g);
    g' := Stepped(N, s, g, ReadTest(reading));
  }

  lemma ReadSwapped<T>(N: nat, s: State<T>, g: Ghost<T>) returns (g': Ghost<T>)
    requires Refines(N, s, g) && s.rpc.RCas?
    ensures s.c == Some(s.m.begin) <==> g.p.c == Some(g.p.front)
    ensures var found := s.c.Some? && s.c != Some(s.m.begin);
      && (found <==> g.p.front < g.p.w) && (found || P.Asleep(g'.p)) && (g.p.c.None? ==> !found)
      && Refines(N, s.(r := s.c, c := if s.c == Some(s.m.begin) then None else s.c,
                       rpc := if found && s.rpc.reading then RTake else RIdle), g')
      && g'.p == g.p.(r := g.p.c, c := if g.p.c == Some(g.p.front) then None else g.p.c,
                      rpc := if found && s.rpc.reading then P.RTake else P.RIdle)
  {
    hide Refines;
    TestsAgree(N, s, g);
    g' := Stepped(N, s, g, ReadCas);
  }

  lemma TakeDone<T>(N: nat, s: State<T>, g: Ghost<T>) returns (g': Ghost<T>)
    requires Refines(N, s, g) && s.rpc.RTake?
    ensures SlotOk(s.m.heap, s.m.begin) && g.p.front < g.p.w <= |g.p.vals| && At(s.m.heap, s.m.begin) == g.p.vals[g.p.front]
    ensures Refines(N, s.(taken := s.taken + [At(s.m.heap, s.m.begin)], rpc := RPop), g')
    ensures g'.p == g.p.(taken := g.p.taken + [g.p.vals[g.p.front]], rpc := P.RPop)
  {
    hide Refines, SlotOk;
    LiveSlotsDistinct(N, s, g);
    g' := Stepped(N, s, g, Take);
  }

  lemma PopDone<T>(N: nat, s: State<T>, g: Ghost<T>) returns (g': Ghost<T>)
    requires Refines(N, s, g) && s.rpc.RPop?
    ensures g'.p == g.p.(front := g.p.front + 1, rpc := P.RIdle)
    ensures s.m.begin.pos + 1 != N
      ==> Refines(N, s.(m := s.m.(begin := Addr(s.m.begin.chunk, s.m.begin.pos + 1)), rpc := RIdle), g')
    ensures s.m.begin.pos + 1 == N ==>
      var b := s.m.begin.chunk;
      && b in s.m.heap && s.m.heap[b].next.Some? && s.m.heap[b].next.value in s.m.heap
      && Refines(N, s.(m := LeaveChunk(s.m), rpc := RGive(b)), g')
  {
    hide Refines, P.Inv;
    g' := Stepped(N, s, g, Pop);
  }

  lemma SpareGiven<T>(N: nat, s: State<T>, g: Ghost<T>) returns (g': Ghost<T>)
    requires Refines(N, s, g) && s.rpc.RGive?
    ensures Refines(N, s.(m := s.m.(spare := Some(s.rpc.left)), rpc := RFree(s.m.spare)), g') && g'.p == g.p
  {
    hide Refines, P.Inv;
    g' := Stepped(N, s, g, GiveSpare);
  }

  lemma Freed<T>(N: nat, s: State<T>, g: Ghost<T>) returns (g': Ghost<T>)
    requires Refines(N, s, g) && s.rpc.RFree?
    ensures s.rpc.extra.Some? ==> s.rpc.extra.value in s.m.heap
    ensures var m := if s.rpc.extra.Some? then s.m.(heap := s.m.heap - {s.rpc.extra.value}) else s.m;
      Refines(N, s.(m := m, rpc := RIdle), g') && g'.p == g.p
  {
    hide Refines, P.Inv;
    g' := Stepped(N, s, g, Free);
  }

  lemma FrontBeforeFlushed<T>(N: nat, s: State<T>, g: Ghost<T>)
    requires Refines(N, s, g)
    ensures g.p.front <= g.p.w <= |g.p.vals| && (s.rpc.RIdle? ==> g.p.rpc.RIdle?)
  {
    hide Refines;
    Views(N, s, g);
  }

  class YPipe<T> {
    const N: nat
    // The queue of chunks.
    var heap: Heap<T>
    var begin: Addr
    var back: Addr
    var end: Addr
    var spare: Option<nat>
    // The pipe.
    var w: Addr
    var f: Addr
    var r: Option<Addr>
    var c: Option<Addr>
    // Where each thread is in its call, what was handed out, and the abstract pipe behind it all.
    ghost var wpc: WriterPc
    ghost var rpc: ReaderPc
    ghost var taken: seq<T>
    ghost var g: Ghost<T>

    ghost function Memory(): State<T>
      reads this
    {
      State(Mem(heap, begin, back, end, spare), w, f, r, c, wpc, rpc, taken)
    }

    ghost predicate Valid()
      reads this
    {
      Refines(N, Memory(), g)
    }

    /** The abstract pipe this object stands for. */
    ghost function Abs(): P.State<T>
      reads this
    {
      g.p
    }

    /** `a`, `b` and `junk` are the allocator's: the addresses it returns and the contents it leaves. */
    constructor (n: nat, a: nat, b: nat, junk: seq<T>)
      requires n > 0 && |junk| == n && a != b
      ensures Valid() && N == n && Abs() == P.Init()
      ensures wpc.WIdle? && rpc.RIdle? && fresh(this)
    {
      N := n;
      var first := Addr(a, 0);
      heap := map[a := Chunk(junk, None, None)];
      begin := first;
      back := first;
      end := Addr(a, 1);
      spare := None;
      if n == 1 {
        heap := map[a := Chunk(junk, None, Some(b)), b := Chunk(junk, Some(a), None)];
        end := Addr(b, 0);
      }
      w, f, r, c := first, first, Some(first), Some(first);
      wpc, rpc, taken := WIdle, RIdle, [];
      new;
      hide Refines;
      assert Memory() == Init(n, a, b, junk);
      g := InitRefines(n, a, b, junk);
    }

    // The end of push() when the chunk is full: link the spare chunk or a new one.
    method Grow(complete: bool, addr: nat, junk: seq<T>)
      requires Valid() && wpc == WExchange(complete) && addr !in heap && |junk| == N
      modifies this
      ensures Valid() && wpc == WComplete(complete) && rpc == old(rpc) && Abs() == old(Abs())
    {
      hide Refines;
      ghost var s1 := Memory();
      var sc := spare;
      spare := None;
      wpc := WLink(complete, sc);
      g := SpareTaken(N, s1, g);
      LinkNext(complete, sc, addr, junk);
    }

    method LinkNext(complete: bool, sc: Option<nat>, addr: nat, junk: seq<T>)
      requires Valid() && wpc == WLink(complete, sc) && addr !in heap && |junk| == N
      modifies this
      ensures Valid() && wpc == WComplete(complete) && rpc == old(rpc) && Abs() == old(Abs())
    {
      hide Refines;
      ghost var s2 := Memory();
      ghost var g' := LinkDone(N, s2, g, addr, junk);
      var n := addr;
      if sc.Some? {
        n := sc.value;
      } else {
        heap := heap[n := Chunk(junk, None, None)];
      }
      heap := heap[end.chunk := heap[end.chunk].(next := Some(n))];
      heap := heap[n := heap[n].(prev := Some(end.chunk))];
      end := Addr(n, 0);
      wpc := WComplete(complete);
      g := g';
    }

    method Push(complete: bool, addr: nat, junk: seq<T>)
      requires Valid() && wpc == WPush(complete) && addr !in heap && |junk| == N
      modifies this
      ensures Valid() && wpc == WComplete(complete) && rpc == old(rpc)
      ensures old(SlotOk(heap, back))
      ensures Abs() == P.Apply(old(Abs()), P.Write(old(At(heap, back)), complete))
    {
      hide Refines;
      ghost var g' := Pushed(N, Memory(), g);
      back := end;
      end := Addr(end.chunk, end.pos + 1);
      wpc := if end.pos != N then WComplete(complete) else WExchange(complete);
      g := g';
      if end.pos == N {
        Grow(complete, addr, junk);
      }
    }

    /** Appends the value; it becomes flushable at once when the item is complete. */
    method Write(value: T, complete: bool, addr: nat, junk: seq<T>)
      requires Valid() && wpc.WIdle? && addr !in heap && |junk| == N
      modifies this
      ensures Valid() && wpc.WIdle? && rpc == old(rpc)
      ensures Abs() == old(Abs()).(vals := old(Abs()).vals + [value],
                                   f := if complete then |old(Abs()).vals| + 1 else old(Abs()).f)
    {
      hide Refines;
      ghost var g' := ValueStored(N, Memory(), g, value, complete);
      heap := heap[back.chunk := heap[back.chunk].(values := heap[back.chunk].values[back.pos := value])];
      wpc := WPush(complete);
      g := g';
      Push(complete, addr, junk);
      ghost var s1 := Memory();
      if complete {
        f := back;
      }
      wpc := WIdle;
      g := Completed(N, s1, g);
    }

    // The compare-and-swap of a flush and what follows it.
    method Publish() returns (ok: bool)
      requires Valid() && wpc.WCas?
      modifies this
      ensures Valid() && wpc.WIdle? && rpc == old(rpc) && heap == old(heap)
      ensures Abs() == old(Abs()).(w := old(Abs()).f, c := Some(old(Abs()).f), wpc := P.WIdle)
      ensures ok <==> !P.Asleep(old(Abs()))
    {
      hide Refines;
      ghost var g' := FlushSwapped(N, Memory(), g);
      g := g';
      var expected := Some(w);
      if c == expected {
        c := Some(f);
      } else {
        expected := c;
      }
      if expected != Some(w) {
        wpc := WStore;
        g' := FlushStored(N, Memory(), g);
        c := Some(f);
        w := f;
        wpc := WIdle;
        g := g';
        return false;
      }
      w := f;
      wpc := WIdle;
      return true;
    }

    /** Publishes the complete items; false exactly when there were some and the reader was asleep. */
    method Flush() returns (ok: bool)
      requires Valid() && wpc.WIdle?
      modifies this
      ensures Valid() && wpc.WIdle? && rpc == old(rpc) && heap == old(heap)
      ensures Abs() == old(Abs()).(w := old(Abs()).f, c := if old(Abs()).w == old(Abs()).f then old(Abs()).c else Some(old(Abs()).f))
      ensures ok <==> old(Abs()).w == old(Abs()).f || !P.Asleep(old(Abs()))
    {
      hide Refines;
      g := FlushTested(N, Memory(), g);
      if w == f {
        return true;
      }
      wpc := WCas;
      ok := Publish();
    }

    // What a check makes of the abstract pipe.
    ghost function Checked(p: P.State<T>): P.State<T> {
      if P.Hit(p) then p else p.(r := p.c, c := if p.c == Some(p.front) then None else p.c)
    }

    // The compare-and-swap of a check and what follows it.
    method Prefetch(reading: bool) returns (ok: bool)
      requires Valid() && rpc == RCas(reading)
      modifies this`r, this`c, this`rpc, this`g
      ensures Valid() && wpc == old(wpc)
      ensures rpc == if ok && reading then RTake else RIdle
      ensures var p := old(Abs());
        && (ok <==> p.front < p.w) && (p.c.None? ==> !ok)
        && Abs() == p.(r := p.c, c := if p.c == Some(p.front) then None else p.c, rpc := ReaderView(rpc))
      ensures !ok ==> P.Asleep(Abs())
    {
      hide Refines;
      ghost var g' := ReadSwapped(N, Memory(), g);
      var value := Some(begin);
      if c == value {
        c := None;
      } else {
        value := c;
      }
      r := value;
      ok := !(Some(begin) == r || r.None?);
      rpc := if ok && reading then RTake else RIdle;
      g := g';
    }

    method Check(reading: bool) returns (ok: bool)
      requires Valid() && rpc.RIdle?
      modifies this`r, this`c, this`rpc, this`g
      ensures Valid() && wpc == old(wpc)
      ensures rpc == if ok && reading then RTake else RIdle
      ensures old(Abs()).rpc.RIdle? && Abs() == Checked(old(Abs())).(rpc := ReaderView(rpc))
      ensures (ok <==> Abs().front < Abs().w) && (!ok ==> P.Asleep(Abs()))
    {
      hide Refines;
      ghost var g' := ReadTested(N, Memory(), g, reading);
      if Some(begin) != r && r.Some? {
        rpc := if reading then RTake else RIdle;
        g := g';
        return true;
      }
      rpc := RCas(reading);
      g := g';
      ok := Prefetch(reading);
    }

    /** Says whether a flushed item is waiting, and puts the reader to sleep when none is. */
    method CheckRead() returns (ok: bool)
      requires Valid() && rpc.RIdle?
      modifies this`r, this`c, this`rpc, this`g
      ensures Valid() && rpc.RIdle? && wpc == old(wpc)
      ensures Abs() == Checked(old(Abs()))
      ensures (ok <==> Abs().front < Abs().w) && (!ok ==> P.Asleep(Abs()) && Abs().front == Abs().w)
    {
      hide Refines;
      ok := Check(false);
      FrontBeforeFlushed(N, Memory(), g);
    }

    // pop(): the last slot of a chunk makes that chunk the spare one and frees the spare it replaces.
    method PopFront()
      requires Valid() && rpc.RPop?
      modifies this
      ensures Valid() && rpc.RIdle? && wpc == old(wpc)
      ensures Abs() == old(Abs()).(front := old(Abs()).front + 1, rpc := P.RIdle)
    {
      hide Refines;
      ghost var g' := PopDone(N, Memory(), g);
      begin := Addr(begin.chunk, begin.pos + 1);
      if begin.pos != N {
        rpc := RIdle;
        g := g';
        return;
      }
      var left := begin.chunk;
      var n := heap[left].next.value;
      begin := Addr(n, 0);
      heap := heap[n := heap[n].(prev := None)];
      rpc := RGive(left);
      g := g';
      Recycle(left);
    }

    method Recycle(left: nat)
      requires Valid() && rpc == RGive(left)
      modifies this
      ensures Valid() && rpc.RIdle? && wpc == old(wpc) && Abs() == old(Abs())
    {
      hide Refines;
      ghost var s2 := Memory();
      var extra := spare;
      spare := Some(left);
      rpc := RFree(extra);
      g := SpareGiven(N, s2, g);
      ghost var g' := Freed(N, Memory(), g);
      if extra.Some? {
        heap := heap - {extra.value};
      }
      rpc := RIdle;
      g := g';
    }

    /** Hands out the first flushed value not yet handed out, and nothing exactly when there is none. */
    method Read() returns (item: Option<T>)
      requires Valid() && rpc.RIdle?
      modifies this
      ensures Valid() && rpc.RIdle? && wpc == old(wpc)
      ensures var p, p' := old(Abs()), Checked(old(Abs()));
        if item.None? then Abs() == p' && P.Asleep(p') && p.front == p.w
        else && p.front < p.w <= |p.vals| && item.value == p.vals[p.front]
             && Abs() == p'.(front := p.front + 1, taken := p.taken + [item.value])
    {
      hide Refines;
      var ok := Check(true);
      if !ok {
        FrontBeforeFlushed(N, Memory(), g);
        return None;
      }
      ghost var g' := TakeDone(N, Memory(), g);
      item := Some(At(heap, begin));
      taken := taken + [item.value];
      rpc := RPop;
      g := g';
      PopFront();
    }
  }
}
