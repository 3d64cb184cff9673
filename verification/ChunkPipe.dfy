/**
 The pipe in memory: slots live in chunks of N values, chunks are linked, and the chunk the reader
 leaves is offered to the writer through the atomic cell `spare`.  Memory is a map from addresses to
 chunks, so that reuse after `delete` and access to freed memory can be spoken of.  Each step makes
 at most one access to the two atomic cells.  The main result is that every interleaving refines Pipe
 and touches only allocated memory.
 */
module ChunkPipe {
  import opened Options
  import P = Pipe

  datatype Addr = Addr(chunk: nat, pos: nat)
  datatype Chunk<T> = Chunk(values: seq<T>, prev: Option<nat>, next: Option<nat>)
  type Heap<T> = map<nat, Chunk<T>>

  /** The queue of chunks: `begin`, `back` and `end` are its three cursors. */
  datatype Mem<T> = Mem(heap: Heap<T>, begin: Addr, back: Addr, end: Addr, spare: Option<nat>)

  datatype WriterPc =
    | WIdle | WPush(complete: bool) | WExchange(complete: bool) | WLink(complete: bool, sc: Option<nat>)
    | WComplete(complete: bool) | WCas | WStore
  datatype ReaderPc = RIdle | RCas(reading: bool) | RTake | RPop | RGive(left: nat) | RFree(extra: Option<nat>)

  datatype State<T> = State(
    m: Mem<T>,
    w: Addr, f: Addr, r: Option<Addr>, c: Option<Addr>,
    wpc: WriterPc, rpc: ReaderPc,
    taken: seq<T>)

  // --- The steps ---

  // The constructors of the queue and the pipe; the allocator gives `a` and, when one slot fills a chunk, `b`.
  function Init<T>(N: nat, a: nat, b: nat, junk: seq<T>): State<T> {
    var first := Addr(a, 0);
    var m :=
      if N == 1 then Mem(map[a := Chunk(junk, None, Some(b)), b := Chunk(junk, Some(a), None)], first, first, Addr(b, 0), None)
      else Mem(map[a := Chunk(junk, None, None)], first, first, Addr(a, 1), None);
    State(m, first, first, Some(first), Some(first), WIdle, RIdle, [])
  }

  predicate SlotOk<T>(heap: Heap<T>, a: Addr) {
    a.chunk in heap && a.pos < |heap[a.chunk].values|
  }

  function At<T>(heap: Heap<T>, a: Addr): T
    requires SlotOk(heap, a)
  {
    heap[a.chunk].values[a.pos]
  }

  // queue_.back() = value
  function SetBack<T>(m: Mem<T>, v: T): Mem<T>
    requires SlotOk(m.heap, m.back)
  {
    var ch := m.heap[m.back.chunk];
    m.(heap := m.heap[m.back.chunk := ch.(values := ch.values[m.back.pos := v])])
  }

  // The part of push() that only moves the writer's cursors.
  function Advance<T>(m: Mem<T>): Mem<T> {
    m.(back := m.end, end := Addr(m.end.chunk, m.end.pos + 1))
  }

  // The part of push() that appends chunk n.
  function Append<T>(m: Mem<T>, n: nat): Mem<T>
    requires m.end.chunk in m.heap && n in m.heap
  {
    var h := m.heap[m.end.chunk := m.heap[m.end.chunk].(next := Some(n))];
    m.(heap := h[n := h[n].(prev := Some(m.end.chunk))], end := Addr(n, 0))
  }

  // The part of pop() that leaves the first chunk.
  function LeaveChunk<T>(m: Mem<T>): Mem<T>
    requires m.begin.chunk in m.heap && m.heap[m.begin.chunk].next.Some? && m.heap[m.begin.chunk].next.value in m.heap
  {
    var n := m.heap[m.begin.chunk].next.value;
    m.(heap := m.heap[n := m.heap[n].(prev := None)], begin := Addr(n, 0))
  }

  datatype Action<T> =
    | StoreValue(value: T, complete: bool) | Push | TakeSpare | Link(addr: nat, junk: seq<T>) | Complete
    | FlushTest | FlushCas | FlushStore
    | ReadTest(reading: bool) | ReadCas | Take | Pop | GiveSpare | Free

  predicate Enabled<T>(N: nat, s: State<T>, a: Action<T>) {
    match a
    case StoreValue(_, _) => s.wpc.WIdle?
    case Push => s.wpc.WPush?
    case TakeSpare => s.wpc.WExchange?
    case Link(addr, junk) => s.wpc.WLink? && (s.wpc.sc.None? ==> addr !in s.m.heap && |junk| == N)
    case Complete => s.wpc.WComplete?
    case FlushTest => s.wpc.WIdle?
    case FlushCas => s.wpc.WCas?
    case FlushStore => s.wpc.WStore?
    case ReadTest(_) => s.rpc.RIdle?
    case ReadCas => s.rpc.RCas?
    case Take => s.rpc.RTake?
    case Pop => s.rpc.RPop?
    case GiveSpare => s.rpc.RGive?
    case Free => s.rpc.RFree?
  }

  // Every address the step follows or deletes is allocated.
  predicate Safe<T>(N: nat, s: State<T>, a: Action<T>)
    requires Enabled(N, s, a)
  {
    match a
    case StoreValue(_, _) => SlotOk(s.m.heap, s.m.back)
    case Link(_, _) => s.m.end.chunk in s.m.heap && (s.wpc.sc.Some? ==> s.wpc.sc.value in s.m.heap)
    case Take => SlotOk(s.m.heap, s.m.begin)
    case Pop =>
      s.m.begin.pos + 1 == N ==>
        var b := s.m.begin.chunk;
        b in s.m.heap && s.m.heap[b].next.Some? && s.m.heap[b].next.value in s.m.heap
    case Free => s.rpc.extra.Some? ==> s.rpc.extra.value in s.m.heap
    case _ => true
  }

  function Apply<T>(N: nat, s: State<T>, a: Action<T>): State<T>
    requires Enabled(N, s, a) && Safe(N, s, a)
  {
    match a
    case StoreValue(v, complete) => s.(m := SetBack(s.m, v), wpc := WPush(complete))
    case Push =>
      s.(m := Advance(s.m),
         wpc := if s.m.end.pos + 1 != N then WComplete(s.wpc.complete) else WExchange(s.wpc.complete))
    case TakeSpare => s.(m := s.m.(spare := None), wpc := WLink(s.wpc.complete, s.m.spare))
    case Link(addr, junk) =>
      s.(m := if s.wpc.sc.Some? then Append(s.m, s.wpc.sc.value)
              else Append(s.m.(heap := s.m.heap[addr := Chunk(junk, None, None)]), addr),
         wpc := WComplete(s.wpc.complete))
    case Complete => s.(f := if s.wpc.complete then s.m.back else s.f, wpc := WIdle)
    case FlushTest => s.(wpc := if s.w == s.f then WIdle else WCas)
    case FlushCas =>
      if s.c == Some(s.w) then s.(c := Some(s.f), w := s.f, wpc := WIdle) else s.(wpc := WStore)
    case FlushStore => s.(c := Some(s.f), w := s.f, wpc := WIdle)
    case ReadTest(reading) =>
      s.(rpc := if !(s.r.Some? && s.r != Some(s.m.begin)) then RCas(reading) else if reading then RTake else RIdle)
    case ReadCas =>
      if s.c == Some(s.m.begin) then s.(c := None, r := Some(s.m.begin), rpc := RIdle)
      else s.(r := s.c, rpc := if s.c.Some? && s.rpc.reading then RTake else RIdle)
    case Take => s.(taken := s.taken + [At(s.m.heap, s.m.begin)], rpc := RPop)
    case Pop =>
      if s.m.begin.pos + 1 != N then s.(m := s.m.(begin := Addr(s.m.begin.chunk, s.m.begin.pos + 1)), rpc := RIdle)
      else s.(m := LeaveChunk(s.m), rpc := RGive(s.m.begin.chunk))
    case GiveSpare => s.(m := s.m.(spare := Some(s.rpc.left)), rpc := RFree(s.m.spare))
    case Free =>
      s.(m := if s.rpc.extra.Some? then s.m.(heap := s.m.heap - {s.rpc.extra.value}) else s.m, rpc := RIdle)
  }

  // --- What holds of the memory ---

  function One(o: Option<nat>): multiset<nat> {
    if o.Some? then multiset{o.value} else multiset{}
  }

  // Chunks one thread has taken from one place and not yet put in another.
  function WriterHeld(pc: WriterPc): Option<nat> {
    if pc.WLink? then pc.sc else None
  }

  function ReaderHeld(pc: ReaderPc): Option<nat> {
    if pc.RGive? then Some(pc.left) else if pc.RFree? then pc.extra else None
  }

  /** Every allocated chunk has exactly one owner: the chain, the spare cell, the writer or the reader. */
  ghost predicate Owned<T>(heap: Heap<T>, chain: seq<nat>, spare: Option<nat>, hw: Option<nat>, hr: Option<nat>) {
    multiset(heap.Keys) == multiset(chain) + One(spare) + One(hw) + One(hr)
  }

  predicate Distinct<X(==)>(chain: seq<X>) {
    forall i, j :: 0 <= i < j < |chain| ==> chain[i] != chain[j]
  }

  predicate Linked<T>(heap: Heap<T>, chain: seq<nat>) {
    && (forall i :: 0 <= i < |chain| ==> chain[i] in heap)
    && (forall i :: 0 <= i < |chain| - 1 ==> heap[chain[i]].next == Some(chain[i + 1]))
  }

  predicate Sized<T>(N: nat, heap: Heap<T>) {
    forall k :: k in heap ==> |heap[k].values| == N
  }

  /** The live chunks run from the reader's to the writer's without repetition. */
  ghost predicate Chained<T>(heap: Heap<T>, chain: seq<nat>, begin: nat, end: nat) {
    chain != [] && chain[0] == begin && chain[|chain| - 1] == end && Distinct(chain) && Linked(heap, chain)
  }

  /** Where the live slots are; `live` lists their addresses from the front slot to the back slot. */
  ghost predicate Placed(N: nat, live: seq<Addr>, chain: seq<nat>, begin: Addr, end: Addr) {
    && live != [] && live[0] == begin
    && (forall i :: 0 <= i < |live| ==> live[i].chunk in chain && live[i].pos < N)
    && (forall i :: 0 <= i < |live| ==> live[i].chunk == begin.chunk ==> begin.pos <= live[i].pos)
    && (forall i :: 0 <= i < |live| ==> live[i].chunk == end.chunk ==> live[i].pos < end.pos)
  }

  predicate Follows<T>(N: nat, heap: Heap<T>, a: Addr, b: Addr) {
    if a.pos + 1 < N then b == Addr(a.chunk, a.pos + 1)
    else a.chunk in heap && heap[a.chunk].next == Some(b.chunk) && b.pos == 0
  }

  ghost predicate Consecutive<T>(N: nat, heap: Heap<T>, live: seq<Addr>) {
    forall i :: 0 <= i < |live| - 1 ==> Follows(N, heap, live[i], live[i + 1])
  }

  ghost predicate EndOk<T>(N: nat, heap: Heap<T>, back: Addr, end: Addr, live: seq<Addr>, linking: bool) {
    && live != [] && back == live[|live| - 1]
    && if linking then end == Addr(back.chunk, N) && back.pos == N - 1
       else end.pos < N && Follows(N, heap, back, end)
  }

  /** The live slots but the back one hold the values written and not yet popped. */
  ghost predicate Stored<T>(heap: Heap<T>, live: seq<Addr>, vals: seq<T>) {
    && |live| == |vals| + 1
    && forall i :: 0 <= i < |vals| ==> SlotOk(heap, live[i]) && At(heap, live[i]) == vals[i]
  }

  function Linking(pc: WriterPc): bool { pc.WExchange? || pc.WLink? }

  /** Everything that holds of the queue but for who owns the chunks; the spare cell plays no part. */
  ghost predicate MemOk<T>(N: nat, m: Mem<T>, chain: seq<nat>, live: seq<Addr>, vals: seq<T>, linking: bool) {
    && Sized(N, m.heap)
    && Chained(m.heap, chain, m.begin.chunk, m.end.chunk)
    && Placed(N, live, chain, m.begin, m.end)
    && Distinct(live)
    && Consecutive(N, m.heap, live)
    && EndOk(N, m.heap, m.back, m.end, live, linking)
    && Stored(m.heap, live, vals)
  }

  // --- Preservation, one memory operation at a time ---

  lemma OwnerExcludes<T>(heap: Heap<T>, chain: seq<nat>, spare: Option<nat>, hw: Option<nat>, hr: Option<nat>)
    requires Owned(heap, chain, spare, hw, hr)
    ensures forall x :: x in chain ==> x in heap && Some(x) != spare && Some(x) != hw && Some(x) != hr
    ensures spare.Some? ==> spare.value in heap && spare != hw && spare != hr
    ensures hw.Some? ==> hw.value in heap && hw != hr
    ensures hr.Some? ==> hr.value in heap
  {
    var all := multiset(heap.Keys);
    assert forall x :: all[x] <= 1 && (all[x] == 1 <==> x in heap);
    forall x | x in chain
      ensures x in heap && Some(x) != spare && Some(x) != hw && Some(x) != hr
    {
      assert multiset(chain)[x] >= 1;
      assert all[x] == multiset(chain)[x] + One(spare)[x] + One(hw)[x] + One(hr)[x];
    }
    if spare.Some? { assert all[spare.value] >= 1 + One(hw)[spare.value] + One(hr)[spare.value]; }
    if hw.Some? { assert all[hw.value] >= 1 + One(hr)[hw.value]; }
    if hr.Some? { assert all[hr.value] >= 1; }
  }

  lemma SetBackOk<T>(N: nat, m: Mem<T>, chain: seq<nat>, live: seq<Addr>, vals: seq<T>, v: T)
    requires MemOk(N, m, chain, live, vals, false)
    ensures SlotOk(m.heap, m.back)
    ensures MemOk(N, SetBack(m, v), chain, live, vals, false)
    ensures SlotOk(SetBack(m, v).heap, m.back) && At(SetBack(m, v).heap, m.back) == v
    ensures SetBack(m, v).heap.Keys == m.heap.Keys
  {
    var m' := SetBack(m, v);
    forall i | 0 <= i < |vals|
      ensures SlotOk(m'.heap, live[i]) && At(m'.heap, live[i]) == vals[i]
    {
      assert live[i] != live[|vals|];
    }
    forall i | 0 <= i < |live| - 1 ensures Follows(N, m'.heap, live[i], live[i + 1]) {
      assert Follows(N, m.heap, live[i], live[i + 1]);
    }
  }

  lemma AdvanceOk<T>(N: nat, m: Mem<T>, chain: seq<nat>, live: seq<Addr>, vals: seq<T>)
    requires MemOk(N, m, chain, live, vals, false) && SlotOk(m.heap, m.back)
    ensures MemOk(N, Advance(m), chain, live + [m.end], vals + [At(m.heap, m.back)], m.end.pos + 1 == N)
  {
    var live', n := live + [m.end], |live|;
    assert live'[0] == m.begin;
    assert m.end.chunk in chain by { assert chain[|chain| - 1] in chain; }
    forall i | 0 <= i < |live'| - 1 ensures Follows(N, m.heap, live'[i], live'[i + 1]) {
      if i < n - 1 { assert Follows(N, m.heap, live[i], live[i + 1]); }
    }
    assert Placed(N, live', chain, m.begin, Advance(m).end);
  }

  lemma AppendOk<T>(N: nat, m: Mem<T>, chain: seq<nat>, live: seq<Addr>, vals: seq<T>, n: nat)
    requires MemOk(N, m, chain, live, vals, true) && n in m.heap && n !in chain && N > 0
    ensures m.end.chunk in m.heap
    ensures MemOk(N, Append(m, n), chain + [n], live, vals, false)
    ensures Append(m, n).heap.Keys == m.heap.Keys
  {
    var m', k := Append(m, n), |chain|;
    assert chain[k - 1] in m.heap;
    forall i | 0 <= i < |live| - 1 ensures Follows(N, m'.heap, live[i], live[i + 1]) {
      assert Follows(N, m.heap, live[i], live[i + 1]);
      assert live[i] != live[|live| - 1];
      assert live[i].chunk in chain;
    }
    assert Chained(m'.heap, chain + [n], m'.begin.chunk, n);
    assert Placed(N, live, chain + [n], m'.begin, m'.end);
    assert Stored(m'.heap, live, vals);
  }

  lemma AllocateOk<T>(N: nat, m: Mem<T>, chain: seq<nat>, live: seq<Addr>, vals: seq<T>, n: nat, junk: seq<T>)
    requires MemOk(N, m, chain, live, vals, true) && n !in m.heap && |junk| == N
    ensures MemOk(N, m.(heap := m.heap[n := Chunk(junk, None, None)]), chain, live, vals, true)
    ensures n !in chain
  {
    var h := m.heap[n := Chunk(junk, None, None)];
    forall i | 0 <= i < |live| - 1 ensures Follows(N, h, live[i], live[i + 1]) {
      assert Follows(N, m.heap, live[i], live[i + 1]);
    }
    if n in chain { assert false; }
  }

  /** What pop() finds in the front slot's surroundings. */
  lemma FrontLink<T>(N: nat, m: Mem<T>, chain: seq<nat>, live: seq<Addr>, vals: seq<T>, linking: bool)
    requires MemOk(N, m, chain, live, vals, linking) && vals != [] && m.begin.pos + 1 == N
    ensures |chain| >= 2 && m.begin.chunk in m.heap && m.heap[m.begin.chunk].next == Some(chain[1]) && chain[1] in m.heap
    ensures live[1] == Addr(chain[1], 0)
    ensures forall i :: 0 < i < |live| ==> live[i].chunk != m.begin.chunk
  {
    assert Follows(N, m.heap, live[0], live[1]);
    forall i | 0 < i < |live| ensures live[i].chunk != m.begin.chunk {
      assert live[i] != live[0];
    }
    assert live[1].chunk in chain;
  }

  lemma PopInChunkOk<T>(N: nat, m: Mem<T>, chain: seq<nat>, live: seq<Addr>, vals: seq<T>, linking: bool)
    requires MemOk(N, m, chain, live, vals, linking) && vals != [] && m.begin.pos + 1 != N
    ensures MemOk(N, m.(begin := Addr(m.begin.chunk, m.begin.pos + 1)), chain, live[1..], vals[1..], linking)
  {
    assert Follows(N, m.heap, live[0], live[1]);
    forall i | 0 <= i < |live[1..]| - 1 ensures Follows(N, m.heap, live[1..][i], live[1..][i + 1]) {
      assert Follows(N, m.heap, live[i + 1], live[i + 2]);
    }
    forall i | 0 < i < |live| ensures live[i].chunk == m.begin.chunk ==> m.begin.pos + 1 <= live[i].pos {
      assert live[i] != live[0];
    }
    assert Stored(m.heap, live[1..], vals[1..]);
  }

  lemma LeaveChunkOk<T>(N: nat, m: Mem<T>, chain: seq<nat>, live: seq<Addr>, vals: seq<T>, linking: bool)
    requires MemOk(N, m, chain, live, vals, linking) && vals != [] && m.begin.pos + 1 == N
    ensures m.begin.chunk in m.heap && m.heap[m.begin.chunk].next.Some? && m.heap[m.begin.chunk].next.value in m.heap
    ensures MemOk(N, LeaveChunk(m), chain[1..], live[1..], vals[1..], linking)
    ensures LeaveChunk(m).heap.Keys == m.heap.Keys
  {
    FrontLink(N, m, chain, live, vals, linking);
    var m' := LeaveChunk(m);
    forall i | 0 <= i < |live[1..]| - 1 ensures Follows(N, m'.heap, live[1..][i], live[1..][i + 1]) {
      assert Follows(N, m.heap, live[i + 1], live[i + 2]);
    }
    forall i | 0 <= i < |live[1..]| ensures live[1..][i].chunk in chain[1..] {
      assert live[i + 1].chunk in chain;
    }
    assert Chained(m'.heap, chain[1..], chain[1], m.end.chunk);
    assert Placed(N, live[1..], chain[1..], m'.begin, m'.end);
    assert Stored(m'.heap, live[1..], vals[1..]);
  }

  lemma FreeOk<T>(N: nat, m: Mem<T>, chain: seq<nat>, live: seq<Addr>, vals: seq<T>, linking: bool, x: nat)
    requires MemOk(N, m, chain, live, vals, linking) && x !in chain
    ensures MemOk(N, m.(heap := m.heap - {x}), chain, live, vals, linking)
  {
    var h := m.heap - {x};
    forall i | 0 <= i < |live| ensures live[i].chunk != x {
      assert live[i].chunk in chain;
    }
    forall i | 0 <= i < |live| - 1 ensures Follows(N, h, live[i], live[i + 1]) {
      assert Follows(N, m.heap, live[i], live[i + 1]);
    }
    assert Linked(h, chain);
  }

  // Ownership moves.
  lemma OwnedSameKeys<T>(h: Heap<T>, h': Heap<T>, chain: seq<nat>, spare: Option<nat>, hw: Option<nat>, hr: Option<nat>)
    requires Owned(h, chain, spare, hw, hr) && h'.Keys == h.Keys
    ensures Owned(h', chain, spare, hw, hr)
  {
  }

  lemma OwnedAppend<T>(h: Heap<T>, chain: seq<nat>, n: nat, spare: Option<nat>, hr: Option<nat>)
    requires Owned(h, chain, spare, Some(n), hr)
    ensures Owned(h, chain + [n], spare, None, hr)
  {
    assert multiset(chain + [n]) == multiset(chain) + multiset{n};
  }

  lemma OwnedAllocate<T>(h: Heap<T>, h': Heap<T>, chain: seq<nat>, n: nat, spare: Option<nat>, hr: Option<nat>)
    requires Owned(h, chain, spare, None, hr) && n !in h && h'.Keys == h.Keys + {n}
    ensures Owned(h', chain, spare, Some(n), hr)
  {
    assert multiset(h'.Keys) == multiset(h.Keys) + multiset{n};
  }

  lemma OwnedLeave<T>(h: Heap<T>, chain: seq<nat>, spare: Option<nat>, hw: Option<nat>)
    requires Owned(h, chain, spare, hw, None) && chain != []
    ensures Owned(h, chain[1..], spare, hw, Some(chain[0]))
  {
    assert chain == [chain[0]] + chain[1..];
  }

  lemma OwnedFree<T>(h: Heap<T>, h': Heap<T>, chain: seq<nat>, x: nat, spare: Option<nat>, hw: Option<nat>)
    requires Owned(h, chain, spare, hw, Some(x)) && h'.Keys == h.Keys - {x}
    ensures Owned(h', chain, spare, hw, None)
  {
    var rest := multiset(chain) + One(spare) + One(hw);
    assert multiset(h.Keys) == rest + multiset{x};
    assert multiset(h.Keys)[x] == rest[x] + 1;
    forall y ensures multiset(h'.Keys)[y] == rest[y] {
      assert multiset(h.Keys)[y] == rest[y] + multiset{x}[y];
    }
  }

  lemma SpareIrrelevant<T>(N: nat, m: Mem<T>, chain: seq<nat>, live: seq<Addr>, vals: seq<T>, linking: bool, x: Option<nat>)
    requires MemOk(N, m, chain, live, vals, linking)
    ensures MemOk(N, m.(spare := x), chain, live, vals, linking)
  {
    hide Chained, Placed, Distinct, Consecutive, EndOk, Stored, Sized;
  }

  // --- Refinement of the pipe on slot numbers ---

  /** What the proof remembers: the abstract pipe, the address of every slot ever used, the live chunks in order. */
  datatype Ghost<T> = Ghost(p: P.State<T>, slots: seq<Addr>, chain: seq<nat>)

  function WriterView(pc: WriterPc): P.WriterPc {
    match pc
    case WIdle => P.WIdle
    case WPush(_) => P.WIdle
    case WExchange(b) => P.WWrote(b)
    case WLink(b, _) => P.WWrote(b)
    case WComplete(b) => P.WWrote(b)
    case WCas => P.WCas
    case WStore => P.WStore
  }

  function ReaderView(pc: ReaderPc): P.ReaderPc {
    match pc
    case RIdle => P.RIdle
    case RCas(b) => P.RCas(b)
    case RTake => P.RTake
    case RPop => P.RPop
    case RGive(_) => P.RIdle
    case RFree(_) => P.RIdle
  }

  ghost predicate PointsTo(slots: seq<Addr>, a: Option<Addr>, i: Option<nat>) {
    if i.Some? then i.value < |slots| && a == Some(slots[i.value]) else a.None?
  }

  ghost predicate CursorsOk<T>(s: State<T>, p: P.State<T>, slots: seq<Addr>) {
    && PointsTo(slots, Some(s.w), Some(p.w)) && PointsTo(slots, Some(s.f), Some(p.f))
    && PointsTo(slots, s.r, p.r) && PointsTo(slots, s.c, p.c)
    && p.wpc == WriterView(s.wpc) && p.rpc == ReaderView(s.rpc) && p.taken == s.taken
  }

  ghost predicate Refines<T>(N: nat, s: State<T>, g: Ghost<T>) {
    && N > 0
    && P.Inv(g.p)
    && |g.slots| == |g.p.vals| + 1 && g.p.front <= |g.p.vals|
    && CursorsOk(s, g.p, g.slots)
    && Owned(s.m.heap, g.chain, s.m.spare, WriterHeld(s.wpc), ReaderHeld(s.rpc))
    && MemOk(N, s.m, g.chain, g.slots[g.p.front..], g.p.vals[g.p.front..], Linking(s.wpc))
  }

  /** The abstract step a memory step takes, if any: a write counts when push() moves the back cursor. */
  function AbstractStep<T>(s: State<T>, a: Action<T>): Option<P.Action<T>> {
    match a
    case Push => if SlotOk(s.m.heap, s.m.back) && s.wpc.WPush? then Some(P.Write(At(s.m.heap, s.m.back), s.wpc.complete)) else None
    case Complete => Some(P.Complete)
    case FlushTest => Some(P.FlushTest)
    case FlushCas => Some(P.FlushCas)
    case FlushStore => Some(P.FlushStore)
    case ReadTest(b) => Some(P.ReadTest(b))
    case ReadCas => Some(P.ReadCas)
    case Take => Some(P.Take)
    case Pop => Some(P.Pop)
    case _ => None
  }

  // p' is what p becomes by the abstract step of a.
  ghost predicate Matches<T>(s: State<T>, a: Action<T>, p: P.State<T>, p': P.State<T>) {
    match AbstractStep(s, a)
    case None => p' == p
    case Some(b) => P.Enabled(p, b) && p' == P.Apply(p, b)
  }

  lemma InitMemOk<T>(N: nat, a: nat, b: nat, junk: seq<T>)
    requires N > 0 && |junk| == N && a != b
    ensures MemOk(N, Init(N, a, b, junk).m, if N == 1 then [a, b] else [a], [Addr(a, 0)], [], false)
  {
    var m := Init(N, a, b, junk).m;
    assert Follows(N, m.heap, m.back, m.end);
  }

  lemma InitOwned<T>(N: nat, a: nat, b: nat, junk: seq<T>)
    requires N > 0 && |junk| == N && a != b
    ensures var s := Init(N, a, b, junk);
      Owned(s.m.heap, if N == 1 then [a, b] else [a], s.m.spare, WriterHeld(s.wpc), ReaderHeld(s.rpc))
  {
    var s := Init(N, a, b, junk);
    if N == 1 { OwnedPair(s.m.heap, a, b); } else { OwnedOne(s.m.heap, a); }
  }

  lemma OwnedPair<T>(h: Heap<T>, a: nat, b: nat)
    requires h.Keys == {a, b} && a != b
    ensures Owned(h, [a, b], None, None, None)
  {
    assert multiset(h.Keys) == multiset{a, b};
  }

  lemma OwnedOne<T>(h: Heap<T>, a: nat)
    requires h.Keys == {a}
    ensures Owned(h, [a], None, None, None)
  {
    assert multiset(h.Keys) == multiset{a};
  }

  lemma InitCursors<T>(s: State<T>, slots: seq<Addr>, a: nat)
    requires s.w == s.f == Addr(a, 0) && s.r == s.c == Some(Addr(a, 0)) && slots == [Addr(a, 0)]
    requires s.wpc.WIdle? && s.rpc.RIdle? && s.taken == []
    ensures P.Inv(P.Init<T>()) && CursorsOk(s, P.Init(), slots)
  {
  }

  lemma InitRefines<T>(N: nat, a: nat, b: nat, junk: seq<T>) returns (g: Ghost<T>)
    requires N > 0 && |junk| == N && a != b
    ensures Refines(N, Init(N, a, b, junk), g) && g.p == P.Init()
  {
    hide MemOk, Owned, CursorsOk, P.Inv;
    var s := Init(N, a, b, junk);
    g := Ghost(P.Init(), [Addr(a, 0)], if N == 1 then [a, b] else [a]);
    InitMemOk(N, a, b, junk);
    InitOwned(N, a, b, junk);
    InitCursors(s, g.slots, a);
    assert s.m.heap.Keys == if N == 1 then {a, b} else {a};
    assert g.slots[g.p.front..] == [Addr(a, 0)] && g.p.vals[g.p.front..] == [];
  }

  /** No step follows a bad address, and no chunk is freed while anyone owns it. */
  lemma RefinedIsSafe<T>(N: nat, s: State<T>, g: Ghost<T>, a: Action<T>)
    requires Refines(N, s, g) && Enabled(N, s, a)
    ensures Safe(N, s, a)
    ensures a.Free? && s.rpc.extra.Some? ==> s.rpc.extra.value !in g.chain && s.rpc.extra != s.m.spare
  {
    OwnerExcludes(s.m.heap, g.chain, s.m.spare, WriterHeld(s.wpc), ReaderHeld(s.rpc));
    var live, vals := g.slots[g.p.front..], g.p.vals[g.p.front..];
    assert live[|live| - 1].chunk in g.chain && live[0].chunk in g.chain;
    assert g.chain[|g.chain| - 1] in s.m.heap;
    if a.Pop? && s.m.begin.pos + 1 == N {
      FrontLink(N, s.m, g.chain, live, vals, Linking(s.wpc));
    }
  }

  lemma BackAllocated<T>(N: nat, s: State<T>, g: Ghost<T>)
    requires Refines(N, s, g)
    ensures SlotOk(s.m.heap, s.m.back)
  {
    hide Owned, CursorsOk, P.Inv;
    var live := g.slots[g.p.front..];
    assert live[|live| - 1].chunk in g.chain;
  }

  lemma Views<T>(N: nat, s: State<T>, g: Ghost<T>)
    requires Refines(N, s, g)
    ensures N > 0 && P.Inv(g.p) && g.p.wpc == WriterView(s.wpc) && g.p.rpc == ReaderView(s.rpc) && g.p.taken == s.taken
  {
  }

  /** The pointer tests of the calls decide what they decide on slot numbers. */
  lemma TestsAgree<T>(N: nat, s: State<T>, g: Ghost<T>)
    requires Refines(N, s, g)
    ensures s.w == s.f <==> g.p.w == g.p.f
    ensures s.c == Some(s.w) <==> g.p.c == Some(g.p.w)
    ensures s.c == Some(s.m.begin) <==> g.p.c == Some(g.p.front)
    ensures s.r == Some(s.m.begin) <==> g.p.r == Some(g.p.front)
    ensures (s.c.None? <==> g.p.c.None?) && (s.r.None? <==> g.p.r.None?)
  {
    hide MemOk, Owned;
    LiveSlotsDistinct(N, s, g);
  }

  lemma PushRefines<T>(N: nat, s: State<T>, g: Ghost<T>, a: Action<T>) returns (g': Ghost<T>)
    requires Refines(N, s, g) && Enabled(N, s, a) && Safe(N, s, a) && a.Push?
    ensures Refines(N, Apply(N, s, a), g') && Matches(s, a, g.p, g'.p)
  {
    hide MemOk, Owned;
    BackAllocated(N, s, g);
    var front := g.p.front;
    var b := P.Write(At(s.m.heap, s.m.back), s.wpc.complete);
    P.InvStep(g.p, b);
    g' := g.(p := P.Apply(g.p, b), slots := g.slots + [s.m.end]);
    AdvanceOk(N, s.m, g.chain, g.slots[front..], g.p.vals[front..]);
    assert g'.slots[front..] == g.slots[front..] + [s.m.end];
    assert g'.p.vals[front..] == g.p.vals[front..] + [b.value];
  }

  lemma LinkRefines<T>(N: nat, s: State<T>, g: Ghost<T>, a: Action<T>) returns (g': Ghost<T>)
    requires Refines(N, s, g) && Enabled(N, s, a) && Safe(N, s, a) && a.Link?
    ensures Refines(N, Apply(N, s, a), g') && g'.p == g.p
  {
    hide MemOk, Owned, P.Inv;
    var live, vals, hr := g.slots[g.p.front..], g.p.vals[g.p.front..], ReaderHeld(s.rpc);
    var m, n := s.m, if s.wpc.sc.Some? then s.wpc.sc.value else a.addr;
    if s.wpc.sc.Some? {
      OwnerExcludes(m.heap, g.chain, m.spare, WriterHeld(s.wpc), hr);
    } else {
      AllocateOk(N, m, g.chain, live, vals, n, a.junk);
      m := s.m.(heap := s.m.heap[n := Chunk(a.junk, None, None)]);
      assert m.heap.Keys == s.m.heap.Keys + {n};
      OwnedAllocate(s.m.heap, m.heap, g.chain, n, m.spare, hr);
    }
    AppendOk(N, m, g.chain, live, vals, n);
    OwnedAppend(m.heap, g.chain, n, m.spare, hr);
    OwnedSameKeys(m.heap, Append(m, n).heap, g.chain + [n], m.spare, None, hr);
    g' := g.(chain := g.chain + [n]);
    assert Apply(N, s, a).m == Append(m, n);
  }

  lemma PopRefines<T>(N: nat, s: State<T>, g: Ghost<T>, a: Action<T>) returns (g': Ghost<T>)
    requires Refines(N, s, g) && Enabled(N, s, a) && Safe(N, s, a) && a.Pop?
    ensures Refines(N, Apply(N, s, a), g') && Matches(s, a, g.p, g'.p)
  {
    hide MemOk, Owned;
    P.InvStep(g.p, P.Pop);
    var live, vals, lk := g.slots[g.p.front..], g.p.vals[g.p.front..], Linking(s.wpc);
    g' := g.(p := P.Apply(g.p, P.Pop));
    assert g.slots[g'.p.front..] == live[1..] && g.p.vals[g'.p.front..] == vals[1..];
    if s.m.begin.pos + 1 != N {
      PopInChunkOk(N, s.m, g.chain, live, vals, lk);
    } else {
      LeaveChunkOk(N, s.m, g.chain, live, vals, lk);
      FrontLink(N, s.m, g.chain, live, vals, lk);
      ChainBegins(N, s.m, g.chain, live, vals, lk);
      OwnedLeave(s.m.heap, g.chain, s.m.spare, WriterHeld(s.wpc));
      OwnedSameKeys(s.m.heap, LeaveChunk(s.m).heap, g.chain[1..], s.m.spare, WriterHeld(s.wpc), Some(g.chain[0]));
      g' := g'.(chain := g.chain[1..]);
    }
  }

  lemma ChainBegins<T>(N: nat, m: Mem<T>, chain: seq<nat>, live: seq<Addr>, vals: seq<T>, linking: bool)
    requires MemOk(N, m, chain, live, vals, linking)
    ensures chain != [] && chain[0] == m.begin.chunk
  {
  }

  lemma WriterCursorRefines<T>(N: nat, s: State<T>, g: Ghost<T>, a: Action<T>) returns (g': Ghost<T>)
    requires Refines(N, s, g) && Enabled(N, s, a) && Safe(N, s, a)
    requires a.Complete? || a.FlushTest? || a.FlushCas? || a.FlushStore?
    ensures Refines(N, Apply(N, s, a), g') && Matches(s, a, g.p, g'.p)
  {
    hide MemOk, Owned;
    LiveSlotsDistinct(N, s, g);
    var b := AbstractStep(s, a).value;
    P.InvStep(g.p, b);
    g' := g.(p := P.Apply(g.p, b));
  }

  lemma ReaderCursorRefines<T>(N: nat, s: State<T>, g: Ghost<T>, a: Action<T>) returns (g': Ghost<T>)
    requires Refines(N, s, g) && Enabled(N, s, a) && Safe(N, s, a)
    requires a.ReadTest? || a.ReadCas? || a.Take?
    ensures Refines(N, Apply(N, s, a), g') && Matches(s, a, g.p, g'.p)
  {
    hide MemOk, Owned;
    LiveSlotsDistinct(N, s, g);
    var b := AbstractStep(s, a).value;
    P.InvStep(g.p, b);
    g' := g.(p := P.Apply(g.p, b));
  }

  // Comparing live addresses is comparing slot numbers, which is what every pointer test of the pipe relies on.
  lemma LiveSlotsDistinct<T>(N: nat, s: State<T>, g: Ghost<T>)
    requires Refines(N, s, g)
    ensures s.m.begin == g.slots[g.p.front] && s.m.back == g.slots[|g.p.vals|]
    ensures g.p.front < |g.p.vals| ==> SlotOk(s.m.heap, s.m.begin) && At(s.m.heap, s.m.begin) == g.p.vals[g.p.front]
    ensures forall i, j :: g.p.front <= i < j < |g.slots| ==> g.slots[i] != g.slots[j]
  {
    var live, vals := g.slots[g.p.front..], g.p.vals[g.p.front..];
    assert g.p.front < |g.p.vals| ==> vals[0] == g.p.vals[g.p.front];
    forall i, j | g.p.front <= i < j < |g.slots| ensures g.slots[i] != g.slots[j] {
      assert live[i - g.p.front] != live[j - g.p.front];
    }
  }

  lemma StoreRefines<T>(N: nat, s: State<T>, g: Ghost<T>, a: Action<T>)
    requires Refines(N, s, g) && Enabled(N, s, a) && Safe(N, s, a) && a.StoreValue?
    ensures Refines(N, Apply(N, s, a), g)
  {
    hide MemOk, Owned, P.Inv;
    SetBackOk(N, s.m, g.chain, g.slots[g.p.front..], g.p.vals[g.p.front..], a.value);
    OwnedSameKeys(s.m.heap, SetBack(s.m, a.value).heap, g.chain, s.m.spare, WriterHeld(s.wpc), ReaderHeld(s.rpc));
  }

  lemma SpareToWriter<T>(h: Heap<T>, chain: seq<nat>, spare: Option<nat>, hr: Option<nat>)
    requires Owned(h, chain, spare, None, hr)
    ensures Owned(h, chain, None, spare, hr)
  {
  }

  lemma SpareToReader<T>(h: Heap<T>, chain: seq<nat>, spare: Option<nat>, hw: Option<nat>, left: Option<nat>)
    requires Owned(h, chain, spare, hw, left)
    ensures Owned(h, chain, left, hw, spare)
  {
    Turned(multiset(chain), One(spare), One(hw), One(left));
  }

  lemma Turned(a: multiset<nat>, b: multiset<nat>, c: multiset<nat>, d: multiset<nat>)
    ensures a + b + c + d == a + d + c + b
  {
  }

  lemma TakeSpareRefines<T>(N: nat, s: State<T>, g: Ghost<T>)
    requires Refines(N, s, g) && s.wpc.WExchange?
    ensures Refines(N, s.(m := s.m.(spare := None), wpc := WLink(s.wpc.complete, s.m.spare)), g)
  {
    hide MemOk, Owned, P.Inv;
    SpareToWriter(s.m.heap, g.chain, s.m.spare, ReaderHeld(s.rpc));
    SpareIrrelevant(N, s.m, g.chain, g.slots[g.p.front..], g.p.vals[g.p.front..], Linking(s.wpc), None);
  }

  lemma GiveSpareRefines<T>(N: nat, s: State<T>, g: Ghost<T>)
    requires Refines(N, s, g) && s.rpc.RGive?
    ensures Refines(N, s.(m := s.m.(spare := Some(s.rpc.left)), rpc := RFree(s.m.spare)), g)
  {
    hide MemOk, Owned, P.Inv;
    SpareToReader(s.m.heap, g.chain, s.m.spare, WriterHeld(s.wpc), Some(s.rpc.left));
    SpareIrrelevant(N, s.m, g.chain, g.slots[g.p.front..], g.p.vals[g.p.front..], Linking(s.wpc), Some(s.rpc.left));
  }

  lemma FreeRefines<T>(N: nat, s: State<T>, g: Ghost<T>, a: Action<T>)
    requires Refines(N, s, g) && Enabled(N, s, a) && Safe(N, s, a) && a.Free?
    ensures Refines(N, Apply(N, s, a), g)
  {
    hide MemOk, Owned, P.Inv;
    if s.rpc.extra.Some? {
      var x := s.rpc.extra.value;
      OwnerExcludes(s.m.heap, g.chain, s.m.spare, WriterHeld(s.wpc), ReaderHeld(s.rpc));
      FreeOk(N, s.m, g.chain, g.slots[g.p.front..], g.p.vals[g.p.front..], Linking(s.wpc), x);
      assert (s.m.heap - {x}).Keys == s.m.heap.Keys - {x};
      OwnedFree(s.m.heap, s.m.heap - {x}, g.chain, x, s.m.spare, WriterHeld(s.wpc));
    }
  }

  /** Every memory step is safe and is the abstract step it stands for, or none. */
  lemma StepRefines<T>(N: nat, s: State<T>, g: Ghost<T>, a: Action<T>) returns (g': Ghost<T>)
    requires Refines(N, s, g) && Enabled(N, s, a)
    ensures Safe(N, s, a) && Refines(N, Apply(N, s, a), g') && Matches(s, a, g.p, g'.p)
  {
    hide MemOk, Owned, CursorsOk, P.Inv;
    RefinedIsSafe(N, s, g, a);
    g' := g;
    match a {
      case StoreValue(_, _) => StoreRefines(N, s, g, a);
      case Push => g' := PushRefines(N, s, g, a);
      case Link(_, _) => g' := LinkRefines(N, s, g, a);
      case Pop => g' := PopRefines(N, s, g, a);
      case TakeSpare => TakeSpareRefines(N, s, g);
      case GiveSpare => GiveSpareRefines(N, s, g);
      case Free => FreeRefines(N, s, g, a);
      case ReadTest(_) => g' := ReaderCursorRefines(N, s, g, a);
      case ReadCas => g' := ReaderCursorRefines(N, s, g, a);
      case Take => g' := ReaderCursorRefines(N, s, g, a);
      case _ => g' := WriterCursorRefines(N, s, g, a);
    }
  }

  // --- All interleavings ---

  predicate Runnable<T>(N: nat, s: State<T>, run: seq<Action<T>>)
    decreases |run|
  {
    run != [] ==> Enabled(N, s, run[0]) && Safe(N, s, run[0]) && Runnable(N, Apply(N, s, run[0]), run[1..])
  }

  function Exec<T>(N: nat, s: State<T>, run: seq<Action<T>>): State<T>
    requires Runnable(N, s, run)
    decreases |run|
  {
    if run == [] then s else Exec(N, Apply(N, s, run[0]), run[1..])
  }

  lemma {:induction false} RunRefines<T>(N: nat, s: State<T>, g: Ghost<T>, run: seq<Action<T>>)
    returns (g': Ghost<T>, abstractRun: seq<P.Action<T>>)
    requires Refines(N, s, g) && Runnable(N, s, run)
    ensures Refines(N, Exec(N, s, run), g')
    ensures P.Runnable(g.p, abstractRun) && P.Exec(g.p, abstractRun) == g'.p
    decreases |run|
  {
    hide Refines, Safe, Enabled;
    g', abstractRun := g, [];
    if run != [] {
      var a := run[0];
      var mid := StepRefines(N, s, g, a);
      g', abstractRun := RunRefines(N, Apply(N, s, a), mid, run[1..]);
      if AbstractStep(s, a).Some? {
        abstractRun := [AbstractStep(s, a).value] + abstractRun;
      }
    }
  }

  /**
   Memory safety of chunk recycling, for every chunk size, interleaving and choice of addresses by the
   allocator (which may give out freed addresses again): whatever step comes next follows only allocated
   pointers, and a chunk it frees is neither live nor spare nor held by the writer.
   */
  lemma NoBadAccess<T>(N: nat, a: nat, b: nat, junk: seq<T>, run: seq<Action<T>>, next: Action<T>)
    requires N > 0 && |junk| == N && a != b
    requires Runnable(N, Init(N, a, b, junk), run) && Enabled(N, Exec(N, Init(N, a, b, junk), run), next)
    ensures Safe(N, Exec(N, Init(N, a, b, junk), run), next)
  {
    var g := InitRefines(N, a, b, junk);
    var g', _ := RunRefines(N, Init(N, a, b, junk), g, run);
    RefinedIsSafe(N, Exec(N, Init(N, a, b, junk), run), g', next);
  }

  /** No leak and no double owner: the allocated chunks are exactly the live ones, the spare one and the two that may be held. */
  lemma ChunksAccountedFor<T>(N: nat, a: nat, b: nat, junk: seq<T>, run: seq<Action<T>>) returns (chain: seq<nat>)
    requires N > 0 && |junk| == N && a != b && Runnable(N, Init(N, a, b, junk), run)
    ensures var s := Exec(N, Init(N, a, b, junk), run);
      && Chained(s.m.heap, chain, s.m.begin.chunk, s.m.end.chunk)
      && Owned(s.m.heap, chain, s.m.spare, WriterHeld(s.wpc), ReaderHeld(s.rpc))
  {
    var g := InitRefines(N, a, b, junk);
    var g', _ := RunRefines(N, Init(N, a, b, junk), g, run);
    chain := g'.chain;
  }

  /** The values given to `write`, in order, from the actions alone. */
  function Given<T>(run: seq<Action<T>>): seq<T> {
    if run == [] then [] else (if run[0].StoreValue? then [run[0].value] else []) + Given(run[1..])
  }

  // A value that is stored and over which the back cursor has not moved.
  function NotPushed<T>(s: State<T>): seq<T> {
    if s.wpc.WPush? && SlotOk(s.m.heap, s.m.back) then [At(s.m.heap, s.m.back)] else []
  }

  // The reader's steps leave the back slot alone.
  lemma BackSlotStays<T>(N: nat, s: State<T>, a: Action<T>)
    requires Enabled(N, s, a) && Safe(N, s, a) && !a.StoreValue? && !a.Push?
    requires SlotOk(s.m.heap, s.m.back) && SlotOk(Apply(N, s, a).m.heap, s.m.back)
    ensures NotPushed(Apply(N, s, a)) == NotPushed(s)
  {
  }

  lemma StoredIsNotPushed<T>(N: nat, s: State<T>, a: Action<T>)
    requires Enabled(N, s, a) && Safe(N, s, a) && a.StoreValue?
    ensures NotPushed(s) == [] && NotPushed(Apply(N, s, a)) == [a.value]
  {
  }

  lemma AbstractWrites<T>(s: State<T>, a: Action<T>, p: P.State<T>, p': P.State<T>)
    requires Matches(s, a, p, p') && (a.Push? ==> s.wpc.WPush? && SlotOk(s.m.heap, s.m.back))
    ensures p'.vals == p.vals + if a.Push? then NotPushed(s) else []
  {
  }

  lemma ValueMoves<T>(N: nat, s: State<T>, g: Ghost<T>, a: Action<T>, g': Ghost<T>)
    requires Refines(N, s, g) && Enabled(N, s, a) && Safe(N, s, a) && Refines(N, Apply(N, s, a), g')
    requires Matches(s, a, g.p, g'.p)
    ensures g'.p.vals + NotPushed(Apply(N, s, a)) == g.p.vals + NotPushed(s) + if a.StoreValue? then [a.value] else []
  {
    hide Refines, Safe, Matches;
    BackAllocated(N, s, g);
    BackAllocated(N, Apply(N, s, a), g');
    AbstractWrites(s, a, g.p, g'.p);
    if a.StoreValue? {
      StoredIsNotPushed(N, s, a);
    } else if a.Push? {
      assert NotPushed(Apply(N, s, a)) == [];
    } else {
      BackStays(N, s, a);
      BackSlotStays(N, s, a);
    }
  }

  lemma BackStays<T>(N: nat, s: State<T>, a: Action<T>)
    requires Enabled(N, s, a) && Safe(N, s, a) && !a.Push?
    ensures Apply(N, s, a).m.back == s.m.back
  {
  }

  lemma {:induction false} RunHolds<T>(N: nat, s: State<T>, g: Ghost<T>, run: seq<Action<T>>)
    returns (g': Ghost<T>, abstractRun: seq<P.Action<T>>)
    requires Refines(N, s, g) && Runnable(N, s, run)
    ensures Refines(N, Exec(N, s, run), g')
    ensures P.Runnable(g.p, abstractRun) && P.Exec(g.p, abstractRun) == g'.p
    ensures g'.p.vals + NotPushed(Exec(N, s, run)) == g.p.vals + NotPushed(s) + Given(run)
    decreases |run|
  {
    hide Refines, Safe, Enabled, NotPushed;
    g', abstractRun := g, [];
    P.Regroup(g.p.vals, NotPushed(s), []);
    if run == [] {
      assert g.p.vals + NotPushed(s) + [] == g.p.vals + NotPushed(s);
    } else {
      var a := run[0];
      var mid := StepRefines(N, s, g, a);
      ValueMoves(N, s, g, a, mid);
      g', abstractRun := RunHolds(N, Apply(N, s, a), mid, run[1..]);
      P.Regroup(g.p.vals + NotPushed(s), if a.StoreValue? then [a.value] else [], Given(run[1..]));
      if AbstractStep(s, a).Some? {
        abstractRun := [AbstractStep(s, a).value] + abstractRun;
      }
    }
  }

  lemma TakenWritten<T>(p: P.State<T>)
    requires P.Inv(p)
    ensures p.taken <= p.vals
  {
  }

  /**
   What the memory pipe hands out in any interleaving, the abstract pipe hands out in one of its interleavings; and
   that is a beginning of the values given to `write`, in order.
   */
  lemma MemoryRefinesPipe<T>(N: nat, a: nat, b: nat, junk: seq<T>, run: seq<Action<T>>)
    returns (abstractRun: seq<P.Action<T>>)
    requires N > 0 && |junk| == N && a != b && Runnable(N, Init(N, a, b, junk), run)
    ensures P.Runnable(P.Init<T>(), abstractRun)
    ensures var s, p := Exec(N, Init(N, a, b, junk), run), P.Exec(P.Init<T>(), abstractRun);
      s.taken == p.taken && p.wpc == WriterView(s.wpc) && p.rpc == ReaderView(s.rpc) && (s.c.None? <==> p.c.None?)
    ensures var s := Exec(N, Init(N, a, b, junk), run);
      P.Written(abstractRun) + NotPushed(s) == Given(run) && s.taken <= Given(run)
  {
    var g := InitRefines(N, a, b, junk);
    var g', r := RunHolds(N, Init(N, a, b, junk), g, run);
    abstractRun := r;
    hide Refines, P.Inv, P.WholeItems;
    var s := Exec(N, Init(N, a, b, junk), run);
    Views(N, s, g');
    TestsAgree(N, s, g');
    P.HoldsWhatWasWritten(r);
    assert g.p.vals + NotPushed(Init(N, a, b, junk)) + Given(run) == Given(run);
    TakenWritten(g'.p);
  }

  // What a step makes a call of the memory pipe return.
  function Returns<T>(s: State<T>, a: Action<T>): P.Outcome {
    match a
    case FlushTest => if s.w == s.f then P.Flushed(true) else P.Going
    case FlushCas => if s.c == Some(s.w) then P.Flushed(true) else P.Going
    case FlushStore => P.Flushed(false)
    case ReadTest(_) => if s.r.Some? && s.r != Some(s.m.begin) then P.Checked(true) else P.Going
    case ReadCas => P.Checked(s.c.Some? && s.c != Some(s.m.begin))
    case _ => P.Going
  }

  /** The flags that `flush` and `check_read` compute by comparing addresses are the abstract ones. */
  lemma FlagsAgree<T>(N: nat, s: State<T>, g: Ghost<T>, a: Action<T>)
    requires Refines(N, s, g) && Enabled(N, s, a)
    ensures match AbstractStep(s, a) case None => Returns(s, a) == P.Going case Some(b) => P.Enabled(g.p, b) && Returns(s, a) == P.Returns(g.p, b)
  {
    hide Refines;
    Views(N, s, g);
    BackAllocated(N, s, g);
    LiveSlotsDistinct(N, s, g);
    TestsAgree(N, s, g);
  }
}
