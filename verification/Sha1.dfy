/** SHA-1: the standard's definition (sections 4.1.1, 5.1.1 and 6.1.2 of FIPS 180-4), and the streaming class. */
module Sha1 {
  type Word = bv32
  type Byte = bv8

  // --- The standard ---

  datatype Vars = Vars(a: Word, b: Word, c: Word, d: Word, e: Word)

  const H0 := Vars(0x67452301, 0xefcdab89, 0x98badcfe, 0x10325476, 0xc3d2e1f0)

  function Ch(x: Word, y: Word, z: Word): Word { (x & y) ^ (!x & z) }
  function Maj(x: Word, y: Word, z: Word): Word { (x & y) ^ (x & z) ^ (y & z) }
  function Parity(x: Word, y: Word, z: Word): Word { x ^ y ^ z }
  function Xor4(x: Word, y: Word, z: Word, w: Word): Word { x ^ y ^ z ^ w }
  function Add(x: Word, y: Word): Word { x + y }
  function Sum5(r: Word, f: Word, e: Word, k: Word, w: Word): Word { r + f + e + k + w }
  function Rotl(n: nat, x: Word): Word
    requires n < 32
  {
    x.RotateLeft(n)
  }

  function F(t: nat, x: Word, y: Word, z: Word): Word {
    if t < 20 then Ch(x, y, z) else if 40 <= t < 60 then Maj(x, y, z) else Parity(x, y, z)
  }

  function K(t: nat): Word {
    if t < 20 then 0x5a827999 else if t < 40 then 0x6ed9eba1 else if t < 60 then 0x8f1bbcdc else 0xca62c1d6
  }

  predicate IsBlock(block: seq<Byte>) { |block| == 64 }

  function BlockWord(block: seq<Byte>, t: nat): Word
    requires IsBlock(block) && t < 16
  {
    ((block[4 * t] as Word) << 24) | ((block[4 * t + 1] as Word) << 16)
    | ((block[4 * t + 2] as Word) << 8) | (block[4 * t + 3] as Word)
  }

  function Schedule(block: seq<Byte>, t: nat): Word
    requires IsBlock(block)
  {
    if t < 16 then BlockWord(block, t)
    else Rotl(1, Xor4(Schedule(block, t - 3), Schedule(block, t - 8), Schedule(block, t - 14), Schedule(block, t - 16)))
  }

  function Round(v: Vars, t: nat, w: Word): Vars {
    Vars(Sum5(Rotl(5, v.a), F(t, v.b, v.c, v.d), v.e, K(t), w), v.a, Rotl(30, v.b), v.c, v.d)
  }

  function Rounds(v: Vars, block: seq<Byte>, t: nat): Vars
    requires IsBlock(block)
  {
    if t == 0 then v else Round(Rounds(v, block, t - 1), t - 1, Schedule(block, t - 1))
  }

  function Plus(h: Vars, v: Vars): Vars {
    Vars(Add(h.a, v.a), Add(h.b, v.b), Add(h.c, v.c), Add(h.d, v.d), Add(h.e, v.e))
  }

  function Compress(h: Vars, block: seq<Byte>): Vars
    requires IsBlock(block)
  {
    Plus(h, Rounds(h, block, 80))
  }

  function Fold(h: Vars, data: seq<Byte>): Vars
    requires |data| % 64 == 0
    decreases |data|
  {
    if data == [] then h else Fold(Compress(h, data[..64]), data[64..])
  }

  function Zeros(n: nat): (r: seq<Byte>)
    ensures |r| == n
  {
    seq(n, _ => 0)
  }

  // A number of 32 bits as four bytes, the most significant first.
  function Bytes4(n: nat): (r: seq<Byte>)
    requires n < 0x1_0000_0000
    ensures |r| == 4
  {
    [(n / 0x100_0000) as Byte, (n / 0x1_0000 % 256) as Byte, (n / 0x100 % 256) as Byte, (n % 256) as Byte]
  }

  const MAX_BITS: nat := 0x1_0000_0000_0000_0000

  function Bytes8(n: nat): (r: seq<Byte>)
    requires n < MAX_BITS
    ensures |r| == 8
  {
    Bytes4(n / 0x1_0000_0000) + Bytes4(n % 0x1_0000_0000)
  }

  // The least number of zeros after the 0x80 that leaves room for the length at the end of a block.
  function ZeroCount(n: nat): nat { (55 - n) % 64 }

  lemma PadSize(n: nat)
    ensures (n + 1 + ZeroCount(n) + 8) % 64 == 0
  {
    var q := (55 - n) / 64;
    assert 55 - n == 64 * q + ZeroCount(n);
    Multiple(1 - q, n + 1 + ZeroCount(n) + 8);
  }

  lemma Multiple(k: int, n: int)
    requires n == 64 * k
    ensures n % 64 == 0
  {
  }

  function Pad(m: seq<Byte>): (r: seq<Byte>)
    requires 8 * |m| < MAX_BITS
    ensures |r| % 64 == 0
  {
    PadSize(|m|);
    m + [0x80] + Zeros(ZeroCount(|m|)) + Bytes8(8 * |m|)
  }

  function Digest(m: seq<Byte>): Vars
    requires 8 * |m| < MAX_BITS
  {
    Fold(H0, Pad(m))
  }

  lemma {:induction false} FoldJoins(h: Vars, x: seq<Byte>, y: seq<Byte>)
    requires |x| % 64 == 0 && |y| % 64 == 0
    ensures Fold(h, x + y) == Fold(Fold(h, x), y)
    decreases |x|
  {
    hide Compress;
    if x == [] {
      assert x + y == y;
    } else {
      assert (x + y)[..64] == x[..64] && (x + y)[64..] == x[64..] + y;
      FoldJoins(Compress(h, x[..64]), x[64..], y);
    }
  }

  lemma FoldOne(h: Vars, block: seq<Byte>)
    requires IsBlock(block)
    ensures Fold(h, block) == Compress(h, block)
  {
    hide Compress;
    assert block[..64] == block && block[64..] == [];
  }

  // --- The program's forms of the functions ---

  function CircularShift(bits: bv6, word: Word): Word
    requires 0 < bits < 32
  {
    (word << bits) | (word >> (32 - bits))
  }

  lemma ShiftIsRotation(w: Word)
    ensures CircularShift(1, w) == Rotl(1, w)
    ensures CircularShift(5, w) == Rotl(5, w)
    ensures CircularShift(30, w) == Rotl(30, w)
  {
  }

  function Choose(x: Word, y: Word, z: Word): Word { (x & y) | (!x & z) }
  function Majority(x: Word, y: Word, z: Word): Word { (x & y) | (x & z) | (y & z) }

  lemma ChooseBits(x: Word, y: Word, z: Word)
    ensures (x & y) | (!x & z) == (x & y) ^ (!x & z)
  {
  }

  lemma MajorityBits(x: Word, y: Word, z: Word)
    ensures (x & y) | (x & z) | (y & z) == (x & y) ^ (x & z) ^ (y & z)
  {
  }

  lemma ChooseIsCh(x: Word, y: Word, z: Word)
    ensures Choose(x, y, z) == Ch(x, y, z)
  {
    ChooseBits(x, y, z);
  }

  lemma MajorityIsMaj(x: Word, y: Word, z: Word)
    ensures Majority(x, y, z) == Maj(x, y, z)
  {
    MajorityBits(x, y, z);
  }

  // What the program adds for a round: the word before the constant.
  function RoundSum(r: Word, f: Word, e: Word, w: Word, k: Word): Word { r + f + e + w + k }

  lemma SameSum(r: Word, f: Word, e: Word, w: Word, k: Word)
    ensures RoundSum(r, f, e, w, k) == Sum5(r, f, e, k, w)
  {
  }

  lemma RoundSumIs(v: Vars, t: nat, w: Word)
    ensures RoundSum(CircularShift(5, v.a), F(t, v.b, v.c, v.d), v.e, w, K(t)) == Round(v, t, w).a
  {
    hide RoundSum, Sum5, CircularShift, F, K, Rotl;
    ShiftIsRotation(v.a);
    SameSum(Rotl(5, v.a), F(t, v.b, v.c, v.d), v.e, w, K(t));
  }

  lemma ScheduleStarts(block: seq<Byte>, t: nat)
    requires IsBlock(block) && t < 16
    ensures Schedule(block, t) == BlockWord(block, t)
  {
    hide BlockWord;
  }

  lemma ScheduleGoesOn(block: seq<Byte>, t: nat)
    requires IsBlock(block) && t >= 16
    ensures Schedule(block, t)
      == CircularShift(1, Xor4(Schedule(block, t - 3), Schedule(block, t - 8), Schedule(block, t - 14), Schedule(block, t - 16)))
  {
    hide CircularShift, Rotl, Xor4, BlockWord;
    ShiftIsRotation(Xor4(Schedule(block, t - 3), Schedule(block, t - 8), Schedule(block, t - 14), Schedule(block, t - 16)));
  }

  // --- What a run of calls amounts to ---

  datatype Phase = Open(fed: seq<Byte>) | Computed(digest: Vars) | Corrupted

  function Fed(p: Phase, data: seq<Byte>): Phase {
    if data == [] then p
    else if !p.Open? then Corrupted
    else if 8 * (|p.fed| + |data|) >= MAX_BITS then Corrupted
    else Open(p.fed + data)
  }

  function AllFed(p: Phase, parts: seq<seq<Byte>>): Phase
    decreases |parts|
  {
    if parts == [] then p else AllFed(Fed(p, parts[0]), parts[1..])
  }

  predicate PhaseOk(p: Phase) { p.Open? ==> 8 * |p.fed| < MAX_BITS }

  function Asked(p: Phase): Phase
    requires PhaseOk(p)
  {
    if p.Open? then Computed(Digest(p.fed)) else p
  }

  function Joined(parts: seq<seq<Byte>>): seq<Byte> {
    if parts == [] then [] else parts[0] + Joined(parts[1..])
  }

  lemma {:induction false} CorruptedForGood(parts: seq<seq<Byte>>)
    ensures AllFed(Corrupted, parts) == Corrupted
    decreases |parts|
  {
    if parts != [] { CorruptedForGood(parts[1..]); }
  }

  lemma {:induction false} InputsAreOne(fed: seq<Byte>, parts: seq<seq<Byte>>)
    requires 8 * |fed| < MAX_BITS
    ensures AllFed(Open(fed), parts) == Fed(Open(fed), Joined(parts))
    decreases |parts|
  {
    if parts != [] {
      var p := Fed(Open(fed), parts[0]);
      if p.Open? {
        assert parts[0] == [] ==> fed + parts[0] == fed;
        InputsAreOne(p.fed, parts[1..]);
        assert p.fed + Joined(parts[1..]) == fed + Joined(parts);
        assert Joined(parts) == [] ==> fed + [] == fed;
      } else {
        CorruptedForGood(parts[1..]);
      }
    }
  }

  /** However a message is split into inputs, the result is its digest, exactly if its length in bits is below 2^64. */
  lemma AnySplitGivesTheDigest(parts: seq<seq<Byte>>)
    ensures var p := AllFed(Open([]), parts);
      if 8 * |Joined(parts)| < MAX_BITS then PhaseOk(p) && Asked(p) == Computed(Digest(Joined(parts))) else p == Corrupted
  {
    hide Digest, Fold;
    InputsAreOne([], parts);
    assert [] + Joined(parts) == Joined(parts);
  }

  /** After the result was asked for, any more input spoils the object for good. */
  lemma InputAfterResultCorrupts(p: Phase, data: seq<Byte>, parts: seq<seq<Byte>>)
    requires PhaseOk(p) && data != []
    ensures AllFed(Fed(Asked(p), data), parts) == Corrupted
  {
    CorruptedForGood(parts);
  }

  // The full blocks are folded in, and the rest is in the block buffer.
  ghost predicate AbsorbingIs(fed: seq<Byte>, index: nat, rest: seq<Byte>, sum: Vars) {
    && index <= |fed| && (|fed| - index) % 64 == 0
    && fed[|fed| - index..] == rest && sum == Fold(H0, fed[..|fed| - index])
  }

  // Two counters of 32 bits hold the length in bits.
  predicate Counts(high: nat, low: nat, bytes: nat) {
    low < 0x1_0000_0000 && high < 0x1_0000_0000 && high * 0x1_0000_0000 + low == 8 * bytes
  }

  lemma NothingAbsorbed()
    ensures AbsorbingIs([], 0, [], H0) && Counts(0, 0, 0)
  {
  }

  // --- The class ---

  class Hasher {
    const h: array<Word>
    const messageBlock: array<Byte>
    var lengthLow: nat
    var lengthHigh: nat
    var index: nat
    var computed: bool
    var corrupted: bool
    // what was put in, as long as nothing went wrong
    ghost var fed: seq<Byte>

    constructor ()
      ensures Valid() && Now() == Open([]) && fresh(h) && fresh(messageBlock)
    {
      h := new Word[5];
      messageBlock := new Byte[64];
      new;
      Reset();
    }

    method Reset()
      requires h.Length == 5 && messageBlock.Length == 64
      modifies this, h
      ensures Valid() && Now() == Open([])
    {
      hide Fold, AbsorbingIs, Counts;
      lengthLow := 0;
      lengthHigh := 0;
      index := 0;
      h[0] := 0x67452301;
      h[1] := 0xefcdab89;
      h[2] := 0x98badcfe;
      h[3] := 0x10325476;
      h[4] := 0xc3d2e1f0;
      computed := false;
      corrupted := false;
      fed := [];
      NothingAbsorbed();
      assert Sum() == H0 && messageBlock[..0] == [];
    }

    ghost predicate Valid()
      reads this, h, messageBlock
    {
      && h.Length == 5 && messageBlock.Length == 64
      && (!computed && !corrupted ==> Absorbing())
    }

    function Sum(): Vars
      reads h
      requires h.Length == 5
    {
      Vars(h[0], h[1], h[2], h[3], h[4])
    }

    ghost predicate Absorbing()
      reads this, h, messageBlock
      requires h.Length == 5 && messageBlock.Length == 64
    {
      index < 64 && AbsorbingIs(fed, index, messageBlock[..index], Sum()) && LengthOk()
    }

    ghost function Folded(): seq<Byte>
      reads this
      requires index <= |fed|
    {
      fed[..|fed| - index]
    }

    ghost function Rest(): seq<Byte>
      reads this
      requires index <= |fed|
    {
      fed[|fed| - index..]
    }

    ghost predicate LengthOk()
      reads this
    {
      Counts(lengthHigh, lengthLow, |fed|)
    }

    ghost function Now(): Phase
      reads this, h, messageBlock
      requires Valid()
    {
      if corrupted then Corrupted else if computed then Computed(Sum()) else Open(fed)
    }

    method ProcessMessageBlock()
      requires h.Length == 5 && messageBlock.Length == 64
      modifies h, this`index
      ensures Sum() == Compress(old(Sum()), messageBlock[..]) && index == 0
    {
      hide Rounds, Schedule, Add;
      ghost var block, h0 := messageBlock[..], Sum();
      var w := ExpandWords();
      var a, b, c, d, e := h[0], h[1], h[2], h[3], h[4];
      assert Vars(a, b, c, d, e) == Rounds(h0, block, 0) by { NoRounds(h0, block); }
      a, b, c, d, e := TwentyRounds(w, 0, a, b, c, d, e, block, h0);
      a, b, c, d, e := TwentyRounds(w, 20, a, b, c, d, e, block, h0);
      a, b, c, d, e := TwentyRounds(w, 40, a, b, c, d, e, block, h0);
      a, b, c, d, e := TwentyRounds(w, 60, a, b, c, d, e, block, h0);
      h[0] := Add(h[0], a);
      h[1] := Add(h[1], b);
      h[2] := Add(h[2], c);
      h[3] := Add(h[3], d);
      h[4] := Add(h[4], e);
      index := 0;
    }

    method ExpandWords() returns (w: array<Word>)
      requires messageBlock.Length == 64
      ensures fresh(w) && w.Length == 80
      ensures forall t :: 0 <= t < 80 ==> w[t] == Schedule(messageBlock[..], t)
    {
      hide Schedule, BlockWord, CircularShift, Xor4;
      ghost var block := messageBlock[..];
      w := new Word[80];
      for t := 0 to 16
        invariant forall i :: 0 <= i < t ==> w[i] == Schedule(block, i)
      {
        ScheduleStarts(block, t);
        w[t] := JoinBytes(messageBlock, t);
      }
      for t := 16 to 80
        invariant forall i :: 0 <= i < t ==> w[i] == Schedule(block, i)
      {
        ScheduleGoesOn(block, t);
        w[t] := CircularShift(1, Xor4(w[t - 3], w[t - 8], w[t - 14], w[t - 16]));
      }
    }

    // One turn of the loop of input.
    method Absorb(b: Byte)
      requires Valid() && !computed && !corrupted
      modifies this, h, messageBlock
      ensures Valid() && !computed && Now() == Fed(Open(old(fed)), [b])
    {
      hide Compress, Fold;
      ghost var folded, rest, sum := Folded(), Rest(), Sum();
      AbsorbedLength(fed, index);
      messageBlock[index] := b;
      index := index + 1;
      fed := fed + [b];
      assert messageBlock[..index] == rest + [b];
      assert fed == folded + (rest + [b]);
      CountBits();
      if index == 64 {
        assert messageBlock[..] == rest + [b];
        FoldJoins(H0, folded, rest + [b]);
        FoldOne(sum, rest + [b]);
        ProcessMessageBlock();
        assert fed[..|fed|] == fed;
      }
    }

    method CountBits()
      requires lengthLow < 0x1_0000_0000 && lengthHigh < 0x1_0000_0000 && !corrupted
      requires lengthHigh * 0x1_0000_0000 + lengthLow + 8 == 8 * |fed|
      modifies this`lengthLow, this`lengthHigh, this`corrupted
      ensures corrupted <==> 8 * |fed| >= MAX_BITS
      ensures !corrupted ==> LengthOk()
    {
      assert lengthLow % 8 == 0;
      lengthLow := (lengthLow + 8) % 0x1_0000_0000;
      if lengthLow == 0 {
        lengthHigh := (lengthHigh + 1) % 0x1_0000_0000;
        if lengthHigh == 0 {
          corrupted := true;
        }
      }
    }

    /** input: more bytes of the message; after a result, or when the length no longer fits, the object is spoiled. */
    method Input(data: seq<Byte>)
      requires Valid()
      modifies this, h, messageBlock
      ensures Valid() && Now() == Fed(old(Now()), data)
    {
      hide Fold, Absorbing, Folded, Rest;
      if data == [] { return; }
      if computed || corrupted {
        corrupted := true;
        return;
      }
      ghost var fed0 := fed;
      OpenLength();
      var i := 0;
      while i < |data| && !corrupted
        invariant 0 <= i <= |data| && Valid() && !computed
        invariant i > 0 ==> Now() == Fed(Open(fed0), data[..i])
        invariant i == 0 ==> fed == fed0 && !corrupted && 8 * |fed| < MAX_BITS
      {
        Absorb(data[i]);
        InputSnoc(fed0, data, i);
        i := i + 1;
      }
      InputPrefix(fed0, data, i);
      assert data[..|data|] == data;
    }

    // The length counter is below 2^64.
    lemma OpenLength()
      requires Valid() && !computed && !corrupted
      ensures 8 * |fed| < MAX_BITS
    {
    }

    method FillZeros(upTo: nat)
      requires messageBlock.Length == 64 && index <= upTo <= 64
      modifies this`index, messageBlock
      ensures index == upTo && messageBlock[..upTo] == old(messageBlock[..index]) + Zeros(upTo - old(index))
    {
      ghost var front, from := messageBlock[..index], index;
      while index < upTo
        invariant from <= index <= upTo && messageBlock[..index] == front + Zeros(index - from)
      {
        messageBlock[index] := 0;
        index := index + 1;
        assert Zeros(index - from) == Zeros(index - 1 - from) + [0];
        assert messageBlock[..index] == messageBlock[..index - 1] + [0];
      }
    }

    method PutLength()
      requires messageBlock.Length == 64 && lengthLow < 0x1_0000_0000 && lengthHigh < 0x1_0000_0000
      modifies messageBlock
      ensures messageBlock[..56] == old(messageBlock[..56])
      ensures messageBlock[56..] == Bytes4(lengthHigh) + Bytes4(lengthLow)
    {
      hide Bytes4;
      PutWord(messageBlock, 56, lengthHigh);
      ghost var first := messageBlock[..60];
      assert first[56..] == Bytes4(lengthHigh);
      assert messageBlock[..56] == first[..56];
      PutWord(messageBlock, 60, lengthLow);
      assert messageBlock[56..] == first[56..] + messageBlock[60..64];
      assert messageBlock[..56] == first[..56];
    }

    method PadMessage()
      requires Valid() && !computed && !corrupted && 8 * |fed| < MAX_BITS
      modifies h, messageBlock, this`index
      ensures Sum() == Digest(fed)
    {
      hide Compress, Fold, Bytes4, Digest;
      ghost var rest, sum, bits := Rest(), Sum(), Bytes8(8 * |fed|);
      DigestFrom(fed, index, sum);
      var longRest := index > 55;
      PutBit();
      if longRest {
        FinishInTwo(rest);
        TwoBlocks(sum, rest, bits);
      } else {
        FinishInOne(rest);
        OneBlock(sum, rest, bits);
      }
    }

    // The length does not fit behind the rest of the message.
    method FinishInTwo(ghost rest: seq<Byte>)
      requires h.Length == 5 && messageBlock.Length == 64 && LengthOk() && 8 * |fed| < MAX_BITS
      requires 56 < index <= 64 && |rest| == index - 1 && messageBlock[..index] == rest + [0x80]
      modifies h, messageBlock, this`index
      ensures Sum() == Compress(Compress(old(Sum()), rest + [0x80] + Zeros(63 - |rest|)), Zeros(56) + Bytes8(8 * |fed|))
    {
      hide Compress, Bytes4;
      ghost var first := rest + [0x80] + Zeros(63 - |rest|);
      FillZeros(64);
      assert messageBlock[..] == messageBlock[..64] == first;
      ProcessMessageBlock();
      assert messageBlock[..0] == [];
      FillZeros(56);
      assert messageBlock[..56] == Zeros(56);
      PutLength();
      assert messageBlock[..] == messageBlock[..56] + messageBlock[56..];
      ProcessMessageBlock();
    }

    method FinishInOne(ghost rest: seq<Byte>)
      requires h.Length == 5 && messageBlock.Length == 64 && LengthOk() && 8 * |fed| < MAX_BITS
      requires 0 < index <= 56 && |rest| == index - 1 && messageBlock[..index] == rest + [0x80]
      modifies h, messageBlock, this`index
      ensures Sum() == Compress(old(Sum()), rest + [0x80] + Zeros(55 - |rest|) + Bytes8(8 * |fed|))
    {
      hide Compress, Bytes4;
      FillZeros(56);
      PutLength();
      assert messageBlock[..] == messageBlock[..56] + messageBlock[56..];
      ProcessMessageBlock();
    }

    // The byte 0x80 after the message.
    method PutBit()
      requires messageBlock.Length == 64 && index < 64
      modifies messageBlock, this`index
      ensures index == old(index) + 1 && messageBlock[..index] == old(messageBlock[..index]) + [0x80]
    {
      messageBlock[index] := 0x80;
      index := index + 1;
    }

    /** result: the digest of all that was put in, and the same again when asked again. */
    method Result() returns (ok: bool, digest: seq<Word>)
      requires Valid()
      modifies this, h, messageBlock
      ensures Valid() && PhaseOk(old(Now())) && Now() == Asked(old(Now()))
      ensures ok <==> Now().Computed?
      ensures ok ==> |digest| == 5 && Vars(digest[0], digest[1], digest[2], digest[3], digest[4]) == Now().digest
    {
      hide Fold, Digest;
      digest := [];
      if corrupted { return false, []; }
      if !computed {
        OpenLength();
        PadMessage();
        computed := true;
      }
      for i := 0 to 5
        invariant |digest| == i && forall j :: 0 <= j < i ==> digest[j] == h[j]
      {
        digest := digest + [h[i]];
      }
      ok := true;
    }
  }

  method PutWord(a: array<Byte>, at: nat, n: nat)
    requires at + 4 <= a.Length && n < 0x1_0000_0000
    modifies a
    ensures a[..at] == old(a[..at]) && a[at..at + 4] == Bytes4(n)
  {
    a[at] := (n / 0x100_0000) as Byte;
    a[at + 1] := (n / 0x1_0000 % 256) as Byte;
    a[at + 2] := (n / 0x100 % 256) as Byte;
    a[at + 3] := (n % 256) as Byte;
  }

  lemma AbsorbedLength(fed: seq<Byte>, index: nat)
    requires index < 64 && index <= |fed| && (|fed| - index) % 64 == 0
    ensures index == 63 ==> (|fed| + 1) % 64 == 0
    ensures fed == fed[..|fed| - index] + fed[|fed| - index..]
  {
  }

  lemma InputSnoc(fed: seq<Byte>, data: seq<Byte>, i: nat)
    requires i < |data| && 8 * |fed| < MAX_BITS
    requires i > 0 ==> Fed(Open(fed), data[..i]).Open?
    ensures Fed(if i > 0 then Fed(Open(fed), data[..i]) else Open(fed), [data[i]]) == Fed(Open(fed), data[..i + 1])
  {
    assert data[..i + 1] == data[..i] + [data[i]];
    assert fed + data[..i] + [data[i]] == fed + data[..i + 1];
    if i == 0 { assert fed + [] == fed; }
  }

  lemma InputPrefix(fed: seq<Byte>, data: seq<Byte>, i: nat)
    requires 0 < i <= |data|
    ensures Fed(Open(fed), data[..i]).Corrupted? ==> Fed(Open(fed), data) == Corrupted
  {
  }

  // The digest from the point where the full blocks are folded in.
  lemma DigestFrom(fed: seq<Byte>, index: nat, sum: Vars)
    requires index < 64 && index <= |fed| && (|fed| - index) % 64 == 0 && 8 * |fed| < MAX_BITS
    requires sum == Fold(H0, fed[..|fed| - index])
    ensures ZeroCount(|fed|) == if index > 55 then 119 - index else 55 - index
    ensures var last := fed[|fed| - index..] + [0x80] + Zeros(ZeroCount(|fed|)) + Bytes8(8 * |fed|);
      |last| % 64 == 0 && Digest(fed) == Fold(sum, last)
  {
    hide Fold, ZeroCount, Bytes8;
    ZeroCountIs(|fed|, index);
    var folded, rest := fed[..|fed| - index], fed[|fed| - index..];
    var last := rest + [0x80] + Zeros(ZeroCount(|fed|)) + Bytes8(8 * |fed|);
    assert fed == folded + rest;
    assert Pad(fed) == folded + last;
    FoldJoins(H0, folded, last);
  }

  lemma ZeroCountIs(n: nat, index: nat)
    requires index < 64 && index <= n && (n - index) % 64 == 0
    ensures ZeroCount(n) == if index > 55 then 119 - index else 55 - index
  {
    var q := (n - index) / 64;
    assert n == 64 * q + index;
    assert 55 - n == 64 * (-q) + (55 - index);
  }

  lemma OneBlock(sum: Vars, rest: seq<Byte>, bits: seq<Byte>)
    requires |rest| <= 55 && |bits| == 8
    ensures Fold(sum, rest + [0x80] + Zeros(55 - |rest|) + bits)
         == Compress(sum, rest + [0x80] + Zeros(55 - |rest|) + bits)
  {
    FoldOne(sum, rest + [0x80] + Zeros(55 - |rest|) + bits);
  }

  lemma TwoBlocks(sum: Vars, rest: seq<Byte>, bits: seq<Byte>)
    requires 55 < |rest| < 64 && |bits| == 8
    ensures Fold(sum, rest + [0x80] + Zeros(119 - |rest|) + bits)
         == Compress(Compress(sum, rest + [0x80] + Zeros(63 - |rest|)), Zeros(56) + bits)
  {
    hide Compress, Fold;
    var x, y := rest + [0x80] + Zeros(63 - |rest|), Zeros(56) + bits;
    assert Zeros(119 - |rest|) == Zeros(63 - |rest|) + Zeros(56);
    assert rest + [0x80] + Zeros(119 - |rest|) + bits == x + y;
    FoldJoins(sum, x, y);
    FoldOne(sum, x);
    FoldOne(Compress(sum, x), y);
  }

  lemma NoRounds(h: Vars, block: seq<Byte>)
    requires IsBlock(block)
    ensures Rounds(h, block, 0) == h
  {
  }

  method JoinBytes(messageBlock: array<Byte>, t: nat) returns (x: Word)
    requires messageBlock.Length == 64 && t < 16
    ensures x == BlockWord(messageBlock[..], t)
  {
    x := (messageBlock[t * 4] as Word) << 24;
    x := x | ((messageBlock[t * 4 + 1] as Word) << 16);
    x := x | ((messageBlock[t * 4 + 2] as Word) << 8);
    x := x | (messageBlock[t * 4 + 3] as Word);
  }

  // One of the four loops over the rounds.
  method TwentyRounds(w: array<Word>, from: nat, a0: Word, b0: Word, c0: Word, d0: Word, e0: Word,
                      ghost block: seq<Byte>, ghost h0: Vars)
    returns (a: Word, b: Word, c: Word, d: Word, e: Word)
    requires IsBlock(block) && w.Length == 80 && from in {0, 20, 40, 60}
    requires forall t :: 0 <= t < 80 ==> w[t] == Schedule(block, t)
    requires Vars(a0, b0, c0, d0, e0) == Rounds(h0, block, from)
    ensures Vars(a, b, c, d, e) == Rounds(h0, block, from + 20)
  {
    hide Schedule, Rounds, Round, CircularShift, RoundSum, F, K;
    a, b, c, d, e := a0, b0, c0, d0, e0;
    for t := from to from + 20
      invariant Vars(a, b, c, d, e) == Rounds(h0, block, t)
    {
      ghost var v := Vars(a, b, c, d, e);
      var mixed := MixRound(from, b, c, d, t);
      RoundSumIs(v, t, w[t]);
      var temp := RoundSum(CircularShift(5, a), mixed, e, w[t], K(from));
      SameConstant(from, t);
      e := d;
      d := c;
      c := CircularShift(30, b);
      b := a;
      a := temp;
      OneRound(v, block, h0, t);
    }
  }

  lemma OneRound(v: Vars, block: seq<Byte>, h0: Vars, t: nat)
    requires IsBlock(block) && v == Rounds(h0, block, t)
    ensures Rounds(h0, block, t + 1)
      == Vars(Round(v, t, Schedule(block, t)).a, v.a, CircularShift(30, v.b), v.c, v.d)
  {
    ShiftIsRotation(v.b);
    hide F, K, CircularShift, Schedule, Sum5, Rotl;
  }

  lemma SameConstant(from: nat, t: nat)
    requires from in {0, 20, 40, 60} && from <= t < from + 20
    ensures K(from) == K(t)
  {
  }

  // The function of three words that the loop starting at `from` has.
  method MixRound(from: nat, b: Word, c: Word, d: Word, ghost t: nat) returns (mixed: Word)
    requires from in {0, 20, 40, 60} && from <= t < from + 20
    ensures mixed == F(t, b, c, d)
  {
    hide Ch, Maj, Choose, Majority, Parity;
    if from == 0 {
      ChooseIsCh(b, c, d);
      mixed := Choose(b, c, d);
    } else if from == 40 {
      MajorityIsMaj(b, c, d);
      mixed := Majority(b, c, d);
    } else {
      mixed := Parity(b, c, d);
    }
  }
}
