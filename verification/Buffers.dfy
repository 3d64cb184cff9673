/** Byte buffers that are written at an offset, or filled from the front. */
module Buffers {
  import opened Bytes

  /** `after` is `before` with bs written at ptr. */
  predicate Wrote(before: seq<byte>, after: seq<byte>, ptr: nat, bs: seq<byte>) {
    ptr + |bs| <= |before| && after == before[..ptr] + bs + before[ptr + |bs|..]
  }

  lemma WroteBoth(before: seq<byte>, mid: seq<byte>, after: seq<byte>, ptr: nat, x: seq<byte>, y: seq<byte>)
    requires Wrote(before, mid, ptr, x) && Wrote(mid, after, ptr + |x|, y)
    ensures Wrote(before, after, ptr, x + y)
  {
    assert mid[..ptr + |x|] == before[..ptr] + x;
    assert mid[ptr + |x| + |y|..] == before[ptr + |x| + |y|..];
    assert after == before[..ptr] + (x + y) + before[ptr + |x + y|..];
  }

  lemma WroteWhole(before: seq<byte>, after: seq<byte>, bs: seq<byte>)
    requires Wrote(before, after, 0, bs) && |bs| == |before|
    ensures after == bs
  {
  }

  lemma WroteByte(before: seq<byte>, i: nat, b: byte)
    requires i < |before|
    ensures Wrote(before, before[i := b], i, [b])
  {
  }

  // What is in front of the offset after everything written so far.
  ghost predicate Filled(data: seq<byte>, offset: nat, bs: seq<byte>) {
    offset == |bs| <= |data| && data[..offset] == bs && forall i :: offset <= i < |data| ==> data[i] == 0
  }

  lemma FillMore(before: seq<byte>, after: seq<byte>, offset: nat, bs: seq<byte>, x: seq<byte>)
    requires Filled(before, offset, bs) && Wrote(before, after, offset, x)
    ensures Filled(after, offset + |x|, bs + x)
  {
  }

  method PutByte(data: array<byte>, offset: nat, b: byte, ghost bs: seq<byte>)
    requires offset < data.Length && Filled(data[..], offset, bs)
    modifies data
    ensures Filled(data[..], offset + 1, bs + [b])
  {
    ghost var before := data[..];
    data[offset] := b;
    assert data[..] == before[offset := b];
    WroteByte(before, offset, b);
    FillMore(before, data[..], offset, bs, [b]);
  }

  method CopyBytes(data: array<byte>, offset: nat, s: seq<byte>, ghost bs: seq<byte>) returns (p: nat)
    requires offset + |s| <= data.Length && Filled(data[..], offset, bs)
    modifies data
    ensures p == offset + |s| && Filled(data[..], p, bs + s)
  {
    ghost var before := data[..];
    forall i | 0 <= i < |s| {
      data[offset + i] := s[i];
    }
    p := offset + |s|;
    assert Wrote(before, data[..], offset, s);
    FillMore(before, data[..], offset, bs, s);
  }

  lemma Cut(data: seq<byte>, offset: nat, bs: seq<byte>)
    requires Filled(data, offset, bs)
    ensures offset <= |data| && data[..offset] == bs
  {
  }

  lemma Fresh(data: seq<byte>)
    requires forall i :: 0 <= i < |data| ==> data[i] == 0
    ensures Filled(data, 0, [])
  {
  }

  // Four bytes, the most significant first.
  method Put32(data: array<byte>, offset: nat, n: nat, ghost bs: seq<byte>)
    requires offset + 4 <= data.Length && Filled(data[..], offset, bs)
    modifies data
    ensures Filled(data[..], offset + 4, bs + BE(n, 4))
  {
    hide Filled, BE;
    PutByte(data, offset, n / 0x100_0000 % 256, bs);
    PutByte(data, offset + 1, n / 0x1_0000 % 256, bs + [n / 0x100_0000 % 256]);
    PutByte(data, offset + 2, n / 0x100 % 256, bs + [n / 0x100_0000 % 256] + [n / 0x1_0000 % 256]);
    PutByte(data, offset + 3, n % 256, bs + [n / 0x100_0000 % 256] + [n / 0x1_0000 % 256] + [n / 0x100 % 256]);
    BE4(n);
    assert bs + [n / 0x100_0000 % 256] + [n / 0x1_0000 % 256] + [n / 0x100 % 256] + [n % 256] == bs + BE(n, 4);
  }

  method Put64(data: array<byte>, offset: nat, n: nat, ghost bs: seq<byte>)
    requires n < 0x1_0000_0000_0000_0000
    requires offset + 8 <= data.Length && Filled(data[..], offset, bs)
    modifies data
    ensures Filled(data[..], offset + 8, bs + BE(n, 8))
  {
    hide Filled, BE;
    Put32(data, offset, n / 0x1_0000_0000, bs);
    Put32(data, offset + 4, n % 0x1_0000_0000, bs + BE(n / 0x1_0000_0000, 4));
    BE8Halves(n);
    assert bs + BE(n / 0x1_0000_0000, 4) + BE(n % 0x1_0000_0000, 4) == bs + BE(n, 8);
  }
}
