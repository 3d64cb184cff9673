/** Bytes and big-endian numbers; shifts and masks of the program are written as division and remainder. */
module Bytes {
  type byte = x: int | 0 <= x < 256

  // 256 to the power k.
  function Pow(k: nat): (r: int)
    ensures r > 0
  {
    if k == 0 then 1 else 256 * Pow(k - 1)
  }

  // The k low bytes of n, the most significant first.
  function BE(n: nat, k: nat): (bs: seq<byte>)
    ensures |bs| == k
  {
    if k == 0 then [] else BE(n / 256, k - 1) + [n % 256]
  }

  function FromBE(bs: seq<byte>): nat {
    if bs == [] then 0 else FromBE(bs[..|bs| - 1]) * 256 + bs[|bs| - 1]
  }

  lemma {:induction false} BERoundTrip(n: nat, k: nat)
    requires n < Pow(k)
    ensures FromBE(BE(n, k)) == n
  {
    if k > 0 {
      assert BE(n, k)[..k - 1] == BE(n / 256, k - 1);
      BERoundTrip(n / 256, k - 1);
    }
  }

  lemma {:induction false} FromBERoundTrip(bs: seq<byte>)
    ensures FromBE(bs) < Pow(|bs|) && BE(FromBE(bs), |bs|) == bs
  {
    if bs != [] {
      FromBERoundTrip(bs[..|bs| - 1]);
      assert bs == bs[..|bs| - 1] + [bs[|bs| - 1]];
    }
  }

  lemma PowValues()
    ensures Pow(1) == 0x100 && Pow(2) == 0x1_0000 && Pow(4) == 0x1_0000_0000 && Pow(8) == 0x1_0000_0000_0000_0000
  {
    assert Pow(4) == 256 * (256 * (256 * (256 * Pow(0))));
    assert Pow(8) == 256 * (256 * (256 * (256 * Pow(4))));
  }

  lemma BE2(n: nat)
    ensures BE(n, 2) == [n / 0x100 % 0x100, n % 0x100]
  {
    assert BE(n / 256, 1) == BE(n / 256 / 256, 0) + [n / 256 % 256] == [n / 256 % 256];
  }

  lemma BE4(n: nat)
    ensures BE(n, 4) == [n / 0x100_0000 % 256, n / 0x1_0000 % 256, n / 0x100 % 256, n % 256]
  {
    var a, b, c := n / 256, n / 256 / 256, n / 256 / 256 / 256;
    assert BE(c, 1) == BE(c / 256, 0) + [c % 256] == [c % 256];
    assert BE(b, 2) == BE(c, 1) + [b % 256] == [c % 256, b % 256];
    assert BE(a, 3) == BE(b, 2) + [a % 256] == [c % 256, b % 256, a % 256];
    assert BE(n, 4) == BE(a, 3) + [n % 256];
    assert b == n / 0x1_0000 && c == n / 0x100_0000;
  }

  lemma BE8(n: nat)
    ensures BE(n, 8) == BE(n / 0x1_0000_0000, 4) + BE(n, 4)
  {
    var h := n / 0x1_0000_0000;
    assert n / 256 / 256 / 256 / 256 == h;
    var a, b, c := n / 256, n / 256 / 256, n / 256 / 256 / 256;
    assert BE(n, 8) == BE(a, 7) + [n % 256];
    assert BE(a, 7) == BE(b, 6) + [a % 256];
    assert BE(b, 6) == BE(c, 5) + [b % 256];
    assert BE(c, 5) == BE(h, 4) + [c % 256];
    assert BE(n, 4) == BE(a, 3) + [n % 256];
    assert BE(a, 3) == BE(b, 2) + [a % 256];
    assert BE(b, 2) == BE(c, 1) + [b % 256];
    assert BE(c, 1) == BE(h, 0) + [c % 256] == [c % 256];
  }

  lemma Div256(n: int, x: int)
    ensures (n + 256 * x) / 256 == n / 256 + x && (n + 256 * x) % 256 == n % 256
  {
  }

  // The k low bytes do not depend on what is above them.
  lemma {:induction false} BELow(n: nat, m: nat, k: nat)
    requires m * Pow(k) >= 0
    ensures BE(n + m * Pow(k), k) == BE(n, k)
  {
    if k > 0 {
      var x := m * Pow(k - 1);
      assert m * Pow(k) == 256 * x;
      hide Pow;
      Div256(n, x);
      BELow(n / 256, m, k - 1);
    }
  }

  lemma BE8Halves(n: nat)
    requires n < 0x1_0000_0000_0000_0000
    ensures n / 0x1_0000_0000 < 0x1_0000_0000
    ensures BE(n, 8) == BE(n / 0x1_0000_0000, 4) + BE(n % 0x1_0000_0000, 4)
  {
    hide BE, Pow;
    BE8(n);
    PowValues();
    BELow(n % 0x1_0000_0000, n / 0x1_0000_0000, 4);
  }

  lemma FromBE4(bs: seq<byte>)
    requires |bs| == 4
    ensures FromBE(bs) == bs[0] as int * 0x100_0000 + bs[1] as int * 0x1_0000 + bs[2] as int * 0x100 + bs[3]
  {
    assert bs[..3][..2] == bs[..2] && bs[..2][..1] == bs[..1] && bs[..1][..0] == [];
    assert FromBE(bs[..1]) == bs[0];
    assert FromBE(bs[..2]) == FromBE(bs[..1]) * 256 + bs[1];
    assert FromBE(bs[..3]) == FromBE(bs[..2]) * 256 + bs[2];
  }

  lemma FromBE8(bs: seq<byte>)
    requires |bs| == 8
    ensures FromBE(bs) == FromBE(bs[..4]) * 0x1_0000_0000 + FromBE(bs[4..])
  {
    FromBE4(bs[4..]);
    assert bs[..7][..6] == bs[..6] && bs[..6][..5] == bs[..5] && bs[..5][..4] == bs[..4];
    assert FromBE(bs[..5]) == FromBE(bs[..4]) * 256 + bs[4];
    assert FromBE(bs[..6]) == FromBE(bs[..5]) * 256 + bs[5];
    assert FromBE(bs[..7]) == FromBE(bs[..6]) * 256 + bs[6];
  }

  // --- Two's complement ---

  function ToUnsigned(i: int, k: nat): (n: nat)
    requires -Pow(k) <= i < Pow(k)
    ensures n < Pow(k)
  {
    if i < 0 then i + Pow(k) else i
  }

  function ToSigned(n: nat, k: nat): int {
    if 2 * n < Pow(k) then n else n - Pow(k)
  }

  predicate FitsSigned(i: int, k: nat) { -Pow(k) <= 2 * i < Pow(k) }
}
