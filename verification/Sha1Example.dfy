/** The first example of FIPS 180 for SHA-1, "abc", word by word and round by round. */
module Sha1Example {
  import opened Sha1

  const ABC: seq<Byte> := [0x61, 0x62, 0x63]

  function Block(): (b: seq<Byte>)
    ensures IsBlock(b)
  {
    ABC + [0x80] + Zeros(52) + [0, 0, 0, 0, 0, 0, 0, 24]
  }

  lemma PadIsBlock()
    ensures Pad(ABC) == Block()
  {
  }

  /** The constants are the integer parts of 2^30 times the square roots of 2, 3, 5 and 10. */
  lemma ConstantsAreRoots(t: nat)
    requires t < 80
    ensures var k, n := K(t) as int, if t < 20 then 2 else if t < 40 then 3 else if t < 60 then 5 else 10;
      k * k <= n * 0x1000_0000_0000_0000 < (k + 1) * (k + 1)
  {
  }

  /** On the bits of any mask: where x is set the first function is y, and where it is clear z. */
  lemma ChooseOnBits(t: nat, x: Word, y: Word, z: Word, m: Word)
    requires t < 20
    ensures x & m == m ==> F(t, x, y, z) & m == y & m
    ensures x & m == 0 ==> F(t, x, y, z) & m == z & m
  {
  }

  lemma MajorityAgrees(x: Word, y: Word, z: Word, m: Word)
    requires x & m == y & m
    ensures ((x & y) ^ (x & z) ^ (y & z)) & m == x & m
  {
  }

  /** Where x and y agree the third function is what they are; it does not matter which of the three comes first. */
  lemma MajorityOnBits(t: nat, x: Word, y: Word, z: Word, m: Word)
    requires 40 <= t < 60
    ensures x & m == y & m ==> F(t, x, y, z) & m == x & m
    ensures F(t, x, y, z) == F(t, y, x, z)
  {
    if x & m == y & m { MajorityAgrees(x, y, z, m); }
  }

  /** A message is padded with 0x80, fewer than 64 zeros, and its length in bits as eight bytes, to whole blocks. */
  lemma PadIs(m: seq<Byte>)
    requires 8 * |m| < MAX_BITS
    ensures var p, n := Pad(m), |Pad(m)|;
      && n % 64 == 0 && |m| + 9 <= n < |m| + 73 && p[..|m|] == m && p[|m|] == 0x80
      && (forall i :: |m| < i < n - 8 ==> p[i] == 0)
      && p[n - 8..] == Bytes8(8 * |m|)
  {
    PadSize(|m|);
  }

  /** A length of 64 bits is written high half first, and each half from the high byte down. */
  lemma LengthBytes(high: nat, low: nat)
    requires high < 0x1_0000_0000 && low < 0x1_0000_0000
    ensures Bytes8(high * 0x1_0000_0000 + low) == Bytes4(high) + Bytes4(low)
  {
    hide Bytes4;
    var n := high * 0x1_0000_0000 + low;
    assert n / 0x1_0000_0000 == high && n % 0x1_0000_0000 == low;
  }

  lemma HalfBytes(n: nat)
    requires n < 0x1_0000_0000
    ensures Bytes4(n) == [(n / 0x100_0000) as Byte, (n / 0x1_0000 % 256) as Byte, (n / 0x100 % 256) as Byte, (n % 256) as Byte]
  {
  }

  // The words of the block itself.
  lemma BlockWords(t: nat)
    requires t < 16
    ensures Schedule(Block(), t) == if t == 0 then 0x61626380 else if t == 15 then 24 else 0
  {
    var b := Block();
    assert b[0] == 0x61 && b[1] == 0x62 && b[2] == 0x63 && b[3] == 0x80;
    if 0 < t < 15 { assert b[4 * t] == 0 && b[4 * t + 1] == 0 && b[4 * t + 2] == 0 && b[4 * t + 3] == 0; }
  }


  lemma WordIs(b: seq<Byte>, t: nat, w: Word, x: Word, y: Word, z: Word, r: Word)
    requires IsBlock(b) && t >= 16 && r == Rotl(1, w ^ x ^ y ^ z)
    requires Schedule(b, t - 3) == w && Schedule(b, t - 8) == x && Schedule(b, t - 14) == y && Schedule(b, t - 16) == z
    ensures Schedule(b, t) == r
  {
    hide Rotl, BlockWord;
  }

  lemma RoundIs(block: seq<Byte>, t: nat, w: Word, a: Word, b: Word, c: Word, d: Word, e: Word, sum: Word, turned: Word)
    requires IsBlock(block) && Rounds(H0, block, t) == Vars(a, b, c, d, e) && Schedule(block, t) == w
    requires sum == Sum5(Rotl(5, a), F(t, b, c, d), e, K(t), w) && turned == Rotl(30, b)
    ensures Rounds(H0, block, t + 1) == Vars(sum, a, turned, c, d)
  {
    hide Sum5, Rotl, F, K, Schedule;
  }

  lemma Words0()
    ensures var b := Block();
      Schedule(b, 0) == 0x61626380 && Schedule(b, 1) == 0x00000000 && Schedule(b, 2) == 0x00000000 && Schedule(b, 3) == 0x00000000
  {
    hide Block, Schedule;
    BlockWords(0);
    BlockWords(1);
    BlockWords(2);
    BlockWords(3);
  }

  lemma Words4()
    ensures var b := Block();
      Schedule(b, 4) == 0x00000000 && Schedule(b, 5) == 0x00000000 && Schedule(b, 6) == 0x00000000 && Schedule(b, 7) == 0x00000000
  {
    hide Block, Schedule;
    BlockWords(4);
    BlockWords(5);
    BlockWords(6);
    BlockWords(7);
  }

  lemma Words8()
    ensures var b := Block();
      Schedule(b, 8) == 0x00000000 && Schedule(b, 9) == 0x00000000 && Schedule(b, 10) == 0x00000000 && Schedule(b, 11) == 0x00000000
  {
    hide Block, Schedule;
    BlockWords(8);
    BlockWords(9);
    BlockWords(10);
    BlockWords(11);
  }

  lemma Words12()
    ensures var b := Block();
      Schedule(b, 12) == 0x00000000 && Schedule(b, 13) == 0x00000000 && Schedule(b, 14) == 0x00000000 && Schedule(b, 15) == 0x00000018
  {
    hide Block, Schedule;
    BlockWords(12);
    BlockWords(13);
    BlockWords(14);
    BlockWords(15);
  }

  lemma Words16()
    ensures var b := Block();
      Schedule(b, 16) == 0xc2c4c700 && Schedule(b, 17) == 0x00000000 && Schedule(b, 18) == 0x00000030 && Schedule(b, 19) == 0x85898e01
  {
    hide Block, Schedule;
    var b := Block();
    Words0();
    Words4();
    Words8();
    Words12();
    WordIs(b, 16, 0x00000000, 0x00000000, 0x00000000, 0x61626380, 0xc2c4c700);
    WordIs(b, 17, 0x00000000, 0x00000000, 0x00000000, 0x00000000, 0x00000000);
    WordIs(b, 18, 0x00000018, 0x00000000, 0x00000000, 0x00000000, 0x00000030);
    WordIs(b, 19, 0xc2c4c700, 0x00000000, 0x00000000, 0x00000000, 0x85898e01);
  }

  lemma Words20()
    ensures var b := Block();
      Schedule(b, 20) == 0x00000000 && Schedule(b, 21) == 0x00000060 && Schedule(b, 22) == 0x0b131c03 && Schedule(b, 23) == 0x00000030
  {
    hide Block, Schedule;
    var b := Block();
    Words4();
    Words8();
    Words12();
    Words16();
    WordIs(b, 20, 0x00000000, 0x00000000, 0x00000000, 0x00000000, 0x00000000);
    WordIs(b, 21, 0x00000030, 0x00000000, 0x00000000, 0x00000000, 0x00000060);
    WordIs(b, 22, 0x85898e01, 0x00000000, 0x00000000, 0x00000000, 0x0b131c03);
    WordIs(b, 23, 0x00000000, 0x00000018, 0x00000000, 0x00000000, 0x00000030);
  }

  lemma Words24()
    ensures var b := Block();
      Schedule(b, 24) == 0x85898ec1 && Schedule(b, 25) == 0x16263806 && Schedule(b, 26) == 0x00000000 && Schedule(b, 27) == 0x00000180
  {
    hide Block, Schedule;
    var b := Block();
    Words8();
    Words12();
    Words16();
    Words20();
    WordIs(b, 24, 0x00000060, 0xc2c4c700, 0x00000000, 0x00000000, 0x85898ec1);
    WordIs(b, 25, 0x0b131c03, 0x00000000, 0x00000000, 0x00000000, 0x16263806);
    WordIs(b, 26, 0x00000030, 0x00000030, 0x00000000, 0x00000000, 0x00000000);
    WordIs(b, 27, 0x85898ec1, 0x85898e01, 0x00000000, 0x00000000, 0x00000180);
  }

  lemma Words28()
    ensures var b := Block();
      Schedule(b, 28) == 0x2c4c700c && Schedule(b, 29) == 0x000000f0 && Schedule(b, 30) == 0x93afb507 && Schedule(b, 31) == 0x5898e048
  {
    hide Block, Schedule;
    var b := Block();
    Words12();
    Words16();
    Words20();
    Words24();
    WordIs(b, 28, 0x16263806, 0x00000000, 0x00000000, 0x00000000, 0x2c4c700c);
    WordIs(b, 29, 0x00000000, 0x00000060, 0x00000018, 0x00000000, 0x000000f0);
    WordIs(b, 30, 0x00000180, 0x0b131c03, 0xc2c4c700, 0x00000000, 0x93afb507);
    WordIs(b, 31, 0x2c4c700c, 0x00000030, 0x00000000, 0x00000018, 0x5898e048);
  }

  lemma Words32()
    ensures var b := Block();
      Schedule(b, 32) == 0x8e9a9202 && Schedule(b, 33) == 0x00000600 && Schedule(b, 34) == 0xb131c0f0 && Schedule(b, 35) == 0x16263bc6
  {
    hide Block, Schedule;
    var b := Block();
    Words16();
    Words20();
    Words24();
    Words28();
    WordIs(b, 32, 0x000000f0, 0x85898ec1, 0x00000030, 0xc2c4c700, 0x8e9a9202);
    WordIs(b, 33, 0x93afb507, 0x16263806, 0x85898e01, 0x00000000, 0x00000600);
    WordIs(b, 34, 0x5898e048, 0x00000000, 0x00000000, 0x00000030, 0xb131c0f0);
    WordIs(b, 35, 0x8e9a9202, 0x00000180, 0x00000060, 0x85898e01, 0x16263bc6);
  }

  lemma Words36()
    ensures var b := Block();
      Schedule(b, 36) == 0x4ebed41e && Schedule(b, 37) == 0x626380a1 && Schedule(b, 38) == 0x16263806 && Schedule(b, 39) == 0x000018c0
  {
    hide Block, Schedule;
    var b := Block();
    Words20();
    Words24();
    Words28();
    Words32();
    WordIs(b, 36, 0x00000600, 0x2c4c700c, 0x0b131c03, 0x00000000, 0x4ebed41e);
    WordIs(b, 37, 0xb131c0f0, 0x000000f0, 0x00000030, 0x00000060, 0x626380a1);
    WordIs(b, 38, 0x16263bc6, 0x93afb507, 0x85898ec1, 0x0b131c03, 0x16263806);
    WordIs(b, 39, 0x4ebed41e, 0x5898e048, 0x16263806, 0x00000030, 0x000018c0);
  }

  lemma Words40()
    ensures var b := Block();
      Schedule(b, 40) == 0xd2e138c4 && Schedule(b, 41) == 0x00000f00 && Schedule(b, 42) == 0x3afb5079 && Schedule(b, 43) == 0x898e04e5
  {
    hide Block, Schedule;
    var b := Block();
    Words24();
    Words28();
    Words32();
    Words36();
    WordIs(b, 40, 0x626380a1, 0x8e9a9202, 0x00000000, 0x85898ec1, 0xd2e138c4);
    WordIs(b, 41, 0x16263806, 0x00000600, 0x00000180, 0x16263806, 0x00000f00);
    WordIs(b, 42, 0x000018c0, 0xb131c0f0, 0x2c4c700c, 0x00000000, 0x3afb5079);
    WordIs(b, 43, 0xd2e138c4, 0x16263bc6, 0x000000f0, 0x00000180, 0x898e04e5);
  }

  lemma Words44()
    ensures var b := Block();
      Schedule(b, 44) == 0xe2ba3c2b && Schedule(b, 45) == 0x000060c0 && Schedule(b, 46) == 0x053a37cd && Schedule(b, 47) == 0x74458547
  {
    hide Block, Schedule;
    var b := Block();
    Words28();
    Words32();
    Words36();
    Words40();
    WordIs(b, 44, 0x00000f00, 0x4ebed41e, 0x93afb507, 0x2c4c700c, 0xe2ba3c2b);
    WordIs(b, 45, 0x3afb5079, 0x626380a1, 0x5898e048, 0x000000f0, 0x000060c0);
    WordIs(b, 46, 0x898e04e5, 0x16263806, 0x8e9a9202, 0x93afb507, 0x053a37cd);
    WordIs(b, 47, 0xe2ba3c2b, 0x000018c0, 0x00000600, 0x5898e048, 0x74458547);
  }

  lemma Words48()
    ensures var b := Block();
      Schedule(b, 48) == 0xda9415ed && Schedule(b, 49) == 0x26380a16 && Schedule(b, 50) == 0x626383a1 && Schedule(b, 51) == 0x4ebf54de
  {
    hide Block, Schedule;
    var b := Block();
    Words32();
    Words36();
    Words40();
    Words44();
    WordIs(b, 48, 0x000060c0, 0xd2e138c4, 0xb131c0f0, 0x8e9a9202, 0xda9415ed);
    WordIs(b, 49, 0x053a37cd, 0x00000f00, 0x16263bc6, 0x00000600, 0x26380a16);
    WordIs(b, 50, 0x74458547, 0x3afb5079, 0x4ebed41e, 0xb131c0f0, 0x626383a1);
    WordIs(b, 51, 0xda9415ed, 0x898e04e5, 0x626380a1, 0x16263bc6, 0x4ebf54de);
  }

  lemma Words52()
    ensures var b := Block();
      Schedule(b, 52) == 0x3835b44b && Schedule(b, 53) == 0x0000f600 && Schedule(b, 54) == 0x1e84c7a3 && Schedule(b, 55) == 0x98e04d98
  {
    hide Block, Schedule;
    var b := Block();
    Words36();
    Words40();
    Words44();
    Words48();
    WordIs(b, 52, 0x26380a16, 0xe2ba3c2b, 0x16263806, 0x4ebed41e, 0x3835b44b);
    WordIs(b, 53, 0x626383a1, 0x000060c0, 0x000018c0, 0x626380a1, 0x0000f600);
    WordIs(b, 54, 0x4ebf54de, 0x053a37cd, 0xd2e138c4, 0x16263806, 0x1e84c7a3);
    WordIs(b, 55, 0x3835b44b, 0x74458547, 0x00000f00, 0x000018c0, 0x98e04d98);
  }

  lemma Words56()
    ensures var b := Block();
      Schedule(b, 56) == 0x651d16a0 && Schedule(b, 57) == 0x62658ca1 && Schedule(b, 58) == 0x458544d6 && Schedule(b, 59) == 0x44584cb7
  {
    hide Block, Schedule;
    var b := Block();
    Words40();
    Words44();
    Words48();
    Words52();
    WordIs(b, 56, 0x0000f600, 0xda9415ed, 0x3afb5079, 0xd2e138c4, 0x651d16a0);
    WordIs(b, 57, 0x1e84c7a3, 0x26380a16, 0x898e04e5, 0x00000f00, 0x62658ca1);
    WordIs(b, 58, 0x98e04d98, 0x626383a1, 0xe2ba3c2b, 0x3afb5079, 0x458544d6);
    WordIs(b, 59, 0x651d16a0, 0x4ebf54de, 0x000060c0, 0x898e04e5, 0x44584cb7);
  }

  lemma Words60()
    ensures var b := Block();
      Schedule(b, 60) == 0x7ba06619 && Schedule(b, 61) == 0x6380aea2 && Schedule(b, 62) == 0x0ae55269 && Schedule(b, 63) == 0x627b49a1
  {
    hide Block, Schedule;
    var b := Block();
    Words44();
    Words48();
    Words52();
    Words56();
    WordIs(b, 60, 0x62658ca1, 0x3835b44b, 0x053a37cd, 0xe2ba3c2b, 0x7ba06619);
    WordIs(b, 61, 0x458544d6, 0x0000f600, 0x74458547, 0x000060c0, 0x6380aea2);
    WordIs(b, 62, 0x44584cb7, 0x1e84c7a3, 0xda9415ed, 0x053a37cd, 0x0ae55269);
    WordIs(b, 63, 0x7ba06619, 0x98e04d98, 0x26380a16, 0x74458547, 0x627b49a1);
  }

  lemma Words64()
    ensures var b := Block();
      Schedule(b, 64) == 0x7cd45c9d && Schedule(b, 65) == 0x000f0000 && Schedule(b, 66) == 0xfb50753a && Schedule(b, 67) == 0xec6765e8
  {
    hide Block, Schedule;
    var b := Block();
    Words48();
    Words52();
    Words56();
    Words60();
    WordIs(b, 64, 0x6380aea2, 0x651d16a0, 0x626383a1, 0xda9415ed, 0x7cd45c9d);
    WordIs(b, 65, 0x0ae55269, 0x62658ca1, 0x4ebf54de, 0x26380a16, 0x000f0000);
    WordIs(b, 66, 0x627b49a1, 0x458544d6, 0x3835b44b, 0x626383a1, 0xfb50753a);
    WordIs(b, 67, 0x7cd45c9d, 0x44584cb7, 0x0000f600, 0x4ebf54de, 0xec6765e8);
  }

  lemma Words68()
    ensures var b := Block();
      Schedule(b, 68) == 0xba3c2be2 && Schedule(b, 69) == 0x0060c000 && Schedule(b, 70) == 0x3a37cd05 && Schedule(b, 71) == 0x458546f4
  {
    hide Block, Schedule;
    var b := Block();
    Words52();
    Words56();
    Words60();
    Words64();
    WordIs(b, 68, 0x000f0000, 0x7ba06619, 0x1e84c7a3, 0x3835b44b, 0xba3c2be2);
    WordIs(b, 69, 0xfb50753a, 0x6380aea2, 0x98e04d98, 0x0000f600, 0x0060c000);
    WordIs(b, 70, 0xec6765e8, 0x0ae55269, 0x651d16a0, 0x1e84c7a3, 0x3a37cd05);
    WordIs(b, 71, 0xba3c2be2, 0x627b49a1, 0x62658ca1, 0x98e04d98, 0x458546f4);
  }

  lemma Words72()
    ensures var b := Block();
      Schedule(b, 72) == 0xb8599dd6 && Schedule(b, 73) == 0x380a1a26 && Schedule(b, 74) == 0x01e02203 && Schedule(b, 75) == 0xe7cc3456
  {
    hide Block, Schedule;
    var b := Block();
    Words56();
    Words60();
    Words64();
    Words68();
    WordIs(b, 72, 0x0060c000, 0x7cd45c9d, 0x458544d6, 0x651d16a0, 0xb8599dd6);
    WordIs(b, 73, 0x3a37cd05, 0x000f0000, 0x44584cb7, 0x62658ca1, 0x380a1a26);
    WordIs(b, 74, 0x458546f4, 0xfb50753a, 0x7ba06619, 0x458544d6, 0x01e02203);
    WordIs(b, 75, 0xb8599dd6, 0xec6765e8, 0x6380aea2, 0x44584cb7, 0xe7cc3456);
  }

  lemma Words76()
    ensures var b := Block();
      Schedule(b, 76) == 0xe6e60b69 && Schedule(b, 77) == 0x00f60a00 && Schedule(b, 78) == 0x5795ef4f && Schedule(b, 79) == 0x822e0879
  {
    hide Block, Schedule;
    var b := Block();
    Words60();
    Words64();
    Words68();
    Words72();
    WordIs(b, 76, 0x380a1a26, 0xba3c2be2, 0x0ae55269, 0x7ba06619, 0xe6e60b69);
    WordIs(b, 77, 0x01e02203, 0x0060c000, 0x627b49a1, 0x6380aea2, 0x00f60a00);
    WordIs(b, 78, 0xe7cc3456, 0x3a37cd05, 0x7cd45c9d, 0x0ae55269, 0x5795ef4f);
    WordIs(b, 79, 0xe6e60b69, 0x458546f4, 0x000f0000, 0x627b49a1, 0x822e0879);
  }

  lemma Rounds10()
    ensures Rounds(H0, Block(), 10) == Vars(0x8351f929, 0x4b6ae328, 0x27a301f5, 0x664f8c30, 0x0ff1f290)
  {
    hide Block;
    var b := Block();
    Words0();
    Words4();
    Words8();
    RoundIs(b, 0, 0x61626380, 0x67452301, 0xefcdab89, 0x98badcfe, 0x10325476, 0xc3d2e1f0, 0x0116fc33, 0x7bf36ae2);
    RoundIs(b, 1, 0x00000000, 0x0116fc33, 0x67452301, 0x7bf36ae2, 0x98badcfe, 0x10325476, 0x8990536d, 0x59d148c0);
    RoundIs(b, 2, 0x00000000, 0x8990536d, 0x0116fc33, 0x59d148c0, 0x7bf36ae2, 0x98badcfe, 0xa1390f08, 0xc045bf0c);
    RoundIs(b, 3, 0x00000000, 0xa1390f08, 0x8990536d, 0xc045bf0c, 0x59d148c0, 0x7bf36ae2, 0xcdd8e11b, 0x626414db);
    RoundIs(b, 4, 0x00000000, 0xcdd8e11b, 0xa1390f08, 0x626414db, 0xc045bf0c, 0x59d148c0, 0xcfd499de, 0x284e43c2);
    RoundIs(b, 5, 0x00000000, 0xcfd499de, 0xcdd8e11b, 0x284e43c2, 0x626414db, 0xc045bf0c, 0x3fc7ca40, 0xf3763846);
    RoundIs(b, 6, 0x00000000, 0x3fc7ca40, 0xcfd499de, 0xf3763846, 0x284e43c2, 0x626414db, 0x993e30c1, 0xb3f52677);
    RoundIs(b, 7, 0x00000000, 0x993e30c1, 0x3fc7ca40, 0xb3f52677, 0xf3763846, 0x284e43c2, 0x9e8c07d4, 0x0ff1f290);
    RoundIs(b, 8, 0x00000000, 0x9e8c07d4, 0x993e30c1, 0x0ff1f290, 0xb3f52677, 0xf3763846, 0x4b6ae328, 0x664f8c30);
    RoundIs(b, 9, 0x00000000, 0x4b6ae328, 0x9e8c07d4, 0x664f8c30, 0x0ff1f290, 0xb3f52677, 0x8351f929, 0x27a301f5);
  }

  lemma Rounds20()
    ensures Rounds(H0, Block(), 20) == Vars(0xfd9e1d7d, 0xdc64901d, 0x20aa99ca, 0xd3a49608, 0xc82f758b)
  {
    hide Block;
    var b := Block();
    Rounds10();
    Words8();
    Words12();
    Words16();
    RoundIs(b, 10, 0x00000000, 0x8351f929, 0x4b6ae328, 0x27a301f5, 0x664f8c30, 0x0ff1f290, 0xfbda9e89, 0x12dab8ca);
    RoundIs(b, 11, 0x00000000, 0xfbda9e89, 0x8351f929, 0x12dab8ca, 0x27a301f5, 0x664f8c30, 0x63188fe4, 0x60d47e4a);
    RoundIs(b, 12, 0x00000000, 0x63188fe4, 0xfbda9e89, 0x60d47e4a, 0x12dab8ca, 0x27a301f5, 0x4607b664, 0x7ef6a7a2);
    RoundIs(b, 13, 0x00000000, 0x4607b664, 0x63188fe4, 0x7ef6a7a2, 0x60d47e4a, 0x12dab8ca, 0x9128f695, 0x18c623f9);
    RoundIs(b, 14, 0x00000000, 0x9128f695, 0x4607b664, 0x18c623f9, 0x7ef6a7a2, 0x60d47e4a, 0x196bee77, 0x1181ed99);
    RoundIs(b, 15, 0x00000018, 0x196bee77, 0x9128f695, 0x1181ed99, 0x18c623f9, 0x7ef6a7a2, 0x20bdd62f, 0x644a3da5);
    RoundIs(b, 16, 0xc2c4c700, 0x20bdd62f, 0x196bee77, 0x644a3da5, 0x1181ed99, 0x18c623f9, 0x4e925823, 0xc65afb9d);
    RoundIs(b, 17, 0x00000000, 0x4e925823, 0x20bdd62f, 0xc65afb9d, 0x644a3da5, 0x1181ed99, 0x82aa6728, 0xc82f758b);
    RoundIs(b, 18, 0x00000030, 0x82aa6728, 0x4e925823, 0xc82f758b, 0xc65afb9d, 0x644a3da5, 0xdc64901d, 0xd3a49608);
    RoundIs(b, 19, 0x85898e01, 0xdc64901d, 0x82aa6728, 0xd3a49608, 0xc82f758b, 0xc65afb9d, 0xfd9e1d7d, 0x20aa99ca);
  }

  lemma Rounds30()
    ensures Rounds(H0, Block(), 30) == Vars(0xc5fbaf5d, 0x8370b52e, 0xd2aa1365, 0x6f8d7ef5, 0x12104ee9)
  {
    hide Block;
    var b := Block();
    Rounds20();
    Words20();
    Words24();
    Words28();
    RoundIs(b, 20, 0x00000000, 0xfd9e1d7d, 0xdc64901d, 0x20aa99ca, 0xd3a49608, 0xc82f758b, 0x1a37b0ca, 0x77192407);
    RoundIs(b, 21, 0x00000060, 0x1a37b0ca, 0xfd9e1d7d, 0x77192407, 0x20aa99ca, 0xd3a49608, 0x33a23bfc, 0x7f67875f);
    RoundIs(b, 22, 0x0b131c03, 0x33a23bfc, 0x1a37b0ca, 0x7f67875f, 0x77192407, 0x20aa99ca, 0x21283486, 0x868dec32);
    RoundIs(b, 23, 0x00000030, 0x21283486, 0x33a23bfc, 0x868dec32, 0x7f67875f, 0x77192407, 0xd541f12d, 0x0ce88eff);
    RoundIs(b, 24, 0x85898ec1, 0xd541f12d, 0x21283486, 0x0ce88eff, 0x868dec32, 0x7f67875f, 0xc7567dc6, 0x884a0d21);
    RoundIs(b, 25, 0x16263806, 0xc7567dc6, 0xd541f12d, 0x884a0d21, 0x0ce88eff, 0x868dec32, 0x48413ba4, 0x75507c4b);
    RoundIs(b, 26, 0x00000000, 0x48413ba4, 0xc7567dc6, 0x75507c4b, 0x884a0d21, 0x0ce88eff, 0xbe35fbd5, 0xb1d59f71);
    RoundIs(b, 27, 0x00000180, 0xbe35fbd5, 0x48413ba4, 0xb1d59f71, 0x75507c4b, 0x884a0d21, 0x4aa84d97, 0x12104ee9);
    RoundIs(b, 28, 0x2c4c700c, 0x4aa84d97, 0xbe35fbd5, 0x12104ee9, 0xb1d59f71, 0x75507c4b, 0x8370b52e, 0x6f8d7ef5);
    RoundIs(b, 29, 0x000000f0, 0x8370b52e, 0x4aa84d97, 0x6f8d7ef5, 0x12104ee9, 0xb1d59f71, 0xc5fbaf5d, 0xd2aa1365);
  }

  lemma Rounds40()
    ensures Rounds(H0, Block(), 40) == Vars(0x32de1cba, 0x4c986405, 0xf718e5cf, 0x03d447f6, 0xf72eec32)
  {
    hide Block;
    var b := Block();
    Rounds30();
    Words28();
    Words32();
    Words36();
    RoundIs(b, 30, 0x93afb507, 0xc5fbaf5d, 0x8370b52e, 0xd2aa1365, 0x6f8d7ef5, 0x12104ee9, 0x1267b407, 0xa0dc2d4b);
    RoundIs(b, 31, 0x5898e048, 0x1267b407, 0xc5fbaf5d, 0xa0dc2d4b, 0xd2aa1365, 0x6f8d7ef5, 0x3b845d33, 0x717eebd7);
    RoundIs(b, 32, 0x8e9a9202, 0x3b845d33, 0x1267b407, 0x717eebd7, 0xa0dc2d4b, 0xd2aa1365, 0x046faa0a, 0xc499ed01);
    RoundIs(b, 33, 0x00000600, 0x046faa0a, 0x3b845d33, 0xc499ed01, 0x717eebd7, 0xa0dc2d4b, 0x2c0ebc11, 0xcee1174c);
    RoundIs(b, 34, 0xb131c0f0, 0x2c0ebc11, 0x046faa0a, 0xcee1174c, 0xc499ed01, 0x717eebd7, 0x21796ad4, 0x811bea82);
    RoundIs(b, 35, 0x16263bc6, 0x21796ad4, 0x2c0ebc11, 0x811bea82, 0xcee1174c, 0xc499ed01, 0xdcbbb0cb, 0x4b03af04);
    RoundIs(b, 36, 0x4ebed41e, 0xdcbbb0cb, 0x21796ad4, 0x4b03af04, 0x811bea82, 0xcee1174c, 0x0f511fd8, 0x085e5ab5);
    RoundIs(b, 37, 0x626380a1, 0x0f511fd8, 0xdcbbb0cb, 0x085e5ab5, 0x4b03af04, 0x811bea82, 0xdc63973f, 0xf72eec32);
    RoundIs(b, 38, 0x16263806, 0xdc63973f, 0x0f511fd8, 0xf72eec32, 0x085e5ab5, 0x4b03af04, 0x4c986405, 0x03d447f6);
    RoundIs(b, 39, 0x000018c0, 0x4c986405, 0xdc63973f, 0x03d447f6, 0xf72eec32, 0x085e5ab5, 0x32de1cba, 0xf718e5cf);
  }

  lemma Rounds50()
    ensures Rounds(H0, Block(), 50) == Vars(0x120731c5, 0xbaf39337, 0xafab40b2, 0x2806e11b, 0x8714787c)
  {
    hide Block;
    var b := Block();
    Rounds40();
    Words40();
    Words44();
    Words48();
    RoundIs(b, 40, 0xd2e138c4, 0x32de1cba, 0x4c986405, 0xf718e5cf, 0x03d447f6, 0xf72eec32, 0xfc87dedf, 0x53261901);
    RoundIs(b, 41, 0x00000f00, 0xfc87dedf, 0x32de1cba, 0x53261901, 0xf718e5cf, 0x03d447f6, 0x970a0d5c, 0x8cb7872e);
    RoundIs(b, 42, 0x3afb5079, 0x970a0d5c, 0xfc87dedf, 0x8cb7872e, 0x53261901, 0xf718e5cf, 0x7f193dc5, 0xff21f7b7);
    RoundIs(b, 43, 0x898e04e5, 0x7f193dc5, 0x970a0d5c, 0xff21f7b7, 0x8cb7872e, 0x53261901, 0xee1b1aaf, 0x25c28357);
    RoundIs(b, 44, 0xe2ba3c2b, 0xee1b1aaf, 0x7f193dc5, 0x25c28357, 0xff21f7b7, 0x8cb7872e, 0x40f28e09, 0x5fc64f71);
    RoundIs(b, 45, 0x000060c0, 0x40f28e09, 0xee1b1aaf, 0x5fc64f71, 0x25c28357, 0xff21f7b7, 0x1c51e1f2, 0xfb86c6ab);
    RoundIs(b, 46, 0x053a37cd, 0x1c51e1f2, 0x40f28e09, 0xfb86c6ab, 0x5fc64f71, 0x25c28357, 0xa01b846c, 0x503ca382);
    RoundIs(b, 47, 0x74458547, 0xa01b846c, 0x1c51e1f2, 0x503ca382, 0xfb86c6ab, 0x5fc64f71, 0xbead02ca, 0x8714787c);
    RoundIs(b, 48, 0xda9415ed, 0xbead02ca, 0xa01b846c, 0x8714787c, 0x503ca382, 0xfb86c6ab, 0xbaf39337, 0x2806e11b);
    RoundIs(b, 49, 0x26380a16, 0xbaf39337, 0xbead02ca, 0x2806e11b, 0x8714787c, 0x503ca382, 0x120731c5, 0xafab40b2);
  }

  lemma Rounds60()
    ensures Rounds(H0, Block(), 60) == Vars(0x3f52de5a, 0x09d785fd, 0x3498bfd4, 0xf211824f, 0xd79915ab)
  {
    hide Block;
    var b := Block();
    Rounds50();
    Words48();
    Words52();
    Words56();
    RoundIs(b, 50, 0x626383a1, 0x120731c5, 0xbaf39337, 0xafab40b2, 0x2806e11b, 0x8714787c, 0x641db2ce, 0xeebce4cd);
    RoundIs(b, 51, 0x4ebf54de, 0x641db2ce, 0x120731c5, 0xeebce4cd, 0xafab40b2, 0x2806e11b, 0x3847ad66, 0x4481cc71);
    RoundIs(b, 52, 0x3835b44b, 0x3847ad66, 0x641db2ce, 0x4481cc71, 0xeebce4cd, 0xafab40b2, 0xe490436d, 0x99076cb3);
    RoundIs(b, 53, 0x0000f600, 0xe490436d, 0x3847ad66, 0x99076cb3, 0x4481cc71, 0xeebce4cd, 0x27e9f1d8, 0x8e11eb59);
    RoundIs(b, 54, 0x1e84c7a3, 0x27e9f1d8, 0xe490436d, 0x8e11eb59, 0x99076cb3, 0x4481cc71, 0x7b71f76d, 0x792410db);
    RoundIs(b, 55, 0x98e04d98, 0x7b71f76d, 0x27e9f1d8, 0x792410db, 0x8e11eb59, 0x99076cb3, 0x5e6456af, 0x09fa7c76);
    RoundIs(b, 56, 0x651d16a0, 0x5e6456af, 0x7b71f76d, 0x09fa7c76, 0x792410db, 0x8e11eb59, 0xc846093f, 0x5edc7ddb);
    RoundIs(b, 57, 0x62658ca1, 0xc846093f, 0x5e6456af, 0x5edc7ddb, 0x09fa7c76, 0x792410db, 0xd262ff50, 0xd79915ab);
    RoundIs(b, 58, 0x458544d6, 0xd262ff50, 0xc846093f, 0xd79915ab, 0x5edc7ddb, 0x09fa7c76, 0x09d785fd, 0xf211824f);
    RoundIs(b, 59, 0x44584cb7, 0x09d785fd, 0xd262ff50, 0xf211824f, 0xd79915ab, 0x5edc7ddb, 0x3f52de5a, 0x3498bfd4);
  }

  lemma Rounds70()
    ensures Rounds(H0, Block(), 70) == Vars(0x3f2588c2, 0x497093c0, 0xde37534a, 0x030f7cad, 0x4405957e)
  {
    hide Block;
    var b := Block();
    Rounds60();
    Words60();
    Words64();
    Words68();
    RoundIs(b, 60, 0x7ba06619, 0x3f52de5a, 0x09d785fd, 0x3498bfd4, 0xf211824f, 0xd79915ab, 0xd756c147, 0x4275e17f);
    RoundIs(b, 61, 0x6380aea2, 0xd756c147, 0x3f52de5a, 0x4275e17f, 0x3498bfd4, 0xf211824f, 0x548c9cb2, 0x8fd4b796);
    RoundIs(b, 62, 0x0ae55269, 0x548c9cb2, 0xd756c147, 0x8fd4b796, 0x4275e17f, 0x3498bfd4, 0xb66c020b, 0xf5d5b051);
    RoundIs(b, 63, 0x627b49a1, 0xb66c020b, 0x548c9cb2, 0xf5d5b051, 0x8fd4b796, 0x4275e17f, 0x6b61c9e1, 0x9523272c);
    RoundIs(b, 64, 0x7cd45c9d, 0x6b61c9e1, 0xb66c020b, 0x9523272c, 0xf5d5b051, 0x8fd4b796, 0x19dfa7ac, 0xed9b0082);
    RoundIs(b, 65, 0x000f0000, 0x19dfa7ac, 0x6b61c9e1, 0xed9b0082, 0x9523272c, 0xf5d5b051, 0x101655f9, 0x5ad87278);
    RoundIs(b, 66, 0xfb50753a, 0x101655f9, 0x19dfa7ac, 0x5ad87278, 0xed9b0082, 0x9523272c, 0x0c3df2b4, 0x0677e9eb);
    RoundIs(b, 67, 0xec6765e8, 0x0c3df2b4, 0x101655f9, 0x0677e9eb, 0x5ad87278, 0xed9b0082, 0x78dd4d2b, 0x4405957e);
    RoundIs(b, 68, 0xba3c2be2, 0x78dd4d2b, 0x0c3df2b4, 0x4405957e, 0x0677e9eb, 0x5ad87278, 0x497093c0, 0x030f7cad);
    RoundIs(b, 69, 0x0060c000, 0x497093c0, 0x78dd4d2b, 0x030f7cad, 0x4405957e, 0x0677e9eb, 0x3f2588c2, 0xde37534a);
  }

  lemma Rounds80()
    ensures Rounds(H0, Block(), 80) == Vars(0x42541b35, 0x5738d5e1, 0x21834873, 0x681e6df6, 0xd8fdf6ad)
  {
    hide Block;
    var b := Block();
    Rounds70();
    Words68();
    Words72();
    Words76();
    RoundIs(b, 70, 0x3a37cd05, 0x3f2588c2, 0x497093c0, 0xde37534a, 0x030f7cad, 0x4405957e, 0xc199f8c7, 0x125c24f0);
    RoundIs(b, 71, 0x458546f4, 0xc199f8c7, 0x3f2588c2, 0x125c24f0, 0xde37534a, 0x030f7cad, 0x39859de7, 0x8fc96230);
    RoundIs(b, 72, 0xb8599dd6, 0x39859de7, 0xc199f8c7, 0x8fc96230, 0x125c24f0, 0xde37534a, 0xedb42de4, 0xf0667e31);
    RoundIs(b, 73, 0x380a1a26, 0xedb42de4, 0x39859de7, 0xf0667e31, 0x8fc96230, 0x125c24f0, 0x11793f6f, 0xce616779);
    RoundIs(b, 74, 0x01e02203, 0x11793f6f, 0xedb42de4, 0xce616779, 0xf0667e31, 0x8fc96230, 0x5ee76897, 0x3b6d0b79);
    RoundIs(b, 75, 0xe7cc3456, 0x5ee76897, 0x11793f6f, 0x3b6d0b79, 0xce616779, 0xf0667e31, 0x63f7dab7, 0xc45e4fdb);
    RoundIs(b, 76, 0xe6e60b69, 0x63f7dab7, 0x5ee76897, 0xc45e4fdb, 0x3b6d0b79, 0xce616779, 0xa079b7d9, 0xd7b9da25);
    RoundIs(b, 77, 0x00f60a00, 0xa079b7d9, 0x63f7dab7, 0xd7b9da25, 0xc45e4fdb, 0x3b6d0b79, 0x860d21cc, 0xd8fdf6ad);
    RoundIs(b, 78, 0x5795ef4f, 0x860d21cc, 0xa079b7d9, 0xd8fdf6ad, 0xd7b9da25, 0xc45e4fdb, 0x5738d5e1, 0x681e6df6);
    RoundIs(b, 79, 0x822e0879, 0x5738d5e1, 0x860d21cc, 0x681e6df6, 0xd8fdf6ad, 0xd7b9da25, 0x42541b35, 0x21834873);
  }

  /** The digest of "abc" is a9993e36 4706816a ba3e2571 7850c26c 9cd0d89d. */
  lemma DigestOfAbc()
    ensures Digest(ABC) == Vars(0xa9993e36, 0x4706816a, 0xba3e2571, 0x7850c26c, 0x9cd0d89d)
  {
    hide Block, Rounds, Fold, Pad;
    PadIsBlock();
    FoldOne(H0, Block());
    Rounds80();
  }
}
