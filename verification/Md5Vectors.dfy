/**
 * MD5 against appendix A.5 of RFC 1321: the operations as section 3.4 lists them, and the digests of two
 * messages of the test suite, computed by the definition.
 */
module Md5Vectors {
  import opened Bytes
  import opened Md5Spec

  function Four(a: bv32, b: bv32, c: bv32, d: bv32): (r: Regs)
  {
    Regs(Word(a), Word(b), Word(c), Word(d))
  }

  // ----- word, shift and constant of the sixty-four operations

  lemma Operations1()
    ensures WordIndex(0) == 0 && Shift(0) == 7 && T(0) == Word(0xd76aa478)
    ensures WordIndex(1) == 1 && Shift(1) == 12 && T(1) == Word(0xe8c7b756)
    ensures WordIndex(2) == 2 && Shift(2) == 17 && T(2) == Word(0x242070db)
    ensures WordIndex(3) == 3 && Shift(3) == 22 && T(3) == Word(0xc1bdceee)
    ensures WordIndex(4) == 4 && Shift(4) == 7 && T(4) == Word(0xf57c0faf)
    ensures WordIndex(5) == 5 && Shift(5) == 12 && T(5) == Word(0x4787c62a)
    ensures WordIndex(6) == 6 && Shift(6) == 17 && T(6) == Word(0xa8304613)
    ensures WordIndex(7) == 7 && Shift(7) == 22 && T(7) == Word(0xfd469501)
    ensures WordIndex(8) == 8 && Shift(8) == 7 && T(8) == Word(0x698098d8)
    ensures WordIndex(9) == 9 && Shift(9) == 12 && T(9) == Word(0x8b44f7af)
    ensures WordIndex(10) == 10 && Shift(10) == 17 && T(10) == Word(0xffff5bb1)
    ensures WordIndex(11) == 11 && Shift(11) == 22 && T(11) == Word(0x895cd7be)
    ensures WordIndex(12) == 12 && Shift(12) == 7 && T(12) == Word(0x6b901122)
    ensures WordIndex(13) == 13 && Shift(13) == 12 && T(13) == Word(0xfd987193)
    ensures WordIndex(14) == 14 && Shift(14) == 17 && T(14) == Word(0xa679438e)
    ensures WordIndex(15) == 15 && Shift(15) == 22 && T(15) == Word(0x49b40821)
  {
  }

  lemma Operations2()
    ensures WordIndex(16) == 1 && Shift(16) == 5 && T(16) == Word(0xf61e2562)
    ensures WordIndex(17) == 6 && Shift(17) == 9 && T(17) == Word(0xc040b340)
    ensures WordIndex(18) == 11 && Shift(18) == 14 && T(18) == Word(0x265e5a51)
    ensures WordIndex(19) == 0 && Shift(19) == 20 && T(19) == Word(0xe9b6c7aa)
    ensures WordIndex(20) == 5 && Shift(20) == 5 && T(20) == Word(0xd62f105d)
    ensures WordIndex(21) == 10 && Shift(21) == 9 && T(21) == Word(0x02441453)
    ensures WordIndex(22) == 15 && Shift(22) == 14 && T(22) == Word(0xd8a1e681)
    ensures WordIndex(23) == 4 && Shift(23) == 20 && T(23) == Word(0xe7d3fbc8)
    ensures WordIndex(24) == 9 && Shift(24) == 5 && T(24) == Word(0x21e1cde6)
    ensures WordIndex(25) == 14 && Shift(25) == 9 && T(25) == Word(0xc33707d6)
    ensures WordIndex(26) == 3 && Shift(26) == 14 && T(26) == Word(0xf4d50d87)
    ensures WordIndex(27) == 8 && Shift(27) == 20 && T(27) == Word(0x455a14ed)
    ensures WordIndex(28) == 13 && Shift(28) == 5 && T(28) == Word(0xa9e3e905)
    ensures WordIndex(29) == 2 && Shift(29) == 9 && T(29) == Word(0xfcefa3f8)
    ensures WordIndex(30) == 7 && Shift(30) == 14 && T(30) == Word(0x676f02d9)
    ensures WordIndex(31) == 12 && Shift(31) == 20 && T(31) == Word(0x8d2a4c8a)
  {
  }

  lemma Operations3()
    ensures WordIndex(32) == 5 && Shift(32) == 4 && T(32) == Word(0xfffa3942)
    ensures WordIndex(33) == 8 && Shift(33) == 11 && T(33) == Word(0x8771f681)
    ensures WordIndex(34) == 11 && Shift(34) == 16 && T(34) == Word(0x6d9d6122)
    ensures WordIndex(35) == 14 && Shift(35) == 23 && T(35) == Word(0xfde5380c)
    ensures WordIndex(36) == 1 && Shift(36) == 4 && T(36) == Word(0xa4beea44)
    ensures WordIndex(37) == 4 && Shift(37) == 11 && T(37) == Word(0x4bdecfa9)
    ensures WordIndex(38) == 7 && Shift(38) == 16 && T(38) == Word(0xf6bb4b60)
    ensures WordIndex(39) == 10 && Shift(39) == 23 && T(39) == Word(0xbebfbc70)
    ensures WordIndex(40) == 13 && Shift(40) == 4 && T(40) == Word(0x289b7ec6)
    ensures WordIndex(41) == 0 && Shift(41) == 11 && T(41) == Word(0xeaa127fa)
    ensures WordIndex(42) == 3 && Shift(42) == 16 && T(42) == Word(0xd4ef3085)
    ensures WordIndex(43) == 6 && Shift(43) == 23 && T(43) == Word(0x04881d05)
    ensures WordIndex(44) == 9 && Shift(44) == 4 && T(44) == Word(0xd9d4d039)
    ensures WordIndex(45) == 12 && Shift(45) == 11 && T(45) == Word(0xe6db99e5)
    ensures WordIndex(46) == 15 && Shift(46) == 16 && T(46) == Word(0x1fa27cf8)
    ensures WordIndex(47) == 2 && Shift(47) == 23 && T(47) == Word(0xc4ac5665)
  {
  }

  lemma Operations4()
    ensures WordIndex(48) == 0 && Shift(48) == 6 && T(48) == Word(0xf4292244)
    ensures WordIndex(49) == 7 && Shift(49) == 10 && T(49) == Word(0x432aff97)
    ensures WordIndex(50) == 14 && Shift(50) == 15 && T(50) == Word(0xab9423a7)
    ensures WordIndex(51) == 5 && Shift(51) == 21 && T(51) == Word(0xfc93a039)
    ensures WordIndex(52) == 12 && Shift(52) == 6 && T(52) == Word(0x655b59c3)
    ensures WordIndex(53) == 3 && Shift(53) == 10 && T(53) == Word(0x8f0ccc92)
    ensures WordIndex(54) == 10 && Shift(54) == 15 && T(54) == Word(0xffeff47d)
    ensures WordIndex(55) == 1 && Shift(55) == 21 && T(55) == Word(0x85845dd1)
    ensures WordIndex(56) == 8 && Shift(56) == 6 && T(56) == Word(0x6fa87e4f)
    ensures WordIndex(57) == 15 && Shift(57) == 10 && T(57) == Word(0xfe2ce6e0)
    ensures WordIndex(58) == 6 && Shift(58) == 15 && T(58) == Word(0xa3014314)
    ensures WordIndex(59) == 13 && Shift(59) == 21 && T(59) == Word(0x4e0811a1)
    ensures WordIndex(60) == 4 && Shift(60) == 6 && T(60) == Word(0xf7537e82)
    ensures WordIndex(61) == 11 && Shift(61) == 10 && T(61) == Word(0xbd3af235)
    ensures WordIndex(62) == 2 && Shift(62) == 15 && T(62) == Word(0x2ad7d2bb)
    ensures WordIndex(63) == 9 && Shift(63) == 21 && T(63) == Word(0xeb86d391)
  {
  }

  // ----- computing with them

  /** Operation i on the words a, b, c and d: its function gives f, and it makes q. */
  lemma Go(x: seq<Word>, i: nat, j: nat, round: nat, s: bv32, t: bv32, a: bv32, b: bv32, c: bv32, d: bv32,
           f: bv32, w: bv32, q: bv32)
    requires |x| == 16 && i < j <= 64 && s <= 32 && round == i / 16
    requires Shift(i) == s && T(i) == Word(t) && x[WordIndex(i)] == Word(w)
    requires Aux(round, Word(b), Word(c), Word(d)) == Word(f)
    requires Add(Word(b), RotateLeft(Add(Word(a), Add(Add(Word(f), Word(w)), Word(t))), s)) == Word(q)
    ensures Steps(Four(a, b, c, d), x, i, j) == Steps(Four(d, q, b, c), x, i + 1, j)
  {
    hide T, Shift, Aux, Add, RotateLeft, WordIndex;
  }

  lemma Done(x: seq<Word>, i: nat, r: Regs)
    requires |x| == 16 && i <= 64
    ensures Steps(r, x, i, i) == r
  {
  }

  lemma {:induction false} StepsJoin(r: Regs, x: seq<Word>, i: nat, j: nat, k: nat)
    requires |x| == 16 && i <= j <= k <= 64
    ensures Steps(r, x, i, k) == Steps(Steps(r, x, i, j), x, j, k)
    decreases j - i
  {
    hide Step;
    if i == j {
    } else {
      StepsJoin(Step(r, x, i), x, i + 1, j, k);
    }
  }

  lemma Rounds(r: Regs, x: seq<Word>, r1: Regs, r2: Regs, r3: Regs, r4: Regs, i: nat, j: nat, k: nat, n: nat)
    requires |x| == 16 && i <= j <= k <= n <= 64
    requires Steps(r, x, 0, i) == r1 && Steps(r1, x, i, j) == r2 && Steps(r2, x, j, k) == r3 && Steps(r3, x, k, n) == r4
    ensures Steps(r, x, 0, n) == r4
  {
    hide Steps;
    StepsJoin(r, x, 0, i, n);
    StepsJoin(r1, x, i, j, n);
    StepsJoin(r2, x, j, k, n);
  }

  lemma OneBlock(s: seq<byte>)
    requires |s| == 64
    ensures Blocks(START, s, 0) == Block(START, Words(s, 0))
  {
    hide Block, Words;
  }

  /** The blocks are taken in order, each into the registers the blocks before it left. */
  lemma {:induction false} BlocksInOrder(r: Regs, p: seq<byte>, b: seq<byte>, at: nat)
    requires |p| % 64 == 0 && |b| == 64 && at <= |p| && at % 64 == 0
    ensures Blocks(r, p + b, at) == Block(Blocks(r, p, at), Words(b, 0))
    decreases |p| - at
  {
    hide Block, FromOctets;
    if at == |p| {
      assert Words(p + b, at) == Words(b, 0);
    } else {
      assert Words(p + b, at) == Words(p, at);
      BlocksInOrder(Block(r, Words(p, at)), p, b, at + 64);
    }
  }

  lemma Octets4()
    ensures FromOctets(0, 0, 0, 0) == Word(0) && FromOctets(8, 0, 0, 0) == Word(8)
    ensures FromOctets(0x80, 0, 0, 0) == Word(0x80) && FromOctets(0x61, 0x80, 0, 0) == Word(0x8061)
  {
  }

  lemma {:induction false} NoOctets(k: nat)
    ensures OctetAt(0, k) == 0
  {
    if k == 0 {
    } else {
      NoOctets(k - 1);
    }
  }

  lemma CountOctets(k: nat)
    ensures OctetAt(8, k) == if k == 0 then 8 else 0
  {
    if k > 0 {
      NoOctets(k - 1);
    }
  }

  /** The message, the mark, and the count of its bits. */
  lemma ShortPadded(m: seq<byte>, j: nat)
    requires |m| <= 1 && j < 64
    ensures |Padded(m)| == 64
    ensures Padded(m)[j] == if j < |m| then m[j] else if j == |m| then 0x80 else if j == 56 then 8 * |m| else 0
  {
    if j >= 56 {
      NoOctets(j - 56);
      CountOctets(j - 56);
    }
  }

  lemma WordOf(s: seq<byte>, j: nat)
    requires |s| == 64 && j < 16
    ensures Words(s, 0)[j] == FromOctets(s[4 * j], s[4 * j + 1], s[4 * j + 2], s[4 * j + 3])
  {
    hide FromOctets;
  }

  // ----- the empty message

  predicate Empty(x: seq<Word>)
  {
    |x| == 16 && x[0] == Word(0x00000080) && forall j :: 1 <= j < 16 ==> x[j] == Word(0x00000000)
  }

  lemma EmptyFirst(x: seq<Word>)
    requires Empty(x)
    ensures Steps(Four(0x67452301, 0xefcdab89, 0x98badcfe, 0x10325476), x, 0, 16) == Steps(Four(0x10325476, 0xa5202774, 0xefcdab89, 0x98badcfe), x, 1, 16)
  {
    hide Steps, T, Shift, WordIndex;
    Operations1();
    Go(x, 0, 16, 0, 7, 0xd76aa478, 0x67452301, 0xefcdab89, 0x98badcfe, 0x10325476, 0x98badcfe, 0x80, 0xa5202774);
  }

  lemma Empty1(x: seq<Word>)
    requires Empty(x)
    ensures Steps(Four(0x10325476, 0xa5202774, 0xefcdab89, 0x98badcfe), x, 1, 16) == Four(0xf56c7cf1, 0xd6819c6a, 0x5aa53f75, 0x374943a7)
  {
    hide Steps, T, Shift, WordIndex;
    Operations1();
    Go(x, 1, 16, 0, 12, 0xe8c7b756, 0x10325476, 0xa5202774, 0xefcdab89, 0x98badcfe, 0xbd9afb8a, 0x0, 0xf59592dd);
    Go(x, 2, 16, 0, 17, 0x242070db, 0x98badcfe, 0xf59592dd, 0xa5202774, 0xefcdab89, 0xaf482b54, 0x0, 0xe7f06b23);
    Go(x, 3, 16, 0, 22, 0xc1bdceee, 0xefcdab89, 0xe7f06b23, 0xf59592dd, 0xa5202774, 0xe5900655, 0x0, 0x1b163203);
    Go(x, 4, 16, 0, 7, 0xf57c0faf, 0xa5202774, 0x1b163203, 0xe7f06b23, 0xf59592dd, 0xe791a2df, 0x0, 0x32033344);
    Go(x, 5, 16, 0, 12, 0x4787c62a, 0xf59592dd, 0x32033344, 0x1b163203, 0xe7f06b23, 0xd7f27a23, 0x0, 0x2f35d494);
    Go(x, 6, 16, 0, 17, 0xa8304613, 0xe7f06b23, 0x2f35d494, 0x32033344, 0x1b163203, 0x32033207, 0x0, 0xf5b158db);
    Go(x, 7, 16, 0, 22, 0xfd469501, 0x1b163203, 0xf5b158db, 0x2f35d494, 0x32033344, 0x27337394, 0x0, 0x9bc13ce9);
    Go(x, 8, 16, 0, 7, 0x698098d8, 0x32033344, 0x9bc13ce9, 0xf5b158db, 0x2f35d494, 0xb5b5d8dd, 0x0, 0x3893b991);
    Go(x, 9, 16, 0, 12, 0x8b44f7af, 0x2f35d494, 0x3893b991, 0x9bc13ce9, 0xf5b158db, 0xdda178cb, 0x0, 0xfce4a312);
    Go(x, 10, 16, 0, 17, 0xffff5bb1, 0xf5b158db, 0xfce4a312, 0x3893b991, 0x9bc13ce9, 0x3b81bdf9, 0x0, 0xe1ef0576);
    Go(x, 11, 16, 0, 22, 0x895cd7be, 0x9bc13ce9, 0xe1ef0576, 0xfce4a312, 0x3893b991, 0xf8f4b993, 0x0, 0x70768a29);
    Go(x, 12, 16, 0, 7, 0x6b901122, 0x3893b991, 0x70768a29, 0xe1ef0576, 0xfce4a312, 0xece62132, 0x0, 0xf56c7cf1);
    Go(x, 13, 16, 0, 12, 0xfd987193, 0xfce4a312, 0xf56c7cf1, 0x70768a29, 0xe1ef0576, 0x70e70927, 0x0, 0x374943a7);
    Go(x, 14, 16, 0, 17, 0xa679438e, 0xe1ef0576, 0x374943a7, 0xf56c7cf1, 0x70768a29, 0x757ec8a9, 0x0, 0x5aa53f75);
    Go(x, 15, 16, 0, 22, 0x49b40821, 0x70768a29, 0x5aa53f75, 0x374943a7, 0xf56c7cf1, 0xb74943a5, 0x0, 0xd6819c6a);
    Done(x, 16, Four(0xf56c7cf1, 0xd6819c6a, 0x5aa53f75, 0x374943a7));
  }

  lemma Empty2(x: seq<Word>)
    requires Empty(x)
    ensures Steps(Four(0xf56c7cf1, 0xd6819c6a, 0x5aa53f75, 0x374943a7), x, 16, 32) == Four(0x13707036, 0xa2205f1f, 0x1c31c384, 0xae7813db)
  {
    hide Steps, T, Shift, WordIndex;
    Operations2();
    Go(x, 16, 32, 1, 5, 0xf61e2562, 0xf56c7cf1, 0xd6819c6a, 0x5aa53f75, 0x374943a7, 0x5ea53c72, 0x0, 0x1c7d7513);
    Go(x, 17, 32, 1, 9, 0xc040b340, 0x374943a7, 0x1c7d7513, 0xd6819c6a, 0x5aa53f75, 0x9c25b51b, 0x0, 0x7bd57a3a);
    Go(x, 18, 32, 1, 14, 0x265e5a51, 0x5aa53f75, 0x7bd57a3a, 0x1c7d7513, 0xd6819c6a, 0x5afd793b, 0x0, 0xc095f13a);
    Go(x, 19, 32, 1, 20, 0xe9b6c7aa, 0xd6819c6a, 0xc095f13a, 0x7bd57a3a, 0x1c7d7513, 0x63957b3a, 0x80, 0xbd782e17);
    Go(x, 20, 32, 1, 5, 0xd62f105d, 0x1c7d7513, 0xbd782e17, 0xc095f13a, 0x7bd57a3a, 0xb950ab12, 0x0, 0x3d1e3e6c);
    Go(x, 21, 32, 1, 9, 0x02441453, 0x7bd57a3a, 0x3d1e3e6c, 0xbd782e17, 0xc095f13a, 0x3d7c3e2d, 0x0, 0x68b7b3e3);
    Go(x, 22, 32, 1, 14, 0xd8a1e681, 0xc095f13a, 0x68b7b3e3, 0x3d1e3e6c, 0xbd782e17, 0x2836326b, 0x0, 0xeb41643e);
    Go(x, 23, 32, 1, 20, 0xe7d3fbc8, 0xbd782e17, 0xeb41643e, 0x68b7b3e3, 0x3d1e3e6c, 0x69a1a5af, 0x0, 0xe422531a);
    Go(x, 24, 32, 1, 5, 0x21e1cde6, 0x3d1e3e6c, 0xe422531a, 0xeb41643e, 0x68b7b3e3, 0xe362571e, 0x0, 0x306ec122);
    Go(x, 25, 32, 1, 9, 0xc33707d6, 0x68b7b3e3, 0x306ec122, 0xe422531a, 0xeb41643e, 0x24625322, 0x0, 0xd28c77c2);
    Go(x, 26, 32, 1, 14, 0xf4d50d87, 0xeb41643e, 0xd28c77c2, 0x306ec122, 0xe422531a, 0xd04cd322, 0x0, 0xa3c663da);
    Go(x, 27, 32, 1, 20, 0x455a14ed, 0xe422531a, 0xa3c663da, 0xd28c77c2, 0x306ec122, 0xe2c677c2, 0x0, 0xa0572807);
    Go(x, 28, 32, 1, 5, 0xa9e3e905, 0x306ec122, 0xa0572807, 0xa3c663da, 0xd28c77c2, 0xa146201a, 0x0, 0x13707036);
    Go(x, 29, 32, 1, 9, 0xfcefa3f8, 0xd28c77c2, 0x13707036, 0xa0572807, 0xa3c663da, 0x03516817, 0x0, 0xae7813db);
    Go(x, 30, 32, 1, 14, 0x676f02d9, 0xa3c663da, 0xae7813db, 0x13707036, 0xa0572807, 0xb3705033, 0x0, 0x1c31c384);
    Go(x, 31, 32, 1, 20, 0x8d2a4c8a, 0xa0572807, 0x1c31c384, 0xae7813db, 0x13707036, 0xbc3843cd, 0x0, 0xa2205f1f);
    Done(x, 32, Four(0x13707036, 0xa2205f1f, 0x1c31c384, 0xae7813db));
  }

  lemma Empty3(x: seq<Word>)
    requires Empty(x)
    ensures Steps(Four(0x13707036, 0xa2205f1f, 0x1c31c384, 0xae7813db), x, 32, 48) == Four(0x3f55edfd, 0xca7d2dbd, 0x68d84ea2, 0x22a31f54)
  {
    hide Steps, T, Shift, WordIndex;
    Operations3();
    Go(x, 32, 48, 2, 4, 0xfffa3942, 0x13707036, 0xa2205f1f, 0x1c31c384, 0xae7813db, 0x10698f40, 0x0, 0xdf63eaa1);
    Go(x, 33, 48, 2, 11, 0x8771f681, 0xae7813db, 0xdf63eaa1, 0xa2205f1f, 0x1c31c384, 0x6172763a, 0x0, 0xc3689f5b);
    Go(x, 34, 48, 2, 16, 0x6d9d6122, 0x1c31c384, 0xc3689f5b, 0xdf63eaa1, 0xa2205f1f, 0xbe2b2ae5, 0x0, 0x12f3e755);
    Go(x, 35, 48, 2, 23, 0xfde5380c, 0xa2205f1f, 0x12f3e755, 0xc3689f5b, 0xdf63eaa1, 0x0ef892af, 0x0, 0x004b6669);
    Go(x, 36, 48, 2, 4, 0xa4beea44, 0xdf63eaa1, 0x004b6669, 0x12f3e755, 0xc3689f5b, 0xd1d01e67, 0x0, 0x5f7a9b2e);
    Go(x, 37, 48, 2, 11, 0x4bdecfa9, 0xc3689f5b, 0x5f7a9b2e, 0x004b6669, 0x12f3e755, 0x4dc21a12, 0x0, 0xabc34e16);
    Go(x, 38, 48, 2, 16, 0xf6bb4b60, 0x12f3e755, 0xabc34e16, 0x5f7a9b2e, 0x004b6669, 0xf4f2b351, 0x0, 0x91ca4cb7);
    Go(x, 39, 48, 2, 23, 0xbebfbc70, 0x004b6669, 0x91ca4cb7, 0xabc34e16, 0x5f7a9b2e, 0x6573998f, 0x0, 0xc5dc8c15);
    Go(x, 40, 48, 2, 4, 0x289b7ec6, 0x5f7a9b2e, 0xc5dc8c15, 0x91ca4cb7, 0xabc34e16, 0xffd58eb4, 0x0, 0x4497169d);
    Go(x, 41, 48, 2, 11, 0xeaa127fa, 0xabc34e16, 0x4497169d, 0xc5dc8c15, 0x91ca4cb7, 0x1081d63f, 0x80, 0x76fd93d4);
    Go(x, 42, 48, 2, 16, 0xd4ef3085, 0x91ca4cb7, 0x76fd93d4, 0x4497169d, 0xc5dc8c15, 0xf7b6095c, 0x0, 0xfd95f243);
    Go(x, 43, 48, 2, 23, 0x04881d05, 0xc5dc8c15, 0xfd95f243, 0x76fd93d4, 0x4497169d, 0xcfff770a, 0x0, 0x0fe32453);
    Go(x, 44, 48, 2, 4, 0xd9d4d039, 0x4497169d, 0x0fe32453, 0xfd95f243, 0x76fd93d4, 0x848b45c4, 0x0, 0x3f55edfd);
    Go(x, 45, 48, 2, 11, 0xe6db99e5, 0x76fd93d4, 0x3f55edfd, 0x0fe32453, 0xfd95f243, 0xcd233bed, 0x0, 0x22a31f54);
    Go(x, 46, 48, 2, 16, 0x1fa27cf8, 0xfd95f243, 0x22a31f54, 0x3f55edfd, 0x0fe32453, 0x1215d6fa, 0x0, 0x68d84ea2);
    Go(x, 47, 48, 2, 23, 0xc4ac5665, 0x0fe32453, 0x68d84ea2, 0x22a31f54, 0x3f55edfd, 0x752ebc0b, 0x0, 0xca7d2dbd);
    Done(x, 48, Four(0x3f55edfd, 0xca7d2dbd, 0x68d84ea2, 0x22a31f54));
  }

  lemma Empty4(x: seq<Word>)
    requires Empty(x)
    ensures Steps(Four(0x3f55edfd, 0xca7d2dbd, 0x68d84ea2, 0x22a31f54), x, 48, 64) == Four(0x7246fad3, 0x14e45506, 0xff4ea3eb, 0x6e10a476)
  {
    hide Steps, T, Shift, WordIndex;
    Operations4();
    Go(x, 48, 64, 3, 6, 0xf4292244, 0x3f55edfd, 0xca7d2dbd, 0x68d84ea2, 0x22a31f54, 0xb7a5a31d, 0x80, 0x93aa2577);
    Go(x, 49, 64, 3, 10, 0x432aff97, 0x22a31f54, 0x93aa2577, 0xca7d2dbd, 0x68d84ea2, 0x5dd298c2, 0x0, 0x1688dc85);
    Go(x, 50, 64, 3, 15, 0xab9423a7, 0x68d84ea2, 0x1688dc85, 0x93aa2577, 0xca7d2dbd, 0xa420fbb0, 0x0, 0xcd85b8cb);
    Go(x, 51, 64, 3, 21, 0xfc93a039, 0xca7d2dbd, 0xcd85b8cb, 0x1688dc85, 0x93aa2577, 0xfb5d264e, 0x0, 0x561e0689);
    Go(x, 52, 64, 3, 6, 0x655b59c3, 0x93aa2577, 0x561e0689, 0xcd85b8cb, 0x1688dc85, 0x32fa9f30, 0x0, 0x5625a114);
    Go(x, 53, 64, 3, 10, 0x8f0ccc92, 0x1688dc85, 0x5625a114, 0x561e0689, 0xcd85b8cb, 0x2061e1bd, 0x0, 0x3450f42b);
    Go(x, 54, 64, 3, 15, 0xffeff47d, 0xcd85b8cb, 0x3450f42b, 0x5625a114, 0x561e0689, 0xebd45c6b, 0x0, 0x392ad0d0);
    Go(x, 55, 64, 3, 21, 0x85845dd1, 0x561e0689, 0x392ad0d0, 0x3450f42b, 0x5625a114, 0x8daa2ad0, 0x0, 0x1e77fa61);
    Go(x, 56, 64, 3, 6, 0x6fa87e4f, 0x5625a114, 0x1e77fa61, 0x392ad0d0, 0x3450f42b, 0xe6d52b25, 0x0, 0x474a9c8c);
    Go(x, 57, 64, 3, 10, 0xfe2ce6e0, 0x3450f42b, 0x474a9c8c, 0x1e77fa61, 0x392ad0d0, 0xd9a845ce, 0x0, 0xdfce00bc);
    Go(x, 58, 64, 3, 15, 0xa3014314, 0x392ad0d0, 0xdfce00bc, 0x474a9c8c, 0x1e77fa61, 0xb8849932, 0x0, 0x36594b14);
    Go(x, 59, 64, 3, 21, 0x4e0811a1, 0x1e77fa61, 0x36594b14, 0xdfce00bc, 0x474a9c8c, 0x61336bcb, 0x0, 0x30130182);
    Go(x, 60, 64, 3, 6, 0xf7537e82, 0x474a9c8c, 0x30130182, 0x36594b14, 0xdfce00bc, 0x066ab4d7, 0x0, 0x7246fad3);
    Go(x, 61, 64, 3, 10, 0xbd3af235, 0xdfce00bc, 0x7246fad3, 0x30130182, 0x36594b14, 0xcbf5ff79, 0x0, 0x6e10a476);
    Go(x, 62, 64, 3, 15, 0x2ad7d2bb, 0x36594b14, 0x6e10a476, 0x7246fad3, 0x30130182, 0x9dba04ac, 0x0, 0xff4ea3eb);
    Go(x, 63, 64, 3, 21, 0xeb86d391, 0x30130182, 0xff4ea3eb, 0x6e10a476, 0x7246fad3, 0x91ef0399, 0x0, 0x14e45506);
    Done(x, 64, Four(0x7246fad3, 0x14e45506, 0xff4ea3eb, 0x6e10a476));
  }

  lemma EmptyBlock(x: seq<Word>)
    requires Empty(x)
    ensures Block(START, x) == Four(0xd98c1dd4, 0x04b2008f, 0x980980e9, 0x7e42f8ec)
  {
    hide Steps;
    EmptyFirst(x);
    Empty1(x);
    Empty2(x);
    Empty3(x);
    Empty4(x);
    Rounds(START, x, Four(0xf56c7cf1, 0xd6819c6a, 0x5aa53f75, 0x374943a7),
           Four(0x13707036, 0xa2205f1f, 0x1c31c384, 0xae7813db),
           Four(0x3f55edfd, 0xca7d2dbd, 0x68d84ea2, 0x22a31f54),
           Four(0x7246fad3, 0x14e45506, 0xff4ea3eb, 0x6e10a476), 16, 32, 48, 64);
  }

  lemma EmptyWords()
    ensures |Padded([])| == 64 && Empty(Words(Padded([]), 0))
  {
    hide FromOctets, Padded, Words;
    var s := Padded([]);
    forall j: nat | j < 64
      ensures |s| == 64 && s[j] == if j == 0 then 0x80 else 0
    {
      ShortPadded([], j);
    }
    forall j: nat | j < 16
      ensures Words(s, 0)[j] == Word(if j == 0 then 0x80 else 0)
    {
      WordOf(s, j);
      Octets4();
    }
  }

  /** The digest of the empty message. */
  lemma EmptyDigest()
    ensures Digest([]) == [0xd4, 0x1d, 0x8c, 0xd9, 0x8f, 0x00, 0xb2, 0x04, 0xe9, 0x80, 0x09, 0x98, 0xec, 0xf8, 0x42, 0x7e]
  {
    hide Padded, Words, Block;
    EmptyWords();
    EmptyBlock(Words(Padded([]), 0));
    OneBlock(Padded([]));
    assert WordOctets(Word(0xd98c1dd4)) == [0xd4, 0x1d, 0x8c, 0xd9];
    assert WordOctets(Word(0x04b2008f)) == [0x8f, 0x00, 0xb2, 0x04];
    assert WordOctets(Word(0x980980e9)) == [0xe9, 0x80, 0x09, 0x98];
    assert WordOctets(Word(0x7e42f8ec)) == [0xec, 0xf8, 0x42, 0x7e];
  }

  // ----- the message "a"

  predicate LetterA(x: seq<Word>)
  {
    |x| == 16 && x[0] == Word(0x00008061) && x[14] == Word(0x00000008)
    && forall j :: 1 <= j < 16 && j != 14 ==> x[j] == Word(0x00000000)
  }

  lemma LetterAFirst(x: seq<Word>)
    requires LetterA(x)
    ensures Steps(Four(0x67452301, 0xefcdab89, 0x98badcfe, 0x10325476), x, 0, 16) == Steps(Four(0x10325476, 0xa56017f4, 0xefcdab89, 0x98badcfe), x, 1, 16)
  {
    hide Steps, T, Shift, WordIndex;
    Operations1();
    Go(x, 0, 16, 0, 7, 0xd76aa478, 0x67452301, 0xefcdab89, 0x98badcfe, 0x10325476, 0x98badcfe, 0x8061, 0xa56017f4);
  }

  lemma LetterA1(x: seq<Word>)
    requires LetterA(x)
    ensures Steps(Four(0x10325476, 0xa56017f4, 0xefcdab89, 0x98badcfe), x, 1, 16) == Four(0x44244cf8, 0xf01e3ce2, 0x6360a45f, 0xd0fe9b27)
  {
    hide Steps, T, Shift, WordIndex;
    Operations1();
    Go(x, 1, 16, 0, 12, 0xe8c7b756, 0x10325476, 0xa56017f4, 0xefcdab89, 0x98badcfe, 0xbddacb8a, 0x0, 0xf2d58361);
    Go(x, 2, 16, 0, 17, 0x242070db, 0x98badcfe, 0xf2d58361, 0xa56017f4, 0xefcdab89, 0xad482be8, 0x0, 0xe65857a7);
    Go(x, 3, 16, 0, 22, 0xc1bdceee, 0xefcdab89, 0xe65857a7, 0xf2d58361, 0xa56017f4, 0xe3700371, 0x0, 0x607d9686);
    Go(x, 4, 16, 0, 7, 0xf57c0faf, 0xa56017f4, 0x607d9686, 0xe65857a7, 0xf2d58361, 0xf2d817e7, 0x0, 0x3a9d5bcc);
    Go(x, 5, 16, 0, 12, 0x4787c62a, 0xf2d58361, 0x3a9d5bcc, 0x607d9686, 0xe65857a7, 0xe45d16a7, 0x0, 0xe0a07db7);
    Go(x, 6, 16, 0, 17, 0xa8304613, 0xe65857a7, 0xe0a07db7, 0x3a9d5bcc, 0x607d9686, 0x20dddb84, 0x0, 0xd31ddc83);
    Go(x, 7, 16, 0, 22, 0xfd469501, 0x607d9686, 0xd31ddc83, 0xe0a07db7, 0x3a9d5bcc, 0xe8805fcf, 0x0, 0xa8af6da5);
    Go(x, 8, 16, 0, 7, 0x698098d8, 0x3a9d5bcc, 0xa8af6da5, 0xd31ddc83, 0xe0a07db7, 0xc00d5c93, 0x0, 0xbe580957);
    Go(x, 9, 16, 0, 12, 0x8b44f7af, 0xe0a07db7, 0xbe580957, 0xa8af6da5, 0xd31ddc83, 0xe90ddd85, 0x0, 0xf386bea6);
    Go(x, 10, 16, 0, 17, 0xffff5bb1, 0xd31ddc83, 0xf386bea6, 0xbe580957, 0xa8af6da5, 0xba294907, 0x0, 0xf5fdd933);
    Go(x, 11, 16, 0, 22, 0x895cd7be, 0xa8af6da5, 0xf5fdd933, 0xf386bea6, 0xbe580957, 0xfb849866, 0x0, 0x68493d6a);
    Go(x, 12, 16, 0, 7, 0x6b901122, 0xbe580957, 0x68493d6a, 0xf5fdd933, 0xf386bea6, 0xf3cf9ba6, 0x0, 0x44244cf8);
    Go(x, 13, 16, 0, 12, 0xfd987193, 0xf386bea6, 0x44244cf8, 0x68493d6a, 0xf5fdd933, 0xf1d99d6b, 0x0, 0xd0fe9b27);
    Go(x, 14, 16, 0, 17, 0xa679438e, 0xf5fdd933, 0xd0fe9b27, 0x44244cf8, 0x68493d6a, 0x68252c68, 0x8, 0x6360a45f);
    Go(x, 15, 16, 0, 22, 0x49b40821, 0x68493d6a, 0x6360a45f, 0xd0fe9b27, 0x44244cf8, 0x4464c8a7, 0x0, 0xf01e3ce2);
    Done(x, 16, Four(0x44244cf8, 0xf01e3ce2, 0x6360a45f, 0xd0fe9b27));
  }

  lemma LetterA2(x: seq<Word>)
    requires LetterA(x)
    ensures Steps(Four(0x44244cf8, 0xf01e3ce2, 0x6360a45f, 0xd0fe9b27), x, 16, 32) == Four(0x93842e98, 0x3745961f, 0x94a2ebee, 0xc7043b64)
  {
    hide Steps, T, Shift, WordIndex;
    Operations2();
    Go(x, 16, 32, 1, 5, 0xf61e2562, 0x44244cf8, 0xf01e3ce2, 0x6360a45f, 0xd0fe9b27, 0xf31e3c7a, 0x0, 0x9c341767);
    Go(x, 17, 32, 1, 9, 0xc040b340, 0xd0fe9b27, 0x9c341767, 0xf01e3ce2, 0x6360a45f, 0x903e1ce7, 0x0, 0x970ab3a9);
    Go(x, 18, 32, 1, 14, 0x265e5a51, 0x6360a45f, 0x970ab3a9, 0x9c341767, 0xf01e3ce2, 0x9c2a33a5, 0x0, 0xe39ffd23);
    Go(x, 19, 32, 1, 20, 0xe9b6c7aa, 0xf01e3ce2, 0xe39ffd23, 0x970ab3a9, 0x9c341767, 0x831eb5ab, 0x8061, 0x8d25cc66);
    Go(x, 20, 32, 1, 5, 0xd62f105d, 0x9c341767, 0x8d25cc66, 0xe39ffd23, 0x970ab3a9, 0xe595cc22, 0x0, 0x8c444930);
    Go(x, 21, 32, 1, 9, 0x02441453, 0x970ab3a9, 0x8c444930, 0x8d25cc66, 0xe39ffd23, 0x8c244964, 0x0, 0x7267097a);
    Go(x, 22, 32, 1, 14, 0xd8a1e681, 0xe39ffd23, 0x7267097a, 0x8c444930, 0x8d25cc66, 0x00650972, 0x0, 0x2dacb8a3);
    Go(x, 23, 32, 1, 20, 0xe7d3fbc8, 0x8d25cc66, 0x2dacb8a3, 0x7267097a, 0x8c444930, 0x7e27086a, 0x0, 0x373beab0);
    Go(x, 24, 32, 1, 5, 0x21e1cde6, 0x8c444930, 0x373beab0, 0x2dacb8a3, 0x7267097a, 0x3fabb8b1, 0x0, 0xf175e3ad);
    Go(x, 25, 32, 1, 9, 0xc33707d6, 0x7267097a, 0xf175e3ad, 0x373beab0, 0x2dacb8a3, 0x3337e2b1, 0x8, 0x9d5df67e);
    Go(x, 26, 32, 1, 14, 0xf4d50d87, 0x2dacb8a3, 0x9d5df67e, 0xf175e3ad, 0x373beab0, 0xd55de33d, 0x0, 0x87b7f475);
    Go(x, 27, 32, 1, 20, 0x455a14ed, 0x373beab0, 0x87b7f475, 0x9d5df67e, 0xf175e3ad, 0x8d3df477, 0x0, 0xc8f891b4);
    Go(x, 28, 32, 1, 5, 0xa9e3e905, 0xf175e3ad, 0xc8f891b4, 0x87b7f475, 0x9d5df67e, 0x8afa9035, 0x0, 0x93842e98);
    Go(x, 29, 32, 1, 9, 0xfcefa3f8, 0x9d5df67e, 0x93842e98, 0xc8f891b4, 0x87b7f475, 0xcbcc2590, 0x0, 0xc7043b64);
    Go(x, 30, 32, 1, 14, 0x676f02d9, 0x87b7f475, 0xc7043b64, 0x93842e98, 0xc8f891b4, 0xd3043f2c, 0x0, 0x94a2ebee);
    Go(x, 31, 32, 1, 20, 0x8d2a4c8a, 0xc8f891b4, 0x94a2ebee, 0xc7043b64, 0x93842e98, 0xd4803bec, 0x0, 0x3745961f);
    Done(x, 32, Four(0x93842e98, 0x3745961f, 0x94a2ebee, 0xc7043b64));
  }

  lemma LetterA3(x: seq<Word>)
    requires LetterA(x)
    ensures Steps(Four(0x93842e98, 0x3745961f, 0x94a2ebee, 0xc7043b64), x, 32, 48) == Four(0x0ac50e18, 0x918f93bb, 0x8a4a6356, 0x79ca7845)
  {
    hide Steps, T, Shift, WordIndex;
    Operations3();
    Go(x, 32, 48, 2, 4, 0xfffa3942, 0x93842e98, 0x3745961f, 0x94a2ebee, 0xc7043b64, 0x64e34695, 0x0, 0xbd607d1e);
    Go(x, 33, 48, 2, 11, 0x8771f681, 0xc7043b64, 0xbd607d1e, 0x3745961f, 0x94a2ebee, 0x1e8700ef, 0x0, 0xa6f72085);
    Go(x, 34, 48, 2, 16, 0x6d9d6122, 0x94a2ebee, 0xa6f72085, 0xbd607d1e, 0x3745961f, 0x2cd2cb84, 0x0, 0xbf8b4f98);
    Go(x, 35, 48, 2, 23, 0xfde5380c, 0x3745961f, 0xbf8b4f98, 0xa6f72085, 0xbd607d1e, 0xa41c1203, 0x8, 0xdaf7f308);
    Go(x, 36, 48, 2, 4, 0xa4beea44, 0xbd607d1e, 0xdaf7f308, 0xbf8b4f98, 0xa6f72085, 0xc38b9c15, 0x0, 0x35a82a7a);
    Go(x, 37, 48, 2, 11, 0x4bdecfa9, 0xa6f72085, 0x35a82a7a, 0xdaf7f308, 0xbf8b4f98, 0x50d496ea, 0x0, 0x89e0ec97);
    Go(x, 38, 48, 2, 16, 0xf6bb4b60, 0xbf8b4f98, 0x89e0ec97, 0x35a82a7a, 0xdaf7f308, 0x66bf35e5, 0x0, 0x5abe099c);
    Go(x, 39, 48, 2, 23, 0xbebfbc70, 0xdaf7f308, 0x5abe099c, 0x89e0ec97, 0x35a82a7a, 0xe6f6cf71, 0x0, 0xcf7e60db);
    Go(x, 40, 48, 2, 4, 0x289b7ec6, 0x35a82a7a, 0xcf7e60db, 0x5abe099c, 0x89e0ec97, 0x1c2085d0, 0x0, 0x75c151e2);
    Go(x, 41, 48, 2, 11, 0xeaa127fa, 0x89e0ec97, 0x75c151e2, 0xcf7e60db, 0x5abe099c, 0xe00138a5, 0x8061, 0x942e0c86);
    Go(x, 42, 48, 2, 16, 0xd4ef3085, 0x5abe099c, 0x942e0c86, 0x75c151e2, 0xcf7e60db, 0x2e913dbf, 0x0, 0x0c0e6ac4);
    Go(x, 43, 48, 2, 23, 0x04881d05, 0xcf7e60db, 0x0c0e6ac4, 0x942e0c86, 0x75c151e2, 0xede137a0, 0x0, 0xcc6f5e9e);
    Go(x, 44, 48, 2, 4, 0xd9d4d039, 0x75c151e2, 0xcc6f5e9e, 0x0c0e6ac4, 0x942e0c86, 0x544f38dc, 0x0, 0x0ac50e18);
    Go(x, 45, 48, 2, 11, 0xe6db99e5, 0x942e0c86, 0x0ac50e18, 0xcc6f5e9e, 0x0c0e6ac4, 0xcaa43a42, 0x0, 0x79ca7845);
    Go(x, 46, 48, 2, 16, 0x1fa27cf8, 0x0c0e6ac4, 0x79ca7845, 0x0ac50e18, 0xcc6f5e9e, 0xbf6028c3, 0x0, 0x8a4a6356);
    Go(x, 47, 48, 2, 23, 0xc4ac5665, 0xcc6f5e9e, 0x8a4a6356, 0x79ca7845, 0x0ac50e18, 0xf945150b, 0x0, 0x918f93bb);
    Done(x, 48, Four(0x0ac50e18, 0x918f93bb, 0x8a4a6356, 0x79ca7845));
  }

  lemma LetterA4(x: seq<Word>)
    requires LetterA(x)
    ensures Steps(Four(0x0ac50e18, 0x918f93bb, 0x8a4a6356, 0x79ca7845), x, 48, 64) == Four(0x52309e0b, 0xb8e94637, 0x49dee633, 0x50f422f3)
  {
    hide Steps, T, Shift, WordIndex;
    Operations4();
    Go(x, 48, 64, 3, 6, 0xf4292244, 0x0ac50e18, 0x918f93bb, 0x8a4a6356, 0x79ca7845, 0x1df5f4ed, 0x8061, 0xcab8fe42);
    Go(x, 49, 64, 3, 10, 0x432aff97, 0x79ca7845, 0xcab8fe42, 0x918f93bb, 0x8a4a6356, 0x6e326d50, 0x0, 0x6a4daeee);
    Go(x, 50, 64, 3, 15, 0xab9423a7, 0x8a4a6356, 0x6a4daeee, 0xcab8fe42, 0x918f93bb, 0xa4c510ac, 0x8, 0x36269c3f);
    Go(x, 51, 64, 3, 21, 0xfc93a039, 0x918f93bb, 0x36269c3f, 0x6a4daeee, 0xcab8fe42, 0x5d2a3351, 0x0, 0x1ee405eb);
    Go(x, 52, 64, 3, 6, 0x655b59c3, 0xcab8fe42, 0x1ee405eb, 0x36269c3f, 0x6a4daeee, 0xa9d0c9c4, 0x0, 0x982c7861);
    Go(x, 53, 64, 3, 10, 0x8f0ccc92, 0x6a4daeee, 0x982c7861, 0x1ee405eb, 0x36269c3f, 0xc7197e0a, 0x0, 0x6812a362);
    Go(x, 54, 64, 3, 15, 0xffeff47d, 0x36269c3f, 0x6812a362, 0x982c7861, 0x1ee405eb, 0x71378317, 0x0, 0x71fc7709);
    Go(x, 55, 64, 3, 21, 0x85845dd1, 0x1ee405eb, 0x71fc7709, 0x6812a362, 0x982c7861, 0x1fed54fd, 0x0, 0x893501c0);
    Go(x, 56, 64, 3, 6, 0x6fa87e4f, 0x982c7861, 0x893501c0, 0x71fc7709, 0x6812a362, 0xee012ad4, 0x0, 0xfebd62fd);
    Go(x, 57, 64, 3, 10, 0xfe2ce6e0, 0x6812a362, 0xfebd62fd, 0x893501c0, 0x71fc7709, 0x778aeb3f, 0x0, 0x28936a74);
    Go(x, 58, 64, 3, 15, 0xa3014314, 0x71fc7709, 0x28936a74, 0xfebd62fd, 0x893501c0, 0x80669c82, 0x0, 0x53e33526);
    Go(x, 59, 64, 3, 21, 0x4e0811a1, 0x893501c0, 0x53e33526, 0x28936a74, 0xfebd62fd, 0x7b70d752, 0x0, 0xaa4d8ae3);
    Go(x, 60, 64, 3, 6, 0xf7537e82, 0xfebd62fd, 0xaa4d8ae3, 0x53e33526, 0x28936a74, 0xac8eaacd, 0x0, 0x52309e0b);
    Go(x, 61, 64, 3, 10, 0xbd3af235, 0x28936a74, 0x52309e0b, 0xaa4d8ae3, 0x53e33526, 0x54715438, 0x0, 0x50f422f3);
    Go(x, 62, 64, 3, 15, 0x2ad7d2bb, 0x53e33526, 0x50f422f3, 0x52309e0b, 0xaa4d8ae3, 0x07c6e9f4, 0x0, 0x49dee633);
    Go(x, 63, 64, 3, 21, 0xeb86d391, 0xaa4d8ae3, 0x49dee633, 0x50f422f3, 0x52309e0b, 0xbd2bc504, 0x0, 0xb8e94637);
    Done(x, 64, Four(0x52309e0b, 0xb8e94637, 0x49dee633, 0x50f422f3));
  }

  lemma LetterABlock(x: seq<Word>)
    requires LetterA(x)
    ensures Block(START, x) == Four(0xb975c10c, 0xa8b6f1c0, 0xe299c331, 0x61267769)
  {
    hide Steps;
    LetterAFirst(x);
    LetterA1(x);
    LetterA2(x);
    LetterA3(x);
    LetterA4(x);
    Rounds(START, x, Four(0x44244cf8, 0xf01e3ce2, 0x6360a45f, 0xd0fe9b27),
           Four(0x93842e98, 0x3745961f, 0x94a2ebee, 0xc7043b64),
           Four(0x0ac50e18, 0x918f93bb, 0x8a4a6356, 0x79ca7845),
           Four(0x52309e0b, 0xb8e94637, 0x49dee633, 0x50f422f3), 16, 32, 48, 64);
  }

  lemma LetterAWords()
    ensures |Padded([0x61])| == 64 && LetterA(Words(Padded([0x61]), 0))
  {
    hide FromOctets, Padded, Words;
    var s := Padded([0x61]);
    forall j: nat | j < 64
      ensures |s| == 64 && s[j] == if j == 0 then 0x61 else if j == 1 then 0x80 else if j == 56 then 8 else 0
    {
      ShortPadded([0x61], j);
    }
    forall j: nat | j < 16
      ensures Words(s, 0)[j] == Word(if j == 0 then 0x8061 else if j == 14 then 8 else 0)
    {
      WordOf(s, j);
      Octets4();
    }
  }

  /** The digest of the message "a". */
  lemma LetterADigest()
    ensures Digest([0x61]) == [0x0c, 0xc1, 0x75, 0xb9, 0xc0, 0xf1, 0xb6, 0xa8, 0x31, 0xc3, 0x99, 0xe2, 0x69, 0x77, 0x26, 0x61]
  {
    hide Padded, Words, Block;
    LetterAWords();
    LetterABlock(Words(Padded([0x61]), 0));
    OneBlock(Padded([0x61]));
    assert WordOctets(Word(0xb975c10c)) == [0x0c, 0xc1, 0x75, 0xb9];
    assert WordOctets(Word(0xa8b6f1c0)) == [0xc0, 0xf1, 0xb6, 0xa8];
    assert WordOctets(Word(0xe299c331)) == [0x31, 0xc3, 0x99, 0xe2];
    assert WordOctets(Word(0x61267769)) == [0x69, 0x77, 0x26, 0x61];
  }
}
