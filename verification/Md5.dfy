/** The digest as the program computes it: buffers filled by index and sixty-four unrolled operations. */
module Md5 {
  import opened Bytes
  import opened Md5Spec

  // ----- the block function

  /** One unrolled operation: the accumulator takes the sum, is rotated, and takes b. */
  function Mix(round: nat, a: Word, b: Word, c: Word, d: Word, x: Word, s: bv32, ac: Word): (r: Word)
    requires s <= 32
  {
    Add(RotateLeft(Add(a, Add(Add(Aux(round, b, c, d), x), ac)), s), b)
  }

  function FF(a: Word, b: Word, c: Word, d: Word, x: Word, s: bv32, ac: Word): (r: Word)
    requires s <= 32
  {
    Mix(0, a, b, c, d, x, s, ac)
  }

  function GG(a: Word, b: Word, c: Word, d: Word, x: Word, s: bv32, ac: Word): (r: Word)
    requires s <= 32
  {
    Mix(1, a, b, c, d, x, s, ac)
  }

  function HH(a: Word, b: Word, c: Word, d: Word, x: Word, s: bv32, ac: Word): (r: Word)
    requires s <= 32
  {
    Mix(2, a, b, c, d, x, s, ac)
  }

  function II(a: Word, b: Word, c: Word, d: Word, x: Word, s: bv32, ac: Word): (r: Word)
    requires s <= 32
  {
    Mix(3, a, b, c, d, x, s, ac)
  }

  lemma TurnIsMix(round: nat, r: Regs, x: Word, s: bv32, t: Word)
    requires s <= 32
    ensures Turn(round, r, x, s, t) == Mix(round, r.a, r.b, r.c, r.d, x, s, t)
  {
    hide Aux, RotateLeft, Add;
    var f := Aux(round, r.b, r.c, r.d);
    AddCommutes(r.b, RotateLeft(Add(r.a, Add(Add(f, x), t)), s));
  }

  lemma StepIsMix(r: Regs, x: seq<Word>, i: nat)
    requires |x| == 16 && i < 64
    ensures Step(r, x, i) == Regs(r.d, Mix(i / 16, r.a, r.b, r.c, r.d, x[WordIndex(i)], Shift(i), T(i)), r.b, r.c)
  {
    hide Turn, Mix, WordIndex, Shift, T;
    TurnIsMix(i / 16, r, x[WordIndex(i)], Shift(i), T(i));
  }

  /** Four operations written with renamed registers are four turns of the registers. */
  lemma FourSteps(r: Regs, x: seq<Word>, i: nat)
    requires |x| == 16 && i % 4 == 0 && i + 4 <= 64
    ensures var a := Mix(i / 16, r.a, r.b, r.c, r.d, x[WordIndex(i)], Shift(i), T(i));
            var d := Mix(i / 16, r.d, a, r.b, r.c, x[WordIndex(i + 1)], Shift(i + 1), T(i + 1));
            var c := Mix(i / 16, r.c, d, a, r.b, x[WordIndex(i + 2)], Shift(i + 2), T(i + 2));
            var b := Mix(i / 16, r.b, c, d, a, x[WordIndex(i + 3)], Shift(i + 3), T(i + 3));
            Steps(r, x, i, i + 4) == Regs(a, b, c, d)
  {
    hide Mix, Step, WordIndex, Shift, T;
    StepIsMix(r, x, i);
    var r1 := Step(r, x, i);
    StepIsMix(r1, x, i + 1);
    var r2 := Step(r1, x, i + 1);
    StepIsMix(r2, x, i + 2);
    var r3 := Step(r2, x, i + 2);
    StepIsMix(r3, x, i + 3);
    var r4 := Step(r3, x, i + 3);
    assert Steps(r4, x, i + 4, i + 4) == r4;
    assert Steps(r3, x, i + 3, i + 4) == r4;
    assert Steps(r2, x, i + 2, i + 4) == r4;
    assert Steps(r1, x, i + 1, i + 4) == r4;
  }

  lemma {:induction false} StepsJoin(r: Regs, x: seq<Word>, i: nat, j: nat, k: nat)
    requires |x| == 16 && i <= j <= k <= 64
    ensures Steps(Steps(r, x, i, j), x, j, k) == Steps(r, x, i, k)
    decreases j - i
  {
    hide Step;
    if i == j {
    } else {
      StepsJoin(Step(r, x, i), x, i + 1, j, k);
    }
  }

  lemma Schedule1()
    ensures WordIndex(0) == 0 && WordIndex(1) == 1 && WordIndex(2) == 2 && WordIndex(3) == 3
    ensures WordIndex(4) == 4 && WordIndex(5) == 5 && WordIndex(6) == 6 && WordIndex(7) == 7
    ensures WordIndex(8) == 8 && WordIndex(9) == 9 && WordIndex(10) == 10 && WordIndex(11) == 11
    ensures WordIndex(12) == 12 && WordIndex(13) == 13 && WordIndex(14) == 14 && WordIndex(15) == 15
    ensures Shift(0) == 7 && Shift(4) == 7 && Shift(8) == 7 && Shift(12) == 7
    ensures Shift(1) == 12 && Shift(5) == 12 && Shift(9) == 12 && Shift(13) == 12
    ensures Shift(2) == 17 && Shift(6) == 17 && Shift(10) == 17 && Shift(14) == 17
    ensures Shift(3) == 22 && Shift(7) == 22 && Shift(11) == 22 && Shift(15) == 22
  {
  }

  method Round1(x: seq<Word>, r: Regs) returns (q: Regs)
    requires |x| == 16
    ensures q == Steps(r, x, 0, 16)
  {
    hide Mix, Steps, T, WordIndex, Shift;
    Schedule1();
    var a, b, c, d := r.a, r.b, r.c, r.d;
    a := FF(a, b, c, d, x[0], 7, T(0));
    d := FF(d, a, b, c, x[1], 12, T(1));
    c := FF(c, d, a, b, x[2], 17, T(2));
    b := FF(b, c, d, a, x[3], 22, T(3));
    FourSteps(r, x, 0);
    ghost var g1 := Regs(a, b, c, d);
    a := FF(a, b, c, d, x[4], 7, T(4));
    d := FF(d, a, b, c, x[5], 12, T(5));
    c := FF(c, d, a, b, x[6], 17, T(6));
    b := FF(b, c, d, a, x[7], 22, T(7));
    FourSteps(g1, x, 4);
    ghost var g2 := Regs(a, b, c, d);
    a := FF(a, b, c, d, x[8], 7, T(8));
    d := FF(d, a, b, c, x[9], 12, T(9));
    c := FF(c, d, a, b, x[10], 17, T(10));
    b := FF(b, c, d, a, x[11], 22, T(11));
    FourSteps(g2, x, 8);
    ghost var g3 := Regs(a, b, c, d);
    a := FF(a, b, c, d, x[12], 7, T(12));
    d := FF(d, a, b, c, x[13], 12, T(13));
    c := FF(c, d, a, b, x[14], 17, T(14));
    b := FF(b, c, d, a, x[15], 22, T(15));
    FourSteps(g3, x, 12);
    ghost var g4 := Regs(a, b, c, d);
    StepsJoin(r, x, 0, 4, 8);
    StepsJoin(r, x, 0, 8, 12);
    StepsJoin(r, x, 0, 12, 16);
    q := Regs(a, b, c, d);
  }

  lemma Schedule2()
    ensures WordIndex(16) == 1 && WordIndex(17) == 6 && WordIndex(18) == 11 && WordIndex(19) == 0
    ensures WordIndex(20) == 5 && WordIndex(21) == 10 && WordIndex(22) == 15 && WordIndex(23) == 4
    ensures WordIndex(24) == 9 && WordIndex(25) == 14 && WordIndex(26) == 3 && WordIndex(27) == 8
    ensures WordIndex(28) == 13 && WordIndex(29) == 2 && WordIndex(30) == 7 && WordIndex(31) == 12
    ensures Shift(16) == 5 && Shift(20) == 5 && Shift(24) == 5 && Shift(28) == 5
    ensures Shift(17) == 9 && Shift(21) == 9 && Shift(25) == 9 && Shift(29) == 9
    ensures Shift(18) == 14 && Shift(22) == 14 && Shift(26) == 14 && Shift(30) == 14
    ensures Shift(19) == 20 && Shift(23) == 20 && Shift(27) == 20 && Shift(31) == 20
  {
  }

  method Round2(x: seq<Word>, r: Regs) returns (q: Regs)
    requires |x| == 16
    ensures q == Steps(r, x, 16, 32)
  {
    hide Mix, Steps, T, WordIndex, Shift;
    Schedule2();
    var a, b, c, d := r.a, r.b, r.c, r.d;
    a := GG(a, b, c, d, x[1], 5, T(16));
    d := GG(d, a, b, c, x[6], 9, T(17));
    c := GG(c, d, a, b, x[11], 14, T(18));
    b := GG(b, c, d, a, x[0], 20, T(19));
    FourSteps(r, x, 16);
    ghost var g1 := Regs(a, b, c, d);
    a := GG(a, b, c, d, x[5], 5, T(20));
    d := GG(d, a, b, c, x[10], 9, T(21));
    c := GG(c, d, a, b, x[15], 14, T(22));
    b := GG(b, c, d, a, x[4], 20, T(23));
    FourSteps(g1, x, 20);
    ghost var g2 := Regs(a, b, c, d);
    a := GG(a, b, c, d, x[9], 5, T(24));
    d := GG(d, a, b, c, x[14], 9, T(25));
    c := GG(c, d, a, b, x[3], 14, T(26));
    b := GG(b, c, d, a, x[8], 20, T(27));
    FourSteps(g2, x, 24);
    ghost var g3 := Regs(a, b, c, d);
    a := GG(a, b, c, d, x[13], 5, T(28));
    d := GG(d, a, b, c, x[2], 9, T(29));
    c := GG(c, d, a, b, x[7], 14, T(30));
    b := GG(b, c, d, a, x[12], 20, T(31));
    FourSteps(g3, x, 28);
    ghost var g4 := Regs(a, b, c, d);
    StepsJoin(r, x, 16, 20, 24);
    StepsJoin(r, x, 16, 24, 28);
    StepsJoin(r, x, 16, 28, 32);
    q := Regs(a, b, c, d);
  }

  lemma Schedule3()
    ensures WordIndex(32) == 5 && WordIndex(33) == 8 && WordIndex(34) == 11 && WordIndex(35) == 14
    ensures WordIndex(36) == 1 && WordIndex(37) == 4 && WordIndex(38) == 7 && WordIndex(39) == 10
    ensures WordIndex(40) == 13 && WordIndex(41) == 0 && WordIndex(42) == 3 && WordIndex(43) == 6
    ensures WordIndex(44) == 9 && WordIndex(45) == 12 && WordIndex(46) == 15 && WordIndex(47) == 2
    ensures Shift(32) == 4 && Shift(36) == 4 && Shift(40) == 4 && Shift(44) == 4
    ensures Shift(33) == 11 && Shift(37) == 11 && Shift(41) == 11 && Shift(45) == 11
    ensures Shift(34) == 16 && Shift(38) == 16 && Shift(42) == 16 && Shift(46) == 16
    ensures Shift(35) == 23 && Shift(39) == 23 && Shift(43) == 23 && Shift(47) == 23
  {
  }

  method Round3(x: seq<Word>, r: Regs) returns (q: Regs)
    requires |x| == 16
    ensures q == Steps(r, x, 32, 48)
  {
    hide Mix, Steps, T, WordIndex, Shift;
    Schedule3();
    var a, b, c, d := r.a, r.b, r.c, r.d;
    a := HH(a, b, c, d, x[5], 4, T(32));
    d := HH(d, a, b, c, x[8], 11, T(33));
    c := HH(c, d, a, b, x[11], 16, T(34));
    b := HH(b, c, d, a, x[14], 23, T(35));
    FourSteps(r, x, 32);
    ghost var g1 := Regs(a, b, c, d);
    a := HH(a, b, c, d, x[1], 4, T(36));
    d := HH(d, a, b, c, x[4], 11, T(37));
    c := HH(c, d, a, b, x[7], 16, T(38));
    b := HH(b, c, d, a, x[10], 23, T(39));
    FourSteps(g1, x, 36);
    ghost var g2 := Regs(a, b, c, d);
    a := HH(a, b, c, d, x[13], 4, T(40));
    d := HH(d, a, b, c, x[0], 11, T(41));
    c := HH(c, d, a, b, x[3], 16, T(42));
    b := HH(b, c, d, a, x[6], 23, T(43));
    FourSteps(g2, x, 40);
    ghost var g3 := Regs(a, b, c, d);
    a := HH(a, b, c, d, x[9], 4, T(44));
    d := HH(d, a, b, c, x[12], 11, T(45));
    c := HH(c, d, a, b, x[15], 16, T(46));
    b := HH(b, c, d, a, x[2], 23, T(47));
    FourSteps(g3, x, 44);
    ghost var g4 := Regs(a, b, c, d);
    StepsJoin(r, x, 32, 36, 40);
    StepsJoin(r, x, 32, 40, 44);
    StepsJoin(r, x, 32, 44, 48);
    q := Regs(a, b, c, d);
  }

  lemma Schedule4()
    ensures WordIndex(48) == 0 && WordIndex(49) == 7 && WordIndex(50) == 14 && WordIndex(51) == 5
    ensures WordIndex(52) == 12 && WordIndex(53) == 3 && WordIndex(54) == 10 && WordIndex(55) == 1
    ensures WordIndex(56) == 8 && WordIndex(57) == 15 && WordIndex(58) == 6 && WordIndex(59) == 13
    ensures WordIndex(60) == 4 && WordIndex(61) == 11 && WordIndex(62) == 2 && WordIndex(63) == 9
    ensures Shift(48) == 6 && Shift(52) == 6 && Shift(56) == 6 && Shift(60) == 6
    ensures Shift(49) == 10 && Shift(53) == 10 && Shift(57) == 10 && Shift(61) == 10
    ensures Shift(50) == 15 && Shift(54) == 15 && Shift(58) == 15 && Shift(62) == 15
    ensures Shift(51) == 21 && Shift(55) == 21 && Shift(59) == 21 && Shift(63) == 21
  {
  }

  method Round4(x: seq<Word>, r: Regs) returns (q: Regs)
    requires |x| == 16
    ensures q == Steps(r, x, 48, 64)
  {
    hide Mix, Steps, T, WordIndex, Shift;
    Schedule4();
    var a, b, c, d := r.a, r.b, r.c, r.d;
    a := II(a, b, c, d, x[0], 6, T(48));
    d := II(d, a, b, c, x[7], 10, T(49));
    c := II(c, d, a, b, x[14], 15, T(50));
    b := II(b, c, d, a, x[5], 21, T(51));
    FourSteps(r, x, 48);
    ghost var g1 := Regs(a, b, c, d);
    a := II(a, b, c, d, x[12], 6, T(52));
    d := II(d, a, b, c, x[3], 10, T(53));
    c := II(c, d, a, b, x[10], 15, T(54));
    b := II(b, c, d, a, x[1], 21, T(55));
    FourSteps(g1, x, 52);
    ghost var g2 := Regs(a, b, c, d);
    a := II(a, b, c, d, x[8], 6, T(56));
    d := II(d, a, b, c, x[15], 10, T(57));
    c := II(c, d, a, b, x[6], 15, T(58));
    b := II(b, c, d, a, x[13], 21, T(59));
    FourSteps(g2, x, 56);
    ghost var g3 := Regs(a, b, c, d);
    a := II(a, b, c, d, x[4], 6, T(60));
    d := II(d, a, b, c, x[11], 10, T(61));
    c := II(c, d, a, b, x[2], 15, T(62));
    b := II(b, c, d, a, x[9], 21, T(63));
    FourSteps(g3, x, 60);
    ghost var g4 := Regs(a, b, c, d);
    StepsJoin(r, x, 48, 52, 56);
    StepsJoin(r, x, 48, 56, 60);
    StepsJoin(r, x, 48, 60, 64);
    q := Regs(a, b, c, d);
  }

  /** All four rounds, added into the state in place. */
  method DoTheRounds(x: array<Word>, state: array<Word>)
    requires x.Length == 16 && state.Length == 4 && x != state
    modifies state
    ensures AsRegs(state[..]) == Block(old(AsRegs(state[..])), x[..])
  {
    hide Steps, Add;
    var r := Regs(state[0], state[1], state[2], state[3]);
    var q := Round1(x[..], r);
    StepsJoin(r, x[..], 0, 16, 32);
    q := Round2(x[..], q);
    StepsJoin(r, x[..], 0, 32, 48);
    q := Round3(x[..], q);
    StepsJoin(r, x[..], 0, 48, 64);
    q := Round4(x[..], q);
    state[0] := Add(state[0], q.a);
    state[1] := Add(state[1], q.b);
    state[2] := Add(state[2], q.c);
    state[3] := Add(state[3], q.d);
  }

  function AsRegs(s: seq<Word>): (r: Regs)
    requires |s| == 4
  {
    Regs(s[0], s[1], s[2], s[3])
  }

  // ----- padding

  /**
   * The largest length for which no 32-bit sum wraps: the block loop adds 64 to the padded length
   * before it stops.
   */
  const MAX_LEN := 0x1_0000_0000 - 137

  /** The length up to which the program pads, leaving eight bytes for the bit count. */
  function Length448(len: nat): (n: nat)
  {
    var n := len + 64 - len % 64 - 8;
    if n <= len then n + 64 else n
  }

  lemma Length448Is(len: nat)
    ensures Length448(len) == len + 1 + ZeroCount(len)
  {
    var r := len % 64;
    if r < 56 {
      assert (119 - r) % 64 == 55 - r;
    } else {
      assert (119 - r) % 64 == 119 - r;
    }
  }

  /** The two 32-bit halves of the bit count: len << 3 loses its high bits, which len >> 29 keeps. */
  lemma BitCountHalves(len: nat)
    ensures 8 * len % 0x1_0000_0000 + 0x1_0000_0000 * (len / 0x2000_0000) == 8 * len
  {
  }

  lemma PeelOctet(low: nat, high: nat, p: nat)
    requires p == 0x100_0000 || p == 0x1_0000 || p == 0x100 || p == 1
    ensures (low + 256 * p * high) / 256 == low / 256 + p * high
    ensures (low + 256 * p * high) % 256 == low % 256
  {
  }

  /** The low word's bytes come first, then the high word's. */
  lemma OctetsOfHalves(low: nat, high: nat, n: nat)
    requires low < 0x1_0000_0000 && n == low + 0x1_0000_0000 * high
    ensures forall k :: 0 <= k < 4 ==> OctetAt(n, k) == OctetAt(low, k)
    ensures forall k :: 0 <= k < 4 ==> OctetAt(n, k + 4) == OctetAt(high, k)
  {
    PeelOctet(low, high, 0x100_0000);
    PeelOctet(low / 256, high, 0x1_0000);
    PeelOctet(low / 256 / 256, high, 0x100);
    PeelOctet(low / 256 / 256 / 256, high, 1);
    hide OctetAt;
    OctetUnfold(n);
    OctetUnfold(low);
    assert n / 256 / 256 / 256 / 256 == high;
    OctetUnfoldHigh(n);
  }

  lemma OctetUnfold(n: nat)
    ensures OctetAt(n, 0) == n % 256 && OctetAt(n, 1) == n / 256 % 256
    ensures OctetAt(n, 2) == n / 256 / 256 % 256 && OctetAt(n, 3) == n / 256 / 256 / 256 % 256
  {
  }

  lemma OctetUnfoldHigh(n: nat)
    ensures forall k :: 0 <= k < 4 ==> OctetAt(n, k + 4) == OctetAt(n / 256 / 256 / 256 / 256, k)
  {
    forall k | 0 <= k < 4
      ensures OctetAt(n, k + 4) == OctetAt(n / 256 / 256 / 256 / 256, k)
    {
      OctetSkip(n, k + 4);
      OctetSkip(n / 256, k + 3);
      OctetSkip(n / 256 / 256, k + 2);
      OctetSkip(n / 256 / 256 / 256, k + 1);
    }
  }

  lemma OctetSkip(n: nat, k: nat)
    requires k > 0
    ensures OctetAt(n, k) == OctetAt(n / 256, k - 1)
  {
  }

  /** Writes the four bytes of a 32-bit count by masking and shifting. */
  method WriteCount(ret: array<byte>, q: nat, count: nat)
    requires q + 4 <= ret.Length
    modifies ret
    ensures forall k :: 0 <= k < 4 ==> ret[q + k] == OctetAt(count, k)
    ensures forall i :: 0 <= i < ret.Length && (i < q || i >= q + 4) ==> ret[i] == old(ret[i])
  {
    OctetUnfold(count);
    var rest := count;
    ret[q] := rest % 256;
    rest := rest / 256;
    ret[q + 1] := rest % 256;
    rest := rest / 256;
    ret[q + 2] := rest % 256;
    rest := rest / 256;
    ret[q + 3] := rest % 256;
  }

  /** The padded copy. No 32-bit sum wraps for the lengths allowed here. */
  method CreatePaddedCopy(b: seq<byte>) returns (ret: array<byte>)
    requires |b| <= MAX_LEN
    ensures fresh(ret) && ret[..] == Padded(b)
  {
    hide ZeroCount, OctetAt;
    var len := |b|;
    var newLen448 := Length448(len);
    Length448Is(len);
    ret := new byte[newLen448 + 8];
    forall i | 0 <= i < len {
      ret[i] := b[i];
    }
    ret[len] := 0x80;
    for q := len + 1 to newLen448
      invariant forall i :: 0 <= i < len ==> ret[i] == b[i]
      invariant ret[len] == 0x80
      invariant forall i :: len < i < q ==> ret[i] == 0
    {
      ret[q] := 0;
    }
    ghost var before := ret[..];
    WriteCount(ret, newLen448, 8 * len % 0x1_0000_0000);
    ghost var between := ret[..];
    WriteCount(ret, newLen448 + 4, len / 0x2000_0000);
    CountWritten(before, between, ret[..], newLen448, 8 * len % 0x1_0000_0000, len / 0x2000_0000);
    PaddedLayout(b, ret[..]);
  }

  /** What the two writes of the count leave in the buffer. */
  lemma CountWritten(before: seq<byte>, between: seq<byte>, after: seq<byte>, q: nat, low: nat, high: nat)
    requires |before| == |between| == |after| == q + 8
    requires forall k :: 0 <= k < 4 ==> between[q + k] == OctetAt(low, k)
    requires forall i :: 0 <= i < q + 8 && (i < q || i >= q + 4) ==> between[i] == before[i]
    requires forall k :: 0 <= k < 4 ==> after[q + 4 + k] == OctetAt(high, k)
    requires forall i :: 0 <= i < q + 8 && (i < q + 4 || i >= q + 8) ==> after[i] == between[i]
    ensures after[..q] == before[..q]
    ensures forall k :: 0 <= k < 4 ==> after[q + k] == OctetAt(low, k)
    ensures forall k :: 0 <= k < 4 ==> after[q + 4 + k] == OctetAt(high, k)
  {
    hide OctetAt;
  }

  /** The message, the mark, zeros and the two halves of the count are the padded message. */
  lemma PaddedLayout(b: seq<byte>, r: seq<byte>)
    requires var z := |b| + 1 + ZeroCount(|b|);
             && |r| == z + 8 && r[..|b|] == b && r[|b|] == 0x80
             && (forall i :: |b| < i < z ==> r[i] == 0)
             && (forall k :: 0 <= k < 4 ==> r[z + k] == OctetAt(8 * |b| % 0x1_0000_0000, k))
             && (forall k :: 0 <= k < 4 ==> r[z + 4 + k] == OctetAt(|b| / 0x2000_0000, k))
    ensures r == Padded(b)
  {
    hide ZeroCount, OctetAt, Padded;
    var low, high := 8 * |b| % 0x1_0000_0000, |b| / 0x2000_0000;
    BitCountHalves(|b|);
    var count := 8 * |b|;
    OctetsOfHalves(low, high, count);
    var z := |b| + 1 + ZeroCount(|b|);
    PaddedAt(b, 0);
    forall i | 0 <= i < |r|
      ensures r[i] == Padded(b)[i]
    {
      PaddedAt(b, i);
      if i < |b| {
        assert r[..|b|][i] == b[i];
      } else if i >= z + 4 {
        assert r[z + 4 + (i - z - 4)] == OctetAt(high, i - z - 4);
        assert OctetAt(count, (i - z - 4) + 4) == OctetAt(high, i - z - 4);
      } else if i >= z {
        assert r[z + (i - z)] == OctetAt(low, i - z);
        assert OctetAt(count, i - z) == OctetAt(low, i - z);
      }
    }
  }

  lemma PaddedAt(m: seq<byte>, i: nat)
    requires i < |Padded(m)|
    ensures var z := |m| + 1 + ZeroCount(|m|);
            && |Padded(m)| == z + 8
            && Padded(m)[i] == if i < |m| then m[i]
                               else if i == |m| then 0x80
                               else if i < z then 0
                               else OctetAt(8 * |m|, i - z)
  {
    hide ZeroCount, OctetAt;
  }

  // ----- the loop over blocks

  lemma ShiftedIn(b0: bv32, b1: bv32, b2: bv32, b3: bv32)
    ensures (((((b3 << 8) | b2) << 8) | b1) << 8) | b0 == b0 | (b1 << 8) | (b2 << 16) | (b3 << 24)
  {
  }

  /** Four octets read backwards, each shifted in from below. */
  function Assembled(o0: byte, o1: byte, o2: byte, o3: byte): (w: Word)
  {
    Word(((((((o3 as bv32) << 8) | (o2 as bv32)) << 8) | (o1 as bv32)) << 8) | (o0 as bv32))
  }

  lemma AssembledIs(o0: byte, o1: byte, o2: byte, o3: byte)
    ensures Assembled(o0, o1, o2, o3) == FromOctets(o0, o1, o2, o3)
  {
    ShiftedIn(o0 as bv32, o1 as bv32, o2 as bv32, o3 as bv32);
  }

  /** Fills the work buffer: the index starts on the last octet of a word, walks back, and jumps ahead. */
  method LoadBlock(input: array<byte>, i: nat, work: array<Word>)
    requires work.Length == 16 && i + 64 <= input.Length
    modifies work
    ensures work[..] == Words(input[..], i)
  {
    hide Assembled, FromOctets;
    var k := i + 3;
    for j := 0 to 16
      invariant k == i + 3 + 4 * j
      invariant forall w :: 0 <= w < j ==>
                  work[w] == FromOctets(input[i + 4 * w], input[i + 4 * w + 1], input[i + 4 * w + 2], input[i + 4 * w + 3])
    {
      var o3 := input[k];
      k := k - 1;
      var o2 := input[k];
      k := k - 1;
      var o1 := input[k];
      k := k - 1;
      var o0 := input[k];
      AssembledIs(o0, o1, o2, o3);
      work[j] := Assembled(o0, o1, o2, o3);
      k := k + 7;
    }
  }

  method WriteWord(sum: array<byte>, j: nat, w: Word)
    requires j + 4 <= sum.Length
    modifies sum
    ensures sum[j..j + 4] == WordOctets(w)
    ensures forall i :: 0 <= i < sum.Length && (i < j || i >= j + 4) ==> sum[i] == old(sum[i])
  {
    var o := UnloadedOctets(w);
    UnloadedIs(w);
    sum[j] := o[0];
    sum[j + 1] := o[1];
    sum[j + 2] := o[2];
    sum[j + 3] := o[3];
  }

  /** The octets of a word, mask and shift repeated. */
  function UnloadedOctets(w: Word): (s: seq<byte>)
    ensures |s| == 4
  {
    var k1 := w.bits >> 8;
    var k2 := k1 >> 8;
    var k3 := k2 >> 8;
    [(w.bits & 0xff) as int, (k1 & 0xff) as int, (k2 & 0xff) as int, (k3 & 0xff) as int]
  }

  lemma ShiftsAdd(k: bv32)
    ensures (k >> 8) >> 8 == k >> 16 && ((k >> 8) >> 8) >> 8 == k >> 24
  {
  }

  lemma UnloadedIs(w: Word)
    ensures UnloadedOctets(w) == WordOctets(w)
  {
    ShiftsAdd(w.bits);
  }

  method WriteDigest(r: Regs) returns (sum: array<byte>)
    ensures fresh(sum) && sum[..] == WordOctets(r.a) + WordOctets(r.b) + WordOctets(r.c) + WordOctets(r.d)
  {
    hide WordOctets;
    sum := new byte[16];
    WriteWord(sum, 0, r.a);
    ghost var a := sum[0..4];
    WriteWord(sum, 4, r.b);
    assert sum[0..4] == a;
    ghost var ab := sum[0..8];
    assert ab == sum[0..4] + sum[4..8];
    WriteWord(sum, 8, r.c);
    assert sum[0..8] == ab;
    ghost var abc := sum[0..12];
    assert abc == sum[0..8] + sum[8..12];
    WriteWord(sum, 12, r.d);
    assert sum[0..12] == abc;
    assert sum[..] == sum[0..12] + sum[12..16];
  }

  lemma PaddedFits(b: seq<byte>)
    requires |b| <= MAX_LEN
    ensures |Padded(b)| + 64 < 0x1_0000_0000
  {
    hide ZeroCount, OctetAt;
    var l := |Padded(b)|;
    assert l % 64 == 0 && l < |b| + 73;
    assert l <= 0x1_0000_0000 - 65;
    assert 64 * (l / 64) == l;
  }

  /** For every message short enough the digest is that of RFC 1321. */
  method CalculateDigest(b: seq<byte>) returns (sum: array<byte>)
    requires |b| <= MAX_LEN
    ensures fresh(sum) && sum[..] == Digest(b)
  {
    hide Padded, Block, WordOctets, Words;
    var state := new Word[4];
    state[0], state[1] := START.a, START.b;
    state[2], state[3] := START.c, START.d;
    var input := CreatePaddedCopy(b);
    var work := new Word[16](_ => Word(0));
    PaddedFits(b);
    var i := 0;
    while true
      invariant 0 <= i <= input.Length
      invariant input[..] == Padded(b)
      invariant Blocks(START, Padded(b), 0) == Blocks(AsRegs(state[..]), Padded(b), i)
      decreases input.Length - i
    {
      var newI := (i + 64) % 0x1_0000_0000;
      if newI > input.Length {
        break;
      }
      LoadBlock(input, i, work);
      DoTheRounds(work, state);
      i := newI;
    }
    sum := WriteDigest(AsRegs(state[..]));
  }
}
