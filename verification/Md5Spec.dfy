/** MD5 as section 3 of RFC 1321 defines it: padding, and a table-driven block function. */
module Md5Spec {
  import opened Bytes

  /** A 32-bit word. */
  datatype Word = Word(bits: bv32)

  /** Addition modulo 2 to the 32. */
  function Add(a: Word, b: Word): (r: Word)
  {
    Word(a.bits + b.bits)
  }

  lemma AddCommutes(a: Word, b: Word)
    ensures Add(a, b) == Add(b, a)
  {
  }

  /** T[i + 1] of section 3.4: the integer part of 2 to the 32 times abs(sin(i + 1)). */
  function T(i: nat): (k: Word)
    requires i < 64
  {
    Word(
      if i < 8 then [0xd76aa478, 0xe8c7b756, 0x242070db, 0xc1bdceee, 0xf57c0faf, 0x4787c62a, 0xa8304613, 0xfd469501][i - 0]
      else if i < 16 then [0x698098d8, 0x8b44f7af, 0xffff5bb1, 0x895cd7be, 0x6b901122, 0xfd987193, 0xa679438e, 0x49b40821][i - 8]
      else if i < 24 then [0xf61e2562, 0xc040b340, 0x265e5a51, 0xe9b6c7aa, 0xd62f105d, 0x02441453, 0xd8a1e681, 0xe7d3fbc8][i - 16]
      else if i < 32 then [0x21e1cde6, 0xc33707d6, 0xf4d50d87, 0x455a14ed, 0xa9e3e905, 0xfcefa3f8, 0x676f02d9, 0x8d2a4c8a][i - 24]
      else if i < 40 then [0xfffa3942, 0x8771f681, 0x6d9d6122, 0xfde5380c, 0xa4beea44, 0x4bdecfa9, 0xf6bb4b60, 0xbebfbc70][i - 32]
      else if i < 48 then [0x289b7ec6, 0xeaa127fa, 0xd4ef3085, 0x04881d05, 0xd9d4d039, 0xe6db99e5, 0x1fa27cf8, 0xc4ac5665][i - 40]
      else if i < 56 then [0xf4292244, 0x432aff97, 0xab9423a7, 0xfc93a039, 0x655b59c3, 0x8f0ccc92, 0xffeff47d, 0x85845dd1][i - 48]
      else [0x6fa87e4f, 0xfe2ce6e0, 0xa3014314, 0x4e0811a1, 0xf7537e82, 0xbd3af235, 0x2ad7d2bb, 0xeb86d391][i - 56]
    )
  }

  /** The four auxiliary functions of section 3.4, one for each round. */
  function Aux(round: nat, x: Word, y: Word, z: Word): (r: Word)
  {
    if round == 0 then Word((x.bits & y.bits) | (!x.bits & z.bits))
    else if round == 1 then Word((x.bits & z.bits) | (y.bits & !z.bits))
    else if round == 2 then Word(x.bits ^ y.bits ^ z.bits)
    else Word(y.bits ^ (x.bits | !z.bits))
  }

  function RotateLeft(x: Word, n: bv32): (r: Word)
    requires n <= 32
  {
    Word((x.bits << n) | (x.bits >> (32 - n)))
  }

  /** Which word of the block step i uses. */
  function WordIndex(i: nat): (k: nat)
    ensures k < 16
  {
    if i < 16 then i
    else if i < 32 then (5 * i + 1) % 16
    else if i < 48 then (3 * i + 5) % 16
    else (7 * i) % 16
  }

  /** By how much step i rotates. */
  function Shift(i: nat): (s: bv32)
    ensures s <= 32
  {
    var j := i % 4;
    if i < 16 then (if j == 0 then 7 else if j == 1 then 12 else if j == 2 then 17 else 22)
    else if i < 32 then (if j == 0 then 5 else if j == 1 then 9 else if j == 2 then 14 else 20)
    else if i < 48 then (if j == 0 then 4 else if j == 1 then 11 else if j == 2 then 16 else 23)
    else (if j == 0 then 6 else if j == 1 then 10 else if j == 2 then 15 else 21)
  }

  datatype Regs = Regs(a: Word, b: Word, c: Word, d: Word)

  /** b + ((a + f(b, c, d) + X[k] + T[i]) <<< s) */
  function Turn(round: nat, r: Regs, x: Word, s: bv32, t: Word): (q: Word)
    requires s <= 32
  {
    Add(r.b, RotateLeft(Add(r.a, Add(Add(Aux(round, r.b, r.c, r.d), x), t)), s))
  }

  /** One operation: compute the new word, then move the registers round. */
  function Step(r: Regs, x: seq<Word>, i: nat): (q: Regs)
    requires |x| == 16 && i < 64
  {
    Regs(r.d, Turn(i / 16, r, x[WordIndex(i)], Shift(i), T(i)), r.b, r.c)
  }

  /** Operations i to j. */
  function Steps(r: Regs, x: seq<Word>, i: nat, j: nat): (q: Regs)
    requires |x| == 16 && i <= j <= 64
    decreases j - i
  {
    if i == j then r else Steps(Step(r, x, i), x, i + 1, j)
  }

  function Block(r: Regs, x: seq<Word>): (q: Regs)
    requires |x| == 16
  {
    var s := Steps(r, x, 0, 64);
    Regs(Add(r.a, s.a), Add(r.b, s.b), Add(r.c, s.c), Add(r.d, s.d))
  }

  /** A word from four octets, low-order octet first. */
  function FromOctets(o0: byte, o1: byte, o2: byte, o3: byte): (w: Word)
  {
    Word((o0 as bv32) | ((o1 as bv32) << 8) | ((o2 as bv32) << 16) | ((o3 as bv32) << 24))
  }

  function Words(s: seq<byte>, at: nat): (x: seq<Word>)
    requires at + 64 <= |s|
    ensures |x| == 16
  {
    seq(16, j requires 0 <= j < 16 => FromOctets(s[at + 4 * j], s[at + 4 * j + 1], s[at + 4 * j + 2], s[at + 4 * j + 3]))
  }

  /** The blocks of a padded message, folded into the registers. */
  function Blocks(r: Regs, s: seq<byte>, at: nat): (q: Regs)
    requires at <= |s|
    decreases |s| - at
  {
    if at + 64 > |s| then r else Blocks(Block(r, Words(s, at)), s, at + 64)
  }

  /** Octet k of a number, low-order octet first. */
  function OctetAt(n: nat, k: nat): (r: byte)
  {
    if k == 0 then n % 256 else OctetAt(n / 256, k - 1)
  }

  /** How many zero octets stand between the 0x80 and the length. */
  function ZeroCount(len: nat): (z: nat)
    ensures z < 64 && (len + 1 + z + 8) % 64 == 0
  {
    (119 - len % 64) % 64
  }

  /** The message, 0x80, the fewest zeros that fit, and the bit count in 64 bits (sections 3.1 and 3.2). */
  function Padded(m: seq<byte>): (s: seq<byte>)
    ensures |s| % 64 == 0 && |m| + 9 <= |s| < |m| + 9 + 64
  {
    m + [0x80] + seq(ZeroCount(|m|), _ => 0) + seq(8, k requires 0 <= k < 8 => OctetAt(8 * |m|, k))
  }

  const START := Regs(Word(0x67452301), Word(0xEFCDAB89), Word(0x98BADCFE), Word(0x10325476))

  function WordOctets(w: Word): (s: seq<byte>)
    ensures |s| == 4
  {
    [(w.bits & 0xff) as int, ((w.bits >> 8) & 0xff) as int,
     ((w.bits >> 16) & 0xff) as int, ((w.bits >> 24) & 0xff) as int]
  }

  function Digest(m: seq<byte>): (s: seq<byte>)
    ensures |s| == 16
  {
    var r := Blocks(START, Padded(m), 0);
    WordOctets(r.a) + WordOctets(r.b) + WordOctets(r.c) + WordOctets(r.d)
  }
}
