/** The base64 codec that prints and reads salts, nonces, proofs and signatures. */
module Base64 {
  import opened Bytes

  type sextet = x: int | 0 <= x < 64

  /** The alphabet: upper case, lower case, digits, plus and slash. */
  function Symbol(i: sextet): (c: char)
  {
    if i < 26 then 'A' + i as char
    else if i < 52 then 'a' + (i - 26) as char
    else if i < 62 then '0' + (i - 52) as char
    else if i == 62 then '+' else '/'
  }

  /** The decoding table: -1 for a character outside the alphabet. */
  function Lookup(c: char): (i: int)
    ensures -1 <= i < 64
  {
    if 'A' <= c <= 'Z' then c as int - 'A' as int
    else if 'a' <= c <= 'z' then c as int - 'a' as int + 26
    else if '0' <= c <= '9' then c as int - '0' as int + 52
    else if c == '+' then 62
    else if c == '/' then 63
    else -1
  }

  lemma LookupSymbol(i: sextet)
    ensures Lookup(Symbol(i)) == i
  {
    if i < 26 {
      assert Symbol(i) as int == 'A' as int + i;
    } else if i < 52 {
      assert Symbol(i) as int == 'a' as int + i - 26;
    } else if i < 62 {
      assert Symbol(i) as int == '0' as int + i - 52;
    }
  }

  /** The characters an encoding may hold: none of them is a comma, a colon, a dollar or a NUL. */
  predicate IsBase64Char(c: char)
  {
    Lookup(c) >= 0 || c == '='
  }

  type group = x: int | 0 <= x < 16777216

  /** The 24-bit group of three octets, most significant first. */
  function Group(a: byte, b: byte, c: byte): (n: group)
  {
    a * 65536 + b * 256 + c
  }

  lemma GroupFirst(a: byte, b: byte, c: byte)
    ensures Group(a, b, c) / 65536 == a
  {
  }

  lemma GroupSecond(a: byte, b: byte, c: byte)
    ensures Group(a, b, c) / 256 % 256 == b
  {
    assert Group(a, b, c) / 256 == (a as int) * 256 + b;
  }

  lemma GroupThird(a: byte, b: byte, c: byte)
    ensures Group(a, b, c) % 256 == c
  {
  }

  lemma GroupOctets(a: byte, b: byte, c: byte)
    ensures var n := Group(a, b, c); n / 65536 == a && n / 256 % 256 == b && n % 256 == c
  {
    hide Group;
    GroupFirst(a, b, c);
    GroupSecond(a, b, c);
    GroupThird(a, b, c);
  }

  /** Its k-th run of six bits, most significant first. */
  function Sextet(n: group, k: nat): (r: sextet)
    requires k < 4
  {
    if k == 0 then n / 262144
    else if k == 1 then n / 4096 % 64
    else if k == 2 then n / 64 % 64
    else n % 64
  }

  lemma SextetsJoin(n: group)
    ensures ((Sextet(n, 0) * 64 + Sextet(n, 1)) * 64 + Sextet(n, 2)) * 64 + Sextet(n, 3) == n
  {
    assert n == 64 * (n / 64) + n % 64;
    assert n / 64 == 64 * (n / 4096) + n / 64 % 64;
    assert n / 4096 == 64 * (n / 262144) + n / 4096 % 64;
  }

  /** Four symbols for the 24 bits of three octets (section 4 of RFC 4648). */
  function Quad(a: byte, b: byte, c: byte): (r: string)
    ensures |r| == 4
  {
    var n := Group(a, b, c);
    [Symbol(Sextet(n, 0)), Symbol(Sextet(n, 1)), Symbol(Sextet(n, 2)), Symbol(Sextet(n, 3))]
  }

  /** The encoding as section 4 of RFC 4648 describes it: 24-bit groups, then padding. */
  function Encoded(s: seq<byte>): (r: string)
  {
    if |s| == 0 then ""
    else if |s| == 1 then Quad(s[0], 0, 0)[..2] + "=="
    else if |s| == 2 then Quad(s[0], s[1], 0)[..3] + "="
    else Quad(s[0], s[1], s[2]) + Encoded(s[3..])
  }

  lemma EncodedCons(s: seq<byte>)
    requires |s| >= 3
    ensures Encoded(s) == Quad(s[0], s[1], s[2]) + Encoded(s[3..])
  {
    hide Quad;
  }

  lemma {:induction false} EncodedAppend(a: seq<byte>, b: seq<byte>)
    requires |a| % 3 == 0
    ensures Encoded(a + b) == Encoded(a) + Encoded(b)
    decreases |a|
  {
    hide Encoded, Quad;
    if |a| == 0 {
      EncodedTail([]);
      assert a == [] && a + b == b;
    } else {
      EncodedCons(a);
      EncodedCons(a + b);
      assert (a + b)[3..] == a[3..] + b;
      EncodedAppend(a[3..], b);
    }
  }

  lemma QuadChars(a: byte, b: byte, c: byte)
    ensures forall k :: 0 <= k < 4 ==> IsBase64Char(Quad(a, b, c)[k])
  {
    hide Symbol, Lookup, Sextet;
    var n := Group(a, b, c);
    forall k | 0 <= k < 4
      ensures IsBase64Char(Symbol(Sextet(n, k)))
    {
      LookupSymbol(Sextet(n, k));
    }
  }

  lemma PadChar()
    ensures IsBase64Char('=')
  {
  }

  lemma {:induction false} EncodedShape(s: seq<byte>)
    ensures forall c :: c in Encoded(s) ==> IsBase64Char(c)
    ensures |Encoded(s)| == (|s| + 2) / 3 * 4
    decreases |s|
  {
    hide Quad, IsBase64Char;
    if |s| == 0 {
    } else if |s| == 1 {
      QuadChars(s[0], 0, 0);
      PadChar();
    } else if |s| == 2 {
      QuadChars(s[0], s[1], 0);
      PadChar();
    } else {
      QuadChars(s[0], s[1], s[2]);
      EncodedShape(s[3..]);
    }
  }

  /** An octet moved to place `pos` of the group, place 2 being the most significant. */
  function Shifted(x: byte, pos: int): (r: int)
    requires 0 <= pos <= 2
  {
    if pos == 2 then (x as int) * 65536 else if pos == 1 then (x as int) * 256 else x
  }

  /** OR-ing an octet into a clear place of the group is an addition. */
  lemma AddFirst(x: byte)
    ensures Group(0, 0, 0) == 0
    ensures Shifted(x, 2) == Group(x, 0, 0)
  {
  }

  lemma AddSecond(a: byte, x: byte)
    ensures Group(a, 0, 0) + Shifted(x, 1) == Group(a, x, 0)
  {
  }

  lemma AddThird(a: byte, b: byte, x: byte)
    ensures Group(a, b, 0) + Shifted(x, 0) == Group(a, b, x)
  {
  }

  /**
   * The encoding loop: one octet at a time goes into a 24-bit buffer, which is written out when
   * full. The bits it is OR-ed into are clear, so the OR is an addition.
   */
  method Encode(src: seq<byte>) returns (dst: string)
    ensures dst == Encoded(src)
  {
    hide Symbol, Sextet, Encoded, Group, Shifted;
    AddFirst(0);
    var pos, buf: int, s := 2, 0, 0;
    dst := "";
    EncodedTail([]);
    while s < |src|
      invariant 0 <= s <= |src| && 0 <= pos <= 2
      invariant 2 - pos <= s && (s - (2 - pos)) % 3 == 0
      invariant dst == Encoded(src[..s - (2 - pos)])
      invariant buf == Group(if pos < 2 then src[s - (2 - pos)] else 0, if pos < 1 then src[s - 1] else 0, 0)
    {
      ghost var start := s - (2 - pos);
      if pos == 2 {
        AddFirst(src[s]);
      } else if pos == 1 {
        AddSecond(src[start], src[s]);
      } else {
        AddThird(src[start], src[s - 1], src[s]);
      }
      buf := buf + Shifted(src[s], pos);
      pos := pos - 1;
      s := s + 1;
      if pos < 0 {
        assert buf == Group(src[start], src[start + 1], src[start + 2]);
        dst := dst + [Symbol(Sextet(buf, 0)), Symbol(Sextet(buf, 1)), Symbol(Sextet(buf, 2)), Symbol(Sextet(buf, 3))];
        assert src[..s] == src[..start] + [src[start], src[start + 1], src[start + 2]];
        EncodedAppend(src[..start], [src[start], src[start + 1], src[start + 2]]);
        EncodedTail([src[start], src[start + 1], src[start + 2]]);
        pos, buf := 2, 0;
      }
    }
    ghost var start := s - (2 - pos);
    EncodedAppend(src[..start], src[start..]);
    EncodedTail(src[start..]);
    assert src == src[..start] + src[start..];
    if pos != 2 {
      assert buf == Group(src[start], if pos == 0 then src[start + 1] else 0, 0);
      dst := dst + [Symbol(Sextet(buf, 0)), Symbol(Sextet(buf, 1))];
      dst := dst + [if pos == 0 then Symbol(Sextet(buf, 2)) else '=', '='];
    }
  }

  lemma EncodedTail(s: seq<byte>)
    requires |s| <= 3
    ensures |s| == 0 ==> Encoded(s) == ""
    ensures |s| == 1 ==> Encoded(s) == Quad(s[0], 0, 0)[..2] + "=="
    ensures |s| == 2 ==> Encoded(s) == Quad(s[0], s[1], 0)[..3] + "="
    ensures |s| == 3 ==> Encoded(s) == Quad(s[0], s[1], s[2])
  {
    hide Quad;
  }

  /** The decoder's registers: bits collected, symbols in the group, and where padding began. */
  datatype Decoder = Decoder(buf: nat, pos: nat, end: nat, out: seq<byte>) {
    predicate Valid()
    {
      && pos < 4
      && buf < (if pos == 0 then 1 else if pos == 1 then 64 else if pos == 2 then 4096 else 262144)
    }
  }

  function DecodeStep(d: Decoder, c: char): (r: Option<Decoder>)
    requires d.Valid()
    ensures r.Some? ==> r.value.Valid()
  {
    if c == ' ' || c == '\t' || c == '\n' || c == '\r' then None
    else if c == '=' && d.end == 0 && d.pos != 2 && d.pos != 3 then None
    else if c != '=' && Lookup(c) < 0 then None
    else
      var end := if c == '=' && d.end == 0 then d.pos - 1 else d.end;
      var buf := d.buf * 64 + (if c == '=' then 0 else Lookup(c));
      if d.pos + 1 < 4 then Some(Decoder(buf, d.pos + 1, end, d.out))
      else Some(Decoder(0, 0, end,
                        d.out + [buf / 65536]
                        + (if end == 0 || end > 1 then [buf / 256 % 256] else [])
                        + (if end == 0 || end > 2 then [buf % 256] else [])))
  }

  function DecodeFrom(d: Decoder, s: string): (r: Option<seq<byte>>)
    requires d.Valid()
    decreases |s|
  {
    if s == "" then (if d.pos != 0 then None else Some(d.out))
    else
      match DecodeStep(d, s[0])
      case None => None
      case Some(d') => DecodeFrom(d', s[1..])
  }

  function Decoded(s: string): (r: Option<seq<byte>>)
  {
    DecodeFrom(Decoder(0, 0, 0, []), s)
  }

  method Decode(src: string) returns (r: Option<seq<byte>>)
    ensures r == Decoded(src)
  {
    var d := Decoder(0, 0, 0, []);
    var s := 0;
    while s < |src|
      invariant 0 <= s <= |src|
      invariant d.Valid()
      invariant Decoded(src) == DecodeFrom(d, src[s..])
    {
      var next := DecodeStep(d, src[s]);
      assert src[s..][0] == src[s] && src[s..][1..] == src[s + 1..];
      if next.None? {
        return None;
      }
      d := next.value;
      s := s + 1;
    }
    return if d.pos != 0 then None else Some(d.out);
  }

  lemma DecodeStepSymbol(d: Decoder, i: sextet)
    requires d.Valid() && d.end == 0
    ensures var buf := d.buf * 64 + i;
            DecodeStep(d, Symbol(i)) ==
            Some(if d.pos + 1 < 4 then Decoder(buf, d.pos + 1, 0, d.out)
                 else Decoder(0, 0, 0, d.out + [buf / 65536, buf / 256 % 256, buf % 256]))
  {
    LookupSymbol(i);
    hide Symbol;
    var buf := d.buf * 64 + i;
    if d.pos + 1 == 4 {
      assert d.out + [buf / 65536] + [buf / 256 % 256] + [buf % 256]
          == d.out + [buf / 65536, buf / 256 % 256, buf % 256];
    }
  }

  lemma DecodeSymbol(d: Decoder, i: sextet, rest: string)
    requires d.Valid() && d.end == 0
    ensures var buf := d.buf * 64 + i;
            DecodeFrom(d, [Symbol(i)] + rest) ==
            DecodeFrom(if d.pos + 1 < 4 then Decoder(buf, d.pos + 1, 0, d.out)
                       else Decoder(0, 0, 0, d.out + [buf / 65536, buf / 256 % 256, buf % 256]), rest)
  {
    hide Symbol, Lookup, DecodeStep;
    DecodeStepSymbol(d, i);
    var buf := d.buf * 64 + i;
    var s := [Symbol(i)] + rest;
    assert s[0] == Symbol(i) && s[1..] == rest;
  }

  lemma DecodeQuad(out: seq<byte>, a: byte, b: byte, c: byte, rest: string)
    ensures DecodeFrom(Decoder(0, 0, 0, out), Quad(a, b, c) + rest)
         == DecodeFrom(Decoder(0, 0, 0, out + [a, b, c]), rest)
  {
    hide Symbol, Lookup, DecodeStep, DecodeFrom, Sextet, Group;
    var n := Group(a, b, c);
    var s0: int, s1: int, s2: int, s3: int := Sextet(n, 0), Sextet(n, 1), Sextet(n, 2), Sextet(n, 3);
    SextetsJoin(n);
    GroupOctets(a, b, c);
    var r3 := [Symbol(s3)] + rest;
    var r2 := [Symbol(s2)] + r3;
    var r1 := [Symbol(s1)] + r2;
    assert Quad(a, b, c) + rest == [Symbol(s0)] + r1;
    DecodeSymbol(Decoder(0, 0, 0, out), s0, r1);
    DecodeSymbol(Decoder(s0, 1, 0, out), s1, r2);
    DecodeSymbol(Decoder(s0 * 64 + s1, 2, 0, out), s2, r3);
    DecodeSymbol(Decoder((s0 * 64 + s1) * 64 + s2, 3, 0, out), s3, rest);
  }

  lemma DecodeStepPad(d: Decoder)
    requires d.Valid() && 2 <= d.pos && (d.end == 0 || d.end == d.pos - 2)
    ensures var buf := d.buf * 64;
            var end := if d.end == 0 then d.pos - 1 else d.end;
            DecodeStep(d, '=') ==
            Some(if d.pos == 2 then Decoder(buf, 3, end, d.out)
                 else Decoder(0, 0, end, d.out + [buf / 65536] + (if end > 1 then [buf / 256 % 256] else [])))
  {
    hide Lookup;
    var buf := d.buf * 64;
    var end := if d.end == 0 then d.pos - 1 else d.end;
    var two := d.out + [buf / 65536] + (if end > 1 then [buf / 256 % 256] else []);
    assert two + [] == two;
  }

  /** A padding symbol met after the second or third symbol of a group. */
  lemma DecodePad(d: Decoder, rest: string)
    requires d.Valid() && 2 <= d.pos && (d.end == 0 || d.end == d.pos - 2)
    ensures var buf := d.buf * 64;
            var end := if d.end == 0 then d.pos - 1 else d.end;
            DecodeFrom(d, ['='] + rest) ==
            DecodeFrom(if d.pos == 2 then Decoder(buf, 3, end, d.out)
                       else Decoder(0, 0, end, d.out + [buf / 65536] + (if end > 1 then [buf / 256 % 256] else [])), rest)
  {
    hide Lookup, DecodeStep;
    DecodeStepPad(d);
    assert (['='] + rest)[0] == '=' && (['='] + rest)[1..] == rest;
  }

  lemma Multiple64(q: nat)
    ensures 64 * q % 64 == 0 && 64 * q / 64 == q
  {
  }

  lemma PaddedLast(a: byte, b: byte)
    ensures Group(a, b, 0) % 64 == 0
  {
    assert Group(a, b, 0) == 64 * (a * 1024 + b * 4);
    Multiple64(a * 1024 + b * 4);
  }

  lemma PaddedThird(a: byte)
    ensures Group(a, 0, 0) / 64 % 64 == 0
  {
    assert Group(a, 0, 0) == 64 * (64 * (a * 16));
    Multiple64(64 * (a * 16));
    Multiple64(a * 16);
  }

  lemma PaddedSextets(a: byte, b: byte)
    ensures Sextet(Group(a, b, 0), 3) == 0
    ensures Sextet(Group(a, 0, 0), 2) == 0
  {
    hide Group;
    PaddedLast(a, b);
    PaddedThird(a);
  }

  lemma DecodePadded1(out: seq<byte>, a: byte)
    ensures DecodeFrom(Decoder(0, 0, 0, out), Quad(a, 0, 0)[..2] + "==") == Some(out + [a])
  {
    hide Symbol, Lookup, DecodeStep, Sextet, Group;
    var n := Group(a, 0, 0);
    GroupOctets(a, 0, 0);
    var s0: int, s1: int := Sextet(n, 0), Sextet(n, 1);
    SextetsJoin(n);
    PaddedSextets(a, 0);
    assert Quad(a, 0, 0)[..2] + "==" == [Symbol(s0)] + ([Symbol(s1)] + "==");
    DecodeSymbol(Decoder(0, 0, 0, out), s0, [Symbol(s1)] + "==");
    DecodeSymbol(Decoder(s0, 1, 0, out), s1, "==");
    assert "==" == ['='] + "=" && "=" == ['='] + "";
    DecodePad(Decoder(s0 * 64 + s1, 2, 0, out), "=");
    DecodePad(Decoder((s0 * 64 + s1) * 64, 3, 1, out), "");
    assert out + [a] + [] == out + [a];
  }

  lemma DecodePadded2(out: seq<byte>, a: byte, b: byte)
    ensures DecodeFrom(Decoder(0, 0, 0, out), Quad(a, b, 0)[..3] + "=") == Some(out + [a, b])
  {
    hide Symbol, Lookup, DecodeStep, Sextet, Group;
    var n := Group(a, b, 0);
    GroupOctets(a, b, 0);
    var s0: int, s1: int, s2: int := Sextet(n, 0), Sextet(n, 1), Sextet(n, 2);
    SextetsJoin(n);
    PaddedSextets(a, b);
    var r2 := [Symbol(s2)] + "=";
    assert Quad(a, b, 0)[..3] + "=" == [Symbol(s0)] + ([Symbol(s1)] + r2);
    DecodeSymbol(Decoder(0, 0, 0, out), s0, [Symbol(s1)] + r2);
    DecodeSymbol(Decoder(s0, 1, 0, out), s1, r2);
    DecodeSymbol(Decoder(s0 * 64 + s1, 2, 0, out), s2, "=");
    assert "=" == ['='] + "";
    DecodePad(Decoder((s0 * 64 + s1) * 64 + s2, 3, 0, out), "");
    assert out + [a] + [b] == out + [a, b];
  }

  lemma {:induction false} DecodeFromEncoded(out: seq<byte>, s: seq<byte>)
    ensures DecodeFrom(Decoder(0, 0, 0, out), Encoded(s)) == Some(out + s)
    decreases |s|
  {
    if |s| == 0 {
      assert out + s == out;
    } else if |s| == 1 {
      DecodePadded1(out, s[0]);
      assert s == [s[0]];
    } else if |s| == 2 {
      DecodePadded2(out, s[0], s[1]);
      assert s == [s[0], s[1]];
    } else {
      DecodeQuad(out, s[0], s[1], s[2], Encoded(s[3..]));
      DecodeFromEncoded(out + [s[0], s[1], s[2]], s[3..]);
      assert out + [s[0], s[1], s[2]] + s[3..] == out + s;
    }
  }

  /** Whatever was printed is read back. */
  lemma RoundTrip(s: seq<byte>)
    ensures Decoded(Encoded(s)) == Some(s)
  {
    DecodeFromEncoded([], s);
    assert [] + s == s;
  }

  // ----- against RFC 4648

  /** The alphabet of table 1. */
  lemma Alphabet()
    ensures [Symbol(0), Symbol(1), Symbol(2), Symbol(3), Symbol(4), Symbol(5), Symbol(6), Symbol(7)] == "ABCDEFGH"
    ensures [Symbol(8), Symbol(9), Symbol(10), Symbol(11), Symbol(12), Symbol(13), Symbol(14), Symbol(15)] == "IJKLMNOP"
    ensures [Symbol(16), Symbol(17), Symbol(18), Symbol(19), Symbol(20), Symbol(21), Symbol(22), Symbol(23)] == "QRSTUVWX"
    ensures [Symbol(24), Symbol(25), Symbol(26), Symbol(27), Symbol(28), Symbol(29), Symbol(30), Symbol(31)] == "YZabcdef"
    ensures [Symbol(32), Symbol(33), Symbol(34), Symbol(35), Symbol(36), Symbol(37), Symbol(38), Symbol(39)] == "ghijklmn"
    ensures [Symbol(40), Symbol(41), Symbol(42), Symbol(43), Symbol(44), Symbol(45), Symbol(46), Symbol(47)] == "opqrstuv"
    ensures [Symbol(48), Symbol(49), Symbol(50), Symbol(51), Symbol(52), Symbol(53), Symbol(54), Symbol(55)] == "wxyz0123"
    ensures [Symbol(56), Symbol(57), Symbol(58), Symbol(59), Symbol(60), Symbol(61), Symbol(62), Symbol(63)] == "456789+/"
  {
  }

  lemma QuadOf(a: byte, b: byte, c: byte, i: sextet, j: sextet, k: sextet, l: sextet)
    requires Group(a, b, c) == ((i * 64 + j) * 64 + k) * 64 + l
    ensures Quad(a, b, c) == [Symbol(i), Symbol(j), Symbol(k), Symbol(l)]
  {
    hide Group, Symbol;
    var n := Group(a, b, c);
    assert n % 64 == l && n / 64 == (i * 64 + j) * 64 + k;
    assert n / 64 % 64 == k && n / 4096 == i * 64 + j;
    assert n / 4096 % 64 == j && n / 262144 == i;
  }

  lemma Quads()
    ensures Quad(0x66, 0, 0) == "ZgAA" && Quad(0x66, 0x6f, 0) == "Zm8A"
    ensures Quad(0x66, 0x6f, 0x6f) == "Zm9v" && Quad(0x62, 0x61, 0x72) == "YmFy"
  {
    hide Quad;
    QuadOf(0x66, 0, 0, 25, 32, 0, 0);
    QuadOf(0x66, 0x6f, 0, 25, 38, 60, 0);
    QuadOf(0x66, 0x6f, 0x6f, 25, 38, 61, 47);
    QuadOf(0x62, 0x61, 0x72, 24, 38, 5, 50);
  }

  /** The test vectors of section 10. */
  lemma Vectors()
    ensures Encoded([]) == "" && Encoded(Octets("f")) == "Zg==" && Encoded(Octets("fo")) == "Zm8="
    ensures Encoded(Octets("foo")) == "Zm9v" && Encoded(Octets("foobar")) == "Zm9vYmFy"
  {
    hide Quad;
    Quads();
    assert Octets("f") == [0x66] && Octets("fo") == [0x66, 0x6f] && Octets("foo") == [0x66, 0x6f, 0x6f];
    assert Octets("foobar") == [0x66, 0x6f, 0x6f, 0x62, 0x61, 0x72];
    assert Octets("foobar")[3..] == [0x62, 0x61, 0x72];
    assert Encoded([0x62, 0x61, 0x72]) == Quad(0x62, 0x61, 0x72) + Encoded([]);
    assert Encoded([0x66, 0x6f, 0x6f]) == Quad(0x66, 0x6f, 0x6f) + Encoded([]);
  }
}
