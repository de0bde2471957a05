/** Decimal printing and the parts of strtol that read it back. */
module Decimals {
  import opened Bytes

  const INT_MAX := 0x7FFF_FFFF
  const LONG_MAX := 0x7FFF_FFFF_FFFF_FFFF

  predicate IsDigit(c: char) { '0' <= c <= '9' }

  predicate IsSpace(c: char)
  {
    c == ' ' || '\t' <= c <= '\r'
  }

  function Digit(d: int): (c: char)
    requires 0 <= d < 10
    ensures IsDigit(c) && c as int - '0' as int == d
  {
    '0' + d as char
  }

  function Decimal(n: nat): (s: string)
    ensures s != "" && forall c :: c in s ==> IsDigit(c)
  {
    if n < 10 then [Digit(n)] else Decimal(n / 10) + [Digit(n % 10)]
  }

  /** A run of digits read onto `acc`, and what follows the run. */
  function Digits(acc: nat, s: string): (r: (nat, string))
    decreases |s|
  {
    if s == "" || !IsDigit(s[0]) then (acc, s)
    else Digits(acc * 10 + (s[0] as int - '0' as int), s[1..])
  }

  function SkipSpaces(s: string): (r: string)
    ensures |r| <= |s|
    ensures r != "" ==> !IsSpace(r[0])
  {
    if s != "" && IsSpace(s[0]) then SkipSpaces(s[1..]) else s
  }

  /** The value, the unread rest, and whether the value left the range of long. */
  datatype Parsed = Parsed(value: int, rest: string, overflow: bool)

  /** strtol in base 10. */
  function Strtol(s: string): (r: Parsed)
  {
    var t := SkipSpaces(s);
    var neg := t != "" && t[0] == '-';
    var u := if t != "" && (t[0] == '-' || t[0] == '+') then t[1..] else t;
    if u == "" || !IsDigit(u[0]) then Parsed(0, s, false)
    else
      var (m, rest) := Digits(0, u);
      var v := if neg then -(m as int) else m;
      if v > LONG_MAX then Parsed(LONG_MAX, rest, true)
      else if v < -LONG_MAX - 1 then Parsed(-LONG_MAX - 1, rest, true)
      else Parsed(v, rest, false)
  }

  /** Assignment of a long to an int. */
  function ToInt(v: int): (r: int)
    ensures -INT_MAX - 1 <= r <= INT_MAX
  {
    var m := v % 0x1_0000_0000;
    if m > INT_MAX then m - 0x1_0000_0000 else m
  }

  /** The %u conversion of an int. */
  function Unsigned(n: int): (s: string)
    requires -INT_MAX - 1 <= n <= INT_MAX
  {
    Decimal(if n < 0 then n + 0x1_0000_0000 else n)
  }

  lemma {:induction false} DigitsAppend(acc: nat, a: string, d: char)
    requires (forall c :: c in a ==> IsDigit(c)) && IsDigit(d)
    ensures Digits(acc, a).1 == ""
    ensures Digits(acc, a + [d]) == (Digits(acc, a).0 * 10 + (d as int - '0' as int), "")
    decreases |a|
  {
    if a == "" {
      assert a + [d] == [d] && [d][1..] == "";
    } else {
      assert a[0] in a && (a + [d])[1..] == a[1..] + [d];
      DigitsAppend(acc * 10 + (a[0] as int - '0' as int), a[1..], d);
    }
  }

  lemma {:induction false} DigitsOfDecimal(n: nat)
    ensures Digits(0, Decimal(n)) == (n, "")
    decreases n
  {
    if n < 10 {
      DigitsAppend(0, "", Digit(n));
      assert "" + [Digit(n)] == [Digit(n)];
    } else {
      DigitsOfDecimal(n / 10);
      DigitsAppend(0, Decimal(n / 10), Digit(n % 10));
    }
  }

  /** A printed count is read back whole. */
  lemma StrtolOfDecimal(n: nat)
    requires n <= LONG_MAX
    ensures Strtol(Decimal(n)) == Parsed(n, "", false)
  {
    DigitsOfDecimal(n);
    assert Decimal(n)[0] in Decimal(n);
    assert SkipSpaces(Decimal(n)) == Decimal(n);
  }

  const DIGITS := "0123456789"

  /** Decimal notation: a single digit, or the notation of the tens followed by the digit of the ones. */
  lemma DecimalNotation(n: nat, d: nat)
    requires d < 10
    ensures Decimal(d) == [DIGITS[d]]
    ensures n > 0 ==> Decimal(10 * n + d) == Decimal(n) + [DIGITS[d]]
  {
    assert DIGITS[d] == '0' + d as char;
    assert (10 * n + d) / 10 == n && (10 * n + d) % 10 == d;
  }

  /** Leading space and a sign are read, what follows the digits is left, and without digits nothing is read. */
  lemma StrtolValues()
    ensures Strtol(" -12x") == Parsed(-12, "x", false) && Strtol("+7") == Parsed(7, "", false)
    ensures Strtol("") == Parsed(0, "", false) && Strtol("-") == Parsed(0, "-", false) && Strtol("k1") == Parsed(0, "k1", false)
  {
    assert " -12x"[1..] == "-12x" && SkipSpaces(" -12x") == "-12x";
    assert "-12x"[1..] == "12x" && "12x"[1..] == "2x" && "2x"[1..] == "x";
    assert Digits(1, "2x") == Digits(12, "x") && Digits(0, "12x") == Digits(1, "2x");
    assert "+7"[1..] == "7" && "7"[1..] == "";
    assert Digits(0, "7") == Digits(7, "");
  }
}
