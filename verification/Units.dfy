/** Integer settings shown in the largest unit that fits and read back, in exact arithmetic. */
module Units {
  import opened Bytes
  import opened Decimals

  /** The unit a setting is stored in. */
  datatype Base = Byte | KB | MB | Ms | S | Min

  /** One line of a conversion table: a unit and its size in base units. */
  datatype Conversion = Conversion(unit: string, size: real)

  const MAX_UNIT_LEN := 3

  /** The lines for one base unit, greatest unit first. */
  function Table(base: Base): (t: seq<Conversion>)
  {
    match base
    case Byte => [Conversion("TB", 1099511627776.0), Conversion("GB", 1073741824.0), Conversion("MB", 1048576.0),
                  Conversion("kB", 1024.0), Conversion("B", 1.0)]
    case KB => [Conversion("TB", 1073741824.0), Conversion("GB", 1048576.0), Conversion("MB", 1024.0),
                Conversion("kB", 1.0), Conversion("B", 1.0 / 1024.0)]
    case MB => [Conversion("TB", 1048576.0), Conversion("GB", 1024.0), Conversion("MB", 1.0),
                Conversion("kB", 1.0 / 1024.0), Conversion("B", 1.0 / 1048576.0)]
    case Ms => [Conversion("d", 86400000.0), Conversion("h", 3600000.0), Conversion("min", 60000.0),
                Conversion("s", 1000.0), Conversion("ms", 1.0), Conversion("us", 1.0 / 1000.0)]
    case S => [Conversion("d", 86400.0), Conversion("h", 3600.0), Conversion("min", 60.0),
               Conversion("s", 1.0), Conversion("ms", 1.0 / 1000.0), Conversion("us", 1.0 / 1000000.0)]
    case Min => [Conversion("d", 1440.0), Conversion("h", 60.0), Conversion("min", 1.0),
                 Conversion("s", 1.0 / 60.0), Conversion("ms", 1.0 / 60000.0), Conversion("us", 1.0 / 60000000.0)]
  }

  /** The line of the base unit itself. */
  function One(base: Base): (k: nat)
    ensures k < |Table(base)| && Table(base)[k].size == 1.0
  {
    match base case Byte => 4 case KB => 3 case MB => 2 case Ms => 4 case S => 3 case Min => 2
  }

  /** How many of the next smaller unit make one of line i. */
  function Ratio(base: Base, i: nat): (k: nat)
    requires i + 1 < |Table(base)|
    ensures Table(base)[i].size == k as real * Table(base)[i + 1].size
  {
    match base
    case Byte => 1024
    case KB => 1024
    case MB => 1024
    case _ => if i == 0 then 24 else if i <= 2 then 60 else 1000
  }

  /** The units of a table and how many of the next make one: 1024 for memory; 24, 60, 60, 1000 and 1000 for time. */
  lemma UnitTable(base: Base)
    ensures var t := Table(base);
            if base.Byte? || base.KB? || base.MB? then
              && |t| == 5 && t[0].unit == "TB" && t[1].unit == "GB" && t[2].unit == "MB" && t[3].unit == "kB" && t[4].unit == "B"
              && (forall i :: 0 <= i < 4 ==> t[i].size == 1024.0 * t[i + 1].size)
              && t[if base.Byte? then 4 else if base.KB? then 3 else 2].size == 1.0
            else
              && |t| == 6 && t[0].unit == "d" && t[1].unit == "h" && t[2].unit == "min" && t[3].unit == "s"
              && t[4].unit == "ms" && t[5].unit == "us"
              && t[0].size == 24.0 * t[1].size && t[1].size == 60.0 * t[2].size && t[2].size == 60.0 * t[3].size
              && t[3].size == 1000.0 * t[4].size && t[4].size == 1000.0 * t[5].size
              && t[if base.Ms? then 4 else if base.S? then 3 else 2].size == 1.0
  {
  }

  /** Up to the base unit, a line is a whole number of base units. */
  lemma Whole(base: Base, i: nat)
    requires i <= One(base)
    ensures Table(base)[i].size == Table(base)[i].size.Floor as real && Table(base)[i].size.Floor >= 1
    ensures Table(base)[i].size <= 1.0 <==> i == One(base)
  {
  }

  lemma Shape(base: Base, i: nat)
    requires i < |Table(base)|
    ensures var u := Table(base)[i].unit;
            && 0 < |u| <= MAX_UNIT_LEN && (forall k :: 0 <= k < |u| ==> !IsSpace(u[k]))
            && !IsDigit(u[0]) && u[0] != '.' && u[0] != 'e' && u[0] != 'E'
    ensures Table(base)[i].size > 0.0
  {
  }

  lemma Distinct(base: Base, i: nat, j: nat)
    requires i < j < |Table(base)|
    ensures Table(base)[i].unit != Table(base)[j].unit
  {
    var u, w := Table(base)[i].unit, Table(base)[j].unit;
    assert |u| != |w| || u[0] != w[0];
  }

  /** Rounding to the nearest integer, ties to the even one. */
  function Rint(x: real): (r: int)
    ensures -0.5 <= x - r as real <= 0.5
    ensures x == x.Floor as real ==> r == x.Floor
    ensures x - r as real == 0.5 || x - r as real == -0.5 ==> r % 2 == 0
  {
    var f := x - x.Floor as real;
    if f < 0.5 then x.Floor else if f > 0.5 then x.Floor + 1 else x.Floor + x.Floor % 2
  }

  // ----- showing

  /** The value is a whole number of the line's units. */
  predicate Even(c: Conversion, v: int)
  {
    c.size.Floor > 0 && v % c.size.Floor == 0
  }

  /** A unit not larger than the base unit always fits; a larger one when it divides the value evenly. */
  predicate Fits(c: Conversion, v: int)
  {
    c.size <= 1.0 || Even(c, v)
  }

  /** Line k is the greatest unit that represents the value without loss. */
  ghost predicate Greatest(base: Base, v: int, k: nat)
  {
    && k <= One(base)
    && Even(Table(base)[k], v)
    && forall j :: 0 <= j < k ==> !Even(Table(base)[j], v)
  }

  /** The line the scan for a unit stops at. */
  function UnitFrom(base: Base, v: int, i: nat): (k: nat)
    requires i <= One(base)
    requires forall j :: 0 <= j < i ==> !Even(Table(base)[j], v)
    ensures Greatest(base, v, k)
    decreases One(base) - i
  {
    Whole(base, i);
    if Fits(Table(base)[i], v) then i else UnitFrom(base, v, i + 1)
  }

  /** The value in units of the given size. */
  function InUnits(v: int, size: real): (n: int)
    requires size > 0.0
  {
    Rint(v as real / size)
  }

  lemma Divided(v: int, q: int, d: int)
    requires d > 0 && v % d == 0 && q == v / d
    ensures v == q * d && InUnits(v, d as real) == q
    ensures v > 0 ==> 0 < q <= v
  {
    assert v as real == q as real * d as real;
    assert v as real / d as real == q as real;
  }

  /** No two lines are both the greatest unit of a value. */
  lemma GreatestUnique(base: Base, v: int, j: nat, k: nat)
    requires Greatest(base, v, j) && Greatest(base, v, k)
    ensures j == k
  {
    hide Table, One, Even;
  }

  /** The greatest unit holds the value exactly. */
  lemma ShownExactly(base: Base, v: int, k: nat)
    requires Greatest(base, v, k)
    ensures Table(base)[k].size > 0.0
    ensures InUnits(v, Table(base)[k].size) as real * Table(base)[k].size == v as real
    ensures v > 0 ==> 0 < InUnits(v, Table(base)[k].size) <= v
  {
    hide Table, One, InUnits;
    Whole(base, k);
    var d := Table(base)[k].size.Floor;
    Divided(v, v / d, d);
  }

  /** Chooses the unit by scanning the table from the greatest unit down. */
  method ConvertFromBaseUnit(base: Base, v: int) returns (value: int, k: nat)
    ensures Greatest(base, v, k)
    ensures value as real * Table(base)[k].size == v as real
    ensures v > 0 ==> 0 < value <= v
  {
    hide Table, One, InUnits;
    k := 0;
    while !Fits(Table(base)[k], v)
      invariant k <= One(base)
      invariant forall j :: 0 <= j < k ==> !Even(Table(base)[j], v)
      decreases One(base) - k
    {
      Whole(base, k);
      k := k + 1;
    }
    Whole(base, k);
    ShownExactly(base, v, k);
    value := InUnits(v, Table(base)[k].size);
  }

  function Signed(v: int): (s: string)
  {
    if v < 0 then "-" + Decimal(-v) else Decimal(v)
  }

  /** The text a setting is shown as; without a unit, or not above zero, the plain number. */
  function Show(v: int, units: Option<Base>): (s: string)
  {
    if v > 0 && units.Some? then
      var k := UnitFrom(units.value, v, 0);
      ShownExactly(units.value, v, k);
      Signed(InUnits(v, Table(units.value)[k].size)) + Table(units.value)[k].unit
    else Signed(v)
  }

  // ----- reading

  /** Up to n characters before a space or the end. */
  function Word(s: string, n: nat): (w: string)
    ensures w <= s && |w| <= n
    decreases n
  {
    if n == 0 || s == "" || IsSpace(s[0]) then ""
    else [s[0]] + Word(s[1..], n - 1)
  }

  /** The line for a unit name, looked for from line i on. */
  function LineFrom(base: Base, unit: string, i: nat): (k: Option<nat>)
    requires i <= |Table(base)|
    ensures k.Some? ==> k.value < |Table(base)| && Table(base)[k.value].unit == unit
    ensures k.None? ==> forall j :: i <= j < |Table(base)| ==> Table(base)[j].unit != unit
    decreases |Table(base)| - i
  {
    if i == |Table(base)| then None
    else if Table(base)[i].unit == unit then Some(i)
    else LineFrom(base, unit, i + 1)
  }

  /** The multiple of `size` nearest to a value. */
  function Snap(c: real, size: real): (r: real)
    requires size > 0.0
  {
    Rint(c / size) as real * size
  }

  /** A value in the units of a line, in base units. */
  function Scaled(value: real, line: Conversion): (c: real)
  {
    value * line.size
  }

  /** A value given in the units of line k, rounded to the next smaller unit where there is one. */
  function Rounded(base: Base, c: real, k: nat): (r: real)
    requires k < |Table(base)|
  {
    if k + 1 == |Table(base)| then c
    else
      Shape(base, k + 1);
      Snap(c, Table(base)[k + 1].size)
  }

  /** A value and the text of its unit, in base units. */
  function ToBase(base: Base, value: real, text: string): (r: Option<real>)
  {
    var word := Word(text, MAX_UNIT_LEN);
    if SkipSpaces(text[|word|..]) != "" then None
    else
      var k := LineFrom(base, word, 0);
      if k.None? then None else Some(Rounded(base, Scaled(value, Table(base)[k.value]), k.value))
  }

  lemma WordFrom(text: string, n: nat)
    requires n <= |text| && n <= MAX_UNIT_LEN
    ensures var w := Word(text[n..], MAX_UNIT_LEN - n);
            if n < |text| && !IsSpace(text[n]) && n < MAX_UNIT_LEN
            then |w| == 1 + |Word(text[n + 1..], MAX_UNIT_LEN - n - 1)|
            else w == ""
  {
    if n < |text| {
      assert text[n..][1..] == text[n + 1..];
    }
  }

  /** Copies the unit name into a buffer. */
  method UnitName(text: string) returns (word: string)
    ensures word == Word(text, MAX_UNIT_LEN)
  {
    hide Word;
    var unit, n := new char[MAX_UNIT_LEN], 0;
    assert text[0..] == text;
    while n < |text| && !IsSpace(text[n]) && n < MAX_UNIT_LEN
      invariant n <= |text| && n <= MAX_UNIT_LEN && unit[..n] == text[..n]
      invariant |Word(text, MAX_UNIT_LEN)| == n + |Word(text[n..], MAX_UNIT_LEN - n)|
    {
      WordFrom(text, n);
      unit[n] := text[n];
      n := n + 1;
    }
    WordFrom(text, n);
    word := unit[..n];
  }

  /** Whether only spaces are left from position n on. */
  method OnlySpaces(text: string, n: nat) returns (r: bool)
    requires n <= |text|
    ensures r == (SkipSpaces(text[n..]) == "")
  {
    var end := n;
    while end < |text| && IsSpace(text[end])
      invariant n <= end <= |text| && SkipSpaces(text[n..]) == SkipSpaces(text[end..])
    {
      assert text[end..][1..] == text[end + 1..];
      end := end + 1;
    }
    r := end == |text|;
  }

  /** Scans the table for the unit name. */
  method ConvertToBaseUnit(base: Base, value: real, text: string) returns (r: Option<real>)
    ensures r == ToBase(base, value, text)
  {
    hide Table, Rounded, Word, SkipSpaces;
    var name := UnitName(text);
    var clean := OnlySpaces(text, |name|);
    if !clean { return None; }
    var i := 0;
    while i < |Table(base)|
      invariant i <= |Table(base)| && LineFrom(base, name, 0) == LineFrom(base, name, i)
    {
      if Table(base)[i].unit == name { return Some(Rounded(base, Scaled(value, Table(base)[i]), i)); }
      i := i + 1;
    }
    r := None;
  }

  /** What a number reader found: the value, what follows it, and whether it left the range. */
  datatype Number = Number(value: real, rest: string, overflow: bool)

  function DigitValue(c: char): (d: nat)
  {
    if IsDigit(c) then c as int - '0' as int
    else if 'a' <= c <= 'f' then c as int - 'a' as int + 10
    else if 'A' <= c <= 'F' then c as int - 'A' as int + 10
    else 16
  }

  /** A run of digits below `radix` read onto `acc`. */
  function Run(radix: nat, acc: nat, s: string): (r: (nat, string))
    decreases |s|
  {
    if s == "" || DigitValue(s[0]) >= radix then (acc, s)
    else Run(radix, acc * radix + DigitValue(s[0]), s[1..])
  }

  /** strtol with the radix taken from the text: 0x, a leading 0, or decimal. */
  function StrtolAny(s: string): (r: Number)
  {
    var t := SkipSpaces(s);
    var neg := t != "" && t[0] == '-';
    var u := if t != "" && (t[0] == '-' || t[0] == '+') then t[1..] else t;
    if u == "" || !IsDigit(u[0]) then Number(0.0, s, false)
    else
      var (m, rest) := if u[0] != '0' then Run(10, 0, u)
                       else if |u| > 2 && (u[1] == 'x' || u[1] == 'X') && DigitValue(u[2]) < 16 then Run(16, 0, u[2..])
                       else Run(8, 0, u);
      var v := if neg then -(m as int) else m;
      if v > LONG_MAX then Number(LONG_MAX as real, rest, true)
      else if v < -LONG_MAX - 1 then Number((-LONG_MAX - 1) as real, rest, true)
      else Number(v as real, rest, false)
  }

  /** Reads a setting; strtod, given, reads what strtol stops short of. */
  function ParseInt(strtod: string -> Number, text: string, units: Option<Base>, maxVal: int): (r: Option<int>)
    ensures r.Some? ==> -INT_MAX - 1 <= r.value <= maxVal
  {
    var i := StrtolAny(text);
    var again := (i.rest != "" && (i.rest[0] == '.' || i.rest[0] == 'e' || i.rest[0] == 'E')) || i.overflow;
    var n := if again then strtod(text) else i;
    if |n.rest| == |text| || n.overflow then None
    else
      var unit := SkipSpaces(n.rest);
      var val := if unit == "" then Some(n.value)
                 else if units.None? then None
                 else ToBase(units.value, n.value, unit);
      if val.None? || Rint(val.value) > maxVal || Rint(val.value) < -INT_MAX - 1 then None
      else Some(Rint(val.value))
  }

  // ----- reading what was shown

  lemma Multiple(c: real, n: int, ratio: nat, big: real, small: real)
    requires small > 0.0 && big == ratio as real * small && c == n as real * big
    ensures Snap(c, small) == c
  {
    var q := n * ratio;
    assert c == q as real * small;
    assert c / small == q as real;
  }

  /** A whole number of a unit survives the rounding. */
  lemma RoundedExact(base: Base, c: real, n: int, k: nat)
    requires k < |Table(base)| && c == n as real * Table(base)[k].size
    ensures Rounded(base, c, k) == c
  {
    hide Table, Ratio, Snap;
    if k + 1 < |Table(base)| {
      Shape(base, k + 1);
      Multiple(c, n, Ratio(base, k), Table(base)[k].size, Table(base)[k + 1].size);
    }
  }

  /** A fractional value goes to a whole number of the next smaller unit, at most half such a unit away. */
  lemma SnapNearest(c: real, size: real)
    requires size > 0.0
    ensures Snap(c, size) == Rint(c / size) as real * size
    ensures -size <= 2.0 * (c - Snap(c, size)) <= size
  {
    var x := c / size;
    var d := x - Rint(x) as real;
    assert c == x * size;
    assert c - Snap(c, size) == d * size;
    assert -0.5 <= d <= 0.5;
    assert -0.5 * size <= d * size <= 0.5 * size;
  }

  lemma {:induction false} WordWhole(s: string, n: nat)
    requires |s| <= n && forall k :: 0 <= k < |s| ==> !IsSpace(s[k])
    ensures Word(s, n) == s
    decreases n
  {
    if s == "" {
    } else {
      WordWhole(s[1..], n - 1);
      assert [s[0]] + s[1..] == s;
    }
  }

  lemma {:induction false} LineFound(base: Base, k: nat, i: nat)
    requires i <= k < |Table(base)|
    ensures LineFrom(base, Table(base)[k].unit, i) == Some(k)
    decreases k - i
  {
    hide Table;
    if i == k {
    } else {
      Distinct(base, i, k);
      LineFound(base, k, i + 1);
    }
  }

  lemma ToBaseExact(base: Base, n: int, k: nat)
    requires k < |Table(base)|
    ensures ToBase(base, n as real, Table(base)[k].unit) == Some(n as real * Table(base)[k].size)
  {
    hide Table, Rounded;
    Shape(base, k);
    WordWhole(Table(base)[k].unit, MAX_UNIT_LEN);
    LineFound(base, k, 0);
    RoundedExact(base, Scaled(n as real, Table(base)[k]), n, k);
  }

  lemma {:induction false} RunThen(acc: nat, a: string, rest: string)
    requires forall c :: c in a ==> IsDigit(c)
    requires rest == "" || DigitValue(rest[0]) >= 10
    ensures Run(10, acc, a + rest) == (Digits(acc, a).0, rest)
    decreases |a|
  {
    if a == "" {
      assert a + rest == rest;
    } else {
      assert a[0] in a && (a + rest)[1..] == a[1..] + rest;
      RunThen(acc * 10 + DigitValue(a[0]), a[1..], rest);
    }
  }

  lemma {:induction false} NoLeadingZero(n: nat)
    requires n > 0
    ensures Decimal(n)[0] != '0'
    decreases n
  {
    if n < 10 {
    } else {
      NoLeadingZero(n / 10);
    }
  }

  /** A printed number is read back, and the reading stops at what follows it. */
  lemma SignedRead(v: int, rest: string)
    requires -LONG_MAX <= v <= LONG_MAX
    requires rest == "" || (v != 0 && DigitValue(rest[0]) >= 10)
    ensures StrtolAny(Signed(v) + rest) == Number(v as real, rest, false)
    ensures |rest| < |Signed(v) + rest|
  {
    hide Decimal, Digits, Run;
    var n: nat := if v < 0 then -v else v;
    var s := Signed(v) + rest;
    assert Decimal(n)[0] in Decimal(n);
    assert SkipSpaces(s) == s;
    var u := Decimal(n) + rest;
    if v < 0 {
      assert s[1..] == u;
    }
    DigitsOfDecimal(n);
    RunThen(0, Decimal(n), rest);
    if v != 0 {
      NoLeadingZero(n);
    } else {
      ZeroRead();
      assert s == Decimal(0);
    }
  }

  lemma ZeroRead()
    ensures Decimal(0) == "0" && Run(8, 0, "0") == (0, "")
  {
    assert "0"[1..] == "";
  }

  /** A number and a known unit make a whole value. */
  lemma ParseUnit(strtod: string -> Number, n: int, base: Base, k: nat, v: int, maxVal: int)
    requires k < |Table(base)| && 0 < n <= LONG_MAX
    requires n as real * Table(base)[k].size == v as real && -INT_MAX - 1 <= v <= maxVal
    ensures ParseInt(strtod, Signed(n) + Table(base)[k].unit, Some(base), maxVal) == Some(v)
  {
    hide Table, ToBase, StrtolAny, Signed, Rint;
    var unit := Table(base)[k].unit;
    Shape(base, k);
    UnitStart(base, k);
    SignedRead(n, unit);
    ToBaseExact(base, n, k);
    assert SkipSpaces(unit) == unit;
  }

  /** Every setting, with a unit or without, is read back as it was shown. */
  lemma ShowThenParse(strtod: string -> Number, v: int, units: Option<Base>, maxVal: int)
    requires -INT_MAX - 1 <= v <= maxVal <= LONG_MAX
    ensures ParseInt(strtod, Show(v, units), units, maxVal) == Some(v)
  {
    hide Table, One, UnitFrom, ToBase, StrtolAny, Signed, InUnits, Even, ParseInt;
    if v > 0 && units.Some? {
      var k := UnitFrom(units.value, v, 0);
      ShownExactly(units.value, v, k);
      ParseUnit(strtod, InUnits(v, Table(units.value)[k].size), units.value, k, v, maxVal);
    } else {
      ParsePlain(strtod, v, units, maxVal);
    }
  }

  lemma ParsePlain(strtod: string -> Number, v: int, units: Option<Base>, maxVal: int)
    requires -INT_MAX - 1 <= v <= maxVal <= LONG_MAX
    ensures ParseInt(strtod, Signed(v), units, maxVal) == Some(v)
  {
    hide ToBase, StrtolAny, Signed;
    SignedRead(v, "");
    assert Signed(v) + "" == Signed(v);
  }

  lemma UnitStart(base: Base, k: nat)
    requires k < |Table(base)|
    ensures Table(base)[k].unit != "" && DigitValue(Table(base)[k].unit[0]) >= 10
  {
  }
}
