/** The tokens, fields and lines of the authentication file. */
module HbaTokens {
  const MAX_TOKEN := 256

  predicate IsBlank(c: char)
  {
    c == ' ' || c == '\t' || c == '\r'
  }

  /** A token being read: its characters so far and the quote flags. */
  datatype Scan = Scan(buf: string, inQuote: bool, wasQuote: bool, sawQuote: bool, initial: bool)

  /** What one call returns; `rest` is the line from where the cursor is left. */
  datatype Token = Token(found: bool, text: string, quoted: bool, comma: bool, tooLong: bool, rest: string)

  const START := Scan("", false, false, false, false)

  /** One character of a token. */
  function Take(s: Scan, c: char): (t: Scan)
  {
    var buf := if c != '"' || s.wasQuote then s.buf + [c] else s.buf;
    if c == '"' then Scan(buf, !s.inQuote, s.inQuote && !s.wasQuote, true, s.initial || buf == "")
    else Scan(buf, s.inQuote, false, s.sawQuote, s.initial)
  }

  function SkipGap(line: string): (r: string)
    ensures |r| <= |line|
  {
    if line != "" && (IsBlank(line[0]) || line[0] == ',') then SkipGap(line[1..]) else line
  }

  /** The token at hand ends here. */
  function Ended(s: Scan, comma: bool, rest: string): (t: Token)
  {
    Token(s.sawQuote || s.buf != "", s.buf, s.initial, comma, false, rest)
  }

  function Read(s: Scan, line: string): (t: Token)
    ensures |t.rest| <= |line|
    decreases |line|
  {
    if line == "" || (IsBlank(line[0]) && !s.inQuote) then Ended(s, false, line)
    else if line[0] == '#' && !s.inQuote then Ended(s, false, "")
    else if |s.buf| >= MAX_TOKEN - 1 then Token(false, s.buf, s.initial, false, true, "")
    else if line[0] == ',' && !s.inQuote then Ended(s, true, line)
    else Read(Take(s, line[0]), line[1..])
  }

  function NextToken(line: string): (t: Token)
  {
    Read(START, SkipGap(line))
  }

  // ----- progress

  lemma {:induction false} ReadFinds(s: Scan, line: string)
    requires s.sawQuote || s.buf != ""
    ensures var t := Read(s, line); t.found || (t.tooLong && t.rest == "")
    decreases |line|
  {
    hide Take;
    if !(line == "" || (IsBlank(line[0]) && !s.inQuote)) && !(line[0] == '#' && !s.inQuote)
       && |s.buf| < MAX_TOKEN - 1 && !(line[0] == ',' && !s.inQuote) {
      TakeMarks(s, line[0]);
      ReadFinds(Take(s, line[0]), line[1..]);
    }
  }

  lemma TakeMarks(s: Scan, c: char)
    ensures Take(s, c).sawQuote || Take(s, c).buf != ""
    ensures s.sawQuote ==> Take(s, c).sawQuote
  {
  }

  lemma {:induction false} GapEnds(line: string)
    ensures var r := SkipGap(line); r == "" || !(IsBlank(r[0]) || r[0] == ',')
  {
    if line == "" || !(IsBlank(line[0]) || line[0] == ',') {
    } else {
      GapEnds(line[1..]);
    }
  }

  /** A call that finds a token moves the cursor; one that finds none leaves it at the end of the line. */
  lemma Progress(line: string)
    ensures var t := NextToken(line);
            && (t.found ==> |t.rest| < |line|)
            && (!t.found ==> t.rest == "")
            && (t.tooLong ==> !t.found)
  {
    hide Take;
    GapEnds(line);
    var r := SkipGap(line);
    if r != "" && r[0] != '#' {
      TakeMarks(START, r[0]);
      ReadFinds(Take(START, r[0]), r[1..]);
      assert Read(START, r) == Read(Take(START, r[0]), r[1..]);
    }
    TooLongNotFound(START, r);
  }

  lemma {:induction false} TooLongNotFound(s: Scan, line: string)
    ensures Read(s, line).tooLong ==> !Read(s, line).found
    decreases |line|
  {
    hide Take;
    if !(line == "" || (IsBlank(line[0]) && !s.inQuote)) && !(line[0] == '#' && !s.inQuote)
       && |s.buf| < MAX_TOKEN - 1 && !(line[0] == ',' && !s.inQuote) {
      TooLongNotFound(Take(s, line[0]), line[1..]);
    }
  }

  // ----- fields and lines

  /** A token of a field, or the file an unquoted @name asks to include. */
  datatype Item = Plain(text: string, quoted: bool) | Include(file: string)

  function ItemOf(text: string, quoted: bool): (i: Item)
  {
    if !quoted && |text| > 1 && text[0] == '@' then Include(text[1..]) else Plain(text, quoted)
  }

  datatype Field = Field(items: seq<Item>, error: bool, rest: string)

  /** The tokens up to one that no comma follows. */
  function NextField(line: string): (f: Field)
    ensures |f.rest| <= |line| && (line != "" ==> |f.rest| < |line|)
    decreases |line|
  {
    Progress(line);
    var t := NextToken(line);
    if !t.found then Field([], t.tooLong, t.rest)
    else if !t.comma then Field([ItemOf(t.text, t.quoted)], false, t.rest)
    else
      var f := NextField(t.rest);
      Field([ItemOf(t.text, t.quoted)] + f.items, f.error, f.rest)
  }

  datatype Line = Line(fields: seq<seq<Item>>, error: bool)

  /** The fields of a line, up to its end or to a token too long. */
  function ParseLine(line: string): (r: Line)
    decreases |line|
  {
    if line == "" then Line([], false)
    else
      var f := NextField(line);
      var more := if f.error then Line([], true) else ParseLine(f.rest);
      Line((if f.items == [] then [] else [f.items]) + more.fields, more.error)
  }

  // ----- quoting

  function Doubled(s: string): (r: string)
  {
    if s == "" then "" else (if s[0] == '"' then ['"', '"'] else [s[0]]) + Doubled(s[1..])
  }

  function Quote(s: string): (r: string)
  {
    ['"'] + Doubled(s) + ['"']
  }

  /** What may follow a closing quote without joining the token. */
  predicate Delimited(rest: string)
  {
    rest == "" || IsBlank(rest[0]) || rest[0] == ','
  }

  /** Inside quotes, after the characters in `buf`. */
  function Inside(buf: string): (s: Scan)
  {
    Scan(buf, true, false, true, true)
  }

  lemma TakeOne(buf: string, c: char, rest: string)
    requires |buf| < MAX_TOKEN - 1
    ensures Read(Inside(buf), (if c == '"' then ['"', '"'] else [c]) + rest) == Read(Inside(buf + [c]), rest)
  {
    if c == '"' {
      var line := ['"', '"'] + rest;
      var mid := Scan(buf, false, true, true, true);
      assert Take(Inside(buf), '"') == mid;
      assert line[1..] == ['"'] + rest && line[1..][1..] == rest;
      assert Read(Inside(buf), line) == Read(mid, line[1..]);
      assert Take(mid, '"') == Inside(buf + ['"']);
    } else {
      var line := [c] + rest;
      assert line[1..] == rest;
      assert Take(Inside(buf), c) == Inside(buf + [c]);
    }
  }

  lemma DoubledStep(s: string, rest: string)
    requires s != ""
    ensures Doubled(s) + rest == (if s[0] == '"' then ['"', '"'] else [s[0]]) + (Doubled(s[1..]) + rest)
  {
  }

  lemma TakeFirst(buf: string, s: string)
    requires s != ""
    ensures buf + [s[0]] + s[1..] == buf + s
  {
  }

  lemma {:induction false} InsideRead(buf: string, s: string, rest: string)
    requires |buf| + |s| <= MAX_TOKEN - 1
    ensures Read(Inside(buf), Doubled(s) + rest) == Read(Inside(buf + s), rest)
    decreases |s|
  {
    if s == "" {
      assert Doubled(s) + rest == rest && buf + s == buf;
    } else {
      hide Read, Doubled, Inside;
      var c := s[0];
      DoubledStep(s, rest);
      TakeOne(buf, c, Doubled(s[1..]) + rest);
      InsideRead(buf + [c], s[1..], rest);
      TakeFirst(buf, s);
    }
  }

  lemma OpenQuote(line: string)
    ensures NextToken(['"'] + line) == Read(Inside(""), line)
  {
    var all := ['"'] + line;
    assert SkipGap(all) == all && all[1..] == line;
    assert Take(START, '"') == Inside("");
  }

  lemma CloseQuote(s: string, rest: string)
    requires |s| < MAX_TOKEN - 1 && Delimited(rest)
    ensures Read(Inside(s), ['"'] + rest)
            == Token(true, s, true, rest != "" && rest[0] == ',', false, rest)
  {
    var line := ['"'] + rest;
    assert line[1..] == rest;
    var shut := Scan(s, false, true, true, true);
    assert Take(Inside(s), '"') == shut;
    assert Read(Inside(s), line) == Read(shut, rest);
  }

  lemma QuoteParts(s: string, rest: string)
    ensures Quote(s) + rest == ['"'] + (Doubled(s) + (['"'] + rest))
  {
  }

  /** A quoted string is read back whole exactly when it fits the token buffer. */
  lemma QuotedRead(s: string, rest: string)
    requires Delimited(rest)
    ensures var t := NextToken(Quote(s) + rest);
            if |s| <= MAX_TOKEN - 2
            then t == Token(true, s, true, rest != "" && rest[0] == ',', false, rest)
            else t == Token(false, s[..MAX_TOKEN - 1], true, false, true, "")
  {
    hide Read, NextToken, Doubled, Quote, Delimited;
    var tail := ['"'] + rest;
    QuoteParts(s, rest);
    OpenQuote(Doubled(s) + tail);
    assert "" + s == s;
    if |s| <= MAX_TOKEN - 2 {
      InsideRead("", s, tail);
      CloseQuote(s, rest);
    } else {
      var full := s[..MAX_TOKEN - 1];
      DoubledSplit(s, MAX_TOKEN - 1);
      var left := Doubled(s[MAX_TOKEN - 1..]) + tail;
      assert Doubled(s) + tail == Doubled(full) + left;
      assert "" + full == full;
      InsideRead("", full, left);
      Full(full, left);
    }
  }

  lemma Full(s: string, line: string)
    requires |s| == MAX_TOKEN - 1 && line != ""
    ensures Read(Inside(s), line) == Token(false, s, true, false, true, "")
  {
  }

  lemma {:induction false} DoubledSplit(s: string, n: nat)
    requires n <= |s|
    ensures Doubled(s) == Doubled(s[..n]) + Doubled(s[n..])
    decreases n
  {
    if n == 0 {
      assert s[0..] == s && s[..0] == "";
    } else {
      DoubledSplit(s[1..], n - 1);
      assert s[1..][..n - 1] == s[..n][1..] && s[1..][n - 1..] == s[n..] && s[..n][0] == s[0];
      hide Doubled;
      DoubledHead(s);
      DoubledHead(s[..n]);
      Chain(Head(s), Doubled(s[..n][1..]), Doubled(s[n..]), "");
    }
  }

  function Head(s: string): (r: string)
    requires s != ""
  {
    if s[0] == '"' then ['"', '"'] else [s[0]]
  }

  lemma DoubledHead(s: string)
    requires s != ""
    ensures Doubled(s) == Head(s) + Doubled(s[1..])
  {
  }

  // ----- whole lines

  /** A field as a comma list of quoted strings. */
  function FieldText(field: seq<string>): (r: string)
  {
    if field == [] then "" else if |field| == 1 then Quote(field[0])
    else Quote(field[0]) + "," + FieldText(field[1..])
  }

  /** The fields, each preceded by a space. */
  function LineText(fields: seq<seq<string>>): (r: string)
  {
    if fields == [] then "" else " " + FieldText(fields[0]) + LineText(fields[1..])
  }

  predicate Fits(field: seq<string>)
  {
    field != [] && forall i :: 0 <= i < |field| ==> |field[i]| <= MAX_TOKEN - 2
  }

  function Items(field: seq<string>): (r: seq<Item>)
    ensures |r| == |field|
  {
    seq(|field|, i requires 0 <= i < |field| => Plain(field[i], true))
  }

  lemma GapFirst(line: string)
    requires line != "" && (line[0] == ',' || IsBlank(line[0]))
    ensures NextToken(line) == NextToken(line[1..])
    ensures NextField(line) == NextField(line[1..])
  {
  }

  lemma Chain(a: string, b: string, c: string, d: string)
    ensures a + b + c + d == a + (b + (c + d)) && a + b + c == a + (b + c)
  {
  }

  lemma FieldSplit(field: seq<string>, rest: string)
    requires field != []
    ensures FieldText(field) + rest ==
            Quote(field[0]) + if |field| == 1 then rest else "," + (FieldText(field[1..]) + rest)
  {
    hide Quote;
    if |field| > 1 {
      Chain(Quote(field[0]), ",", FieldText(field[1..]), rest);
    }
  }

  lemma ItemsSplit(field: seq<string>)
    requires field != []
    ensures Items(field) == [Plain(field[0], true)] + Items(field[1..])
  {
  }

  lemma {:induction false} FieldRead(field: seq<string>, rest: string)
    requires Fits(field) && (rest == "" || IsBlank(rest[0]))
    ensures NextField(FieldText(field) + rest) == Field(Items(field), false, rest)
    decreases |field|
  {
    hide NextToken, Quote, FieldText, Items;
    FieldSplit(field, rest);
    ItemsSplit(field);
    if |field| == 1 {
      QuotedRead(field[0], rest);
    } else {
      var tail := "," + (FieldText(field[1..]) + rest);
      QuotedRead(field[0], tail);
      GapFirst(tail);
      assert tail[1..] == FieldText(field[1..]) + rest;
      FieldRead(field[1..], rest);
    }
  }

  /** A line of fields of quoted strings is read back field by field, string by string. */
  lemma {:induction false} LineRead(fields: seq<seq<string>>)
    requires forall i :: 0 <= i < |fields| ==> Fits(fields[i])
    ensures ParseLine(LineText(fields)) == Line(seq(|fields|, i requires 0 <= i < |fields| => Items(fields[i])), false)
    decreases |fields|
  {
    hide NextField, FieldText, Items;
    if fields == [] {
    } else {
      var line, rest := LineText(fields), LineText(fields[1..]);
      GapFirst(line);
      assert line[1..] == FieldText(fields[0]) + rest;
      FieldRead(fields[0], rest);
      LineRead(fields[1..]);
      assert Items(fields[0]) != [];
      assert [Items(fields[0])] + seq(|fields[1..]|, i requires 0 <= i < |fields[1..]| => Items(fields[1..][i]))
          == seq(|fields|, i requires 0 <= i < |fields| => Items(fields[i]));
    }
  }

  // ----- tokens without quotes

  /** No blank, comma, quote or comment mark. */
  predicate PlainText(s: string)
  {
    forall i :: 0 <= i < |s| ==> s[i] != ' ' && s[i] != '\t' && s[i] != '\r' && s[i] != ',' && s[i] != '"' && s[i] != '#'
  }

  /** Blanks and commas. */
  predicate Gap(s: string)
  {
    forall i :: 0 <= i < |s| ==> s[i] == ' ' || s[i] == '\t' || s[i] == '\r' || s[i] == ','
  }

  lemma {:induction false} GapSkipped(gap: string, line: string)
    requires Gap(gap) && (line == "" || !(IsBlank(line[0]) || line[0] == ','))
    ensures SkipGap(gap + line) == line
    decreases |gap|
  {
    if gap == "" {
      assert gap + line == line;
    } else {
      assert (gap + line)[1..] == gap[1..] + line;
      GapSkipped(gap[1..], line);
    }
  }

  /** Outside quotes, after the characters in `buf`. */
  function Outside(buf: string): (s: Scan)
  {
    Scan(buf, false, false, false, false)
  }

  lemma TakePlain(buf: string, s: string, rest: string)
    requires s != "" && PlainText(s) && |buf| < MAX_TOKEN - 1
    ensures Read(Outside(buf), s + rest) == Read(Outside(buf + [s[0]]), s[1..] + rest)
  {
    assert (s + rest)[1..] == s[1..] + rest && (s + rest)[0] == s[0];
  }

  lemma {:induction false} PlainRun(buf: string, s: string, rest: string)
    requires PlainText(s) && |buf| + |s| <= MAX_TOKEN - 1
    ensures Read(Outside(buf), s + rest) == Read(Outside(buf + s), rest)
    decreases |s|
  {
    if s == "" {
      assert s + rest == rest && buf + s == buf;
    } else {
      hide Read, Outside;
      TakePlain(buf, s, rest);
      PlainRun(buf + [s[0]], s[1..], rest);
      TakeFirst(buf, s);
    }
  }

  /**
   * After blanks and commas a token without quotes runs to the next blank, comma, comment or end of line. It
   * is read whole exactly when it leaves room in the buffer, or fills it and no comma follows. A comment
   * ends the line.
   */
  lemma PlainRead(gap: string, s: string, rest: string)
    requires Gap(gap) && s != "" && PlainText(s)
    requires rest == "" || rest[0] == ' ' || rest[0] == '\t' || rest[0] == '\r' || rest[0] == ',' || rest[0] == '#'
    ensures var t := NextToken(gap + (s + rest));
            var comma := rest != "" && rest[0] == ',';
            if |s| <= 254 || (|s| == 255 && !comma)
            then t == Token(true, s, false, comma, false, if rest != "" && rest[0] == '#' then "" else rest)
            else t == Token(false, s[..255], false, false, true, "")
  {
    hide Read, SkipGap;
    assert (s + rest)[0] == s[0];
    GapSkipped(gap, s + rest);
    if |s| <= 255 {
      assert "" + s == s;
      assert |s| == 255 ==> s[..255] == s;
      PlainRun("", s, rest);
      PlainEnd(s, rest);
    } else {
      var full, left := s[..255], s[255..] + rest;
      Cut(s, rest, 255);
      assert "" + full == full;
      PlainRun("", full, left);
      PlainFull(full, left);
    }
  }

  lemma Cut(s: string, rest: string, n: nat)
    requires n < |s|
    ensures s + rest == s[..n] + (s[n..] + rest) && (s[n..] + rest)[0] == s[n]
  {
  }

  lemma PlainEnd(s: string, rest: string)
    requires s != "" && |s| <= 255
    requires rest == "" || rest[0] == ' ' || rest[0] == '\t' || rest[0] == '\r' || rest[0] == ',' || rest[0] == '#'
    ensures var comma := rest != "" && rest[0] == ',';
            Read(Outside(s), rest)
            == if |s| <= 254 || !comma
               then Token(true, s, false, comma, false, if rest != "" && rest[0] == '#' then "" else rest)
               else Token(false, s, false, false, true, "")
  {
  }

  lemma PlainFull(s: string, line: string)
    requires |s| == 255 && line != "" && PlainText([line[0]])
    ensures Read(Outside(s), line) == Token(false, s, false, false, true, "")
  {
    assert [line[0]][0] == line[0];
  }
}
