/** The tokenizer as loops that move a cursor over a NUL-terminated line and fill a token buffer. */
module HbaSteps {
  import opened HbaTokens

  /** The token buffer and the quote flags beside it. */
  class TokenBuffer {
    const buf: array<char>
    var len: nat
    var inQuote: bool
    var wasQuote: bool
    var sawQuote: bool
    var initial: bool

    ghost predicate Valid()
      reads this
    {
      buf.Length == MAX_TOKEN && len < buf.Length
    }

    ghost function View(): (s: Scan)
      requires Valid()
      reads this, buf
    {
      Scan(buf[..len], inQuote, wasQuote, sawQuote, initial)
    }

    constructor ()
      ensures Valid() && fresh(buf)
    {
      buf, len := new char[MAX_TOKEN], 0;
    }

    method Clear()
      requires Valid()
      modifies this
      ensures Valid() && View() == START
    {
      len, inQuote, wasQuote, sawQuote, initial := 0, false, false, false, false;
    }

    /** Adds one character, or notes one quote. */
    method Add(c: char)
      requires Valid() && len < buf.Length - 1
      modifies this, buf
      ensures Valid() && View() == Take(old(View()), c)
    {
      if c != '"' || wasQuote {
        buf[len] := c;
        len := len + 1;
      }
      wasQuote := if inQuote && c == '"' then !wasQuote else false;
      if c == '"' {
        inQuote := !inQuote;
        sawQuote := true;
        if len == 0 { initial := true; }
      }
    }
  }

  class LineReader {
    const line: seq<char>
    ghost const end: nat
    var cursor: nat

    /** The line ends at its first NUL, and the cursor has not passed it. */
    ghost predicate Valid()
      reads this
    {
      && cursor <= end < |line| && line[end] == '\0'
      && forall i :: 0 <= i < end ==> line[i] != '\0'
    }

    /** What is left of the line. */
    ghost function Rest(): (r: string)
      requires Valid()
      reads this
    {
      line[cursor..end]
    }

    constructor (text: string)
      requires '\0' !in text
      ensures Valid() && Rest() == text
    {
      line, end, cursor := text + ['\0'], |text|, 0;
    }

    lemma RestStep()
      requires Valid() && cursor < end
      ensures Rest() != "" && Rest()[0] == line[cursor] && Rest()[1..] == line[cursor + 1..end]
    {
    }

    method SkipToEnd()
      requires Valid()
      modifies this
      ensures Valid() && cursor == end && Rest() == ""
    {
      while line[cursor] != '\0'
        invariant Valid()
        decreases end - cursor
      {
        cursor := cursor + 1;
      }
    }

    /** Moves over blanks and commas. */
    method SkipBefore()
      requires Valid()
      modifies this
      ensures Valid() && Rest() == SkipGap(old(Rest()))
    {
      while line[cursor] != '\0' && (IsBlank(line[cursor]) || line[cursor] == ',')
        invariant Valid() && SkipGap(old(Rest())) == SkipGap(Rest())
        decreases end - cursor
      {
        RestStep();
        cursor := cursor + 1;
      }
      if cursor < end { RestStep(); }
    }

    /** Reads one token into the buffer. */
    method NextTokenInto(t: TokenBuffer) returns (found: bool, comma: bool, tooLong: bool)
      requires Valid() && t.Valid()
      modifies this, t, t.buf
      ensures Valid() && t.Valid()
      ensures Token(found, t.View().buf, t.initial, comma, tooLong, Rest()) == NextToken(old(Rest()))
    {
      hide SkipGap, Read, Take;
      t.Clear();
      SkipBefore();
      ghost var whole := Read(START, Rest());
      while line[cursor] != '\0' && (!IsBlank(line[cursor]) || t.inQuote)
        invariant Valid() && t.Valid()
        invariant Read(t.View(), Rest()) == whole
        decreases end - cursor
      {
        RestStep();
        ReadCase(t.View(), Rest());
        var c := line[cursor];
        if c == '#' && !t.inQuote {
          SkipToEnd();
          return t.sawQuote || t.len > 0, false, false;
        }
        if t.len >= t.buf.Length - 1 {
          SkipToEnd();
          return false, false, true;
        }
        if c == ',' && !t.inQuote {
          return t.sawQuote || t.len > 0, true, false;
        }
        t.Add(c);
        cursor := cursor + 1;
      }
      if cursor < end { RestStep(); }
      ReadCase(t.View(), Rest());
      return t.sawQuote || t.len > 0, false, false;
    }

    /** Reads one field. */
    method NextFieldExpand() returns (items: seq<Item>, error: bool)
      requires Valid()
      modifies this
      ensures Valid() && Field(items, error, Rest()) == NextField(old(Rest()))
    {
      hide NextToken, NextField, ItemOf;
      items, error := [], false;
      var t := new TokenBuffer();
      var comma := true;
      while comma
        invariant Valid() && t.Valid() && fresh(t) && fresh(t.buf) && !error
        invariant NextField(old(Rest())) == if comma then Onto(items, NextField(Rest())) else Field(items, false, Rest())
        decreases comma, |Rest()|
      {
        Progress(Rest());
        FieldCase(items, Rest());
        var found, more, tooLong := NextTokenInto(t);
        if !found { return items, tooLong; }
        items := items + [ItemOf(t.buf[..t.len], t.initial)];
        comma := more;
      }
    }

    /** Reads the fields of the line. */
    method ParseFields() returns (fields: seq<seq<Item>>, error: bool)
      requires Valid()
      modifies this
      ensures Valid() && Line(fields, error) == ParseLine(old(Rest()))
    {
      hide NextField, ParseLine;
      fields, error := [], false;
      while line[cursor] != '\0' && !error
        invariant Valid()
        invariant ParseLine(old(Rest())) == if error then Line(fields, true) else Below(fields, ParseLine(Rest()))
        decreases !error, |Rest()|
      {
        RestStep();
        LineCase(fields, Rest());
        var items, err := NextFieldExpand();
        if items != [] {
          fields := fields + [items];
        }
        error := err;
      }
      if !error { EmptyLine(fields); }
    }
  }

  ghost function Onto(items: seq<Item>, f: Field): (r: Field)
  {
    f.(items := items + f.items)
  }

  lemma FieldCase(items: seq<Item>, line: string)
    ensures var t := NextToken(line);
            Onto(items, NextField(line)) ==
            if !t.found then Field(items, t.tooLong, t.rest)
            else if !t.comma then Field(items + [ItemOf(t.text, t.quoted)], false, t.rest)
            else Onto(items + [ItemOf(t.text, t.quoted)], NextField(t.rest))
  {
    hide NextToken, ItemOf;
    var t := NextToken(line);
    assert items + [] == items;
    if t.found && t.comma {
      Regroup(items, ItemOf(t.text, t.quoted), NextField(t.rest).items);
    }
  }

  lemma Regroup<T>(a: seq<T>, x: T, b: seq<T>)
    ensures a + ([x] + b) == a + [x] + b
  {
  }

  ghost function Below(fields: seq<seq<Item>>, r: Line): (q: Line)
  {
    r.(fields := fields + r.fields)
  }

  lemma LineCase(fields: seq<seq<Item>>, line: string)
    requires line != ""
    ensures var f := NextField(line);
            var found := if f.items == [] then fields else fields + [f.items];
            Below(fields, ParseLine(line)) == if f.error then Line(found, true) else Below(found, ParseLine(f.rest))
  {
    hide NextField;
    var f := NextField(line);
    var more := if f.error then [] else ParseLine(f.rest).fields;
    Regroup(fields, f.items, more);
    assert fields + [f.items] + [] == fields + [f.items];
    assert [] + more == more && fields + [] == fields;
  }

  lemma EmptyLine(fields: seq<seq<Item>>)
    ensures Below(fields, ParseLine("")) == Line(fields, false)
  {
  }

  lemma ReadCase(s: Scan, line: string)
    ensures Read(s, line) ==
            if line == "" || (IsBlank(line[0]) && !s.inQuote) then Ended(s, false, line)
            else if line[0] == '#' && !s.inQuote then Ended(s, false, "")
            else if |s.buf| >= MAX_TOKEN - 1 then Token(false, s.buf, s.initial, false, true, "")
            else if line[0] == ',' && !s.inQuote then Ended(s, true, line)
            else Read(Take(s, line[0]), line[1..])
  {
  }
}
