/** The session's list of temporary tables and what commit and abort make of it. */
module TempTables {
  import opened Bytes

  const MAX_IDENTIFIER_LEN := 128

  datatype State = Creating | Dropping | CreateCommitted | DropCommitted

  datatype Table = Table(name: string, state: State)

  /** The name as its fixed buffer holds it. */
  function Fit(name: string): (r: string)
  {
    if |name| < MAX_IDENTIFIER_LEN then name else name[..MAX_IDENTIFIER_LEN - 1]
  }

  function Index(tables: seq<Table>, name: string): (i: nat)
    ensures i <= |tables|
    ensures i < |tables| ==> tables[i].name == name
    ensures forall j :: 0 <= j < i ==> tables[j].name != name
  {
    if tables == [] || tables[0].name == name then 0 else 1 + Index(tables[1..], name)
  }

  function StateOf(tables: seq<Table>, name: string): (r: Option<State>)
  {
    var i := Index(tables, name);
    if i < |tables| then Some(tables[i].state) else None
  }

  ghost predicate Unique(tables: seq<Table>)
  {
    forall i, j :: 0 <= i < j < |tables| ==> tables[i].name != tables[j].name
  }

  function Added(tables: seq<Table>, name: string, state: State): (r: seq<Table>)
  {
    var i := Index(tables, name);
    if i < |tables| then tables[i := tables[i].(state := state)] else tables + [Table(Fit(name), state)]
  }

  /** Only an entry already dropped and committed goes; any other takes the requested state. */
  function Deleted(tables: seq<Table>, name: string, state: State): (r: seq<Table>)
  {
    var i := Index(tables, name);
    if i == |tables| then tables
    else if tables[i].state.DropCommitted? then tables[..i] + tables[i + 1..]
    else tables[i := tables[i].(state := state)]
  }

  /** What commit leaves of one state, if anything. */
  function CommitState(s: State): (r: Option<State>)
  {
    match s
    case Creating => Some(CreateCommitted)
    case Dropping => None
    case _ => Some(s)
  }

  function AbortState(s: State): (r: Option<State>)
  {
    if s.Creating? || s.Dropping? then None else Some(s)
  }

  /** The rule of commit or of abort. */
  function Rule(s: State, commit: bool): (r: Option<State>)
  {
    if commit then CommitState(s) else AbortState(s)
  }

  /** Applies a rule to every entry, dropping those it maps to nothing and keeping the order. */
  function Settled(tables: seq<Table>, commit: bool): (r: seq<Table>)
  {
    if tables == [] then []
    else
      var s := Rule(tables[0].state, commit);
      (if s.Some? then [Table(tables[0].name, s.value)] else []) + Settled(tables[1..], commit)
  }

  class TempTables {
    var tables: seq<Table>

    constructor ()
      ensures tables == []
    {
      tables := [];
    }

    method Find(name: string) returns (i: nat)
      ensures i == Index(tables, name)
    {
      i := 0;
      while i < |tables|
        invariant 0 <= i <= |tables|
        invariant forall j :: 0 <= j < i ==> tables[j].name != name
      {
        if tables[i].name == name {
          return;
        }
        i := i + 1;
      }
    }

    method Add(name: string, state: State)
      modifies this
      ensures tables == Added(old(tables), name, state)
    {
      var i := Find(name);
      if i < |tables| {
        tables := tables[i := tables[i].(state := state)];
      } else {
        tables := tables + [Table(Fit(name), state)];
      }
    }

    method Delete(name: string, state: State)
      modifies this
      ensures tables == Deleted(old(tables), name, state)
    {
      var i := Find(name);
      if i < |tables| {
        if tables[i].state.DropCommitted? {
          tables := tables[..i] + tables[i + 1..];
        } else {
          tables := tables[i := tables[i].(state := state)];
        }
      }
    }

    /** The scan starts over from the head each time it removes an entry. */
    method CommitPending()
      modifies this
      ensures tables == Settled(old(tables), true)
    {
      var i := 0;
      while i < |tables|
        invariant 0 <= i <= |tables|
        invariant forall j :: 0 <= j < i ==> CommitState(tables[j].state) == Some(tables[j].state)
        invariant Settled(tables, true) == Settled(old(tables), true)
        decreases |tables|, |tables| - i
      {
        if tables[i].state.Creating? {
          var t := tables[i].(state := CreateCommitted);
          SettledReplace(tables, i, t, true);
          tables := tables[i := t];
          i := i + 1;
        } else if tables[i].state.Dropping? {
          SettledDrop(tables, i, true);
          tables := tables[..i] + tables[i + 1..];
          i := 0;
        } else {
          i := i + 1;
        }
      }
      SettledFixed(tables, true);
    }

    method RemovePending()
      modifies this
      ensures tables == Settled(old(tables), false)
    {
      var i := 0;
      while i < |tables|
        invariant 0 <= i <= |tables|
        invariant forall j :: 0 <= j < i ==> AbortState(tables[j].state) == Some(tables[j].state)
        invariant Settled(tables, false) == Settled(old(tables), false)
        decreases |tables|, |tables| - i
      {
        if tables[i].state.Creating? || tables[i].state.Dropping? {
          SettledDrop(tables, i, false);
          tables := tables[..i] + tables[i + 1..];
          i := 0;
        } else {
          i := i + 1;
        }
      }
      SettledFixed(tables, false);
    }
  }

  lemma {:induction false} SettledDrop(tables: seq<Table>, i: nat, commit: bool)
    requires i < |tables| && Rule(tables[i].state, commit).None?
    ensures Settled(tables[..i] + tables[i + 1..], commit) == Settled(tables, commit)
  {
    var d := tables[..i] + tables[i + 1..];
    if i == 0 {
      assert d == tables[1..];
    } else {
      SettledDrop(tables[1..], i - 1, commit);
      assert d[1..] == tables[1..][..i - 1] + tables[1..][i..];
    }
  }

  lemma {:induction false} SettledReplace(tables: seq<Table>, i: nat, t: Table, commit: bool)
    requires i < |tables| && t.name == tables[i].name && Rule(t.state, commit) == Rule(tables[i].state, commit)
    ensures Settled(tables[i := t], commit) == Settled(tables, commit)
  {
    if i == 0 {
    } else {
      SettledReplace(tables[1..], i - 1, t, commit);
      assert tables[i := t][1..] == tables[1..][i - 1 := t];
    }
  }

  lemma {:induction false} SettledFixed(tables: seq<Table>, commit: bool)
    requires forall j :: 0 <= j < |tables| ==> Rule(tables[j].state, commit) == Some(tables[j].state)
    ensures Settled(tables, commit) == tables
  {
    if tables == [] {
    } else {
      SettledFixed(tables[1..], commit);
      assert tables == [tables[0]] + tables[1..];
    }
  }

  lemma {:induction false} SettledNames(tables: seq<Table>, commit: bool)
    ensures forall t :: t in Settled(tables, commit) ==> exists j :: 0 <= j < |tables| && tables[j].name == t.name
  {
    if tables == [] {
    } else {
      SettledNames(tables[1..], commit);
      forall t | t in Settled(tables, commit)
        ensures exists j :: 0 <= j < |tables| && tables[j].name == t.name
      {
        if t in Settled(tables[1..], commit) {
          var j :| 0 <= j < |tables[1..]| && tables[1..][j].name == t.name;
          assert tables[j + 1].name == t.name;
        }
      }
    }
  }

  lemma {:induction false} SettledUnique(tables: seq<Table>, commit: bool)
    requires Unique(tables)
    ensures Unique(Settled(tables, commit))
  {
    if tables == [] {
    } else {
      var rest := tables[1..];
      assert forall i :: 0 <= i < |rest| ==> rest[i] == tables[i + 1];
      SettledUnique(rest, commit);
      SettledNames(rest, commit);
      var r := Settled(rest, commit);
      forall j | 0 <= j < |r|
        ensures r[j].name != tables[0].name
      {
        assert r[j] in r;
        var i :| 0 <= i < |rest| && rest[i].name == r[j].name;
        assert rest[i] == tables[i + 1];
      }
    }
  }

  lemma ConsState(t: Table, rest: seq<Table>, name: string)
    ensures StateOf([t] + rest, name) == if t.name == name then Some(t.state) else StateOf(rest, name)
  {
    assert ([t] + rest)[1..] == rest;
  }

  lemma AbsentState(tables: seq<Table>, name: string)
    requires Unique(tables) && tables != []
    ensures StateOf(tables[1..], tables[0].name).None? && Unique(tables[1..])
  {
    assert forall i :: 0 <= i < |tables| - 1 ==> tables[1..][i] == tables[i + 1];
  }

  /** Commit and abort decide each name on its own: the rule applied to the state it had. */
  lemma {:induction false} SettledState(tables: seq<Table>, commit: bool, name: string)
    requires Unique(tables)
    ensures StateOf(Settled(tables, commit), name)
         == match StateOf(tables, name) case None => None case Some(s) => Rule(s, commit)
    decreases |tables|
  {
    if tables == [] {
    } else {
      hide StateOf, Unique;
      var t, rest := tables[0], tables[1..];
      AbsentState(tables, name);
      assert tables == [t] + rest;
      ConsState(t, rest, name);
      SettledState(rest, commit, name);
      var s := Rule(t.state, commit);
      if s.Some? {
        ConsState(Table(t.name, s.value), Settled(rest, commit), name);
      } else {
        assert [] + Settled(rest, commit) == Settled(rest, commit);
      }
    }
  }

  datatype Op = AddOp(name: string, state: State) | DeleteOp(name: string, state: State) | CommitOp | AbortOp

  function Apply(tables: seq<Table>, op: Op): (r: seq<Table>)
  {
    match op
    case AddOp(name, state) => Added(tables, name, state)
    case DeleteOp(name, state) => Deleted(tables, name, state)
    case CommitOp => Settled(tables, true)
    case AbortOp => Settled(tables, false)
  }

  function Run(ops: seq<Op>): (r: seq<Table>)
    decreases |ops|
  {
    if ops == [] then [] else Apply(Run(ops[..|ops| - 1]), ops[|ops| - 1])
  }

  /** Adding a name keeps names unique exactly when its buffer form is the name, or is not in the list yet. */
  lemma AddKeepsUnique(tables: seq<Table>, name: string, state: State)
    requires Unique(tables)
    ensures Unique(Added(tables, name, state))
       <==> (Index(tables, name) < |tables| || Index(tables, Fit(name)) == |tables|)
  {
    var i := Index(tables, name);
    if i == |tables| {
      var t := tables + [Table(Fit(name), state)];
      var k := Index(tables, Fit(name));
      if k < |tables| {
        assert t[k].name == t[|tables|].name;
      } else {
        assert forall j :: 0 <= j < |tables| ==> t[j] == tables[j];
      }
    }
  }

  /** Over every run in which each added name fits its buffer, names are unique. */
  lemma {:induction false} NamesUnique(ops: seq<Op>)
    requires forall i :: 0 <= i < |ops| && ops[i].AddOp? ==> |ops[i].name| < MAX_IDENTIFIER_LEN
    ensures Unique(Run(ops))
    decreases |ops|
  {
    if ops == [] {
    } else {
      var tables := Run(ops[..|ops| - 1]);
      NamesUnique(ops[..|ops| - 1]);
      match ops[|ops| - 1]
      case AddOp(name, state) => AddKeepsUnique(tables, name, state);
      case DeleteOp(name, state) => DeleteKeepsUnique(tables, name, state);
      case CommitOp => SettledUnique(tables, true);
      case AbortOp => SettledUnique(tables, false);
    }
  }

  lemma DeleteKeepsUnique(tables: seq<Table>, name: string, state: State)
    requires Unique(tables)
    ensures Unique(Deleted(tables, name, state))
  {
    hide Unique, Index;
    var i := Index(tables, name);
    if i < |tables| {
      DropUniqueAt(tables, i);
      RenameUnique(tables, i, state);
    }
  }

  lemma DropUniqueAt(tables: seq<Table>, i: nat)
    requires Unique(tables) && i < |tables|
    ensures Unique(tables[..i] + tables[i + 1..])
  {
    var d := tables[..i] + tables[i + 1..];
    forall a, b | 0 <= a < b < |d|
      ensures d[a].name != d[b].name
    {
      assert d[a] == tables[if a < i then a else a + 1] && d[b] == tables[if b < i then b else b + 1];
    }
  }

  lemma RenameUnique(tables: seq<Table>, i: nat, state: State)
    requires Unique(tables) && i < |tables|
    ensures Unique(tables[i := tables[i].(state := state)])
  {
  }

  /** The failing case: a name too long for the buffer, added twice, is in the list twice. */
  lemma LongNameTwice(name: string, state: State)
    requires |name| >= MAX_IDENTIFIER_LEN
    ensures !Unique(Added(Added([], name, state), name, state))
  {
    var t := Table(Fit(name), state);
    assert Added([], name, state) == [t];
    assert Index([t], name) == 1;
    assert Added([t], name, state) == [t, t];
    assert [t, t][0].name == [t, t][1].name;
  }

  /** The outcomes one by one: commit keeps what was created and drops what was dropped; abort drops both. */
  lemma SettledCases(tables: seq<Table>, name: string)
    requires Unique(tables)
    ensures var before := StateOf(tables, name);
            var committed := StateOf(Settled(tables, true), name);
            var aborted := StateOf(Settled(tables, false), name);
            && (before == None ==> committed == None && aborted == None)
            && (before == Some(Creating) ==> committed == Some(CreateCommitted) && aborted == None)
            && (before == Some(Dropping) ==> committed == None && aborted == None)
            && (before == Some(CreateCommitted) ==> committed == before && aborted == before)
            && (before == Some(DropCommitted) ==> committed == before && aborted == before)
  {
    hide StateOf, Settled;
    SettledState(tables, true, name);
    SettledState(tables, false, name);
  }
}
