/** Configuration variables as the program keeps them: elements overwritten in loops, a table sorted in place. */
module ConfigSteps {
  import opened Bytes
  import opened ConfigVars

  class Parameter {
    const spec: Spec
    const cells: array<Cell>
    var free: Cell

    ghost predicate Valid()
    {
      cells.Length == spec.size
    }

    ghost function View(): (r: Record)
      reads this, cells
    {
      Record(spec, cells[..], free)
    }

    constructor (spec: Spec)
      ensures Valid() && fresh(cells) && this.spec == spec && View() == Booted(spec)
    {
      var c := Cell(spec.boot, Default, spec.boot, Default, Boot);
      this.spec := spec;
      cells := new Cell[spec.size](_ => c);
      free := c;
    }

    /** One element. The caller keeps the index below the size; the program's own test lets the size itself through. */
    method SetElement(i: nat, value: Option<string>, ctx: Ctx, source: Source) returns (ok: bool)
      requires Valid() && i < spec.size
      modifies cells
      ensures Valid() && View() == SetCell(old(View()), i, value, ctx, source)
      ensures ok <==> GateOf(spec.context, ctx).Ignore?
                      || (GateOf(spec.context, ctx).Pass? && NewValue(spec, old(cells[i]), value, source).Some?)
    {
      match GateOf(spec.context, ctx)
      case Refuse => return false;
      case Ignore => return true;
      case Pass =>
      var c := cells[i];
      var isReset := false;
      var v: int;
      if value.Some? {
        var parsed := spec.eval(value.value);
        if parsed.None? {
          return false;
        }
        v := parsed.value;
      } else if source.Default? {
        v := spec.boot;
      } else {
        v := c.reset;
        isReset := true;
      }
      c := c.(value := v);
      if ctx.Init? {
        c := c.(reset := v);
      }
      c := c.(setBy := ctx);
      if isReset {
        c := c.(source := c.resetSource);
      } else {
        c := c.(source := source);
      }
      if ctx.Init? {
        c := c.(resetSource := source);
      }
      cells[i] := c;
      return true;
    }

    /** Hands a value to every element that has none of its own. */
    method SetArrayDefault(v: int)
      requires Valid()
      modifies cells
      ensures Valid() && cells[..] == Propagated(old(cells[..]), v)
    {
      for i := 0 to spec.size
        invariant forall j :: 0 <= j < i ==>
                    cells[j] == if FollowsDefault(old(cells[j])) then Assigned(old(cells[j]), v, false, Init, ValueDefault)
                                else old(cells[j])
        invariant forall j :: i <= j < spec.size ==> cells[j] == old(cells[j])
      {
        if !cells[i].source.Default? && !cells[i].source.ValueDefault? {
          continue;
        }
        cells[i] := Cell(v, ValueDefault, v, ValueDefault, Init);
      }
    }

    method SetIndexFree(value: Option<string>, ctx: Ctx, source: Source)
      requires Valid()
      modifies this, cells
      ensures Valid() && View() == SetFree(old(View()), value, ctx, source)
    {
      if !GateOf(spec.context, ctx).Pass? || !spec.indexFree {
        return;
      }
      var given := Assign(spec, free, value, ctx, source);
      if given.Some? {
        free := given.value;
      }
      if spec.isDefault {
        var v := Handed(spec, free, value);
        if v.Some? && !spec.context.Boot? {
          SetArrayDefault(v.value);
        }
      }
    }

    /** RESET ALL for this parameter. */
    method Reset()
      requires Valid()
      modifies this, cells
      ensures Valid() && View() == ResetRecord(old(View()))
    {
      if spec.noResetAll {
        return;
      }
      for i := 0 to spec.size
        invariant forall j :: 0 <= j < i ==>
                    cells[j] == if spec.emptySlot(j) then old(cells[j]) else ResetCell(spec, old(cells[j]))
        invariant forall j :: i <= j < spec.size ==> cells[j] == old(cells[j])
        invariant free == old(free)
      {
        if !cells[i].setBy.Session? {
          continue;
        }
        if spec.emptySlot(i) {
          continue;
        }
        var ok := SetElement(i, None, Init, File);
      }
      if spec.indexFree && free.setBy.Session? && GateOf(spec.context, Init).Pass? {
        free := Assigned(free, free.reset, true, Init, File);
      }
    }
  }

  // ----- finding a parameter by name

  datatype Entry = Entry(name: string, isArray: bool)

  /** An array parameter is named by a prefix, the rest being the index; a scalar by its whole name. */
  predicate Matches(e: Entry, name: string)
  {
    if e.isArray then e.name <= name else e.name == name
  }

  ghost predicate LongestFirst(table: seq<Entry>)
  {
    forall i, j :: 0 <= i < j < |table| ==> |table[i].name| >= |table[j].name|
  }

  ghost predicate DistinctNames(table: seq<Entry>)
  {
    forall i, j :: 0 <= i < j < |table| ==> table[i].name != table[j].name
  }

  method Swap(table: array<Entry>, i: nat, j: nat)
    requires i < j < table.Length
    modifies table
    ensures table[i] == old(table[j]) && table[j] == old(table[i])
    ensures forall k :: 0 <= k < table.Length && k != i && k != j ==> table[k] == old(table[k])
    ensures multiset(table[..]) == multiset(old(table[..]))
  {
    table[i], table[j] := table[j], table[i];
  }

  /** No entry of the second part has a longer name than any entry of the first. */
  ghost predicate Split(table: seq<Entry>, i: nat)
  {
    forall a, b :: 0 <= a < i <= b < |table| ==> |table[a].name| >= |table[b].name|
  }

  /** The inner loop: an entry with the longest remaining name ends up at i. */
  method BringLongest(table: array<Entry>, i: nat)
    requires i < table.Length && Split(table[..], i)
    modifies table
    ensures table[..i] == old(table[..i])
    ensures Split(table[..], i) && forall b :: i <= b < table.Length ==> |table[i].name| >= |table[b].name|
    ensures multiset(table[..]) == multiset(old(table[..]))
  {
    hide Split;
    for j := i + 1 to table.Length
      invariant forall a :: 0 <= a < i ==> table[a] == old(table[a])
      invariant Split(table[..], i)
      invariant forall b :: i <= b < j ==> |table[i].name| >= |table[b].name|
      invariant multiset(table[..]) == multiset(old(table[..]))
    {
      if |table[i].name| < |table[j].name| {
        ghost var before := table[..];
        Swap(table, i, j);
        SplitSwap(before, table[..], i, j);
      }
    }
  }

  lemma SplitSwap(s: seq<Entry>, t: seq<Entry>, i: nat, j: nat)
    requires i < j < |s| && |t| == |s| && Split(s, i) && t[i] == s[j] && t[j] == s[i]
    requires forall k :: 0 <= k < |s| && k != i && k != j ==> t[k] == s[k]
    ensures Split(t, i)
  {
  }

  /** The sort that puts long names before their prefixes. */
  method SortByLength(table: array<Entry>)
    modifies table
    ensures LongestFirst(table[..])
    ensures multiset(table[..]) == multiset(old(table[..]))
  {
    for i := 0 to table.Length
      invariant LongestFirst(table[..i]) && Split(table[..], i)
      invariant multiset(table[..]) == multiset(old(table[..]))
    {
      BringLongest(table, i);
      SortedLonger(table[..], i);
    }
    assert table[..table.Length] == table[..];
  }

  lemma SortedLonger(table: seq<Entry>, i: nat)
    requires i < |table| && LongestFirst(table[..i]) && Split(table, i)
    requires forall b :: i <= b < |table| ==> |table[i].name| >= |table[b].name|
    ensures LongestFirst(table[..i + 1]) && Split(table, i + 1)
  {
    assert forall a :: 0 <= a < i ==> table[..i][a] == table[a];
  }

  method FindOption(table: array<Entry>, name: string) returns (k: nat)
    ensures k <= table.Length
    ensures k < table.Length ==> Matches(table[k], name)
    ensures forall j :: 0 <= j < k ==> !Matches(table[j], name)
  {
    k := 0;
    while k < table.Length && !Matches(table[k], name)
      invariant 0 <= k <= table.Length
      invariant forall j :: 0 <= j < k ==> !Matches(table[j], name)
    {
      k := k + 1;
    }
  }

  /** In a sorted table of distinct names, the entry found is exactly the longest that matches. */
  lemma FoundIsLongest(table: seq<Entry>, name: string, k: nat)
    requires LongestFirst(table) && DistinctNames(table) && k < |table|
    ensures (Matches(table[k], name) && forall j :: 0 <= j < k ==> !Matches(table[j], name))
       <==> (Matches(table[k], name) && forall j :: 0 <= j < |table| && j != k && Matches(table[j], name)
                                                   ==> |table[j].name| < |table[k].name|)
  {
    forall j | 0 <= j < |table| && j != k && Matches(table[j], name) && Matches(table[k], name)
      ensures |table[j].name| != |table[k].name|
    {
      SamePrefix(table[j].name, table[k].name, name);
    }
  }

  lemma SamePrefix(a: string, b: string, name: string)
    requires a <= name && b <= name
    ensures |a| == |b| ==> a == b
  {
    assert a == name[..|a|] && b == name[..|b|];
  }
}
