/** The sent-message list seen as a map from kind and name to message, and where that view breaks. */
module SentMessageMap {
  import opened Bytes
  import opened Routing
  import opened SessionStore

  /** At most one entry of a kind and name that is not closed. */
  ghost predicate UniqueLive(sent: seq<Message>)
  {
    forall i, j :: 0 <= i < j < |sent| && sent[i].state.Created? && sent[j].state.Created?
                   ==> sent[i].kind != sent[j].kind || sent[i].name != sent[j].name
  }

  ghost predicate NoneClosed(sent: seq<Message>)
  {
    forall i :: 0 <= i < |sent| ==> sent[i].state.Created?
  }

  lemma DropUnique(sent: seq<Message>, i: nat)
    requires UniqueLive(sent) && i < |sent|
    ensures UniqueLive(Drop(sent, i))
  {
    var d := Drop(sent, i);
    forall a, b | 0 <= a < b < |d| && d[a].state.Created? && d[b].state.Created?
      ensures d[a].kind != d[b].kind || d[a].name != d[b].name
    {
      var a', b' := if a < i then a else a + 1, if b < i then b else b + 1;
      assert d[a] == sent[a'] && d[b] == sent[b'];
    }
  }

  /** Marks a message closed while the backend has not confirmed it. */
  function Close(s: Store, kind: char, name: string): (r: Store)
  {
    var i := IndexOfLive(s.sent, kind, name);
    if kind == NO_KIND || i == |s.sent| then s
    else s.(sent := s.sent[i := s.sent[i].(state := Closed)])
  }

  /** Closing a message keeps live entries unique and changes nothing but its state. */
  lemma CloseKeeps(s: Store, kind: char, name: string)
    ensures var r := Close(s, kind, name);
            && (UniqueLive(s.sent) ==> UniqueLive(r.sent))
            && (KindsNonzero(s.sent) ==> KindsNonzero(r.sent))
            && SentRefs(r.sent) == SentRefs(s.sent)
            && r == s.(sent := r.sent)
            && (Live(s) ==> Live(r))
  {
    hide UniqueLive, SentRefs, IndexOfLive;
    var i := IndexOfLive(s.sent, kind, name);
    if i < |s.sent| {
      ClosedRefs(s.sent, i);
      ClosedUnique(s.sent, i);
    }
  }

  lemma ClosedRefs(sent: seq<Message>, i: nat)
    requires i < |sent|
    ensures SentRefs(sent[i := sent[i].(state := Closed)]) == SentRefs(sent)
  {
    var t := sent[i := sent[i].(state := Closed)];
    assert forall j :: 0 <= j < |t| ==> t[j].ctx == sent[j].ctx;
    assert SentRefs(t) <= SentRefs(sent) <= SentRefs(t);
  }

  lemma ClosedUnique(sent: seq<Message>, i: nat)
    requires i < |sent|
    ensures UniqueLive(sent) ==> UniqueLive(sent[i := sent[i].(state := Closed)])
  {
  }

  lemma GetNone(sent: seq<Message>, kind: char, name: string)
    ensures kind != NO_KIND ==> (Get(sent, kind, name).None? <==> forall i :: 0 <= i < |sent| ==> !sent[i].Live(kind, name))
  {
  }

  lemma GetIs(sent: seq<Message>, i: nat, kind: char, name: string)
    requires UniqueLive(sent) && i < |sent| && sent[i].Live(kind, name) && kind != NO_KIND
    ensures Get(sent, kind, name) == Some(sent[i])
  {
    var j := IndexOfLive(sent, kind, name);
    assert j <= i;
  }

  /** The removal that replaces an unnamed message takes away a closed entry instead of the live one. */
  predicate RemovesClosedInstead(s: Store, m: Message)
  {
    && Duplicate(s, m) && m.name == ""
    && var i := IndexOfKey(s.sent, m.kind, m.name);
       i < |s.sent| && s.sent[i].state.Closed?
  }

  lemma AppendUnique(sent: seq<Message>, m: Message)
    requires UniqueLive(sent) && m.state.Created?
    ensures UniqueLive(sent + [m]) <==> forall i :: 0 <= i < |sent| ==> !sent[i].Live(m.kind, m.name)
  {
    var t := sent + [m];
    if exists i :: 0 <= i < |sent| && sent[i].Live(m.kind, m.name) {
      var i :| 0 <= i < |sent| && sent[i].Live(m.kind, m.name);
      assert t[i] == sent[i] && t[|sent|] == m;
    }
  }

  lemma DropLive(sent: seq<Message>, i: nat, kind: char, name: string)
    requires i < |sent|
    ensures (exists j :: 0 <= j < |Drop(sent, i)| && Drop(sent, i)[j].Live(kind, name))
       <==> exists j :: 0 <= j < |sent| && j != i && sent[j].Live(kind, name)
  {
    var d := Drop(sent, i);
    if exists j :: 0 <= j < |sent| && j != i && sent[j].Live(kind, name) {
      var j :| 0 <= j < |sent| && j != i && sent[j].Live(kind, name);
      assert d[if j < i then j else j - 1] == sent[j];
    }
    if exists j :: 0 <= j < |d| && d[j].Live(kind, name) {
      var j :| 0 <= j < |d| && d[j].Live(kind, name);
      assert d[j] == sent[if j < i then j else j + 1];
    }
  }

  /** Adding keeps the entries unique exactly when the removal it makes room with hits the live entry. */
  lemma AddKeepsUnique(s: Store, m: Message)
    requires Live(s) && UniqueLive(s.sent) && m.kind != NO_KIND && m.state.Created?
    ensures UniqueLive(Add(s, m).sent) <==> !RemovesClosedInstead(s, m)
  {
    hide Live, IndexOfKey, IndexOfLive, RemoveAt, Drop, UniqueLive;
    GetNone(s.sent, m.kind, m.name);
    AppendUnique(s.sent, m);
    if Duplicate(s, m) && m.name == "" {
      LiveHasKey(s.sent, m.kind, m.name);
      var i := IndexOfKey(s.sent, m.kind, m.name);
      var l := IndexOfLive(s.sent, m.kind, m.name);
      HeldIsLive(s, i);
      RemoveAtDrops(s, i);
      DropUnique(s.sent, i);
      AppendUnique(Drop(s.sent, i), m);
      DropLive(s.sent, i, m.kind, m.name);
      if s.sent[i].state.Created? {
        OnlyOneLive(s.sent, i, m.kind, m.name);
      }
    }
  }

  lemma OnlyOneLive(sent: seq<Message>, i: nat, kind: char, name: string)
    requires UniqueLive(sent) && i < |sent| && sent[i].Live(kind, name)
    ensures forall j :: 0 <= j < |sent| && j != i ==> !sent[j].Live(kind, name)
  {
  }

  /** Parse, close, parse again, parse a third time: two live unnamed statements. */
  lemma ClosedEntryBreaksUniqueness()
    ensures var m0 := Message('P', "", Created, None, 0);
            var m1 := Message('P', "", Created, None, 1);
            var m2 := Message('P', "", Created, None, 2);
            var s := Add(Close(Add(Empty(), m0), 'P', ""), m1);
            Live(s) && UniqueLive(s.sent) && !UniqueLive(Add(s, m2).sent)
  {
    var m0 := Message('P', "", Created, None, 0);
    var m1 := Message('P', "", Created, None, 1);
    var m2 := Message('P', "", Created, None, 2);
    var s0 := Add(Empty(), m0);
    assert s0.sent == [m0];
    var s1 := Close(s0, 'P', "");
    assert s1.sent == [m0.(state := Closed)];
    assert IndexOfLive(s1.sent, 'P', "") == 1;
    var s := Add(s1, m1);
    assert s.sent == [m0.(state := Closed), m1];
    assert IndexOfKey(s.sent, 'P', "") == 0;
    assert IndexOfLive(s.sent, 'P', "") == 1;
    AddKeepsUnique(s, m2);
  }

  // ----- the map view

  /** Removing a key makes it unfindable exactly when the entry it takes away was the live one. */
  lemma RemoveThenGet(s: Store, kind: char, name: string)
    requires Live(s) && UniqueLive(s.sent) && kind != NO_KIND
    ensures Get(Remove(s, kind, name).0.sent, kind, name).None?
       <==> (Get(s.sent, kind, name).None? || s.sent[IndexOfKey(s.sent, kind, name)].state.Created?)
  {
    hide Live, IndexOfKey, IndexOfLive, RemoveAt, Drop, UniqueLive;
    GetNone(s.sent, kind, name);
    var i := IndexOfKey(s.sent, kind, name);
    LiveHasKey(s.sent, kind, name);
    if i < |s.sent| {
      HeldIsLive(s, i);
      RemoveAtDrops(s, i);
      DropLive(s.sent, i, kind, name);
      GetNone(Drop(s.sent, i), kind, name);
      if s.sent[i].state.Created? {
        OnlyOneLive(s.sent, i, kind, name);
      }
    }
  }

  /** Removing a key leaves every other key's answer alone. */
  lemma RemoveKeepsOthers(s: Store, kind: char, name: string, k: char, n: string)
    requires Live(s) && UniqueLive(s.sent) && (k != kind || n != name)
    ensures Get(Remove(s, kind, name).0.sent, k, n) == Get(s.sent, k, n)
  {
    hide Live, IndexOfKey, RemoveAt, IndexOfLive, UniqueLive;
    var i := IndexOfKey(s.sent, kind, name);
    if kind != NO_KIND && i < |s.sent| && k != NO_KIND {
      HeldIsLive(s, i);
      RemoveAtDrops(s, i);
      DropGet(s.sent, i, k, n);
    }
  }

  lemma DropGet(sent: seq<Message>, i: nat, k: char, n: string)
    requires UniqueLive(sent) && i < |sent| && !sent[i].Keyed(k, n) && k != NO_KIND
    ensures Get(Drop(sent, i), k, n) == Get(sent, k, n)
  {
    hide UniqueLive;
    DropUnique(sent, i);
    var d := Drop(sent, i);
    var j := IndexOfLive(sent, k, n);
    if j < |sent| {
      var j' := if j < i then j else j - 1;
      assert d[j'] == sent[j];
      GetIs(d, j', k, n);
    } else {
      DropLive(sent, i, k, n);
      GetNone(d, k, n);
    }
  }

  /** Adding: a named duplicate is ignored, anything else becomes the entry; other keys are untouched. */
  lemma AddThenGet(s: Store, m: Message, k: char, n: string)
    requires Live(s) && UniqueLive(s.sent) && m.kind != NO_KIND && m.state.Created? && k != NO_KIND
    requires !RemovesClosedInstead(s, m)
    ensures Get(Add(s, m).sent, k, n)
         == if k != m.kind || n != m.name then Get(s.sent, k, n)
            else if Duplicate(s, m) && m.name != "" then Get(s.sent, k, n)
            else if Get(s.sent, k, n).Some? && !Duplicate(s, m) then Get(s.sent, k, n)
            else Some(m)
  {
    hide Live, IndexOfKey, IndexOfLive, Remove;
    AddKeepsUnique(s, m);
    var known := Get(s.sent, m.kind, m.name);
    if known.None? {
      AppendGet(s.sent, m, k, n);
    } else if Duplicate(s, m) && m.name == "" {
      var t := Remove(s, m.kind, m.name).0;
      RemoveUnique(s, m.kind, m.name);
      if k != m.kind || n != m.name {
        RemoveKeepsOthers(s, m.kind, m.name, k, n);
      }
      AppendGet(t.sent, m, k, n);
    }
  }

  lemma RemoveUnique(s: Store, kind: char, name: string)
    requires Live(s) && UniqueLive(s.sent)
    ensures UniqueLive(Remove(s, kind, name).0.sent)
  {
    hide Live, IndexOfKey, RemoveAt, UniqueLive;
    var i := IndexOfKey(s.sent, kind, name);
    if kind != NO_KIND && i < |s.sent| {
      HeldIsLive(s, i);
      RemoveAtDrops(s, i);
      DropUnique(s.sent, i);
    }
  }

  lemma AppendGet(sent: seq<Message>, m: Message, k: char, n: string)
    requires UniqueLive(sent + [m]) && m.state.Created? && k != NO_KIND
    ensures Get(sent + [m], k, n) == if m.Keyed(k, n) then Some(m) else Get(sent, k, n)
  {
    var t := sent + [m];
    if m.Keyed(k, n) {
      GetIs(t, |sent|, k, n);
    } else {
      var j := IndexOfLive(sent, k, n);
      assert forall x :: 0 <= x < |sent| ==> t[x] == sent[x];
      if j < |sent| {
        GetIs(t, j, k, n);
      } else {
        GetNone(t, k, n);
      }
    }
  }

  // ----- lists without closed entries

  /** While nothing is closed the list is a map: entries unique, none closed. */
  ghost predicate IsMap(sent: seq<Message>)
  {
    UniqueLive(sent) && NoneClosed(sent)
  }

  lemma {:induction false} OthersIsMap(sent: seq<Message>, kind: char)
    requires IsMap(sent)
    ensures IsMap(Others(sent, kind))
    decreases |sent|
  {
    if sent == [] {
    } else {
      var rest := sent[1..];
      assert IsMap(rest) by {
        assert forall i :: 0 <= i < |rest| ==> rest[i] == sent[i + 1];
      }
      OthersIsMap(rest, kind);
      if sent[0].kind != kind {
        var o := Others(rest, kind);
        OthersMembers(rest, kind);
        forall j | 0 <= j < |o|
          ensures o[j].kind != sent[0].kind || o[j].name != sent[0].name
        {
          assert o[j] in rest;
          var i :| 0 <= i < |rest| && rest[i] == o[j];
          assert rest[i] == sent[i + 1];
        }
        ConsIsMap(sent[0], o);
      }
    }
  }

  lemma ConsIsMap(m: Message, rest: seq<Message>)
    requires IsMap(rest) && m.state.Created?
    requires forall j :: 0 <= j < |rest| ==> rest[j].kind != m.kind || rest[j].name != m.name
    ensures IsMap([m] + rest)
  {
    var t := [m] + rest;
    assert forall i :: 1 <= i < |t| ==> t[i] == rest[i - 1];
  }

  lemma RemoveIsMap(s: Store, kind: char, name: string)
    requires Live(s) && IsMap(s.sent)
    ensures IsMap(Remove(s, kind, name).0.sent)
  {
    hide Live, IndexOfKey, RemoveAt, UniqueLive;
    RemoveUnique(s, kind, name);
    var i := IndexOfKey(s.sent, kind, name);
    if kind != NO_KIND && i < |s.sent| {
      HeldIsLive(s, i);
      RemoveAtDrops(s, i);
    }
  }

  lemma AddIsMap(s: Store, m: Message)
    requires Live(s) && IsMap(s.sent) && m.kind != NO_KIND && m.state.Created?
    ensures IsMap(Add(s, m).sent)
  {
    hide Live, Remove, UniqueLive, Get;
    AddKeepsUnique(s, m);
    RemoveIsMap(s, m.kind, m.name);
  }
}
