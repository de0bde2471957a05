/** The session's message lists as the program edits them: an array shifted and grown in place. */
module SessionSteps {
  import opened Bytes
  import opened Routing
  import opened SessionStore

  const INIT_LIST_SIZE := 8

  class Session {
    var items: array<Message>
    var size: nat
    var pending: seq<Pending>
    var contexts: map<nat, Context>
    var current: Option<nat>
    var inProgress: bool

    ghost predicate Valid()
      reads this
    {
      0 < items.Length && size <= items.Length
    }

    ghost function View(): (s: Store)
      requires Valid()
      reads this, items
    {
      Store(items[..size], pending, contexts, current, inProgress)
    }

    constructor ()
      ensures Valid() && fresh(items) && View() == Empty() && items.Length == INIT_LIST_SIZE
    {
      items := new Message[INIT_LIST_SIZE](i => Message(NO_KIND, "", Created, None, 0));
      size, pending, contexts, current, inProgress := 0, [], map[], None, false;
    }

    method GetSentMessage(kind: char, name: string) returns (r: Option<Message>)
      requires Valid()
      ensures r == Get(View().sent, kind, name)
    {
      if kind == NO_KIND {
        return None;
      }
      for i := 0 to size
        invariant forall j :: 0 <= j < i ==> !items[j].Live(kind, name)
      {
        if items[i].kind == kind && items[i].name == name && items[i].state.Created? {
          assert IndexOfLive(items[..size], kind, name) == i;
          return Some(items[i]);
        }
      }
      return None;
    }

    /** Counts the uses in the list, then looks through the queue. */
    method CanQueryContextDestroy(id: nat) returns (ok: bool)
      requires Valid()
      ensures ok <==> CanDestroy(View(), id)
    {
      var count: nat := 0;
      for i := 0 to size
        invariant count == Uses(items[..i], id)
      {
        UsesLast(items[..i], items[i], id);
        assert items[..i + 1] == items[..i] + [items[i]];
        if items[i].ctx == Some(id) {
          count := count + 1;
        }
      }
      if count > 1 {
        return false;
      }
      count := 0;
      for i := 0 to |pending|
        invariant count == 0 <==> forall j :: 0 <= j < i ==> pending[j].Address() != id
      {
        if pending[i].Address() == id {
          count := count + 1;
        }
      }
      return count == 0;
    }

    method QueryContextDestroy(id: nat)
      requires Valid() && id in contexts
      modifies this`contexts, this`inProgress, this`current
      ensures Valid() && View() == DestroyContext(old(View()), id)
    {
      inProgress := false;
      current := None;
      contexts := contexts - {id};
    }

    method SentMessageDestroy(m: Message)
      requires Valid() && (m.ctx.Some? ==> m.ctx.value in contexts)
      modifies this`contexts, this`inProgress, this`current
      ensures Valid() && View() == DestroyMessage(old(View()), m)
    {
      hide CanDestroy;
      var wasInProgress := inProgress;
      if m.ctx.Some? {
        var kept: Option<nat> := None;
        if current != m.ctx {
          kept := current;
        }
        var ok := CanQueryContextDestroy(m.ctx.value);
        if ok {
          QueryContextDestroy(m.ctx.value);
          if wasInProgress {
            inProgress := true;
          }
          if kept.Some? {
            current := kept;
          }
        }
      }
    }

    /** Closes the gap at i, as the memmove does. */
    method ShiftDown(i: nat)
      requires Valid() && i < size
      modifies this`size, items
      ensures Valid() && items[..size] == Drop(old(items[..size]), i)
    {
      var j := i;
      while j < size - 1
        invariant size == old(size) && i <= j <= size - 1
        invariant forall k :: 0 <= k < i ==> items[k] == old(items[k])
        invariant forall k :: i <= k < j ==> items[k] == old(items[k + 1])
        invariant forall k :: j <= k < size ==> items[k] == old(items[k])
      {
        items[j] := items[j + 1];
        j := j + 1;
      }
      size := size - 1;
    }

    method RemoveSentMessage(kind: char, name: string) returns (found: bool)
      requires Valid() && Live(View())
      modifies this, items
      ensures Valid() && items == old(items)
      ensures (View(), found) == Remove(old(View()), kind, name)
    {
      hide DestroyMessage, Drop, Live;
      if kind == NO_KIND {
        return false;
      }
      var i := 0;
      while i < size && !(items[i].kind == kind && items[i].name == name)
        invariant 0 <= i <= size
        invariant forall j :: 0 <= j < i ==> !items[j].Keyed(kind, name)
      {
        i := i + 1;
      }
      assert IndexOfKey(items[..size], kind, name) == i;
      if i == size {
        return false;
      }
      HeldIsLive(View(), i);
      assert View().sent[i] == items[i];
      SentMessageDestroy(items[i]);
      DestroyMessageKeepsLists(old(View()), items[i]);
      ShiftDown(i);
      return true;
    }

    /** Removal by name of an entry with none of its kind before it takes away that entry. */
    method RemoveFirstOfKind(kind: char, i: nat)
      requires Valid() && Live(View()) && kind != NO_KIND
      requires i < size && items[i].kind == kind && forall j :: 0 <= j < i ==> items[j].kind != kind
      modifies this, items
      ensures Valid() && items == old(items) && Live(View()) && size == old(size) - 1
      ensures old(items[i].ctx.Some? ==> items[i].ctx.value in contexts)
      ensures View() == RemoveAt(old(View()), i)
      ensures forall j :: 0 <= j < i ==> items[j] == old(items[j])
    {
      hide Live, RemoveAt;
      ghost var before := View();
      FirstOfKind(before.sent, kind, i);
      HeldIsLive(before, i);
      RemoveAtReleases(before, i);
      RemoveAtDrops(before, i);
      var removed := RemoveSentMessage(kind, items[i].name);
      assert forall j :: 0 <= j < i ==> items[..size][j] == before.sent[j];
    }

    method RemoveSentMessages(kind: char)
      requires Valid() && Live(View())
      modifies this, items
      ensures Valid() && items == old(items) && Live(View())
      ensures View() == RemoveKind(old(View()), kind)
    {
      hide Live, RemoveAt;
      if kind == NO_KIND {
        return;
      }
      var i := 0;
      while i < size
        invariant Valid() && items == old(items) && Live(View())
        invariant 0 <= i <= size
        invariant forall j :: 0 <= j < i ==> items[j].kind != kind
        invariant RemoveKind(old(View()), kind) == RemoveKindFrom(View(), kind, i)
        decreases size - i
      {
        assert View().sent[i] == items[i];
        if items[i].kind == kind {
          RemoveFirstOfKind(kind, i);
        } else {
          i := i + 1;
        }
      }
    }

    method ClearSentMessageList()
      requires Valid() && Live(View()) && KindsNonzero(View().sent)
      modifies this, items
      ensures Valid() && items == old(items) && size == 0
      ensures View() == Clear(old(View()))
    {
      hide Live, RemoveKind, KindsNonzero;
      while size > 0
        invariant Valid() && items == old(items) && Live(View()) && KindsNonzero(View().sent)
        invariant Clear(old(View())) == Clear(View())
        decreases size
      {
        ghost var before := View();
        assert before.sent[0] == items[0];
        FirstKind(before.sent);
        RemoveKindMeans(before, items[0].kind);
        OthersKinds(before.sent, items[0].kind);
        RemoveSentMessages(items[0].kind);
      }
    }

    /** Appends, doubling the array when it is full. */
    method Push(m: Message)
      requires Valid()
      modifies this`items, this`size, items
      ensures Valid() && (items == old(items) || fresh(items))
      ensures View() == Append(old(View()), m)
      ensures items.Length == if old(size) == old(items.Length) then 2 * old(items.Length) else old(items.Length)
    {
      if size == items.Length {
        var bigger := new Message[2 * items.Length];
        forall i | 0 <= i < size {
          bigger[i] := items[i];
        }
        items := bigger;
      }
      items[size] := m;
      size := size + 1;
      assert items[..size] == old(items[..size]) + [m];
    }

    method AddSentMessage(m: Message)
      requires Valid() && Live(View())
      modifies this, items
      ensures Valid() && (items == old(items) || fresh(items))
      ensures View() == Add(old(View()), m)
    {
      hide Live, Get, Remove;
      var known := GetSentMessage(m.kind, m.name);
      if known.Some? && known.value.addr == m.addr {
        return;
      }
      if known.Some? {
        if m.name == "" {
          GetKeyed(View().sent, m.kind, m.name);
          var removed := RemoveSentMessage(known.value.kind, known.value.name);
        } else {
          return;
        }
      }
      Push(m);
    }

    /** The end of the session: the list first, then the context in hand if it is still there. */
    method Teardown()
      requires Valid() && Live(View()) && KindsNonzero(View().sent)
      modifies this, items
      ensures Valid() && size == 0
      ensures contexts == TornDown(old(View())).contexts
    {
      hide Live, Clear, SentRefs, PendingRefs, PendingAddresses;
      ClearMeans(View());
      ClearSentMessageList();
      CurrentIsLive(View());
      if current.Some? {
        QueryContextDestroy(current.value);
      }
    }
  }

  lemma {:induction false} UsesLast(sent: seq<Message>, m: Message, id: nat)
    ensures Uses(sent + [m], id) == Uses(sent, id) + (if m.ctx == Some(id) then 1 else 0)
  {
    if sent == [] {
      assert sent + [m] == [m];
    } else {
      UsesLast(sent[1..], m, id);
      assert (sent + [m])[1..] == sent[1..] + [m];
    }
  }

  lemma DestroyMessageKeepsLists(s: Store, m: Message)
    requires m.ctx.Some? ==> m.ctx.value in s.contexts
    ensures DestroyMessage(s, m).sent == s.sent && DestroyMessage(s, m).pending == s.pending
  {
  }

  /** With no earlier entry of the kind, removal by name finds the entry at hand. */
  lemma FirstOfKind(sent: seq<Message>, kind: char, i: nat)
    requires i < |sent| && sent[i].kind == kind
    requires forall j :: 0 <= j < i ==> sent[j].kind != kind
    ensures IndexOfKey(sent, kind, sent[i].name) == i
  {
    assert sent[i].Keyed(kind, sent[i].name);
  }

  lemma GetKeyed(sent: seq<Message>, kind: char, name: string)
    ensures var r := Get(sent, kind, name); r.Some? ==> r.value.kind == kind && r.value.name == name
  {
  }

  /** The store after teardown. */
  ghost function TornDown(s: Store): (r: Store)
    requires Live(s) && KindsNonzero(s.sent)
  {
    var t := Clear(s);
    ClearMeans(s);
    if t.current.Some? then DestroyContext(t, t.current.value) else t
  }

  /**
   * Teardown frees each context at most once, and leaves allocated exactly those that were not in
   * hand and not held by a sent message, or whose address a pending one has.
   */
  lemma TeardownLeaves(s: Store)
    requires Live(s) && KindsNonzero(s.sent)
    ensures var inHand := if s.current.Some? then {s.current.value} else {};
            TornDown(s).contexts == s.contexts - (SentRefs(s.sent) - PendingAddresses(s.pending)) - inHand
    ensures TornDown(s).sent == [] && TornDown(s).current == None
  {
    hide Clear, PendingAddresses;
    ClearMeans(s);
    var t := Clear(s);
    assert SentRefs(t.sent) == {};
    var freed := SentRefs(s.sent) - PendingAddresses(s.pending);
    assert SentRefs(s.sent) - SentRefs(t.sent) - PendingAddresses(s.pending) == freed;
    assert t.contexts == s.contexts - freed;
  }
}
