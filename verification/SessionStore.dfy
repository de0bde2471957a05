/**
 * What a session keeps between messages: the list of sent messages, the queue of pending ones, and
 * the query contexts they point to. A context is named by its address; the domain of `contexts` is
 * the set of addresses that are allocated.
 */
module SessionStore {
  import opened Bytes
  import opened Routing

  const NO_KIND := '\0'

  datatype MessageState = Created | Closed

  /** One sent message; `addr` is its own address, `ctx` that of its query context, if any. */
  datatype Message = Message(kind: char, name: string, state: MessageState, ctx: Option<nat>, addr: nat) {
    predicate Keyed(k: char, n: string) { kind == k && name == n }
    predicate Live(k: char, n: string) { Keyed(k, n) && state.Created? }
  }

  /** What made a context: a query, a query that is a PREPARE, or a Parse message. */
  datatype Use = PlainQuery | PrepareQuery(name: string) | ParsedStatement

  /**
   * A query context: what routing stored in it, its virtual main node, the decision of the session
   * that it comes from, and what made it.
   */
  datatype Context = Context(plan: Stored, main: int, origin: nat, use: Use)

  /**
   * A pending message. All but Sync carry the address of a context; Sync leaves the field as the
   * allocator returned it, and the field is compared all the same.
   */
  datatype Pending = Awaits(ctx: nat) | SyncMark(junk: nat) {
    function Address(): (a: nat) { if Awaits? then ctx else junk }
  }

  datatype Store = Store(
    sent: seq<Message>,
    pending: seq<Pending>,
    contexts: map<nat, Context>,
    current: Option<nat>,
    inProgress: bool)

  function Empty(): (s: Store)
  {
    Store([], [], map[], None, false)
  }

  // ----- lookups

  /** The first entry of a kind and name, whatever its state, as removal looks for it. */
  function IndexOfKey(sent: seq<Message>, kind: char, name: string): (i: nat)
    ensures i <= |sent|
    ensures i < |sent| ==> sent[i].Keyed(kind, name)
    ensures forall j :: 0 <= j < i ==> !sent[j].Keyed(kind, name)
  {
    if sent == [] || sent[0].Keyed(kind, name) then 0 else 1 + IndexOfKey(sent[1..], kind, name)
  }

  /** The first entry of a kind and name that is not closed, as lookup looks for it. */
  function IndexOfLive(sent: seq<Message>, kind: char, name: string): (i: nat)
    ensures i <= |sent|
    ensures i < |sent| ==> sent[i].Live(kind, name)
    ensures forall j :: 0 <= j < i ==> !sent[j].Live(kind, name)
  {
    if sent == [] || sent[0].Live(kind, name) then 0 else 1 + IndexOfLive(sent[1..], kind, name)
  }

  function Get(sent: seq<Message>, kind: char, name: string): (r: Option<Message>)
  {
    if kind == NO_KIND then None
    else
      var i := IndexOfLive(sent, kind, name);
      if i < |sent| then Some(sent[i]) else None
  }

  // ----- references

  ghost function SentRefs(sent: seq<Message>): (r: set<nat>)
  {
    set i | 0 <= i < |sent| && sent[i].ctx.Some? :: sent[i].ctx.value
  }

  ghost function PendingRefs(pending: seq<Pending>): (r: set<nat>)
  {
    set i | 0 <= i < |pending| && pending[i].Awaits? :: pending[i].ctx
  }

  /** The addresses destruction compares with, those of Sync messages included. */
  ghost function PendingAddresses(pending: seq<Pending>): (r: set<nat>)
  {
    set i | 0 <= i < |pending| :: pending[i].Address()
  }

  /** Every context held anywhere in the session is allocated. */
  ghost predicate Live(s: Store)
  {
    && SentRefs(s.sent) <= s.contexts.Keys
    && PendingRefs(s.pending) <= s.contexts.Keys
    && (s.current.Some? ==> s.current.value in s.contexts)
  }

  function Uses(sent: seq<Message>, id: nat): (n: nat)
  {
    if sent == [] then 0 else (if sent[0].ctx == Some(id) then 1 else 0) + Uses(sent[1..], id)
  }

  /** No other sent message and no pending message needs the context. */
  predicate CanDestroy(s: Store, id: nat)
  {
    Uses(s.sent, id) <= 1 && forall i :: 0 <= i < |s.pending| ==> s.pending[i].Address() != id
  }

  function Drop(sent: seq<Message>, i: nat): (r: seq<Message>)
    requires i < |sent|
  {
    sent[..i] + sent[i + 1..]
  }

  lemma {:induction false} UsesZero(sent: seq<Message>, id: nat)
    ensures Uses(sent, id) == 0 <==> id !in SentRefs(sent)
  {
    if sent == [] {
    } else {
      UsesZero(sent[1..], id);
      assert forall i :: 1 <= i < |sent| ==> sent[i] == sent[1..][i - 1];
      if id in SentRefs(sent) && sent[0].ctx != Some(id) {
        var i :| 0 <= i < |sent| && sent[i].ctx == Some(id);
        assert sent[1..][i - 1].ctx == Some(id);
        assert id in SentRefs(sent[1..]);
      }
      if id in SentRefs(sent[1..]) {
        var i :| 0 <= i < |sent[1..]| && sent[1..][i].ctx == Some(id);
        assert sent[i + 1].ctx == Some(id);
      }
    }
  }

  lemma {:induction false} UsesDrop(sent: seq<Message>, i: nat, id: nat)
    requires i < |sent|
    ensures Uses(sent, id) == Uses(Drop(sent, i), id) + (if sent[i].ctx == Some(id) then 1 else 0)
  {
    if i == 0 {
      assert Drop(sent, 0) == sent[1..];
    } else {
      UsesDrop(sent[1..], i - 1, id);
      assert Drop(sent, i)[1..] == Drop(sent[1..], i - 1);
    }
  }

  /** A used context may go exactly when no other sent message and no pending message uses it. */
  lemma CanDestroyMeans(s: Store, i: nat)
    requires i < |s.sent| && s.sent[i].ctx.Some?
    ensures var id := s.sent[i].ctx.value;
            CanDestroy(s, id) <==> id !in SentRefs(Drop(s.sent, i)) && id !in PendingAddresses(s.pending)
  {
    var id := s.sent[i].ctx.value;
    UsesDrop(s.sent, i, id);
    UsesZero(Drop(s.sent, i), id);
  }

  /** What Sync messages carry can keep a context from being freed and can do nothing else. */
  lemma SyncOnlyBlocks(s: Store, i: nat, id: nat)
    requires i < |s.pending| && s.pending[i].SyncMark?
    ensures var t := s.(pending := s.pending[..i] + s.pending[i + 1..]);
            && PendingRefs(t.pending) == PendingRefs(s.pending)
            && (CanDestroy(s, id) <==> CanDestroy(t, id) && s.pending[i].junk != id)
  {
    var p, q := s.pending, s.pending[..i] + s.pending[i + 1..];
    assert forall j :: 0 <= j < i ==> q[j] == p[j];
    assert forall j :: i < j < |p| ==> p[j] == q[j - 1];
    assert forall j :: i <= j < |q| ==> q[j] == p[j + 1];
    assert PendingRefs(q) == PendingRefs(p);
  }

  // ----- destruction

  /** Frees a context; the session forgets what it was working on. */
  function DestroyContext(s: Store, id: nat): (r: Store)
    requires id in s.contexts
  {
    s.(contexts := s.contexts - {id}, inProgress := false, current := None)
  }

  /** Frees a message's context if nobody else needs it, and puts the session's flags back. */
  function DestroyMessage(s: Store, m: Message): (r: Store)
    requires m.ctx.Some? ==> m.ctx.value in s.contexts
  {
    if m.ctx.None? || !CanDestroy(s, m.ctx.value) then s
    else
      var kept := if s.current != m.ctx then s.current else None;
      DestroyContext(s, m.ctx.value).(inProgress := s.inProgress, current := kept)
  }

  function RemoveAt(s: Store, i: nat): (r: Store)
    requires i < |s.sent|
    requires s.sent[i].ctx.Some? ==> s.sent[i].ctx.value in s.contexts
  {
    DestroyMessage(s, s.sent[i]).(sent := Drop(s.sent, i))
  }

  lemma DropRefs(sent: seq<Message>, i: nat)
    requires i < |sent|
    ensures SentRefs(sent) == SentRefs(Drop(sent, i)) + (if sent[i].ctx.Some? then {sent[i].ctx.value} else {})
  {
    var d := Drop(sent, i);
    forall id | id in SentRefs(sent)
      ensures id in SentRefs(d) || sent[i].ctx == Some(id)
    {
      var j :| 0 <= j < |sent| && sent[j].ctx == Some(id);
      if j < i { assert d[j] == sent[j]; } else if j > i { assert d[j - 1] == sent[j]; }
    }
    forall id | id in SentRefs(d)
      ensures id in SentRefs(sent)
    {
      var j :| 0 <= j < |d| && d[j].ctx == Some(id);
      if j < i { assert d[j] == sent[j]; } else { assert d[j] == sent[j + 1]; }
    }
  }

  /**
   * From s to r messages went away and nothing else happened but the release of exactly the
   * contexts that only they needed and no pending message has the address of; the in-progress flag stays, and the current context is dropped
   * only when it is one of those released.
   */
  ghost predicate Released(s: Store, r: Store)
  {
    var freed := SentRefs(s.sent) - SentRefs(r.sent) - PendingAddresses(s.pending);
    && SentRefs(r.sent) <= SentRefs(s.sent)
    && r.contexts == s.contexts - freed
    && r.pending == s.pending
    && r.inProgress == s.inProgress
    && r.current == (if s.current.Some? && s.current.value in freed then None else s.current)
  }

  lemma ReleasedKeepsLive(s: Store, r: Store)
    requires Live(s) && Released(s, r)
    ensures Live(r)
  {
    assert forall i :: 0 <= i < |s.pending| && s.pending[i].Awaits? ==> s.pending[i].Address() == s.pending[i].ctx;
    assert PendingRefs(s.pending) <= PendingAddresses(s.pending);
  }

  lemma ReleasedTwice(s: Store, r: Store, t: Store)
    requires Released(s, r) && Released(r, t)
    ensures Released(s, t)
  {
    var a, b, c, p := SentRefs(s.sent), SentRefs(r.sent), SentRefs(t.sent), PendingAddresses(s.pending);
    assert (a - b - p) + (b - c - p) == a - c - p;
    assert t.contexts == s.contexts - (a - b - p) - (b - c - p);
    assert t.contexts == s.contexts - ((a - b - p) + (b - c - p));
  }

  lemma RemoveAtReleases(s: Store, i: nat)
    requires Live(s) && i < |s.sent|
    requires s.sent[i].ctx.Some? ==> s.sent[i].ctx.value in s.contexts
    ensures Released(s, RemoveAt(s, i)) && Live(RemoveAt(s, i))
  {
    hide Drop, CanDestroy;
    DropRefs(s.sent, i);
    if s.sent[i].ctx.Some? {
      CanDestroyMeans(s, i);
    }
    ReleasedKeepsLive(s, RemoveAt(s, i));
  }

  // ----- removal

  function Remove(s: Store, kind: char, name: string): (r: (Store, bool))
    requires Live(s)
  {
    var i := IndexOfKey(s.sent, kind, name);
    if kind == NO_KIND || i == |s.sent| then (s, false)
    else
      assert s.sent[i].ctx.Some? ==> s.sent[i].ctx.value in SentRefs(s.sent);
      (RemoveAt(s, i), true)
  }

  lemma RemoveReleases(s: Store, kind: char, name: string)
    requires Live(s)
    ensures Live(Remove(s, kind, name).0) && Released(s, Remove(s, kind, name).0)
  {
    hide RemoveAt;
    var i := IndexOfKey(s.sent, kind, name);
    if kind != NO_KIND && i < |s.sent| {
      assert s.sent[i].ctx.Some? ==> s.sent[i].ctx.value in SentRefs(s.sent);
      RemoveAtReleases(s, i);
    }
  }

  /** The index loop that removes a kind, standing still whenever it removes. */
  function RemoveKindFrom(s: Store, kind: char, i: nat): (r: Store)
    requires Live(s) && kind != NO_KIND && i <= |s.sent|
    decreases |s.sent| - i
  {
    if i == |s.sent| then s
    else if s.sent[i].kind == kind then
      assert s.sent[i].ctx.Some? ==> s.sent[i].ctx.value in SentRefs(s.sent);
      assert Live(RemoveAt(s, i)) by { RemoveAtReleases(s, i); }
      RemoveKindFrom(RemoveAt(s, i), kind, i)
    else RemoveKindFrom(s, kind, i + 1)
  }

  function RemoveKind(s: Store, kind: char): (r: Store)
    requires Live(s)
  {
    if kind == NO_KIND then s else RemoveKindFrom(s, kind, 0)
  }

  function Others(sent: seq<Message>, kind: char): (r: seq<Message>)
    ensures |r| <= |sent|
  {
    if sent == [] then []
    else (if sent[0].kind == kind then [] else [sent[0]]) + Others(sent[1..], kind)
  }

  lemma {:induction false} RemoveKindFromMeans(s: Store, kind: char, i: nat)
    requires Live(s) && kind != NO_KIND && i <= |s.sent|
    ensures var r := RemoveKindFrom(s, kind, i);
            r.sent == s.sent[..i] + Others(s.sent[i..], kind) && Released(s, r) && Live(r)
    decreases |s.sent| - i
  {
    hide Released, Live, RemoveAt;
    if i == |s.sent| {
      assert s.sent[..i] + [] == s.sent;
      ReleasedNothing(s);
    } else if s.sent[i].kind == kind {
      HeldIsLive(s, i);
      RemoveAtReleases(s, i);
      var t := RemoveAt(s, i);
      RemoveAtDrops(s, i);
      RemoveKindFromMeans(t, kind, i);
      ReleasedTwice(s, t, RemoveKindFrom(t, kind, i));
      assert t.sent[..i] == s.sent[..i] && t.sent[i..] == s.sent[i..][1..];
    } else {
      RemoveKindFromMeans(s, kind, i + 1);
      assert s.sent[i..][1..] == s.sent[i + 1..];
      assert s.sent[..i + 1] == s.sent[..i] + [s.sent[i]];
    }
  }

  lemma ReleasedNothing(s: Store)
    ensures Released(s, s)
  {
    assert s.contexts - {} == s.contexts;
  }

  lemma HeldIsLive(s: Store, i: nat)
    requires Live(s) && i < |s.sent|
    ensures s.sent[i].ctx.Some? ==> s.sent[i].ctx.value in s.contexts
  {
    assert s.sent[i].ctx.Some? ==> s.sent[i].ctx.value in SentRefs(s.sent);
  }

  lemma CurrentIsLive(s: Store)
    requires Live(s)
    ensures s.current.Some? ==> s.current.value in s.contexts
  {
  }

  lemma RemoveAtDrops(s: Store, i: nat)
    requires i < |s.sent|
    requires s.sent[i].ctx.Some? ==> s.sent[i].ctx.value in s.contexts
    ensures RemoveAt(s, i).sent == Drop(s.sent, i)
  {
  }

  /** Removing a kind keeps the other entries in their order and releases what only it needed. */
  lemma RemoveKindMeans(s: Store, kind: char)
    requires Live(s) && kind != NO_KIND
    ensures var r := RemoveKind(s, kind); r.sent == Others(s.sent, kind) && Released(s, r) && Live(r)
  {
    hide Released, Live, RemoveKindFrom;
    RemoveKindFromMeans(s, kind, 0);
    assert s.sent[..0] + Others(s.sent, kind) == Others(s.sent, kind);
    assert s.sent[0..] == s.sent;
  }

  predicate KindsNonzero(sent: seq<Message>)
  {
    forall i :: 0 <= i < |sent| ==> sent[i].kind != NO_KIND
  }

  lemma {:induction false} OthersMembers(sent: seq<Message>, kind: char)
    ensures forall m :: m in Others(sent, kind) ==> m in sent
  {
    if sent == [] {
    } else {
      OthersMembers(sent[1..], kind);
    }
  }

  lemma OthersKinds(sent: seq<Message>, kind: char)
    requires KindsNonzero(sent)
    ensures KindsNonzero(Others(sent, kind))
    ensures sent != [] && sent[0].kind == kind ==> |Others(sent, kind)| < |sent|
  {
    OthersMembers(sent, kind);
    forall i | 0 <= i < |Others(sent, kind)|
      ensures Others(sent, kind)[i].kind != NO_KIND
    {
      assert Others(sent, kind)[i] in sent;
    }
  }

  /** Clearing: remove the kind of the first entry until there is none. */
  function Clear(s: Store): (r: Store)
    requires Live(s) && KindsNonzero(s.sent)
    decreases |s.sent|
  {
    if s.sent == [] then s
    else
      var kind := s.sent[0].kind;
      assert Live(RemoveKind(s, kind)) && RemoveKind(s, kind).sent == Others(s.sent, kind) by {
        RemoveKindMeans(s, kind);
      }
      assert KindsNonzero(Others(s.sent, kind)) && |Others(s.sent, kind)| < |s.sent| by {
        OthersKinds(s.sent, kind);
      }
      Clear(RemoveKind(s, kind))
  }

  /** Clearing empties the list and releases exactly the contexts no pending message has the address of. */
  lemma {:induction false} ClearMeans(s: Store)
    requires Live(s) && KindsNonzero(s.sent)
    ensures Clear(s).sent == [] && Released(s, Clear(s)) && Live(Clear(s))
    decreases |s.sent|
  {
    hide Released, Live, RemoveKind, KindsNonzero;
    if s.sent == [] {
      ReleasedNothing(s);
    } else {
      var kind := s.sent[0].kind;
      FirstKind(s.sent);
      RemoveKindMeans(s, kind);
      OthersKinds(s.sent, kind);
      ClearMeans(RemoveKind(s, kind));
      ReleasedTwice(s, RemoveKind(s, kind), Clear(s));
    }
  }

  lemma FirstKind(sent: seq<Message>)
    requires KindsNonzero(sent) && sent != []
    ensures sent[0].kind != NO_KIND
  {
  }

  // ----- addition

  function Append(s: Store, m: Message): (r: Store)
  {
    s.(sent := s.sent + [m])
  }

  /** A live entry of the same kind and name exists and is another message. */
  predicate Duplicate(s: Store, m: Message)
  {
    var known := Get(s.sent, m.kind, m.name);
    known.Some? && known.value.addr != m.addr
  }

  function Add(s: Store, m: Message): (r: Store)
    requires Live(s)
  {
    var known := Get(s.sent, m.kind, m.name);
    if known.Some? && known.value.addr == m.addr then s
    else if known.Some? && m.name != "" then s
    else if known.Some? then Append(Remove(s, m.kind, m.name).0, m)
    else Append(s, m)
  }

  /**
   * Adding an unnamed message first removes the old one. The new message is left pointing at freed
   * memory if both shared a context that nothing else uses.
   */
  predicate SharesLastUse(s: Store, m: Message)
  {
    && Duplicate(s, m) && m.name == "" && m.ctx.Some?
    && var i := IndexOfKey(s.sent, m.kind, m.name);
       i < |s.sent| && s.sent[i].ctx == m.ctx && CanDestroy(s, m.ctx.value)
  }

  lemma AppendRefs(sent: seq<Message>, m: Message)
    ensures SentRefs(sent + [m]) == SentRefs(sent) + (if m.ctx.Some? then {m.ctx.value} else {})
  {
    var t := sent + [m];
    forall id | id in SentRefs(sent)
      ensures id in SentRefs(t)
    {
      var j :| 0 <= j < |sent| && sent[j].ctx == Some(id);
      assert t[j] == sent[j];
    }
    assert t[|sent|] == m;
  }

  /** Adding a message about a live context keeps every address live exactly when it does not share a last use. */
  lemma AddKeepsLive(s: Store, m: Message)
    requires Live(s) && m.kind != NO_KIND
    requires m.ctx.Some? ==> m.ctx.value in s.contexts
    ensures Live(Add(s, m)) <==> !SharesLastUse(s, m)
  {
    hide Released, RemoveAt, CanDestroy, SentRefs, PendingRefs, PendingAddresses, IndexOfKey, IndexOfLive;
    var i := IndexOfKey(s.sent, m.kind, m.name);
    AppendRefs(s.sent, m);
    if Duplicate(s, m) && m.name == "" {
      LiveHasKey(s.sent, m.kind, m.name);
      HeldIsLive(s, i);
      var t := RemoveAt(s, i);
      RemoveAtReleases(s, i);
      RemoveAtDrops(s, i);
      AppendRefs(t.sent, m);
      RemoveAtFrees(s, i);
    }
  }

  lemma LiveHasKey(sent: seq<Message>, kind: char, name: string)
    ensures IndexOfLive(sent, kind, name) < |sent| ==> IndexOfKey(sent, kind, name) < |sent|
  {
    var j := IndexOfLive(sent, kind, name);
    if j < |sent| {
      assert sent[j].Keyed(kind, name);
    }
  }

  lemma RemoveAtFrees(s: Store, i: nat)
    requires i < |s.sent|
    requires s.sent[i].ctx.Some? ==> s.sent[i].ctx.value in s.contexts
    ensures var freed := if s.sent[i].ctx.Some? && CanDestroy(s, s.sent[i].ctx.value) then {s.sent[i].ctx.value} else {};
            RemoveAt(s, i).contexts == s.contexts - freed
    ensures RemoveAt(s, i).pending == s.pending
  {
    hide CanDestroy;
    assert s.contexts - {} == s.contexts;
  }

  /**
   * The failing case: an unnamed statement added again for the same context, which nothing else uses.
   * Sessions do not get there, as every message adds a new context or one that another kind holds.
   */
  lemma SharedLastUseDangles(c: Context)
    ensures var s0 := Empty().(contexts := map[0 := c], current := None);
            var s := Add(s0, Message('P', "", Created, Some(0), 0));
            Live(s) && !Live(Add(s, Message('P', "", Created, Some(0), 1)))
  {
    var s0 := Empty().(contexts := map[0 := c], current := None);
    var m0, m1 := Message('P', "", Created, Some(0), 0), Message('P', "", Created, Some(0), 1);
    assert Get(s0.sent, 'P', "").None?;
    var s := Add(s0, m0);
    assert s.sent == [m0] && s.contexts == s0.contexts;
    AddKeepsLive(s0, m0);
    assert IndexOfKey(s.sent, 'P', "") == 0 && IndexOfLive(s.sent, 'P', "") == 0;
    assert Get(s.sent, 'P', "") == Some(m0);
    assert Drop(s.sent, 0) == [];
    CanDestroyMeans(s, 0);
    AddKeepsLive(s, m1);
  }
}
