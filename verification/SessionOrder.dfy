/** The lifetime of query contexts: what every message of a session keeps. */
module SessionOrder {
  import opened Bytes
  import opened Routing
  import opened SessionStore
  import opened SentMessageMap
  import opened SessionRuns

  /** Contexts went away and none changed. */
  ghost predicate Shrinks(s: Store, r: Store)
  {
    && r.contexts.Keys <= s.contexts.Keys
    && forall id :: id in r.contexts ==> r.contexts[id] == s.contexts[id]
  }

  /** No new reference, and the session at most forgets what it was working on. */
  ghost predicate Lessened(s: Store, r: Store)
  {
    && Shrinks(s, r)
    && SentRefs(r.sent) <= SentRefs(s.sent)
    && PendingRefs(r.pending) <= PendingRefs(s.pending)
    && (r.current == s.current || r.current.None?)
    && (r.inProgress ==> s.inProgress)
  }

  lemma LessenedOrderly(s: Store, r: Store, extended: bool)
    requires Orderly(s, extended) && Lessened(s, r)
    ensures Orderly(r, extended)
  {
  }

  lemma ReleasedLessened(s: Store, r: Store)
    requires Released(s, r)
    ensures Lessened(s, r)
  {
  }

  lemma KindsAfterDrop(sent: seq<Message>, i: nat)
    requires KindsNonzero(sent) && i < |sent|
    ensures KindsNonzero(Drop(sent, i))
  {
  }

  lemma RemoveTidy(s: Store, extended: bool, kind: char, name: string)
    requires Tidy(s, extended)
    ensures Tidy(Remove(s, kind, name).0, extended) && Lessened(s, Remove(s, kind, name).0)
  {
    hide Live, IndexOfKey, RemoveAt, KindsNonzero, Orderly, Released, Lessened;
    RemoveReleases(s, kind, name);
    ReleasedLessened(s, Remove(s, kind, name).0);
    LessenedOrderly(s, Remove(s, kind, name).0, extended);
    var i := IndexOfKey(s.sent, kind, name);
    if kind != NO_KIND && i < |s.sent| {
      HeldIsLive(s, i);
      RemoveAtDrops(s, i);
      KindsAfterDrop(s.sent, i);
    }
  }

  lemma AppendTidy(s: Store, extended: bool, m: Message, id: nat)
    requires Tidy(s, extended) && m.kind != NO_KIND && m.ctx == Some(id)
    requires id in s.contexts ==> !s.contexts[id].use.PlainQuery?
    requires Live(Append(s, m))
    ensures Tidy(Append(s, m), extended)
  {
    AppendRefs(s.sent, m);
  }

  /** A message about a context that is not a plain query's joins the list. */
  lemma AddTidy(s: Store, extended: bool, m: Message, id: nat)
    requires Tidy(s, extended) && m.kind != NO_KIND && m.ctx == Some(id)
    requires id in s.contexts ==> !s.contexts[id].use.PlainQuery?
    requires Live(Add(s, m))
    ensures Tidy(Add(s, m), extended) && Shrinks(s, Add(s, m))
    ensures Add(s, m).current == s.current || Add(s, m).current.None?
    ensures Add(s, m).inProgress == s.inProgress && Add(s, m).pending == s.pending
  {
    hide Live, KindsNonzero, Orderly, Get, Remove, Released;
    RemoveReleases(s, m.kind, m.name);
    RemoveTidy(s, extended, m.kind, m.name);
    ReleasedKeepsFlags(s, Remove(s, m.kind, m.name).0);
    if Add(s, m) == Append(s, m) {
      AppendTidy(s, extended, m, id);
    } else if Add(s, m) == Append(Remove(s, m.kind, m.name).0, m) {
      AppendTidy(Remove(s, m.kind, m.name).0, extended, m, id);
    }
  }

  lemma ReleasedKeepsFlags(s: Store, r: Store)
    requires Released(s, r)
    ensures r.inProgress == s.inProgress && r.pending == s.pending
  {
  }

  lemma ListedTidy(s: Store, extended: bool, m: Message, id: nat, failed: bool)
    requires Tidy(s, extended) && m.kind != NO_KIND && m.ctx == Some(id)
    requires id in s.contexts ==> !s.contexts[id].use.PlainQuery?
    requires Live(Add(s, m))
    ensures Tidy(Listed(s, m, failed), extended) && Shrinks(s, Listed(s, m, failed))
  {
    hide Orderly, KindsNonzero, Add, Remove, Live;
    AddTidy(s, extended, m, id);
    RemoveTidyIf(Add(s, m), extended, m.kind, m.name);
  }

  lemma RemoveTidyIf(s: Store, extended: bool, kind: char, name: string)
    requires Tidy(s, extended)
    ensures Tidy(Remove(s, kind, name).0, extended) && Shrinks(s, Remove(s, kind, name).0)
  {
    hide Live, Orderly, Remove, KindsNonzero;
    RemoveTidy(s, extended, kind, name);
  }

  /** Waiting for the answer about a listed context. */
  lemma SentTidy(w: World, s: Store, id: nat)
    requires Tidy(s, true) && id in s.contexts && !s.contexts[id].use.PlainQuery?
    ensures Tidy(Sent(w, s, id), true) && Shrinks(s, Sent(w, s, id))
  {
    hide SentRefs, KindsNonzero;
    assert PendingRefs(s.pending + [Awaits(id)]) <= PendingRefs(s.pending) + {id};
  }

  lemma InHandTidy(s: Store, before: bool, id: nat)
    requires Tidy(s, before) && id in s.contexts
    ensures Tidy(s.(current := Some(id), inProgress := true), true)
  {
  }

  lemma ListedIsNotPlain(s: Store, extended: bool, id: nat)
    requires Tidy(s, extended) && id in SentRefs(s.sent) && id in s.contexts
    ensures !s.contexts[id].use.PlainQuery?
  {
  }

  // ----- the steps

  /** The contexts after a step are those before it, less some, and perhaps one that was routed. */
  ghost predicate Grown(st: Machine, r: Machine)
  {
    && (r.log == st.log || (|r.log| == |st.log| + 1 && r.log[..|st.log|] == st.log))
    && forall id :: id in r.store.contexts ==>
         || (id in st.store.contexts && r.store.contexts[id] == st.store.contexts[id])
         || (r.log != st.log && r.store.contexts[id].origin == |st.log|
             && FromDecision(r.store.contexts[id], r.log[|st.log|]))
  }

  ghost predicate FromDecision(c: Context, d: Decision)
  {
    c.plan == Stored(d.plan.where, d.plan.lb) && c.main == d.main
  }

  /** Routing changes the routed context, the memory and the log, and nothing else. */
  lemma RouteIs(w: World, st: Machine, id: nat, lb: int, main: int, use: Use, q: Query)
    requires w.cl.Valid() && Live(st.store)
    ensures var r := Route(w, st, id, lb, main, use, q);
            r.Some? ==>
              && id in r.value.store.contexts && r.value.store.contexts[id].use == use
              && r.value.store == st.store.(contexts := st.store.contexts[id := r.value.store.contexts[id]],
                                            current := Some(id), inProgress := true)
              && r.value.extended == st.extended && r.value.walks == st.walks
              && Grown(st, r.value)
  {
    hide FinalPlan, Parsed, Inherited, Live, FirstTarget;
  }

  lemma RerouteTidy(s: Store, before: bool, id: nat, c: Context)
    requires Tidy(s, before) && id in s.contexts && c.use == s.contexts[id].use
    ensures Tidy(s.(contexts := s.contexts[id := c], current := Some(id), inProgress := true), true)
  {
  }

  lemma ShrinksGrown(st: Machine, mid: Machine, r: Machine)
    requires Grown(st, mid) && Shrinks(mid.store, r.store) && r.log == mid.log
    ensures Grown(st, r)
  {
  }

  lemma ParseTidy(w: World, st: Machine, id: nat, q: Query, name: string, addr: nat, failed: bool)
    requires w.cl.Valid() && Tidy(st.store, st.extended) && id !in st.store.contexts
    ensures var r := ParseStep(w, st, id, q, name, addr, failed);
            r.Some? ==> Tidy(r.value.store, true) && r.value.extended && r.value.walks == st.walks && Grown(st, r.value)
  {
    hide Route, Add, Remove, Orderly, Live, KindsNonzero, Grown, Shrinks, Sent, Listed;
    var mid := Route(w, st.(extended := true), id, w.cl.myMain, w.cl.myMain, ParsedStatement, q);
    if mid.Some? {
      RouteIs(w, st.(extended := true), id, w.cl.myMain, w.cl.myMain, ParsedStatement, q);
      var s, c := mid.value.store, mid.value.store.contexts[id];
      var m := Message('P', name, Created, Some(id), addr);
      NewContextTidy(st.store, id, c, st.extended, true);
      FreshAdd(s, m, id);
      var refused := failed && !w.cfg.mode.SL();
      ListedTidy(s, true, m, id, refused);
      ListedSent(w, s, m, id, refused);
      GrownFlags(st, st.(extended := true), mid.value);
      ShrinksGrown(st, mid.value, ParseStep(w, st, id, q, name, addr, failed).value);
    }
  }

  lemma GrownFlags(st: Machine, st': Machine, r: Machine)
    requires Grown(st', r) && st'.log == st.log && st'.store.contexts == st.store.contexts
    ensures Grown(st, r)
  {
  }

  /** Listing a message and then waiting for its answer. */
  lemma ListedSent(w: World, s: Store, m: Message, id: nat, failed: bool)
    requires Tidy(s, true) && m.ctx == Some(id) && id in s.contexts && !s.contexts[id].use.PlainQuery?
    requires Live(Add(s, m)) && id in Add(s, m).contexts
    requires Tidy(Listed(s, m, failed), true) && Shrinks(s, Listed(s, m, failed))
    requires failed ==> !w.cfg.mode.SL()
    ensures var r := Sent(w, Listed(s, m, failed), id); Tidy(r, true) && Shrinks(s, r)
  {
    hide Orderly, KindsNonzero, Add, Remove, Live;
    if w.cfg.mode.SL() {
      SentTidy(w, Listed(s, m, failed), id);
    }
  }

  lemma BindTidy(w: World, st: Machine, name: string, portal: string, addr: nat, failed: bool)
    requires w.cl.Valid() && Tidy(st.store, st.extended)
    ensures var r := BindStep(w, st, name, portal, addr, failed);
            r.Some? ==> && Tidy(r.value.store, true) && Shrinks(st.store, r.value.store)
                        && r.value == st.(store := r.value.store, extended := true)
  {
    hide Add, Remove, Orderly, Live, KindsNonzero, Sent, Listed, Lookup;
    var msg := Lookup(st.store.sent, name);
    if msg.None? {
      WeakerTidy(st.store, st.extended);
    } else if msg.value.ctx.Some? {
      LookupHeld(st.store, name);
      var id := msg.value.ctx.value;
      var s := st.store.(current := Some(id), inProgress := true);
      var m := Message('B', portal, Created, Some(id), addr);
      ListedIsNotPlain(st.store, st.extended, id);
      InHandTidy(st.store, st.extended, id);
      SecondAdd(s, m, msg.value, id);
      var refused := failed && !w.cfg.mode.SL();
      ListedTidy(s, true, m, id, refused);
      ListedSent(w, s, m, id, refused);
    }
  }

  lemma WeakerTidy(s: Store, extended: bool)
    requires Tidy(s, extended)
    ensures Tidy(s, true) && Tidy(s.(inProgress := false), true)
  {
  }

  lemma UseTidy(w: World, st: Machine, onStatement: bool, name: string)
    requires Tidy(st.store, st.extended)
    ensures var r := UseStep(w, st, onStatement, name);
            r.Some? ==> && Tidy(r.value.store, true) && Shrinks(st.store, r.value.store)
                        && r.value == st.(store := r.value.store, extended := true)
  {
    hide Orderly, Live, KindsNonzero, Lookup, Get, Sent;
    var msg := if onStatement then Lookup(st.store.sent, name) else Get(st.store.sent, 'B', name);
    WeakerTidy(st.store, st.extended);
    if msg.Some? && msg.value.ctx.Some? {
      LookupHeld(st.store, name);
      PortalHeld(st.store, name);
      var id := msg.value.ctx.value;
      ListedIsNotPlain(st.store, st.extended, id);
      InHandTidy(st.store, st.extended, id);
      SentTidy(w, st.store.(current := Some(id), inProgress := true), id);
    }
  }

  /** The end of a query: its context was held by nobody else, or it stays. */
  lemma ReadyTidy(s: Store, extended: bool, failed: bool, addr: nat)
    requires Tidy(s, extended) && (extended || s.inProgress)
    ensures Tidy(ReadyStore(s, extended, failed, addr), extended) && Shrinks(s, ReadyStore(s, extended, failed, addr))
  {
    hide Add, Remove, KindsNonzero, SentRefs, PendingRefs, Listed;
    if !extended && s.current.Some? && s.contexts[s.current.value].use.PrepareQuery? {
      var id := s.current.value;
      var m := Message('Q', s.contexts[id].use.name, Created, Some(id), addr);
      AddKeepsLive(s, m);
      ListedTidy(s, extended, m, id, true);
    }
  }

  lemma ZapRefs(sent: seq<Message>, id: nat)
    ensures SentRefs(Zap(sent, id)) == SentRefs(sent) - {id}
  {
    var z := Zap(sent, id);
    forall x | x in SentRefs(sent) && x != id
      ensures x in SentRefs(z)
    {
      var i :| 0 <= i < |sent| && sent[i].ctx == Some(x);
      assert z[i] == sent[i];
    }
  }

  /** After a command completes, its context is gone only if nothing refers to it any more. */
  lemma CompleteTidy(s: Store, extended: bool)
    requires Tidy(s, extended)
    ensures Tidy(CompleteStore(s), extended) && Lessened(s, CompleteStore(s))
  {
    hide Uses, OnlyUnnamed;
    if s.current.Some? {
      ZapRefs(s.sent, s.current.value);
      assert forall i :: 0 <= i < |s.pending| && s.pending[i].Awaits? ==> s.pending[i].Address() == s.pending[i].ctx;
    }
  }

  lemma PullTidy(s: Store, extended: bool)
    requires Tidy(s, extended) && s.pending != []
    ensures Tidy(s.(pending := s.pending[1..]), extended) && Lessened(s, s.(pending := s.pending[1..]))
    ensures s.pending[0].Awaits? ==> s.pending[0].ctx in s.contexts
  {
    hide SentRefs;
    forall x | x in PendingRefs(s.pending[1..])
      ensures x in PendingRefs(s.pending)
    {
      var i :| 0 <= i < |s.pending[1..]| && s.pending[1..][i] == Awaits(x);
      assert s.pending[i + 1] == Awaits(x);
    }
    assert s.pending[0].Awaits? ==> s.pending[0].ctx in PendingRefs(s.pending);
  }

  lemma SyncTidy(s: Store, extended: bool, junk: nat)
    requires Tidy(s, extended)
    ensures Tidy(s.(pending := s.pending + [SyncMark(junk)], inProgress := false), true)
    ensures Tidy(s.(inProgress := true), true)
  {
    hide SentRefs;
    assert PendingRefs(s.pending + [SyncMark(junk)]) <= PendingRefs(s.pending);
  }

  /** Every message that routes nothing keeps the session tidy and changes no context. */
  lemma StoreStepTidy(w: World, st: Machine, op: Op)
    requires Tidy(st.store, st.extended) && Enabled(w, st, op)
    ensures var r := StoreStep(w, st, op);
            Tidy(r, st.extended || op.SyncMsg?) && Shrinks(st.store, r)
  {
    hide Orderly, Live, KindsNonzero, Add, Remove, RemoveKind, Clear, Close, CompleteStore, ReadyStore, Released;
    var s := st.store;
    match op
    case PrepareDone(addr) => PrepareTidy(s, st.extended, addr);
    case Ready(failed, addr) => ReadyTidy(s, st.extended, failed, addr);
    case SyncMsg(junk) => SyncTidy(s, st.extended, junk);
    case CloseSent(kind, name) => CloseTidy(s, st.extended, kind, name);
    case RemoveSent(kind, name) => RemoveTidy(s, st.extended, kind, name);
    case RemoveAllOf(kind) => RemoveKindTidy(s, st.extended, kind);
    case ClearSent => ClearTidy(s, st.extended);
    case PullPending => if s.pending != [] { PullTidy(s, st.extended); }
    case Resume => ResumeTidy(s);
    case Complete => CompleteTidy(s, st.extended);
    case _ =>
  }

  lemma PrepareTidy(s: Store, extended: bool, addr: nat)
    requires Tidy(s, extended) && s.current.Some? && s.current.value in s.contexts
    requires s.contexts[s.current.value].use.PrepareQuery?
    ensures var m := Message('Q', s.contexts[s.current.value].use.name, Created, s.current, addr);
            Tidy(Add(s, m), extended) && Shrinks(s, Add(s, m))
  {
    hide Live, KindsNonzero, Add;
    var m := Message('Q', s.contexts[s.current.value].use.name, Created, s.current, addr);
    AddKeepsLive(s, m);
    AddTidy(s, extended, m, s.current.value);
  }

  lemma CloseTidy(s: Store, extended: bool, kind: char, name: string)
    requires Tidy(s, extended)
    ensures Tidy(Close(s, kind, name), extended) && Shrinks(s, Close(s, kind, name))
  {
    hide Close, Live, KindsNonzero;
    CloseKeeps(s, kind, name);
  }

  lemma RemoveKindTidy(s: Store, extended: bool, kind: char)
    requires Tidy(s, extended)
    ensures Tidy(RemoveKind(s, kind), extended) && Lessened(s, RemoveKind(s, kind))
  {
    hide Live, Orderly, RemoveKindFrom, Released, KindsNonzero;
    if kind != NO_KIND {
      RemoveKindMeans(s, kind);
      ReleasedLessened(s, RemoveKind(s, kind));
      LessenedOrderly(s, RemoveKind(s, kind), extended);
      OthersKinds(s.sent, kind);
    }
  }

  lemma ClearTidy(s: Store, extended: bool)
    requires Tidy(s, extended)
    ensures Tidy(Clear(s), extended) && Lessened(s, Clear(s))
  {
    hide Live, Orderly, Clear, Released;
    ClearMeans(s);
    ReleasedLessened(s, Clear(s));
    LessenedOrderly(s, Clear(s), extended);
  }

  lemma ResumeTidy(s: Store)
    requires Tidy(s, true)
    ensures Tidy(ResumeStore(s), true) && Shrinks(s, ResumeStore(s))
  {
    hide SentRefs, KindsNonzero;
    if s.pending != [] {
      PullTidy(s, true);
    }
  }

  lemma RerouteStepTidy(w: World, st: Machine, name: string, facts: Facts)
    requires w.cl.Valid() && Tidy(st.store, st.extended) && Origins(st)
    ensures var r := RerouteStep(w, st, name, facts);
            r.Some? ==> Tidy(r.value.store, true) && r.value.extended && r.value.walks == st.walks && Grown(st, r.value)
  {
    hide Route, Lookup, Live, Orderly, KindsNonzero, Grown;
    var msg := Lookup(st.store.sent, name);
    if msg.Some? && msg.value.ctx.Some? {
      LookupHeld(st.store, name);
      var id := msg.value.ctx.value;
      var c := st.store.contexts[id];
      var q := st.log[c.origin].q.(facts := facts, arrival := AtBind);
      var mid := st.(extended := true);
      RouteIs(w, mid, id, c.plan.lb, c.main, c.use, q);
      var r := Route(w, mid, id, c.plan.lb, c.main, c.use, q);
      if r.Some? {
        RerouteTidy(st.store, st.extended, id, r.value.store.contexts[id]);
        GrownFlags(st, mid, r.value);
      }
    }
  }

  lemma GrownNothing(st: Machine, r: Machine)
    requires Shrinks(st.store, r.store) && r.log == st.log
    ensures Grown(st, r)
  {
  }

  lemma GrownOrigins(st: Machine, r: Machine)
    requires Origins(st) && Grown(st, r)
    ensures Origins(r)
  {
  }

  /** Every message keeps the session tidy. */
  lemma StepTidy(w: World, st: Machine, op: Op)
    requires w.cl.Valid() && Tidy(st.store, st.extended) && Origins(st) && Enabled(w, st, op)
    ensures var r := Step(w, st, op);
            r.Some? ==> Tidy(r.value.store, r.value.extended) && Grown(st, r.value) && Origins(r.value)
  {
    hide Tidy, Route, ParseStep, BindStep, UseStep, RerouteStep, StoreStep, Grown, Origins, Walked;
    var r := Step(w, st, op);
    if r.Some? {
      match op {
        case SimpleQuery(id, q) => SimpleTidy(w, st, id, q);
        case ParseMsg(id, q, name, addr, failed) => ParseTidy(w, st, id, q, name, addr, failed);
        case Reroute(name, facts) => RerouteStepTidy(w, st, name, facts);
        case BindMsg(name, portal, addr, failed) =>
          BindTidy(w, st, name, portal, addr, failed);
          GrownNothing(st, r.value);
        case UseMsg(onStatement, name) =>
          UseTidy(w, st, onStatement, name);
          GrownNothing(st, r.value);
        case WalkAgain(id) => GrownNothing(st, r.value);
        case _ =>
          StoreStepTidy(w, st, op);
          GrownNothing(st, r.value);
      }
      GrownOrigins(st, r.value);
    }
  }

  lemma SimpleTidy(w: World, st: Machine, id: nat, q: Query)
    requires w.cl.Valid() && Tidy(st.store, st.extended) && id !in st.store.contexts
    requires q.node.Prepare? ==> q.node.name != ""
    ensures var use := if q.node.Prepare? then PrepareQuery(q.node.name) else PlainQuery;
            var r := Route(w, st.(extended := false), id, w.cl.myMain, w.cl.myMain, use, q);
            r.Some? ==> Tidy(r.value.store, false) && !r.value.extended && r.value.walks == st.walks && Grown(st, r.value)
  {
    hide Route, Live, Orderly, KindsNonzero, Grown;
    var use := if q.node.Prepare? then PrepareQuery(q.node.name) else PlainQuery;
    var mid := st.(extended := false);
    RouteIs(w, mid, id, w.cl.myMain, w.cl.myMain, use, q);
    var r := Route(w, mid, id, w.cl.myMain, w.cl.myMain, use, q);
    if r.Some? {
      NewContextTidy(st.store, id, r.value.store.contexts[id], st.extended, false);
      GrownFlags(st, mid, r.value);
    }
  }

  // ----- the one place that frees a listed context

  /** Entry i is the last that anything knows about the context. */
  ghost predicate LastUse(s: Store, i: nat, id: nat)
    requires i < |s.sent|
  {
    s.sent[i].ctx == Some(id) && id !in SentRefs(Drop(s.sent, i)) && id !in PendingAddresses(s.pending)
  }

  /**
   * When Bind cannot take its insert lock it frees the context of the statement and ends the session.
   * The statement is still listed, so the list is left with freed memory, and the teardown that
   * follows frees it again when the last entry about it goes.
   */
  lemma FailedLockDangles(s: Store, name: string)
    requires Live(s) && Lookup(s.sent, name).Some? && Lookup(s.sent, name).value.ctx.Some?
    ensures var id := Lookup(s.sent, name).value.ctx.value;
            && id in s.contexts
            && !Live(DestroyContext(s, id))
            && forall i :: 0 <= i < |s.sent| && LastUse(s, i, id) ==> CanDestroy(DestroyContext(s, id), id)
  {
    hide CanDestroy, Lookup, Drop;
    LookupHeld(s, name);
    var id := Lookup(s.sent, name).value.ctx.value;
    var t := DestroyContext(s, id);
    forall i | 0 <= i < |s.sent| && LastUse(s, i, id)
      ensures CanDestroy(t, id)
    {
      CanDestroyMeans(t, i);
    }
  }
}
