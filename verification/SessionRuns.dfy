/**
 * Whole sessions, message by message: statements routed and routed again, their contexts stored under
 * prepared statement and portal names, inherited by EXECUTE and DEALLOCATE, and freed.
 */
module SessionRuns {
  import opened Bytes
  import opened Routing
  import opened SessionStore
  import opened SentMessageMap

  /** What stays fixed during a session. */
  datatype World = World(cfg: Config, cl: Cluster) {
    /** The main node is up, and in the modes that have a primary so is the primary. */
    predicate Steady()
    {
      && cl.Valid()
      && cl.realMain in cl.up
      && (cfg.mode.MainReplica() ==> cl.realPrimary in cl.up)
    }
  }

  /**
   * One routing decision: the statement, the load balance node its context had, the memory it met,
   * the plan, the virtual main node, and, when the plan was inherited, the number of the decision it
   * was inherited from.
   */
  datatype Decision = Decision(q: Query, start: int, before: Memory, plan: Plan, main: int, source: Option<nat>)

  /** A run of the function walker apart from routing: the number of decisions before it, and its statement. */
  datatype Walk = Walk(at: nat, q: Query)

  /** `extended` says that the last message of the client belonged to the extended protocol. */
  datatype Machine = Machine(store: Store, extended: bool, memory: Memory, log: seq<Decision>, walks: seq<Walk>)

  datatype Op =
    | SimpleQuery(id: nat, q: Query)
    | PrepareDone(addr: nat)                        // CommandComplete of a PREPARE
    | Ready(failed: bool, addr: nat)                // ReadyForQuery
    | ParseMsg(id: nat, q: Query, name: string, addr: nat, failed: bool)
    | Reroute(name: string, facts: Facts)           // Bind routes the statement again
    | BindMsg(name: string, portal: string, addr: nat, failed: bool)
    | UseMsg(onStatement: bool, name: string)       // Execute, Describe, Close
    | SyncMsg(junk: nat)
    | CloseSent(kind: char, name: string)           // Close marks its target
    | RemoveSent(kind: char, name: string)          // DEALLOCATE, CloseComplete
    | RemoveAllOf(kind: char)                       // DEALLOCATE ALL, DISCARD PLANS
    | ClearSent                                     // DISCARD ALL
    | PullPending
    | Resume                                        // the head of the queue becomes the query in hand
    | Complete                                      // CommandComplete of the extended protocol
    | WalkAgain(id: nat)                            // the function walker runs on a statement once more

  function NewSession(lb: int): (st: Machine)
  {
    Machine(Empty(), false, Memory(lb, false, []), [], [])
  }

  /** A prepared statement is looked for among those of PREPARE first, then among those of Parse. */
  function Lookup(sent: seq<Message>, name: string): (r: Option<Message>)
  {
    var q := Get(sent, 'Q', name);
    if q.Some? then q else Get(sent, 'P', name)
  }

  /**
   * What is looked up under a name is the first message listed under it that is not closed, and one of
   * PREPARE whenever there is one.
   */
  lemma LookupMeans(sent: seq<Message>, name: string)
    ensures var r := Lookup(sent, name);
            && (r.None? <==> forall i :: 0 <= i < |sent| ==>
                  !(sent[i].name == name && !sent[i].state.Closed? && (sent[i].kind == 'Q' || sent[i].kind == 'P')))
            && (r.Some? ==>
                  exists i :: 0 <= i < |sent| && sent[i] == r.value && r.value.name == name && !r.value.state.Closed?
                    && (r.value.kind == 'Q' || r.value.kind == 'P')
                    && (forall j :: 0 <= j < i ==> !(sent[j].kind == r.value.kind && sent[j].name == name && !sent[j].state.Closed?))
                    && (r.value.kind == 'P' ==>
                          forall j :: 0 <= j < |sent| ==> !(sent[j].kind == 'Q' && sent[j].name == name && !sent[j].state.Closed?)))
  {
    var r := Lookup(sent, name);
    if r.Some? {
      var i := if r.value.kind == 'Q' then IndexOfLive(sent, 'Q', name) else IndexOfLive(sent, 'P', name);
      assert sent[i] == r.value;
    }
  }

  /** The stored message whose plan the statement inherits. */
  function Inherited(sent: seq<Message>, node: Node): (r: Option<Message>)
  {
    if PreparedName(node).Some? then Lookup(sent, PreparedName(node).value) else None
  }

  predicate PicksInRange(cl: Cluster, f: Facts)
  {
    0 <= f.pick < cl.n && 0 <= f.repick < cl.n
  }

  /** The circumstances in which Bind routes its statement again. */
  predicate Reroutes(cfg: Config, f: Facts)
  {
    && f.txState.InBlock?
    && (cfg.onWrite.DmlAdaptive? || (!cfg.mode.SL() && cfg.loadBalance && f.writing && !cfg.onWrite.Off?))
  }

  /** The message may happen now: what the protocol and the program's own tests let through. */
  predicate Enabled(w: World, st: Machine, op: Op)
  {
    match op
    case SimpleQuery(id, q) =>
      && id !in st.store.contexts && PicksInRange(w.cl, q.facts)
      && q.arrival.Simple? && (q.node.Prepare? ==> q.node.name != "")
    case PrepareDone(_) =>
      && !st.extended && st.store.inProgress && st.store.current.Some?
      && st.store.current.value in st.store.contexts && st.store.contexts[st.store.current.value].use.PrepareQuery?
    case Ready(_, _) => st.extended || st.store.inProgress
    case ParseMsg(id, q, name, _, _) =>
      && id !in st.store.contexts && PicksInRange(w.cl, q.facts)
      && q.arrival == if name == "" then ParseUnnamed else ParseNamed
    case Reroute(_, facts) => PicksInRange(w.cl, facts) && Reroutes(w.cfg, facts)
    case Resume => w.cfg.mode.SL() && st.extended
    case Complete => w.cfg.mode.SL() && st.extended
    case WalkAgain(id) => id in st.store.contexts
    case _ => true
  }

  // ----- what a session keeps in order

  /**
   * Contexts of plain queries are held by no list; PREPARE has a name; and in the simple protocol
   * the query in progress is not one of the extended protocol.
   */
  ghost predicate Orderly(s: Store, extended: bool)
  {
    && (forall id :: id in s.contexts && s.contexts[id].use.PlainQuery? ==>
          id !in SentRefs(s.sent) && id !in PendingRefs(s.pending))
    && (forall id :: id in s.contexts && s.contexts[id].use.PrepareQuery? ==> s.contexts[id].use.name != "")
    && (!extended && s.inProgress && s.current.Some? && s.current.value in s.contexts ==>
          !s.contexts[s.current.value].use.ParsedStatement?)
  }

  ghost predicate Tidy(s: Store, extended: bool)
  {
    Live(s) && KindsNonzero(s.sent) && Orderly(s, extended)
  }

  ghost predicate Origins(st: Machine)
  {
    forall id :: id in st.store.contexts ==> st.store.contexts[id].origin < |st.log|
  }

  // ----- the steps

  /** Routing reads a stored message whose context is gone only after a protocol error; the run ends there. */
  function Route(w: World, st: Machine, id: nat, lb: int, main: int, use: Use, q: Query): (r: Option<Machine>)
    requires w.cl.Valid() && Live(st.store)
  {
    var msg := Inherited(st.store.sent, q.node);
    if msg.Some? && msg.value.ctx.None? then None
    else
      GetHeld(st.store, q.node);
      var stored := if msg.Some? then Some(st.store.contexts[msg.value.ctx.value].plan) else None;
      var source := if msg.Some? then Some(st.store.contexts[msg.value.ctx.value].origin) else None;
      var own := FinalPlan(w.cfg, w.cl, Arrived(w.cfg, st.memory, q), lb, q, stored);
      var plan := Parsed(w.cfg, w.cl, own, q.arrival);
      var first := FirstTarget(own.where, 0, w.cl.n, main);
      var ctx := Context(Stored(plan.where, plan.lb), first, |st.log|, use);
      Some(st.(store := st.store.(contexts := st.store.contexts[id := ctx], current := Some(id), inProgress := true),
               memory := plan.memory,
               log := st.log + [Decision(q, lb, st.memory, plan, first, source)]))
  }

  lemma GetHeld(s: Store, node: Node)
    requires Live(s)
    ensures var msg := Inherited(s.sent, node); msg.Some? && msg.value.ctx.Some? ==> msg.value.ctx.value in s.contexts
  {
    if PreparedName(node).Some? {
      LookupHeld(s, PreparedName(node).value);
    }
  }

  /** A message that is looked up is in the list, with its kind, and its context is live. */
  lemma LookupHeld(s: Store, name: string)
    requires Live(s)
    ensures var msg := Lookup(s.sent, name);
            msg.Some? ==>
              && msg.value in s.sent && (msg.value.kind == 'Q' || msg.value.kind == 'P')
              && (msg.value.ctx.Some? ==> msg.value.ctx.value in s.contexts && msg.value.ctx.value in SentRefs(s.sent))
  {
    var msg := Lookup(s.sent, name);
    if msg.Some? {
      var i := if Get(s.sent, 'Q', name).Some? then IndexOfLive(s.sent, 'Q', name) else IndexOfLive(s.sent, 'P', name);
      HeldIsLive(s, i);
    }
  }

  lemma PortalHeld(s: Store, name: string)
    requires Live(s)
    ensures var msg := Get(s.sent, 'B', name);
            msg.Some? && msg.value.ctx.Some? ==> msg.value.ctx.value in s.contexts && msg.value.ctx.value in SentRefs(s.sent)
  {
    var i := IndexOfLive(s.sent, 'B', name);
    if i < |s.sent| {
      HeldIsLive(s, i);
    }
  }

  /** A new message is listed, and taken off again at once when the backend refuses it. */
  function Listed(s: Store, m: Message, failed: bool): (r: Store)
    requires Live(s) && Live(Add(s, m))
  {
    if failed then Remove(Add(s, m), m.kind, m.name).0 else Add(s, m)
  }

  /** In streaming and logical mode the answer is waited for later. */
  function Sent(w: World, s: Store, id: nat): (r: Store)
  {
    if w.cfg.mode.SL() then s.(pending := s.pending + [Awaits(id)], inProgress := false) else s
  }

  function ParseStep(w: World, st: Machine, id: nat, q: Query, name: string, addr: nat, failed: bool): (r: Option<Machine>)
    requires w.cl.Valid() && Tidy(st.store, st.extended) && id !in st.store.contexts
  {
    var r := Route(w, st.(extended := true), id, w.cl.myMain, w.cl.myMain, ParsedStatement, q);
    if r.None? then None
    else
      var m := Message('P', name, Created, Some(id), addr);
      NewContextTidy(st.store, id, r.value.store.contexts[id], st.extended, true);
      FreshAdd(r.value.store, m, id);
      Some(r.value.(store := Sent(w, Listed(r.value.store, m, failed && !w.cfg.mode.SL()), id)))
  }

  function BindStep(w: World, st: Machine, name: string, portal: string, addr: nat, failed: bool): (r: Option<Machine>)
    requires w.cl.Valid() && Tidy(st.store, st.extended)
  {
    var msg := Lookup(st.store.sent, name);
    if msg.None? then Some(st.(extended := true, store := st.store.(inProgress := false)))
    else if msg.value.ctx.None? then None
    else
      LookupHeld(st.store, name);
      var id := msg.value.ctx.value;
      var s := st.store.(current := Some(id), inProgress := true);
      var m := Message('B', portal, Created, Some(id), addr);
      SecondAdd(s, m, msg.value, id);
      Some(st.(extended := true, store := Sent(w, Listed(s, m, failed && !w.cfg.mode.SL()), id)))
  }

  function UseStep(w: World, st: Machine, onStatement: bool, name: string): (r: Option<Machine>)
  {
    var msg := if onStatement then Lookup(st.store.sent, name) else Get(st.store.sent, 'B', name);
    if msg.None? then Some(st.(extended := true))
    else if msg.value.ctx.None? then None
    else
      var id := msg.value.ctx.value;
      Some(st.(extended := true, store := Sent(w, st.store.(current := Some(id), inProgress := true), id)))
  }

  function RerouteStep(w: World, st: Machine, name: string, facts: Facts): (r: Option<Machine>)
    requires w.cl.Valid() && Live(st.store) && Origins(st)
  {
    var msg := Lookup(st.store.sent, name);
    if msg.None? || msg.value.ctx.None? then None
    else
      LookupHeld(st.store, name);
      var id := msg.value.ctx.value;
      var c := st.store.contexts[id];
      var q := st.log[c.origin].q.(facts := facts, arrival := AtBind);
      Route(w, st.(extended := true), id, c.plan.lb, c.main, c.use, q)
  }

  /** The end of a query frees its context, unless it was a PREPARE. */
  function ReadyStore(s: Store, extended: bool, failed: bool, addr: nat): (r: Store)
    requires Tidy(s, extended) && (extended || s.inProgress)
  {
    if extended || s.current.None? then s.(inProgress := false)
    else
      var id := s.current.value;
      match s.contexts[id].use
      case PrepareQuery(name) =>
        var m := Message('Q', name, Created, Some(id), addr);
        assert Live(Add(s, m)) by { AddKeepsLive(s, m); }
        (if failed then Listed(s, m, true) else s).(inProgress := false)
      case _ => DestroyContext(s, id)
  }

  /** Messages about a context about to be freed forget it. */
  function Zap(sent: seq<Message>, id: nat): (r: seq<Message>)
    ensures |r| == |sent|
    ensures forall i :: 0 <= i < |sent| ==> r[i] == if sent[i].ctx == Some(id) then sent[i].(ctx := None) else sent[i]
  {
    seq(|sent|, i requires 0 <= i < |sent| => if sent[i].ctx == Some(id) then sent[i].(ctx := None) else sent[i])
  }

  /** The first message about a context, if there is one, has no name. */
  predicate OnlyUnnamed(sent: seq<Message>, id: nat)
  {
    if sent == [] then true
    else if sent[0].ctx == Some(id) then sent[0].name == ""
    else OnlyUnnamed(sent[1..], id)
  }

  function CompleteStore(s: Store): (r: Store)
    requires Live(s)
  {
    var t := s.(inProgress := false);
    if t.current.None? then t
    else
      var id := t.current.value;
      if CanDestroy(t, id) && OnlyUnnamed(t.sent, id) then DestroyContext(t.(sent := Zap(t.sent, id)), id) else t
  }

  function ResumeStore(s: Store): (r: Store)
  {
    if s.pending == [] then s.(inProgress := false)
    else match s.pending[0]
      case SyncMark(_) => s.(current := None, inProgress := false)
      case Awaits(id) => s.(current := Some(id), inProgress := true)
  }

  /** The operations that leave the memory and the log alone. */
  function StoreStep(w: World, st: Machine, op: Op): (r: Store)
    requires Tidy(st.store, st.extended) && Enabled(w, st, op)
  {
    var s := st.store;
    match op
    case PrepareDone(addr) => Add(s, Message('Q', s.contexts[s.current.value].use.name, Created, s.current, addr))
    case Ready(failed, addr) => ReadyStore(s, st.extended, failed, addr)
    case SyncMsg(junk) =>
      if w.cfg.mode.SL() then s.(pending := s.pending + [SyncMark(junk)], inProgress := false) else s.(inProgress := true)
    case CloseSent(kind, name) => Close(s, kind, name)
    case RemoveSent(kind, name) => Remove(s, kind, name).0
    case RemoveAllOf(kind) => RemoveKind(s, kind)
    case ClearSent => Clear(s)
    case PullPending => if s.pending == [] then s else s.(pending := s.pending[1..])
    case Resume => ResumeStore(s)
    case Complete => CompleteStore(s)
    case _ => s
  }

  function Step(w: World, st: Machine, op: Op): (r: Option<Machine>)
    requires w.cl.Valid() && Tidy(st.store, st.extended) && Origins(st) && Enabled(w, st, op)
  {
    match op
    case SimpleQuery(id, q) =>
      var use := if q.node.Prepare? then PrepareQuery(q.node.name) else PlainQuery;
      Route(w, st.(extended := false), id, w.cl.myMain, w.cl.myMain, use, q)
    case ParseMsg(id, q, name, addr, failed) => ParseStep(w, st, id, q, name, addr, failed)
    case Reroute(name, facts) => RerouteStep(w, st, name, facts)
    case BindMsg(name, portal, addr, failed) => BindStep(w, st, name, portal, addr, failed)
    case UseMsg(onStatement, name) => UseStep(w, st, onStatement, name)
    case WalkAgain(id) =>
      var q := st.log[st.store.contexts[id].origin].q;
      Some(st.(memory := Walked(w.cfg, st.memory, q), walks := st.walks + [Walk(|st.log|, q)]))
    case SyncMsg(_) => Some(st.(extended := true, store := StoreStep(w, st, op)))
    case _ => Some(st.(store := StoreStep(w, st, op)))
  }

  // ----- addition under the names of the protocol

  /** A message about a context that no entry holds yet can be added. */
  lemma FreshAdd(s: Store, m: Message, id: nat)
    requires Live(s) && m.kind != NO_KIND && m.ctx == Some(id) && id in s.contexts && id !in SentRefs(s.sent)
    ensures Live(Add(s, m)) && id in Add(s, m).contexts && Add(s, m).contexts.Keys <= s.contexts.Keys
  {
    hide Released, Remove, CanDestroy;
    var i := IndexOfKey(s.sent, m.kind, m.name);
    assert i < |s.sent| && s.sent[i].ctx.Some? ==> s.sent[i].ctx.value in SentRefs(s.sent);
    AddKeepsLive(s, m);
    RemoveReleases(s, m.kind, m.name);
    ReleasedKeepsOthers(s, Remove(s, m.kind, m.name).0, id);
  }

  lemma ReleasedKeepsOthers(s: Store, r: Store, id: nat)
    requires Released(s, r)
    ensures r.contexts.Keys <= s.contexts.Keys
    ensures id in s.contexts && id !in SentRefs(s.sent) ==> id in r.contexts
    ensures id in s.contexts && id in SentRefs(r.sent) ==> id in r.contexts
  {
  }

  /** So can one about a context that an entry of another kind holds. */
  lemma SecondAdd(s: Store, m: Message, other: Message, id: nat)
    requires Live(s) && m.kind != NO_KIND && m.ctx == Some(id) && id in s.contexts
    requires other in s.sent && other.kind != m.kind && other.ctx == Some(id)
    ensures Live(Add(s, m)) && id in Add(s, m).contexts && Add(s, m).contexts.Keys <= s.contexts.Keys
  {
    hide Released, RemoveAt, SentRefs;
    var i := IndexOfKey(s.sent, m.kind, m.name);
    if i < |s.sent| {
      var j :| 0 <= j < |s.sent| && s.sent[j] == other;
      HeldIsLive(s, i);
      OtherStays(s.sent, i, j, id);
      if s.sent[i].ctx == m.ctx {
        CanDestroyMeans(s, i);
      }
      RemoveAtDrops(s, i);
      RemoveAtReleases(s, i);
      ReleasedKeepsOthers(s, RemoveAt(s, i), id);
    }
    AddKeepsLive(s, m);
  }

  lemma OtherStays(sent: seq<Message>, i: nat, j: nat, id: nat)
    requires i < |sent| && j < |sent| && i != j && sent[j].ctx == Some(id)
    ensures id in SentRefs(Drop(sent, i))
  {
    var d := Drop(sent, i);
    assert d[if j < i then j else j - 1] == sent[j];
  }

  lemma NewContextTidy(s: Store, id: nat, c: Context, before: bool, extended: bool)
    requires Tidy(s, before) && id !in s.contexts
    requires c.use.PrepareQuery? ==> c.use.name != ""
    requires extended || !c.use.ParsedStatement?
    ensures var r := s.(contexts := s.contexts[id := c], current := Some(id), inProgress := true);
            Tidy(r, extended) && id !in SentRefs(r.sent) && id !in PendingRefs(r.pending)
  {
  }
}
