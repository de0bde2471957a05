/** What holds of every decision in every session. */
module SessionTheorems {
  import opened Bytes
  import opened Routing
  import opened SessionStore
  import opened SentMessageMap
  import opened SessionRuns
  import opened SessionOrder

  // ----- plans

  /** A plan names at least one backend, and in streaming mode the primary or exactly its balance node. */
  ghost predicate Sound(w: World, where: set<int>, lb: int)
  {
    && (exists i :: i in where && 0 <= i < w.cl.n)
    && (w.cfg.mode.SL() ==> w.cl.Primary() in where || where == {lb})
  }

  lemma {:induction false} FirstTargetFound(where: set<int>, i: nat, n: nat, otherwise: int)
    requires i <= n && exists k :: k in where && i <= k < n
    ensures FirstTarget(where, i, n, otherwise) in where
    ensures forall k :: k in where && i <= k < n ==> i <= FirstTarget(where, i, n, otherwise) <= k
    decreases n - i
  {
    var k :| k in where && i <= k < n;
    if i in where {
    } else {
      assert i + 1 <= k;
      FirstTargetFound(where, i + 1, n, otherwise);
    }
  }

  /** Whatever sound plan is in progress, the node that speaks for it is one it was sent to. */
  lemma VirtualMainSent(w: World, where: set<int>, lb: int, otherwise: int)
    requires Sound(w, where, lb)
    ensures VirtualMain(w.cfg, w.cl, FirstTarget(where, 0, w.cl.n, otherwise), lb, false) in where
  {
    FirstTargetFound(where, 0, w.cl.n, otherwise);
  }

  lemma AllNodesSound(w: World, lb: int, other: int)
    requires w.Steady()
    ensures Sound(w, AllNodes(w.cfg, w.cl, lb), other)
  {
    var all := AllNodes(w.cfg, w.cl, lb);
    assert w.cl.realMain in w.cl.up;
    if w.cfg.mode.SL() {
      assert w.cl.Primary() in all;
    } else {
      assert w.cl.realMain in all;
    }
  }

  lemma SingletonSound(w: World, node: int, lb: int)
    requires 0 <= node < w.cl.n && (node == lb || node == w.cl.Primary() || !w.cfg.mode.SL())
    ensures Sound(w, {node}, lb)
  {
    assert node in {node};
  }

  lemma MainReplicaSound(w: World, m: Memory, lb: int, q: Query)
    requires w.Steady() && w.cfg.mode.MainReplica() && PicksInRange(w.cl, q.facts) && 0 <= m.lb < w.cl.n
    ensures var p := PlanMainReplica(w.cfg, w.cl, m, lb, q);
            Sound(w, p.where, p.lb) && 0 <= p.memory.lb < w.cl.n
  {
    hide MayLeavePrimary, MayBalance, Considered, Sound, AllNodes, SendToWhere;
    ConsideredKeepsNode(w.cfg, m, q);
    AllNodesSound(w, m.lb, lb);
    SingletonSound(w, w.cl.Primary(), lb);
    var node := Balanced(w.cfg, m, q.facts);
    SingletonSound(w, node, node);
  }

  lemma ReplicationSound(w: World, m: Memory, lb: int, q: Query)
    requires w.Steady() && w.cfg.mode.Replication() && PicksInRange(w.cl, q.facts) && 0 <= m.lb < w.cl.n
    ensures var p := PlanReplication(w.cfg, w.cl, m, lb, q);
            Sound(w, p.where, p.lb) && 0 <= p.memory.lb < w.cl.n
  {
    hide Sound, AllNodes;
    AllNodesSound(w, m.lb, lb);
    SingletonSound(w, w.cl.realMain, lb);
    var node := if w.cfg.statementLevel then q.facts.pick else m.lb;
    SingletonSound(w, node, node);
  }

  lemma BasePlanSound(w: World, m: Memory, lb: int, q: Query)
    requires w.Steady() && PicksInRange(w.cl, q.facts) && 0 <= m.lb < w.cl.n
    ensures var p := BasePlan(w.cfg, w.cl, m, lb, q);
            Sound(w, p.where, p.lb) && 0 <= p.memory.lb < w.cl.n
  {
    hide Sound, AllNodes, PlanMainReplica, PlanReplication;
    if w.cfg.mode.Raw? {
      SingletonSound(w, w.cl.realMain, lb);
    } else if w.cfg.mode.MainReplica() {
      SingletonSound(w, w.cl.Primary(), lb);
      MainReplicaSound(w, m, lb, q);
    } else {
      AllNodesSound(w, m.lb, lb);
      ReplicationSound(w, m, lb, q);
    }
  }

  lemma ConsideredKeepsNode(cfg: Config, m: Memory, q: Query)
    ensures Considered(cfg, m, q).lb == m.lb && Arrived(cfg, m, q).lb == m.lb
  {
    hide Remember, Walked, MayAskFunctions;
    RememberKeepsNode(cfg, m, q);
    WalkKeepsNode(cfg, Remember(cfg, m, q), q);
    WalkKeepsNode(cfg, m, q);
  }

  /** Statements that inherit nothing get a sound plan; those that inherit a sound plan keep it. */
  lemma FinalPlanSound(w: World, m: Memory, lb: int, q: Query, stored: Option<Stored>)
    requires w.Steady() && PicksInRange(w.cl, q.facts) && 0 <= m.lb < w.cl.n
    requires stored.Some? ==> Sound(w, stored.value.where, stored.value.lb)
    ensures var p := FinalPlan(w.cfg, w.cl, m, lb, q, stored);
            Sound(w, p.where, p.lb) && 0 <= p.memory.lb < w.cl.n
  {
    hide BasePlan, AllNodes, Sound;
    BasePlanSound(w, m, lb, q);
    var base := BasePlan(w.cfg, w.cl, m, lb, q);
    UnionSound(w, base.where, base.lb, {w.cl.Primary()});
    PrimaryInAll(w, base.memory.lb);
    UnionSound(w, base.where, base.lb, AllNodes(w.cfg, w.cl, base.memory.lb));
  }

  lemma ParsedSound(w: World, p: Plan, arrival: Arrival)
    requires w.Steady() && Sound(w, p.where, p.lb)
    ensures var r := Parsed(w.cfg, w.cl, p, arrival);
            Sound(w, r.where, r.lb) && p.where <= r.where && r.lb == p.lb && r.memory == p.memory
  {
    hide AllNodes, Sound;
    PrimaryInAll(w, p.memory.lb);
    UnionSound(w, p.where, p.lb, AllNodes(w.cfg, w.cl, p.memory.lb));
  }

  lemma PrimaryInAll(w: World, lb: int)
    requires w.Steady()
    ensures w.cfg.mode.MainReplica() ==> w.cl.Primary() in AllNodes(w.cfg, w.cl, lb)
  {
  }

  lemma UnionSound(w: World, where: set<int>, lb: int, more: set<int>)
    requires Sound(w, where, lb) && (w.cfg.mode.SL() ==> w.cl.Primary() in more)
    ensures Sound(w, where + more, lb)
  {
    var i :| i in where && 0 <= i < w.cl.n;
    assert i in where + more;
  }

  // ----- the invariant of a session

  /** The nodes a Parse message adds to those of the plan. */
  function Extra(w: World, d: Decision): (r: set<int>)
    requires w.cl.Valid()
  {
    if d.q.arrival.ParseNamed? && w.cfg.onWrite.DmlAdaptive? then AllNodes(w.cfg, w.cl, d.plan.memory.lb) else {}
  }

  /** What the statement is given on its own account. */
  function OwnPlan(w: World, d: Decision): (p: Plan)
    requires w.cl.Valid()
  {
    Parsed(w.cfg, w.cl, FinalPlan(w.cfg, w.cl, Arrived(w.cfg, d.before, d.q), d.start, d.q, None), d.q.arrival)
  }

  /** One entry of the log: inherited from an earlier entry, or decided on its own. */
  ghost predicate Entry(w: World, log: seq<Decision>, k: nat)
    requires k < |log| && w.cl.Valid()
  {
    var d := log[k];
    && Sound(w, d.plan.where, d.plan.lb)
    && VirtualMain(w.cfg, w.cl, d.main, d.plan.lb, false) in d.plan.where
    && d.plan.memory == BasePlan(w.cfg, w.cl, Arrived(w.cfg, d.before, d.q), d.start, d.q).memory
    && (d.source.None? ==> d.plan == OwnPlan(w, d))
    && (d.source.Some? ==>
        && d.source.value < k
        && UsesPrepared(d.q.node)
        && d.plan.where == log[d.source.value].plan.where + Extra(w, d)
        && d.plan.lb == log[d.source.value].plan.lb)
  }

  ghost predicate LogInv(w: World, log: seq<Decision>)
    requires w.cl.Valid()
  {
    forall k :: 0 <= k < |log| ==> Entry(w, log, k)
  }

  /** Each context holds the plan of the decision it comes from. */
  ghost predicate ContextInv(log: seq<Decision>, contexts: map<nat, Context>)
  {
    forall id :: id in contexts ==> contexts[id].origin < |log| && FromDecision(contexts[id], log[contexts[id].origin])
  }

  ghost predicate Inv(w: World, st: Machine)
    requires w.cl.Valid()
  {
    && Tidy(st.store, st.extended)
    && LogInv(w, st.log)
    && ContextInv(st.log, st.store.contexts)
    && 0 <= st.memory.lb < w.cl.n
  }

  lemma StartInv(w: World, lb: int)
    requires w.cl.Valid() && 0 <= lb < w.cl.n
    ensures Inv(w, NewSession(lb))
  {
  }

  lemma EntryExtends(w: World, log: seq<Decision>, d: Decision, k: nat)
    requires w.cl.Valid() && k < |log| && Entry(w, log, k)
    ensures Entry(w, log + [d], k)
  {
    hide Sound, BasePlan, OwnPlan, VirtualMain, Extra;
    var l := log + [d];
    assert l[k] == log[k];
    if log[k].source.Some? {
      assert l[log[k].source.value] == log[log[k].source.value];
    }
  }

  lemma InheritedSound(w: World, st: Machine, q: Query)
    requires w.cl.Valid() && Live(st.store) && LogInv(w, st.log) && ContextInv(st.log, st.store.contexts)
    ensures var msg := Inherited(st.store.sent, q.node);
            msg.Some? && msg.value.ctx.Some? ==>
              && msg.value.ctx.value in st.store.contexts && UsesPrepared(q.node)
              && var c := st.store.contexts[msg.value.ctx.value];
                 Sound(w, c.plan.where, c.plan.lb) && c.origin < |st.log| && FromDecision(c, st.log[c.origin])
  {
    hide Sound, BasePlan, OwnPlan, VirtualMain, Extra, Live, Lookup;
    GetHeld(st.store, q.node);
    var msg := Inherited(st.store.sent, q.node);
    if msg.Some? && msg.value.ctx.Some? {
      var c := st.store.contexts[msg.value.ctx.value];
      assert Entry(w, st.log, c.origin);
    }
  }

  lemma FinalMemory(w: World, m: Memory, lb: int, q: Query, stored: Option<Stored>)
    requires w.cl.Valid()
    ensures FinalPlan(w.cfg, w.cl, m, lb, q, stored).memory == BasePlan(w.cfg, w.cl, m, lb, q).memory
    ensures UsesPrepared(q.node) && PreparedName(q.node).Some? && stored.Some? ==>
              && FinalPlan(w.cfg, w.cl, m, lb, q, stored).where == stored.value.where
              && FinalPlan(w.cfg, w.cl, m, lb, q, stored).lb == stored.value.lb
  {
    hide BasePlan;
  }

  lemma InheritedNamed(sent: seq<Message>, node: Node)
    ensures Inherited(sent, node).Some? ==> PreparedName(node).Some? && UsesPrepared(node)
  {
  }

  /** Every decision is a proper entry of the log. */
  lemma RouteEntry(w: World, st: Machine, id: nat, lb: int, main: int, use: Use, q: Query)
    requires w.Steady() && Live(st.store) && LogInv(w, st.log) && ContextInv(st.log, st.store.contexts)
    requires 0 <= st.memory.lb < w.cl.n && PicksInRange(w.cl, q.facts)
    ensures var r := Route(w, st, id, lb, main, use, q);
            r.Some? ==> |r.value.log| == |st.log| + 1 && Entry(w, r.value.log, |st.log|) && 0 <= r.value.memory.lb < w.cl.n
  {
    hide Sound, BasePlan, FinalPlan, Parsed, Live, Inherited, FirstTarget, VirtualMain, LogInv;
    var r := Route(w, st, id, lb, main, use, q);
    if r.Some? {
      var msg := Inherited(st.store.sent, q.node);
      InheritedSound(w, st, q);
      InheritedNamed(st.store.sent, q.node);
      ConsideredKeepsNode(w.cfg, st.memory, q);
      var met := Arrived(w.cfg, st.memory, q);
      var stored := if msg.Some? then Some(st.store.contexts[msg.value.ctx.value].plan) else None;
      FinalPlanSound(w, met, lb, q, stored);
      FinalMemory(w, met, lb, q, stored);
      var own := FinalPlan(w.cfg, w.cl, met, lb, q, stored);
      ParsedSound(w, own, q.arrival);
      ParsedIs(w, own, q.arrival);
      VirtualMainSent(w, own.where, own.lb, main);
    }
  }

  lemma ParsedMemory(w: World, p: Plan, arrival: Arrival)
    requires w.cl.Valid()
    ensures Parsed(w.cfg, w.cl, p, arrival).memory == p.memory
  {
  }

  lemma ParsedIs(w: World, p: Plan, arrival: Arrival)
    requires w.cl.Valid()
    ensures Parsed(w.cfg, w.cl, p, arrival).where
         == p.where + if arrival.ParseNamed? && w.cfg.onWrite.DmlAdaptive? then AllNodes(w.cfg, w.cl, p.memory.lb) else {}
  {
  }

  /** The steps that decide something add a proper entry; the others leave the log. */
  lemma StepEntry(w: World, st: Machine, op: Op)
    requires w.Steady() && Inv(w, st) && Enabled(w, st, op) && Origins(st)
    ensures var r := Step(w, st, op);
            r.Some? ==>
              && 0 <= r.value.memory.lb < w.cl.n
              && (r.value.log != st.log ==> |r.value.log| == |st.log| + 1 && Entry(w, r.value.log, |st.log|))
  {
    hide Route, LogInv, StoreStep, Orderly, Live, KindsNonzero, Entry;
    match op
    case SimpleQuery(id, q) =>
      var use := if q.node.Prepare? then PrepareQuery(q.node.name) else PlainQuery;
      RouteEntry(w, st.(extended := false), id, w.cl.myMain, w.cl.myMain, use, q);
    case ParseMsg(id, q, name, addr, failed) =>
      RouteEntry(w, st.(extended := true), id, w.cl.myMain, w.cl.myMain, ParsedStatement, q);
    case Reroute(name, facts) =>
      var msg := Lookup(st.store.sent, name);
      if msg.Some? && msg.value.ctx.Some? {
        LookupHeld(st.store, name);
        var c := st.store.contexts[msg.value.ctx.value];
        var q := st.log[c.origin].q.(facts := facts, arrival := AtBind);
        RouteEntry(w, st.(extended := true), msg.value.ctx.value, c.plan.lb, c.main, c.use, q);
      }
    case WalkAgain(id) =>
      WalkKeepsNode(w.cfg, st.memory, st.log[st.store.contexts[id].origin].q);
    case _ =>
  }

  lemma GrownLog(w: World, st: Machine, r: Machine)
    requires w.cl.Valid() && LogInv(w, st.log) && Grown(st, r)
    requires r.log != st.log ==> |r.log| == |st.log| + 1 && Entry(w, r.log, |st.log|)
    ensures LogInv(w, r.log)
  {
    hide Entry;
    if r.log != st.log {
      var d := r.log[|st.log|];
      assert r.log == st.log + [d];
      forall k | 0 <= k < |r.log|
        ensures Entry(w, r.log, k)
      {
        if k < |st.log| {
          EntryExtends(w, st.log, d, k);
        }
      }
    }
  }

  lemma GrownContexts(st: Machine, r: Machine)
    requires ContextInv(st.log, st.store.contexts) && Grown(st, r)
    ensures ContextInv(r.log, r.store.contexts)
  {
    hide FromDecision;
    assert forall k :: 0 <= k < |st.log| ==> r.log[k] == st.log[k] by {
      if r.log != st.log {
        assert forall k :: 0 <= k < |st.log| ==> r.log[..|st.log|][k] == r.log[k];
      }
    }
  }

  lemma ContextOrigins(st: Machine)
    requires ContextInv(st.log, st.store.contexts)
    ensures Origins(st)
  {
  }

  lemma StepKeepsInv(w: World, st: Machine, op: Op)
    requires w.Steady() && Inv(w, st) && Enabled(w, st, op)
    ensures Origins(st)
    ensures var r := Step(w, st, op); r.Some? ==> Inv(w, r.value)
  {
    hide LogInv, ContextInv, Origins, Tidy, Step, Grown, Entry;
    ContextOrigins(st);
    StepTidy(w, st, op);
    StepEntry(w, st, op);
    var r := Step(w, st, op);
    if r.Some? {
      GrownLog(w, st, r.value);
      GrownContexts(st, r.value);
    }
  }

  /**
   * A session: operations one after the other, each enabled when it happens. None stands for a
   * sequence that is not a session, or for one that the program gives up on.
   */
  ghost function Run(w: World, lb: int, ops: seq<Op>): (r: Option<Machine>)
    requires w.Steady() && 0 <= lb < w.cl.n
    ensures r.Some? ==> Inv(w, r.value)
    decreases |ops|
  {
    if ops == [] then
      StartInv(w, lb);
      Some(NewSession(lb))
    else
      match Run(w, lb, ops[..|ops| - 1])
      case None => None
      case Some(st) =>
        var op := ops[|ops| - 1];
        if !Enabled(w, st, op) then None
        else
          StepKeepsInv(w, st, op);
          Step(w, st, op)
  }

  /**
   * In no session does the message list, the queue or the session itself point at a freed context,
   * and the contexts of plain queries are held by no list.
   */
  lemma NothingDangles(w: World, lb: int, ops: seq<Op>)
    requires w.Steady() && 0 <= lb < w.cl.n
    ensures var r := Run(w, lb, ops); r.Some? ==> Live(r.value.store) && Orderly(r.value.store, r.value.extended)
  {
    hide Run;
  }

  /** At every point of every session the main node of the query in progress is one it was sent to. */
  lemma MainNodeWasSentTo(w: World, lb: int, ops: seq<Op>, st: Machine)
    requires w.Steady() && 0 <= lb < w.cl.n && Run(w, lb, ops) == Some(st)
    requires st.store.inProgress && st.store.current.Some?
    ensures var id := st.store.current.value;
            && id in st.store.contexts
            && var c := st.store.contexts[id];
               VirtualMain(w.cfg, w.cl, c.main, c.plan.lb, false) in c.plan.where
  {
    hide Run, Sound, VirtualMain, BasePlan, OwnPlan;
    var c := st.store.contexts[st.store.current.value];
    assert Entry(w, st.log, c.origin);
  }

  // ----- where a plan comes from

  /** The decision at the beginning of a chain of inheritance. */
  function Root(w: World, log: seq<Decision>, k: nat): (r: nat)
    requires w.cl.Valid() && LogInv(w, log) && k < |log|
    ensures r <= k
    decreases k
  {
    assert Entry(w, log, k);
    if log[k].source.None? then k else Root(w, log, log[k].source.value)
  }

  lemma {:induction false} RootPlan(w: World, log: seq<Decision>, k: nat)
    requires w.cl.Valid() && LogInv(w, log) && k < |log|
    ensures var r := Root(w, log, k);
            log[r].source.None? && log[r].plan.where <= log[k].plan.where && log[k].plan.lb == log[r].plan.lb
    ensures Root(w, log, k) != k ==> UsesPrepared(log[k].q.node)
    decreases k
  {
    hide Sound, BasePlan, OwnPlan, VirtualMain, Extra;
    assert Entry(w, log, k);
    if log[k].source.None? {
    } else {
      RootPlan(w, log, log[k].source.value);
    }
  }

  /** A map without the primary is exactly that of its root: nothing was added on the way. */
  lemma {:induction false} RootExact(w: World, log: seq<Decision>, k: nat)
    requires w.Steady() && LogInv(w, log) && k < |log|
    requires w.cfg.mode.MainReplica() && w.cl.Primary() !in log[k].plan.where
    ensures log[k].plan.where == log[Root(w, log, k)].plan.where
    decreases k
  {
    hide Sound, BasePlan, OwnPlan, VirtualMain, AllNodes;
    assert Entry(w, log, k);
    if log[k].source.None? {
    } else {
      PrimaryInAll(w, log[k].plan.memory.lb);
      RootExact(w, log, log[k].source.value);
    }
  }

  lemma OwnPlanOffPrimary(w: World, m: Memory, lb: int, q: Query)
    requires w.Steady() && w.cfg.mode.MainReplica()
    requires w.cl.Primary() !in FinalPlan(w.cfg, w.cl, m, lb, q, None).where
    ensures !q.multi && !UsesPrepared(q.node) && MayLeavePrimary(w.cfg, Considered(w.cfg, m, q), q)
  {
    hide MayLeavePrimary, MayBalance, Considered;
    ConsideredKeepsNode(w.cfg, m, q);
    if UsesPrepared(q.node) && !q.multi {
      PreparedStays(w.cfg, Considered(w.cfg, m, q), q);
    }
  }

  lemma PreparedStays(cfg: Config, m: Memory, q: Query)
    requires UsesPrepared(q.node)
    ensures !MayLeavePrimary(cfg, m, q)
  {
  }

  /** The memory the guards of a decision met. */
  function Met(w: World, d: Decision): (m: Memory)
  {
    Considered(w.cfg, Arrived(w.cfg, d.before, d.q), d.q)
  }

  /**
   * In the modes with a primary, a decision that leaves the primary out goes back, through the
   * statements its plan was inherited from, to one statement that was alone in its query and passed
   * every guard of load balancing when it was decided.
   */
  lemma OffPrimaryJustified(w: World, lb: int, ops: seq<Op>, st: Machine, k: nat)
    requires w.Steady() && 0 <= lb < w.cl.n && Run(w, lb, ops) == Some(st)
    requires w.cfg.mode.MainReplica() && k < |st.log| && w.cl.Primary() !in st.log[k].plan.where
    ensures var log := st.log;
            var d := log[Root(w, log, k)];
            && d.plan.where == log[k].plan.where
            && (Root(w, log, k) != k ==> UsesPrepared(log[k].q.node))
            && !d.q.multi && !UsesPrepared(d.q.node)
            && MayLeavePrimary(w.cfg, Met(w, d), d.q)
  {
    hide Run, Sound, BasePlan, FinalPlan, MayLeavePrimary, Considered, Root, VirtualMain, Extra, Arrived;
    var log := st.log;
    var r := Root(w, log, k);
    RootPlan(w, log, k);
    RootExact(w, log, k);
    assert Entry(w, log, r);
    var d := log[r];
    OwnPlanOffPrimary(w, Arrived(w.cfg, d.before, d.q), d.start, d.q);
  }

  /** In the modes that replicate statements, how a decision of its own is made. */
  lemma OwnPlanReplicates(w: World, m: Memory, lb: int, q: Query)
    requires w.Steady() && w.cfg.mode.Replication() && (q.multi || MustReplicate(w.cfg, q))
    ensures FinalPlan(w.cfg, w.cl, m, lb, q, None).where
         == if BalancedSnapshot(w.cfg, q) then {if w.cfg.statementLevel then q.facts.pick else m.lb}
               + (if UsesPrepared(q.node) then w.cl.up else {})
            else w.cl.up
  {
  }

  /** The one case in which a statement that may change data is balanced: a read-only snapshot. */
  predicate BalancedSnapshot(cfg: Config, q: Query)
  {
    && !q.multi && cfg.loadBalance && q.facts.isSelect && q.facts.protocol3 && ReadOnlySnapshot(cfg, q.facts)
  }

  /** Outside streaming and logical mode a plan that reaches every live node is inherited as it is. */
  lemma {:induction false} RootEverywhere(w: World, log: seq<Decision>, k: nat)
    requires w.Steady() && LogInv(w, log) && k < |log| && !w.cfg.mode.SL()
    requires log[Root(w, log, k)].plan.where == w.cl.up
    ensures log[k].plan.where == w.cl.up
    decreases k
  {
    hide Sound, BasePlan, OwnPlan, VirtualMain, AllNodes;
    assert Entry(w, log, k);
    if log[k].source.None? {
    } else {
      AllNodesUp(w.cfg, w.cl, log[k].plan.memory.lb);
      RootEverywhere(w, log, log[k].source.value);
    }
  }

  /**
   * In native replication and snapshot isolation a statement that may change data reaches exactly the
   * live nodes, and so does every EXECUTE and DEALLOCATE whose chain of inheritance starts at such a
   * statement. The exception is a SELECT in a read-only snapshot.
   */
  lemma WritesReachEveryNode(w: World, lb: int, ops: seq<Op>, st: Machine, k: nat)
    requires w.Steady() && 0 <= lb < w.cl.n && Run(w, lb, ops) == Some(st)
    requires w.cfg.mode.Replication() && k < |st.log|
    requires var d := st.log[Root(w, st.log, k)]; (d.q.multi || MustReplicate(w.cfg, d.q)) && !BalancedSnapshot(w.cfg, d.q)
    ensures st.log[k].plan.where == w.cl.up
  {
    hide Run, Sound, BasePlan, FinalPlan, Root, VirtualMain, Extra, Arrived;
    var log := st.log;
    var r := Root(w, log, k);
    RootPlan(w, log, k);
    assert Entry(w, log, r);
    var d := log[r];
    OwnPlanReplicates(w, Arrived(w.cfg, d.before, d.q), d.start, d.q);
    ParsedIs(w, FinalPlan(w.cfg, w.cl, Arrived(w.cfg, d.before, d.q), d.start, d.q, None), d.q.arrival);
    AllNodesUp(w.cfg, w.cl, d.plan.memory.lb);
    RootEverywhere(w, log, k);
  }

  /** The exception, over runs: such a SELECT is sent to the balanced node, and where Parse adds all nodes, to all. */
  lemma SnapshotBalances(w: World, lb: int, ops: seq<Op>, st: Machine, k: nat)
    requires w.Steady() && 0 <= lb < w.cl.n && Run(w, lb, ops) == Some(st) && k < |st.log|
    requires w.cfg.mode.SnapshotIsolation? && !UsesPrepared(st.log[k].q.node)
    requires MustReplicate(w.cfg, st.log[k].q) && BalancedSnapshot(w.cfg, st.log[k].q)
    ensures var d := st.log[k];
            d.plan.where == {if w.cfg.statementLevel then d.q.facts.pick else d.before.lb} + Extra(w, d)
  {
    hide Run, Sound, BasePlan, FinalPlan, VirtualMain, Arrived, AllNodes, MustReplicate, BalancedSnapshot;
    assert Entry(w, st.log, k);
    var d := st.log[k];
    var met := Arrived(w.cfg, d.before, d.q);
    OwnPlanReplicates(w, met, d.start, d.q);
    ConsideredKeepsNode(w.cfg, d.before, d.q);
    var own := FinalPlan(w.cfg, w.cl, met, d.start, d.q, None);
    ParsedIs(w, own, d.q.arrival);
    ParsedMemory(w, own, d.q.arrival);
  }

  // ----- the list of sent messages as a map

  lemma CompleteIsMap(s: Store)
    requires Live(s) && IsMap(s.sent)
    ensures IsMap(CompleteStore(s).sent)
  {
    hide CanDestroy, OnlyUnnamed;
  }

  lemma ListedIsMap(s: Store, m: Message, failed: bool)
    requires Live(s) && Live(Add(s, m)) && IsMap(s.sent) && m.kind != NO_KIND && m.state.Created?
    ensures IsMap(Listed(s, m, failed).sent)
  {
    hide Live, IsMap, Add, Remove;
    AddIsMap(s, m);
    RemoveIsMap(Add(s, m), m.kind, m.name);
  }

  lemma StoreStepIsMap(w: World, st: Machine, op: Op)
    requires Tidy(st.store, st.extended) && Enabled(w, st, op) && IsMap(st.store.sent) && !op.CloseSent?
    ensures IsMap(StoreStep(w, st, op).sent)
  {
    hide Live, IsMap, Add, Remove, RemoveKindFrom, Clear, CompleteStore, Listed;
    var s := st.store;
    match op
    case PrepareDone(addr) =>
      AddIsMap(s, Message('Q', s.contexts[s.current.value].use.name, Created, s.current, addr));
    case Ready(failed, addr) =>
      CurrentIsLive(s);
      if !st.extended && s.current.Some? && s.contexts[s.current.value].use.PrepareQuery? {
        var m := Message('Q', s.contexts[s.current.value].use.name, Created, s.current, addr);
        AddKeepsLive(s, m);
        ListedIsMap(s, m, true);
      }
    case RemoveSent(kind, name) => RemoveIsMap(s, kind, name);
    case RemoveAllOf(kind) =>
      if kind != NO_KIND {
        RemoveKindMeans(s, kind);
        OthersIsMap(s.sent, kind);
      }
    case ClearSent =>
      ClearMeans(s);
      EmptyIsMap();
    case Complete => CompleteIsMap(s);
    case _ =>
  }

  lemma ParseIsMap(w: World, st: Machine, id: nat, q: Query, name: string, addr: nat, failed: bool)
    requires w.cl.Valid() && Tidy(st.store, st.extended) && id !in st.store.contexts && IsMap(st.store.sent)
    ensures var r := ParseStep(w, st, id, q, name, addr, failed); r.Some? ==> IsMap(r.value.store.sent)
  {
    hide Route, Live, IsMap, Add, Orderly, KindsNonzero, Listed;
    var mid := Route(w, st.(extended := true), id, w.cl.myMain, w.cl.myMain, ParsedStatement, q);
    if mid.Some? {
      RouteIs(w, st.(extended := true), id, w.cl.myMain, w.cl.myMain, ParsedStatement, q);
      var m := Message('P', name, Created, Some(id), addr);
      NewContextTidy(st.store, id, mid.value.store.contexts[id], st.extended, true);
      FreshAdd(mid.value.store, m, id);
      ListedIsMap(mid.value.store, m, failed && !w.cfg.mode.SL());
    }
  }

  lemma BindIsMap(w: World, st: Machine, name: string, portal: string, addr: nat, failed: bool)
    requires w.cl.Valid() && Tidy(st.store, st.extended) && IsMap(st.store.sent)
    ensures var r := BindStep(w, st, name, portal, addr, failed); r.Some? ==> IsMap(r.value.store.sent)
  {
    hide Live, IsMap, Add, Orderly, KindsNonzero, Listed, Lookup;
    var msg := Lookup(st.store.sent, name);
    if msg.Some? && msg.value.ctx.Some? {
      LookupHeld(st.store, name);
      var id := msg.value.ctx.value;
      var s := st.store.(current := Some(id), inProgress := true);
      var m := Message('B', portal, Created, Some(id), addr);
      InHandTidy(st.store, st.extended, id);
      SecondAdd(s, m, msg.value, id);
      ListedIsMap(s, m, failed && !w.cfg.mode.SL());
    }
  }

  lemma StepIsMap(w: World, st: Machine, op: Op)
    requires w.cl.Valid() && Tidy(st.store, st.extended) && Origins(st) && Enabled(w, st, op)
    requires IsMap(st.store.sent) && !op.CloseSent?
    ensures var r := Step(w, st, op); r.Some? ==> IsMap(r.value.store.sent)
  {
    hide Tidy, IsMap, ParseStep, BindStep, StoreStep, FinalPlan, Walked;
    match op
    case ParseMsg(id, q, name, addr, failed) => ParseIsMap(w, st, id, q, name, addr, failed);
    case BindMsg(name, portal, addr, failed) => BindIsMap(w, st, name, portal, addr, failed);
    case SimpleQuery(_, _) =>
    case Reroute(_, _) =>
    case UseMsg(_, _) =>
    case WalkAgain(_) =>
    case _ => StoreStepIsMap(w, st, op);
  }

  lemma EmptyIsMap()
    ensures IsMap([])
  {
  }

  /**
   * In every session in which nothing is closed, the list of sent messages has at most one entry for
   * each kind and name, so that lookup, addition and removal are those of a map.
   */
  lemma {:induction false} ListIsMap(w: World, lb: int, ops: seq<Op>)
    requires w.Steady() && 0 <= lb < w.cl.n
    requires forall i :: 0 <= i < |ops| ==> !ops[i].CloseSent?
    ensures var r := Run(w, lb, ops); r.Some? ==> IsMap(r.value.store.sent)
    decreases |ops|
  {
    hide Step, Inv, IsMap, Enabled;
    if ops == [] {
      EmptyIsMap();
    } else {
      var shorter := ops[..|ops| - 1];
      ListIsMap(w, lb, shorter);
      var st := Run(w, lb, shorter);
      var op := ops[|ops| - 1];
      if st.Some? && Enabled(w, st.value, op) {
        InvTidy(w, st.value);
        StepIsMap(w, st.value, op);
        StepKeepsInv(w, st.value, op);
      }
    }
  }

  lemma InvTidy(w: World, st: Machine)
    requires w.cl.Valid() && Inv(w, st)
    ensures Tidy(st.store, st.extended) && Origins(st)
  {
  }

  /** The SET statements that reach the primary alone. */
  predicate PrimarySet(node: Node)
    requires node.SetValue? || node.SetMulti? || node.SetOther?
  {
    || SetsSerializable(node)
    || (node.SetValue? && node.name == "transaction_read_only")
    || (node.SetMulti? && IsSessionWide(node.name)
        && exists o :: o in node.options && o.defname == "transaction_read_only" && o.arg == Int(0))
  }

  /**
   * A SET on its own reaches every node unless it raises the isolation level to serializable, makes
   * the transaction or the session read-write, or sets transaction_read_only, to whatever value: those
   * reach the primary alone.
   */
  lemma SetReaches(w: World, m: Memory, lb: int, q: Query)
    requires w.Steady() && w.cfg.mode.MainReplica() && (q.node.SetValue? || q.node.SetMulti? || q.node.SetOther?)
    requires !q.multi && !q.facts.txByMulti && !q.facts.isSelect
    ensures FinalPlan(w.cfg, w.cl, m, lb, q, None).where
         == if PrimarySet(q.node) then {w.cl.Primary()} else AllNodes(w.cfg, w.cl, m.lb)
  {
    hide AllNodes, Considered, SameName;
    var dest := SendToWhere(q.node, w.cfg.mode.SL(), q.facts.txByMulti);
    assert dest == PrimaryOnly || dest == Standby <==> PrimarySet(q.node);
    assert dest == Both <==> !PrimarySet(q.node);
  }
}
