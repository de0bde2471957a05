/**
 * Where statements go, said a second time: by kinds of statement and by the circumstances one by one,
 * without the functions that Routing decides with. The theorems are about every decision of every session.
 */
module RoutingMeaning {
  import opened Bytes
  import opened Routing
  import opened SessionStore
  import opened SessionRuns
  import opened SessionOrder
  import opened SessionTheorems
  import opened ReadYourWrites

  // ----- names

  /** The same character, or the two cases of one ASCII letter. */
  predicate SameLetter(a: char, b: char)
  {
    || a == b
    || (65 <= a as int <= 90 && b as int == a as int + 32)
    || (65 <= b as int <= 90 && a as int == b as int + 32)
  }

  /** Two names are the same if they have the same length and agree up to case in every place. */
  lemma SameNameMeans(a: string, b: string)
    ensures SameName(a, b) <==> |a| == |b| && forall i :: 0 <= i < |a| ==> SameLetter(a[i], b[i])
  {
    if SameName(a, b) {
      forall i | 0 <= i < |a|
        ensures SameLetter(a[i], b[i])
      {
        assert LowerCase(a)[i] == LowerCase(b)[i];
      }
    }
  }

  predicate Names(pair: Related, name: string, isFunction: bool)
  {
    pair.leftIsFunction == isFunction && SameName(pair.left, name)
  }

  /** Pair i is the first of its kind that names `name`, and gives `other`. */
  ghost predicate FirstPair(related: seq<Related>, name: string, isFunction: bool, other: string, i: int)
  {
    && 0 <= i < |related| && related[i].right == other && Names(related[i], name, isFunction)
    && forall j :: 0 <= j < i ==> !Names(related[j], name, isFunction)
  }

  /** A name is associated with the right-hand side of the first pair of its kind that names it. */
  lemma {:induction false} AssociatedMeans(related: seq<Related>, name: string, isFunction: bool, other: string)
    ensures Associated(related, name, isFunction) == Some(other) <==> exists i :: FirstPair(related, name, isFunction, other, i)
    decreases |related|
  {
    hide SameName;
    if related == [] {
    } else if Names(related[0], name, isFunction) {
      if related[0].right == other {
        assert FirstPair(related, name, isFunction, other, 0);
      }
    } else {
      var rest := related[1..];
      AssociatedMeans(rest, name, isFunction, other);
      if i :| FirstPair(rest, name, isFunction, other, i) {
        PairMoves(related, name, isFunction, other, i + 1);
      }
      if i :| FirstPair(related, name, isFunction, other, i) {
        PairMoves(related, name, isFunction, other, i);
      }
    }
  }

  lemma PairMoves(related: seq<Related>, name: string, isFunction: bool, other: string, i: int)
    requires 0 < |related| && !Names(related[0], name, isFunction)
    ensures FirstPair(related, name, isFunction, other, i) <==> FirstPair(related[1..], name, isFunction, other, i - 1)
  {
    hide Names;
    var rest := related[1..];
    assert forall j :: 0 <= j < |rest| ==> rest[j] == related[j + 1];
    if FirstPair(related, name, isFunction, other, i) {
      assert rest[i - 1] == related[i];
    }
    if FirstPair(rest, name, isFunction, other, i - 1) {
      forall j | 0 <= j < i
        ensures !Names(related[j], name, isFunction)
      {
        if j > 0 {
          assert !Names(rest[j - 1], name, isFunction);
        }
      }
    }
  }

  // ----- kinds of statements

  /** The statement inside any number of PREPAREs. */
  function Inner(node: Node): (r: Node)
  {
    if node.Prepare? then Inner(node.statement) else node
  }

  /** SELECT without INTO, locking or a WITH that writes; COPY TO of a table or a SELECT; SHOW; read-only on. */
  ghost predicate Reads(n: Node)
  {
    || (n.Select? && !n.intoOrLocking && forall i :: 0 <= i < |n.ctes| ==> n.ctes[i].Select?)
    || (n.Copy? && !n.isFrom && (n.query.None? || n.query.value.Select?))
    || n.Show?
    || (n.SetValue? && n.name == "transaction_read_only" && forall i :: 0 <= i < |n.args| ==> !TurnsOff(n.args[i]))
  }

  predicate TurnsOff(c: Const)
  {
    match c
    case Str(s) => SameName(s, "off") || SameName(s, "f") || SameName(s, "false")
    case Int(i) => i != 0
    case OtherConst => false
  }

  predicate Isolation(name: string)
  {
    name == "transaction_isolation" || name == "default_transaction_isolation"
  }

  /** A SET that only the primary is told, besides SET transaction_read_only. */
  ghost predicate Serious(n: Node)
  {
    || (n.SetValue? && Isolation(n.name) && exists i :: 0 <= i < |n.args| && n.args[i].Str? && SameName(n.args[i].s, "serializable"))
    || (n.SetMulti? && (n.name == "TRANSACTION" || n.name == "SESSION CHARACTERISTICS")
        && exists i :: 0 <= i < |n.options| && IsSerious(n.options[i]))
  }

  predicate IsSerious(o: DefElem)
  {
    || (Isolation(o.defname) && o.arg.Str? && SameName(o.arg.s, "serializable"))
    || (o.defname == "transaction_read_only" && o.arg == Int(0))
  }

  /** Statements that change the session itself, and weak locks: every node has to run them. */
  ghost predicate Everywhere(n: Node)
  {
    || (n.Lock? && n.mode <= 2)
    || n == TransactionStmt(Begin) || n == TransactionStmt(Start)
    || n == TransactionStmt(Commit) || n == TransactionStmt(Rollback)
    || n == TransactionStmt(Savepoint) || n == TransactionStmt(Release) || n == TransactionStmt(RollbackTo)
    || n == Discard || n == SetOther
    || (n.SetValue? && n.name != "transaction_read_only" && !Serious(n))
    || (n.SetMulti? && !Serious(n))
  }

  lemma SeriousIs(n: Node)
    requires n.SetValue? || n.SetMulti?
    ensures Serious(n) <==>
              (SetsSerializable(n)
               || (n.SetMulti? && IsSessionWide(n.name)
                   && exists o :: o in n.options && o.defname == "transaction_read_only" && o.arg == Int(0)))
  {
    hide SameName;
    if n.SetValue? {
      if c :| c in n.args && c.Str? && SameName(c.s, "serializable") {
        var i :| 0 <= i < |n.args| && n.args[i] == c;
      }
    } else {
      if o :| o in n.options && IsSerious(o) {
        var i :| 0 <= i < |n.options| && n.options[i] == o;
        assert IsSerious(n.options[i]);
      }
    }
  }

  lemma OffIs(args: seq<Const>)
    ensures (exists c :: c in args && SaysOff(c)) <==> exists i :: 0 <= i < |args| && TurnsOff(args[i])
  {
    hide SameName;
    if c :| c in args && SaysOff(c) {
      var i :| 0 <= i < |args| && args[i] == c;
      assert TurnsOff(args[i]);
    }
    if i :| 0 <= i < |args| && TurnsOff(args[i]) {
      assert args[i] in args && SaysOff(args[i]);
    }
  }

  /** The destination by syntax, for every statement: balanced, everywhere, or the primary. */
  lemma {:induction false} DestinationMeans(node: Node, sl: bool, txByMulti: bool)
    ensures var d := SendToWhere(node, sl, txByMulti);
            var n := Inner(node);
            && (d == Either || d == Standby <==> Reads(n))
            && (d == Both ==> Everywhere(n))
            && (Everywhere(n) && !txByMulti ==> d == Both)
    decreases node
  {
    hide SameName, SetsSerializable, SaysOff, TurnsOff, Serious;
    match node
    case Prepare(_, statement) => DestinationMeans(statement, sl, txByMulti);
    case SetValue(_, args) =>
      SeriousIs(node);
      OffIs(args);
    case SetMulti(_, _) => SeriousIs(node);
    case _ =>
  }

  /** The statements at which dml_adaptive begins and ends its window. */
  lemma ControlKinds(d: Decision)
    ensures Opens(d) <==> !d.q.multi && (d.q.node == TransactionStmt(Begin) || d.q.node == TransactionStmt(Start))
    ensures Control(d) <==>
              !d.q.multi && (d.q.node == TransactionStmt(Begin) || d.q.node == TransactionStmt(Start) || d.q.node == TransactionStmt(Commit)
                  || d.q.node == TransactionStmt(Rollback) || d.q.node == TransactionStmt(RollbackTo))
  {
  }

  lemma {:induction false} ExplainsKinds(node: Node)
    ensures Explains(node) <==> Inner(node).Explain? && Inner(node).analyzed.Some? && Inner(node).analyzed.value.Select?
    decreases node
  {
    match node
    case Prepare(_, statement) => ExplainsKinds(statement);
    case _ =>
  }

  /** The statements whose function calls are looked at. */
  lemma WalkableKinds(node: Node)
    ensures Walkable(node) <==>
              (node.Select? || (node.Prepare? && node.statement.Select?)
               || (Inner(node).Explain? && Inner(node).analyzed.Some? && Inner(node).analyzed.value.Select?))
  {
    ExplainsKinds(node);
  }

  // ----- the modes with a primary

  /**
   * Every circumstance that load balancing asks for: the setting, the protocol, a transaction that has
   * neither written nor failed nor become serializable, nothing remarkable about the tables or functions,
   * no relation written in this transaction, and no lag unless a less delayed node may be chosen.
   */
  ghost predicate Eligible(cfg: Config, m: Memory, q: Query)
  {
    var f := q.facts;
    && Reads(Inner(q.node))
    && cfg.loadBalance && f.isSelect && f.protocol3
    && (f.txState == Idle || (!f.writing && !f.failed && !f.serializable))
    && (cfg.onWrite == Always ==> !f.writing)
    && !f.systemCatalog && !f.tempTable && !f.primaryPattern && !f.functionCall
    && (cfg.checkUnlogged ==> !f.unloggedTable)
    && (cfg.onWrite == DmlAdaptive && m.inTransaction ==>
          forall i, j :: 0 <= i < |q.relations| && 0 <= j < |m.writeList| ==> !SameName(q.relations[i], m.writeList[j]))
    && (cfg.mode == Streaming && f.delayed ==> cfg.preferLowerDelay)
  }

  lemma EligibleIs(cfg: Config, m: Memory, q: Query)
    ensures Eligible(cfg, m, q) <==> MayLeavePrimary(cfg, m, q)
  {
    hide Reads, SendToWhere, SameName, Everywhere;
    DestinationMeans(q.node, cfg.mode.SL(), q.facts.txByMulti);
    ReadsElsewhere(q.node, cfg.mode.SL(), q.facts.txByMulti);
    UnwrittenIs(m, q);
  }

  lemma ReadsElsewhere(node: Node, sl: bool, txByMulti: bool)
    ensures var d := SendToWhere(node, sl, txByMulti); d != PrimaryOnly && d != Both <==> d == Either || d == Standby
  {
  }

  lemma UnwrittenIs(m: Memory, q: Query)
    ensures (exists i :: 0 <= i < |q.relations| && InList(q.relations[i], m.writeList))
       <==> !forall i, j :: 0 <= i < |q.relations| && 0 <= j < |m.writeList| ==> !SameName(q.relations[i], m.writeList[j])
  {
    hide SameName;
    if i :| 0 <= i < |q.relations| && InList(q.relations[i], m.writeList) {
      var j :| 0 <= j < |m.writeList| && SameName(q.relations[i], m.writeList[j]);
    }
  }

  /** The node a balanced statement goes to. */
  function Choice(cfg: Config, lb: int, f: Facts): (node: int)
  {
    if cfg.mode == Streaming && f.delayed then f.repick
    else if cfg.statementLevel then f.pick
    else lb
  }

  /** What "every node" comes to: in streaming and logical mode only the nodes the session can use. */
  lemma AllNodesMeans(w: World, lb: int)
    requires w.Steady()
    ensures AllNodes(w.cfg, w.cl, lb)
         == if w.cfg.mode != Streaming && w.cfg.mode != Logical then w.cl.up
            else if !w.cfg.loadBalance then {w.cl.realPrimary}
            else if w.cfg.statementLevel then w.cl.up
            else {w.cl.realPrimary} + ({lb} * w.cl.up)
  {
  }

  /** Where a single statement, or several in one query, go in the modes with a primary. */
  ghost function Reaches(w: World, lb: int, m: Memory, q: Query): (r: set<int>)
    requires w.cl.Valid()
  {
    if q.multi then {w.cl.realPrimary}
    else if Everywhere(Inner(q.node)) && !q.facts.txByMulti then AllNodes(w.cfg, w.cl, lb)
    else if Eligible(w.cfg, m, q) then {Choice(w.cfg, lb, q.facts)}
    else {w.cl.realPrimary}
  }

  lemma PlanReaches(w: World, m: Memory, lb: int, q: Query)
    requires w.Steady() && w.cfg.mode.MainReplica()
    ensures BasePlan(w.cfg, w.cl, m, lb, q).where == Reaches(w, m.lb, Considered(w.cfg, m, q), q)
  {
    hide SendToWhere, Reads, Everywhere, Eligible, MayLeavePrimary, MayBalance, Considered, AllNodes;
    DestinationMeans(q.node, w.cfg.mode.SL(), q.facts.txByMulti);
    EligibleIs(w.cfg, Considered(w.cfg, m, q), q);
    if Everywhere(Inner(q.node)) {
      EverywhereElse(w.cfg, Considered(w.cfg, m, q), q);
    }
  }

  lemma EverywhereElse(cfg: Config, m: Memory, q: Query)
    requires Everywhere(Inner(q.node))
    ensures !Eligible(cfg, m, q)
  {
  }

  /** The nodes besides those of the plan: for EXECUTE and DEALLOCATE of an unknown name, and DEALLOCATE ALL. */
  function Besides(w: World, lb: int, node: Node): (r: set<int>)
    requires w.cl.Valid()
  {
    if node.Execute? || (node.Deallocate? && node.target.Some?) then
      (if w.cfg.mode == Streaming || w.cfg.mode == Logical then {w.cl.Primary()} else w.cl.up)
    else if node.Deallocate? then AllNodes(w.cfg, w.cl, lb)
    else {}
  }

  lemma OwnReaches(w: World, m: Memory, lb: int, q: Query)
    requires w.cl.Valid()
    ensures var p := BasePlan(w.cfg, w.cl, m, lb, q);
            FinalPlan(w.cfg, w.cl, m, lb, q, None).where == p.where + Besides(w, p.memory.lb, q.node)
  {
    hide BasePlan, AllNodes;
    AllNodesUp(w.cfg, w.cl, BasePlan(w.cfg, w.cl, m, lb, q).memory.lb);
  }

  /** A decision that inherits nothing. */
  lemma OwnDecision(w: World, log: seq<Decision>, k: nat)
    requires w.cl.Valid() && k < |log| && Entry(w, log, k) && log[k].source.None?
    ensures var d := log[k];
            d.plan.where == BasePlan(w.cfg, w.cl, Arrived(w.cfg, d.before, d.q), d.start, d.q).where
                            + Besides(w, d.plan.memory.lb, d.q.node) + Extra(w, d)
  {
    hide Sound, BasePlan, FinalPlan, VirtualMain, Arrived, Besides, Extra, OwnPlan;
    var d := log[k];
    OwnWhere(w, d);
    OwnReaches(w, Arrived(w.cfg, d.before, d.q), d.start, d.q);
  }

  /**
   * In the modes with a primary, in every session: where a statement goes that does not inherit a plan, by
   * its kind and its circumstances.
   */
  lemma DecisionReaches(w: World, lb: int, ops: seq<Op>, st: Machine, k: nat)
    requires w.Steady() && 0 <= lb < w.cl.n && Run(w, lb, ops) == Some(st)
    requires (w.cfg.mode == Streaming || w.cfg.mode == Logical || w.cfg.mode == Slony) && k < |st.log| && st.log[k].source.None?
    ensures var d := st.log[k];
            d.plan.where == Reaches(w, d.before.lb, Met(w, d), d.q) + Besides(w, d.plan.memory.lb, d.q.node) + Extra(w, d)
  {
    hide Run, Entry, BasePlan, Considered, Arrived, Reaches, Besides, Extra;
    var d := st.log[k];
    assert Entry(w, st.log, k);
    OwnDecision(w, st.log, k);
    var met := Arrived(w.cfg, d.before, d.q);
    ConsideredKeepsNode(w.cfg, d.before, d.q);
    PlanReaches(w, met, d.start, d.q);
  }

  /**
   * A decision that leaves the primary out goes back to a statement that only reads, alone in its query,
   * in circumstances that allow it; and it goes to the one node chosen then.
   */
  lemma OffPrimaryMeans(w: World, lb: int, ops: seq<Op>, st: Machine, k: nat)
    requires w.Steady() && 0 <= lb < w.cl.n && Run(w, lb, ops) == Some(st)
    requires (w.cfg.mode == Streaming || w.cfg.mode == Logical || w.cfg.mode == Slony) && k < |st.log| && w.cl.realPrimary !in st.log[k].plan.where
    ensures var d := st.log[Root(w, st.log, k)];
            && !d.q.multi && Eligible(w.cfg, Met(w, d), d.q)
            && st.log[k].plan.where == {Choice(w.cfg, d.before.lb, d.q.facts)}
  {
    hide Run, Sound, BasePlan, FinalPlan, MayLeavePrimary, Considered, Root, VirtualMain, Arrived, Eligible, Everywhere, AllNodes;
    var d := st.log[Root(w, st.log, k)];
    OffPrimaryJustified(w, lb, ops, st, k);
    RootPlan(w, st.log, k);
    EligibleIs(w.cfg, Met(w, d), d.q);
    DecisionReaches(w, lb, ops, st, Root(w, st.log, k));
    PrimaryInAll(w, d.before.lb);
    PrimaryInAll(w, d.plan.memory.lb);
  }

  // ----- the modes that replicate statements

  /** Where a statement goes in native replication and snapshot isolation. */
  function Replicated(w: World, lb: int, q: Query): (r: set<int>)
  {
    var f := q.facts;
    var mayWrite := !f.isSelect || f.functionCall || w.cfg.replicateSelect;
    var calm := f.txState == Idle || (!f.writing && !f.failed && !f.serializable);
    var snapshot := w.cfg.mode == SnapshotIsolation
                    && ((f.txState == InBlock && f.readOnlyTx) || (f.txState == Idle && f.readOnlyDefault));
    if q.multi then w.cl.up
    else if w.cfg.loadBalance && f.isSelect && f.protocol3 && (snapshot || (!mayWrite && calm)) then
      {if w.cfg.statementLevel then f.pick else lb}
    else if mayWrite then w.cl.up
    else {w.cl.realMain}
  }

  lemma PlanReplicated(w: World, m: Memory, lb: int, q: Query)
    requires w.cl.Valid() && w.cfg.mode.Replication()
    ensures BasePlan(w.cfg, w.cl, m, lb, q).where == Replicated(w, m.lb, q)
  {
  }

  /** The same over sessions in the modes that replicate statements, and in raw mode, where all goes to the main node. */
  lemma DecisionReplicates(w: World, lb: int, ops: seq<Op>, st: Machine, k: nat)
    requires w.Steady() && 0 <= lb < w.cl.n && Run(w, lb, ops) == Some(st)
    requires (w.cfg.mode == Raw || w.cfg.mode == NativeReplication || w.cfg.mode == SnapshotIsolation) && k < |st.log| && st.log[k].source.None?
    ensures var d := st.log[k];
            d.plan.where == (if w.cfg.mode == Raw then {w.cl.realMain} else Replicated(w, d.before.lb, d.q))
                            + Besides(w, d.plan.memory.lb, d.q.node) + Extra(w, d)
  {
    hide Run, Entry, Considered, Arrived, Besides, Extra, PlanReplication, Replicated;
    var d := st.log[k];
    assert Entry(w, st.log, k);
    OwnDecision(w, st.log, k);
    ConsideredKeepsNode(w.cfg, d.before, d.q);
    if w.cfg.mode != Raw {
      PlanReplicated(w, Arrived(w.cfg, d.before, d.q), d.start, d.q);
    }
  }
}
