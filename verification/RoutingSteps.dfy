/**
 * The routing code as the program runs it: a boolean map filled in place, nested tests, and a
 * session whose fields are overwritten, each proved to take the decision that Routing describes.
 */
module RoutingSteps {
  import opened Bytes
  import opened Routing

  /** The per-statement record, with its map of backends. */
  class QueryContext {
    const where: array<bool>
    var lb: int
    var virtualMain: int

    ghost predicate Valid()
    {
      where.Length == MAX_BACKENDS
    }

    ghost function Targets(): (r: set<int>)
      requires Valid()
      reads where
    {
      set i | 0 <= i < MAX_BACKENDS && where[i]
    }

    constructor (myMain: int)
      ensures Valid() && fresh(where) && Targets() == {} && lb == myMain && virtualMain == myMain
    {
      where := new bool[MAX_BACKENDS](i => false);
      lb, virtualMain := myMain, myMain;
    }

    method SetNode(node: int) returns (ok: bool)
      requires Valid()
      modifies where
      ensures ok <==> 0 <= node < MAX_BACKENDS
      ensures Targets() == if ok then old(Targets()) + {node} else old(Targets())
    {
      if node < 0 || node >= MAX_BACKENDS {
        return false;
      }
      where[node] := true;
      return true;
    }

    method Clear()
      requires Valid()
      modifies where
      ensures Targets() == {}
    {
      forall i | 0 <= i < MAX_BACKENDS {
        where[i] := false;
      }
    }

    /** Takes over the map of a stored statement. */
    method CopyFrom(stored: Stored)
      requires Valid()
      modifies this`lb, where
      ensures Targets() == set i | i in stored.where && 0 <= i < MAX_BACKENDS
      ensures lb == stored.lb
    {
      forall i | 0 <= i < MAX_BACKENDS {
        where[i] := i in stored.where;
      }
      lb := stored.lb;
    }

    method SetVirtualMain(n: nat)
      requires Valid() && n <= MAX_BACKENDS
      modifies this`virtualMain
      ensures virtualMain == FirstTarget(Targets(), 0, n, old(virtualMain))
    {
      ghost var targets := Targets();
      var i := 0;
      while i < n
        invariant 0 <= i <= n
        invariant FirstTarget(targets, 0, n, virtualMain) == FirstTarget(targets, i, n, virtualMain)
        invariant virtualMain == old(virtualMain)
      {
        if where[i] {
          assert i in targets;
          virtualMain := i;
          return;
        }
        i := i + 1;
      }
    }
  }

  class Session {
    var lb: int
    var inTransaction: bool
    var writeList: seq<string>

    function View(): (m: Memory)
      reads this
    {
      Memory(lb, inTransaction, writeList)
    }

    constructor (m: Memory)
      ensures View() == m
    {
      lb, inTransaction, writeList := m.lb, m.inTransaction, m.writeList;
    }

    method IsInList(name: string) returns (found: bool)
      ensures found <==> InList(name, writeList)
    {
      for i := 0 to |writeList|
        invariant forall j :: 0 <= j < i ==> !SameName(name, writeList[j])
      {
        if SameName(name, writeList[i]) {
          return true;
        }
      }
      return false;
    }

    /** Looks for the associate of a relation or function and notes it, inside a transaction only. */
    method NoteAssociated(cfg: Config, name: string, isFunction: bool)
      requires cfg.onWrite.DmlAdaptive?
      modifies this`writeList
      ensures writeList == WithAssociate(cfg, inTransaction, old(writeList), name, isFunction)
    {
      if inTransaction {
        var i := 0;
        assert cfg.related[0..] == cfg.related;
        while i < |cfg.related|
          invariant 0 <= i <= |cfg.related|
          invariant Associated(cfg.related, name, isFunction) == Associated(cfg.related[i..], name, isFunction)
          invariant writeList == old(writeList)
        {
          var pair := cfg.related[i];
          if pair.leftIsFunction == isFunction && SameName(pair.left, name) {
            writeList := writeList + [pair.right];
            return;
          }
          i := i + 1;
        }
      }
    }

    /** The walk over the function calls of a SELECT. */
    method WalkFunctions(cfg: Config, q: Query)
      modifies this`writeList
      ensures View() == Walked(cfg, old(View()), q)
    {
      if !cfg.onWrite.DmlAdaptive? || !Walkable(q.node) {
        return;
      }
      assert q.functions[0..] == q.functions;
      for k := 0 to |q.functions|
        invariant CallsNoted(cfg, inTransaction, old(writeList), q.functions)
               == CallsNoted(cfg, inTransaction, writeList, q.functions[k..])
      {
        NoteAssociated(cfg, q.functions[k], true);
      }
    }

    /** What happens to a query before it is routed. */
    method Arrive(cfg: Config, q: Query)
      modifies this`writeList
      ensures View() == Arrived(cfg, old(View()), q)
    {
      if q.arrival.Simple? && q.node.Select? {
        WalkFunctions(cfg, q);
      }
    }

    /** The walk over the relations of a statement that is not a SELECT. */
    method NoteWritten(cfg: Config, names: seq<string>)
      requires cfg.onWrite.DmlAdaptive?
      modifies this`writeList
      ensures writeList == NotedAll(cfg, inTransaction, old(writeList), names)
    {
      assert names[0..] == names;
      for k := 0 to |names|
        invariant NotedAll(cfg, inTransaction, old(writeList), names) == NotedAll(cfg, inTransaction, writeList, names[k..])
      {
        ghost var before := writeList;
        var known := IsInList(names[k]);
        if !known {
          writeList := writeList + [names[k]];
        }
        NoteAssociated(cfg, names[k], false);
        assert writeList == Noted(cfg, inTransaction, before, names[k]);
      }
    }

    method DmlAdaptive(cfg: Config, q: Query)
      modifies this
      ensures View() == Remember(cfg, old(View()), q)
    {
      if cfg.onWrite.DmlAdaptive? {
        if q.node.TransactionStmt? {
          if IsStart(q.node) {
            inTransaction := true;
            writeList := [];
          } else if IsCommitOrRollback(q.node) {
            inTransaction := false;
            writeList := [];
          }
          return;
        }
        if Explains(q.node) {
          WalkFunctions(cfg, q);
        }
        if !q.facts.isSelect {
          NoteWritten(cfg, q.relations);
        }
      }
    }

    /** The walk over the relations of a SELECT. */
    method ReadsWrittenRelation(cfg: Config, q: Query) returns (hit: bool)
      ensures hit <==> ReadsWritten(cfg, View(), q)
    {
      if !cfg.onWrite.DmlAdaptive? || !inTransaction {
        return false;
      }
      for k := 0 to |q.relations|
        invariant forall j :: 0 <= j < k ==> !InList(q.relations[j], writeList)
      {
        var found := IsInList(q.relations[k]);
        if found {
          return true;
        }
      }
      return false;
    }
  }

  /** Marks every backend that is up, with the streaming-mode exceptions. */
  method SetAllNodes(cfg: Config, cl: Cluster, s: Session, qc: QueryContext)
    requires cl.Valid() && qc.Valid()
    modifies qc.where
    ensures qc.Targets() == old(qc.Targets()) + AllNodes(cfg, cl, s.lb)
  {
    ghost var before := qc.Targets();
    var i := 0;
    while i < cl.n
      invariant 0 <= i <= cl.n
      invariant qc.Targets() == before + (set j | j in AllNodes(cfg, cl, s.lb) && j < i)
    {
      ghost var mid := qc.Targets();
      if i in cl.up {
        if cfg.mode.SL() {
          if !cfg.loadBalance {
            if i == cl.Primary() || (cl.Primary() < 0 && cl.myMain == i) {
              qc.where[i] := true;
              assert qc.Targets() == mid + {i};
              break;
            }
            i := i + 1;
            continue;
          } else if !cfg.statementLevel && i != cl.Primary() && i != s.lb {
            i := i + 1;
            continue;
          }
        }
        qc.where[i] := true;
        assert qc.Targets() == mid + {i};
      }
      i := i + 1;
    }
  }

  /** Streaming, logical and slony mode. */
  method WhereToSendMainReplica(cfg: Config, cl: Cluster, s: Session, qc: QueryContext, q: Query) returns (ok: bool)
    requires cl.Valid() && qc.Valid() && qc.Targets() == {}
    modifies s, qc`lb, qc.where
    ensures var p := PlanMainReplica(cfg, cl, old(s.View()), old(qc.lb), q);
            ok ==> qc.Targets() == p.where && qc.lb == p.lb && s.View() == p.memory
    ensures ok <==> InRange(PlanMainReplica(cfg, cl, old(s.View()), old(qc.lb), q).where)
  {
    hide SendToWhere, Remember, Walked, ReadsWritten, Unremarkable;
    ok := true;
    var f := q.facts;
    var dest := SendToWhere(q.node, cfg.mode.SL(), f.txByMulti);
    s.DmlAdaptive(cfg, q);
    RememberKeepsNode(cfg, old(s.View()), q);
    if dest == PrimaryOnly {
      ok := qc.SetNode(cl.Primary());
    } else if dest == Both {
      if f.txByMulti {
        ok := qc.SetNode(cl.Primary());
      } else {
        SetAllNodes(cfg, cl, s, qc);
      }
    } else if f.writing && cfg.onWrite == Always {
      ok := qc.SetNode(cl.Primary());
    } else if cfg.loadBalance && f.isSelect && f.protocol3 {
      if f.txState.Idle? || (!f.writing && !f.failed && !f.serializable) {
        ok := AskTables(cfg, cl, s, qc, q);
      } else {
        ok := qc.SetNode(cl.Primary());
      }
    } else {
      ok := qc.SetNode(cl.Primary());
    }
  }

  /** The guards about the tables of the SELECT. */
  method AskTables(cfg: Config, cl: Cluster, s: Session, qc: QueryContext, q: Query) returns (ok: bool)
    requires cl.Valid() && qc.Valid() && qc.Targets() == {}
    modifies s, qc`lb, qc.where
    ensures var asked := Unremarkable(cfg, q.facts);
            var m := if asked then Walked(cfg, old(s.View()), q) else old(s.View());
            var open := asked && !q.facts.functionCall && !ReadsWritten(cfg, m, q);
            var held := cfg.mode.Streaming? && q.facts.delayed && !cfg.preferLowerDelay;
            var node := if !open || held then cl.Primary() else Balanced(cfg, old(s.View()), q.facts);
            && (ok <==> 0 <= node < MAX_BACKENDS)
            && (ok ==> qc.Targets() == {node})
            && qc.lb == (if !open || held then old(qc.lb) else node)
            && s.View() == m.(lb := if !open then m.lb else if !held then node
                                    else if cfg.statementLevel then q.facts.pick else m.lb)
  {
    hide ReadsWritten, Walked, Balanced;
    var f := q.facts;
    if f.systemCatalog {
      ok := qc.SetNode(cl.Primary());
    } else if f.tempTable {
      ok := qc.SetNode(cl.Primary());
    } else if cfg.checkUnlogged && f.unloggedTable {
      ok := qc.SetNode(cl.Primary());
    } else if f.primaryPattern {
      ok := qc.SetNode(cl.Primary());
    } else {
      ok := AskFunctions(cfg, cl, s, qc, q);
    }
  }

  /** The last guards: the functions the SELECT calls, which the walk may note, and then the write list. */
  method AskFunctions(cfg: Config, cl: Cluster, s: Session, qc: QueryContext, q: Query) returns (ok: bool)
    requires cl.Valid() && qc.Valid() && qc.Targets() == {}
    modifies s, qc`lb, qc.where
    ensures var m := Walked(cfg, old(s.View()), q);
            var open := !q.facts.functionCall && !ReadsWritten(cfg, m, q);
            var held := cfg.mode.Streaming? && q.facts.delayed && !cfg.preferLowerDelay;
            var node := if !open || held then cl.Primary() else Balanced(cfg, old(s.View()), q.facts);
            && (ok <==> 0 <= node < MAX_BACKENDS)
            && (ok ==> qc.Targets() == {node})
            && qc.lb == (if !open || held then old(qc.lb) else node)
            && s.View() == m.(lb := if !open then m.lb else if !held then node
                                    else if cfg.statementLevel then q.facts.pick else m.lb)
  {
    hide ReadsWritten, Walked;
    WalkKeepsNode(cfg, s.View(), q);
    s.WalkFunctions(cfg, q);
    var written := s.ReadsWrittenRelation(cfg, q);
    if q.facts.functionCall {
      ok := qc.SetNode(cl.Primary());
    } else if written {
      ok := qc.SetNode(cl.Primary());
    } else {
      ok := Balance(cfg, cl, s, qc, q);
    }
  }

  /** The load-balancing branch: pick a node, and pick again or give up if it lags. */
  method Balance(cfg: Config, cl: Cluster, s: Session, qc: QueryContext, q: Query) returns (ok: bool)
    requires cl.Valid() && qc.Valid() && qc.Targets() == {}
    modifies s`lb, qc`lb, qc.where
    ensures var held := cfg.mode.Streaming? && q.facts.delayed && !cfg.preferLowerDelay;
            var node := if held then cl.Primary() else Balanced(cfg, old(s.View()), q.facts);
            && (ok <==> 0 <= node < MAX_BACKENDS)
            && (ok ==> qc.Targets() == {node})
            && qc.lb == (if held then old(qc.lb) else node)
            && s.lb == (if !held then node else if cfg.statementLevel then q.facts.pick else old(s.lb))
  {
    if cfg.statementLevel {
      s.lb := q.facts.pick;
    }
    if cfg.mode.Streaming? && q.facts.delayed {
      if cfg.preferLowerDelay {
        s.lb := q.facts.repick;
        qc.lb := s.lb;
        ok := qc.SetNode(qc.lb);
      } else {
        ok := qc.SetNode(cl.Primary());
      }
    } else {
      qc.lb := s.lb;
      ok := qc.SetNode(qc.lb);
    }
  }

  /** Native replication and snapshot isolation mode. */
  method WhereToSendReplication(cfg: Config, cl: Cluster, s: Session, qc: QueryContext, q: Query) returns (ok: bool)
    requires cl.Valid() && qc.Valid() && qc.Targets() == {}
    modifies s`lb, qc`lb, qc.where
    ensures var p := PlanReplication(cfg, cl, old(s.View()), old(qc.lb), q);
            ok ==> qc.Targets() == p.where && qc.lb == p.lb && s.View() == p.memory
    ensures ok <==> InRange(PlanReplication(cfg, cl, old(s.View()), old(qc.lb), q).where)
  {
    ok := true;
    var f := q.facts;
    if cfg.loadBalance && f.isSelect && f.protocol3 {
      if cfg.mode.SnapshotIsolation? {
        if f.txState.InBlock? {
          if f.readOnlyTx {
            ok := SetLoadBalanceInfo(cfg, s, qc, f);
            return;
          }
        } else if f.txState.Idle? {
          if f.readOnlyDefault {
            ok := SetLoadBalanceInfo(cfg, s, qc, f);
            return;
          }
        }
      }
      if f.functionCall || cfg.replicateSelect {
        SetAllNodes(cfg, cl, s, qc);
      } else if f.txState.Idle? || (!f.writing && !f.failed && !f.serializable) {
        ok := SetLoadBalanceInfo(cfg, s, qc, f);
      } else {
        ok := qc.SetNode(cl.realMain);
      }
    } else if f.isSelect && !cfg.replicateSelect && !f.functionCall {
      ok := qc.SetNode(cl.realMain);
    } else {
      SetAllNodes(cfg, cl, s, qc);
    }
  }

  method SetLoadBalanceInfo(cfg: Config, s: Session, qc: QueryContext, f: Facts) returns (ok: bool)
    requires qc.Valid() && qc.Targets() == {}
    modifies s`lb, qc`lb, qc.where
    ensures var node := if cfg.statementLevel then f.pick else old(s.lb);
            && s.lb == node && qc.lb == node
            && (ok <==> 0 <= node < MAX_BACKENDS)
            && (ok ==> qc.Targets() == {node})
  {
    if cfg.statementLevel {
      s.lb := f.pick;
    }
    qc.lb := s.lb;
    ok := qc.SetNode(qc.lb);
  }

  predicate InRange(where: set<int>)
  {
    forall i :: i in where ==> 0 <= i < MAX_BACKENDS
  }

  /** EXECUTE and DEALLOCATE. */
  method WhereToSendDeallocate(cfg: Config, cl: Cluster, s: Session, qc: QueryContext, node: Node, stored: Option<Stored>)
    returns (ok: bool)
    requires cl.Valid() && qc.Valid() && UsesPrepared(node)
    requires stored.Some? ==> InRange(stored.value.where)
    modifies qc`lb, qc.where
    ensures var p := Inherit(cfg, cl, Plan(old(qc.Targets()), old(qc.lb), s.View()), node, stored);
            && (ok <==> InRange(p.where))
            && (ok ==> qc.Targets() == p.where && qc.lb == p.lb)
  {
    ok := true;
    ghost var before := qc.Targets();
    if node.Deallocate? && node.target.None? {
      SetAllNodes(cfg, cl, s, qc);
    } else if stored.Some? {
      qc.CopyFrom(stored.value);
    } else if cfg.mode.SL() {
      ok := qc.SetNode(cl.Primary());
      assert !ok ==> cl.Primary() in before + {cl.Primary()};
    } else {
      SetAllNodes(cfg, cl, s, qc);
    }
  }

  /** The whole decision, for a context that has just been started or that is routed again. */
  method WhereToSend(cfg: Config, cl: Cluster, s: Session, qc: QueryContext, q: Query, stored: Option<Stored>)
    returns (ok: bool)
    requires cl.Valid() && qc.Valid()
    requires stored.Some? ==> InRange(stored.value.where)
    modifies s, qc, qc.where
    ensures var p := FinalPlan(cfg, cl, old(s.View()), old(qc.lb), q, stored);
            && (ok ==> qc.Targets() == p.where && qc.lb == p.lb && s.View() == p.memory)
            && (ok ==> qc.virtualMain == FirstTarget(p.where, 0, cl.n, old(qc.virtualMain)))
    ensures ok <==> InRange(BasePlan(cfg, cl, old(s.View()), old(qc.lb), q).where)
                    && InRange(FinalPlan(cfg, cl, old(s.View()), old(qc.lb), q, stored).where)
  {
    hide PlanMainReplica, PlanReplication, AllNodes, FirstTarget;
    ok := true;
    AllNodesUp(cfg, cl, s.lb);
    qc.Clear();
    if cfg.mode.Raw? {
      ok := qc.SetNode(cl.realMain);
    } else if cfg.mode.MainReplica() {
      if q.multi {
        ok := qc.SetNode(cl.Primary());
      } else {
        ok := WhereToSendMainReplica(cfg, cl, s, qc, q);
      }
    } else {
      if q.multi {
        SetAllNodes(cfg, cl, s, qc);
        assert {} + AllNodes(cfg, cl, s.lb) == AllNodes(cfg, cl, s.lb);
      } else {
        ok := WhereToSendReplication(cfg, cl, s, qc, q);
      }
    }
    ghost var base := BasePlan(cfg, cl, old(s.View()), old(qc.lb), q);
    assert ok ==> qc.Targets() == base.where && qc.lb == base.lb && s.View() == base.memory;
    if ok && UsesPrepared(q.node) {
      ok := WhereToSendDeallocate(cfg, cl, s, qc, q.node, stored);
    }
    if ok {
      qc.SetVirtualMain(cl.n);
    }
  }
}
