/**
 * dml_adaptive: what the write list of a transaction holds, and which SELECTs it keeps on the
 * primary. Everything is about the decisions of a session and the walks between them.
 */
module ReadYourWrites {
  import opened Bytes
  import opened Routing
  import opened SessionStore
  import opened SessionRuns
  import opened SessionOrder
  import opened SessionTheorems

  /** A single statement that opens or ends the window in which writes are noted. */
  predicate Control(d: Decision)
  {
    !d.q.multi && (IsStart(d.q.node) || IsCommitOrRollback(d.q.node))
  }

  predicate Opens(d: Decision)
  {
    !d.q.multi && IsStart(d.q.node)
  }

  /** The relation x is the one the configuration associates with the relation or function. */
  predicate Implies(cfg: Config, name: string, isFunction: bool, x: string)
  {
    var other := Associated(cfg.related, name, isFunction);
    other.Some? && SameName(x, other.value)
  }

  /** A write of relation r counts as one of x: they are the same, or associated. */
  predicate Touches(cfg: Config, r: string, x: string)
  {
    SameName(x, r) || Implies(cfg, r, false, x)
  }

  /** A call in the statement counts as a write of x. */
  ghost predicate CallsTouch(cfg: Config, q: Query, x: string)
  {
    Walkable(q.node) && exists i :: 0 <= i < |q.functions| && Implies(cfg, q.functions[i], true, x)
  }

  /** The statement is not a SELECT and names a relation that touches x. */
  ghost predicate ChangeTouches(cfg: Config, q: Query, x: string)
  {
    && !q.node.TransactionStmt? && !q.facts.isSelect
    && exists i :: 0 <= i < |q.relations| && Touches(cfg, q.relations[i], x)
  }

  /** Being routed, the statement has its functions looked at. */
  predicate Asks(cfg: Config, q: Query)
  {
    (q.arrival.Simple? && q.node.Select?) || (!q.multi && (Explains(q.node) || MayAskFunctions(cfg, q)))
  }

  /** A statement that counts as a write of x: by the relations it changes, or by the functions it calls. */
  ghost predicate Writes(cfg: Config, q: Query, x: string)
  {
    (!q.multi && ChangeTouches(cfg, q, x)) || (Asks(cfg, q) && CallsTouch(cfg, q, x))
  }

  // ----- the write list

  lemma SameNameInList(x: string, y: string, list: seq<string>)
    requires SameName(x, y)
    ensures InList(x, list) <==> InList(y, list)
  {
  }

  lemma InListAppend(x: string, list: seq<string>, name: string)
    ensures InList(x, list + [name]) <==> InList(x, list) || SameName(x, name)
  {
    hide SameName;
    var l := list + [name];
    if InList(x, list) {
      var i :| 0 <= i < |list| && SameName(x, list[i]);
      assert l[i] == list[i];
    }
    assert l[|list|] == name;
  }

  lemma AssociateMeans(cfg: Config, list: seq<string>, name: string, isFunction: bool, x: string)
    ensures InList(x, WithAssociate(cfg, true, list, name, isFunction))
       <==> InList(x, list) || Implies(cfg, name, isFunction, x)
  {
    hide InList, SameName;
    if Associated(cfg.related, name, isFunction).Some? {
      InListAppend(x, list, Associated(cfg.related, name, isFunction).value);
    }
  }

  lemma NotedMeans(cfg: Config, list: seq<string>, name: string, x: string)
    ensures InList(x, Noted(cfg, true, list, name)) <==> InList(x, list) || Touches(cfg, name, x)
  {
    hide InList, SameName, WithAssociate, Implies;
    InListAppend(x, list, name);
    var added := if InList(name, list) then list else list + [name];
    if InList(name, list) && SameName(x, name) {
      SameNameInList(x, name, list);
    }
    AssociateMeans(cfg, added, name, false, x);
  }

  lemma {:induction false} NotedAllMeans(cfg: Config, list: seq<string>, names: seq<string>, x: string)
    ensures InList(x, NotedAll(cfg, true, list, names))
       <==> InList(x, list) || exists i :: 0 <= i < |names| && Touches(cfg, names[i], x)
    decreases |names|
  {
    hide InList, Touches, Noted;
    if names == [] {
    } else {
      NotedMeans(cfg, list, names[0], x);
      NotedAllMeans(cfg, Noted(cfg, true, list, names[0]), names[1..], x);
      assert forall i :: 0 <= i < |names| - 1 ==> names[1..][i] == names[i + 1];
      if exists i :: 0 <= i < |names| && Touches(cfg, names[i], x) {
        var i :| 0 <= i < |names| && Touches(cfg, names[i], x);
        if i > 0 { assert names[1..][i - 1] == names[i]; }
      }
    }
  }

  lemma {:induction false} CallsNotedMeans(cfg: Config, list: seq<string>, names: seq<string>, x: string)
    ensures InList(x, CallsNoted(cfg, true, list, names))
       <==> InList(x, list) || exists i :: 0 <= i < |names| && Implies(cfg, names[i], true, x)
    decreases |names|
  {
    hide InList, Implies, WithAssociate;
    if names == [] {
    } else {
      AssociateMeans(cfg, list, names[0], true, x);
      CallsNotedMeans(cfg, WithAssociate(cfg, true, list, names[0], true), names[1..], x);
      assert forall i :: 0 <= i < |names| - 1 ==> names[1..][i] == names[i + 1];
      if exists i :: 0 <= i < |names| && Implies(cfg, names[i], true, x) {
        var i :| 0 <= i < |names| && Implies(cfg, names[i], true, x);
        if i > 0 { assert names[1..][i - 1] == names[i]; }
      }
    }
  }

  lemma WalkedMeans(cfg: Config, m: Memory, q: Query, x: string)
    requires cfg.onWrite.DmlAdaptive? && m.inTransaction
    ensures InList(x, Walked(cfg, m, q).writeList) <==> InList(x, m.writeList) || CallsTouch(cfg, q, x)
  {
    hide InList, Implies, CallsNoted;
    CallsNotedMeans(cfg, m.writeList, q.functions, x);
  }

  lemma RememberMeans(cfg: Config, m: Memory, q: Query, x: string)
    requires cfg.onWrite.DmlAdaptive? && m.inTransaction && !IsStart(q.node) && !IsCommitOrRollback(q.node)
    ensures InList(x, Remember(cfg, m, q).writeList)
       <==> InList(x, m.writeList) || ChangeTouches(cfg, q, x) || (Explains(q.node) && CallsTouch(cfg, q, x))
    ensures Remember(cfg, m, q).inTransaction
  {
    hide InList, Touches, NotedAll, Walked, CallsTouch, Explains;
    ExplainsIs(q.node);
    var e := if Explains(q.node) then Walked(cfg, m, q) else m;
    WalkedMeans(cfg, m, q, x);
    WalkKeepsNode(cfg, m, q);
    NotedAllMeans(cfg, e.writeList, q.relations, x);
  }

  lemma ExplainsIs(node: Node)
    ensures Explains(node) ==> !node.TransactionStmt?
  {
  }

  lemma ConsideredMeans(cfg: Config, m: Memory, q: Query, x: string)
    requires cfg.onWrite.DmlAdaptive? && m.inTransaction && !IsStart(q.node) && !IsCommitOrRollback(q.node)
    ensures InList(x, Considered(cfg, m, q).writeList)
       <==> InList(x, m.writeList) || ChangeTouches(cfg, q, x)
            || ((Explains(q.node) || MayAskFunctions(cfg, q)) && CallsTouch(cfg, q, x))
    ensures Considered(cfg, m, q).inTransaction
  {
    hide InList, Remember, Walked, CallsTouch, ChangeTouches, Explains, MayAskFunctions;
    RememberMeans(cfg, m, q, x);
    var m' := Remember(cfg, m, q);
    WalkedMeans(cfg, m', q, x);
    WalkKeepsNode(cfg, m', q);
  }

  lemma ArrivedMeans(cfg: Config, m: Memory, q: Query, x: string)
    requires cfg.onWrite.DmlAdaptive?
    ensures Arrived(cfg, m, q).inTransaction == m.inTransaction
    ensures m.inTransaction ==>
              (InList(x, Arrived(cfg, m, q).writeList)
               <==> InList(x, m.writeList) || (q.arrival.Simple? && q.node.Select? && CallsTouch(cfg, q, x)))
  {
    hide InList, Walked, CallsTouch;
    WalkKeepsNode(cfg, m, q);
    if m.inTransaction {
      WalkedMeans(cfg, m, q, x);
    }
  }

  /** The write list that a single statement's own test meets, and leaves behind. */
  lemma MetMeans(cfg: Config, m: Memory, q: Query, x: string)
    requires cfg.onWrite.DmlAdaptive? && m.inTransaction && !q.multi && !IsStart(q.node) && !IsCommitOrRollback(q.node)
    ensures var e := Considered(cfg, Arrived(cfg, m, q), q);
            e.inTransaction && (InList(x, e.writeList) <==> InList(x, m.writeList) || Writes(cfg, q, x))
  {
    hide InList, Considered, Arrived, CallsTouch, ChangeTouches, Explains, MayAskFunctions;
    ArrivedMeans(cfg, m, q, x);
    ConsideredMeans(cfg, Arrived(cfg, m, q), q, x);
  }

  lemma PlanMemory(w: World, m: Memory, lb: int, q: Query)
    requires w.cl.Valid() && w.cfg.mode.MainReplica()
    ensures var r := BasePlan(w.cfg, w.cl, m, lb, q).memory;
            var e := if q.multi then m else Considered(w.cfg, m, q);
            r.inTransaction == e.inTransaction && r.writeList == e.writeList
  {
    hide Considered, MayBalance, MayLeavePrimary, AllNodes, SendToWhere;
  }

  lemma OutsideConsidered(cfg: Config, m: Memory, q: Query)
    requires cfg.onWrite.DmlAdaptive?
    ensures var e := Considered(cfg, Arrived(cfg, m, q), q);
            && (IsStart(q.node) ==> e.inTransaction && e.writeList == [])
            && (IsCommitOrRollback(q.node) ==> !e.inTransaction && e.writeList == [])
            && (!IsStart(q.node) && !IsCommitOrRollback(q.node) ==> e.inTransaction == m.inTransaction)
  {
    hide CallsNoted, NotedAll, MayAskFunctions;
  }

  /** How one decision moves the transaction flag and the write list. */
  lemma MemoryStep(w: World, log: seq<Decision>, k: nat)
    requires w.cl.Valid() && w.cfg.mode.MainReplica() && w.cfg.onWrite.DmlAdaptive?
    requires k < |log| && Entry(w, log, k)
    ensures var d := log[k];
            var m := d.plan.memory;
            && (Opens(d) ==> m.inTransaction && m.writeList == [])
            && (Control(d) && !Opens(d) ==> !m.inTransaction && m.writeList == [])
            && (!Control(d) ==> m.inTransaction == d.before.inTransaction)
            && (!Control(d) && d.before.inTransaction ==>
                forall x :: InList(x, m.writeList) <==> InList(x, d.before.writeList) || Writes(w.cfg, d.q, x))
  {
    hide Sound, BasePlan, OwnPlan, VirtualMain, Extra, InList, Considered, Arrived, Writes;
    var d := log[k];
    var met := Arrived(w.cfg, d.before, d.q);
    PlanMemory(w, met, d.start, d.q);
    OutsideConsidered(w.cfg, d.before, d.q);
    StartIsNotEnd(d.q.node);
    ArrivedMeans(w.cfg, d.before, d.q, "");
    if !Control(d) && d.before.inTransaction {
      forall x
        ensures InList(x, d.plan.memory.writeList) <==> InList(x, d.before.writeList) || Writes(w.cfg, d.q, x)
      {
        if d.q.multi {
          MultiMeans(w.cfg, d.before, d.q, x);
        } else {
          MetMeans(w.cfg, d.before, d.q, x);
        }
      }
    }
  }

  lemma StartIsNotEnd(node: Node)
    ensures !(IsStart(node) && IsCommitOrRollback(node))
  {
  }

  lemma MultiMeans(cfg: Config, m: Memory, q: Query, x: string)
    requires cfg.onWrite.DmlAdaptive? && m.inTransaction && q.multi
    ensures InList(x, Arrived(cfg, m, q).writeList) <==> InList(x, m.writeList) || Writes(cfg, q, x)
  {
    hide InList, Arrived, CallsTouch;
    ArrivedMeans(cfg, m, q, x);
  }

  // ----- windows

  /** Decision i opened the window that decision k is in. */
  ghost predicate InWindow(log: seq<Decision>, i: nat, k: nat)
  {
    && i < k <= |log| && Opens(log[i])
    && forall j :: i < j < k ==> !Control(log[j])
  }

  /** After decision i and before decision k a decision, or a walk between them, counted as a write of x. */
  ghost predicate WrittenBetween(cfg: Config, log: seq<Decision>, walks: seq<Walk>, i: nat, k: nat, x: string)
    requires k <= |log|
  {
    || (exists j :: i < j < k && Writes(cfg, log[j].q, x))
    || (exists v :: 0 <= v < |walks| && i < walks[v].at <= k && CallsTouch(cfg, walks[v].q, x))
  }

  /**
   * The memory before decision k is exact: its flag is set when some window is open, and then its
   * list holds the relations that the writes of the window touch, and no others.
   */
  ghost predicate Exact(cfg: Config, log: seq<Decision>, walks: seq<Walk>, k: nat, m: Memory)
    requires k <= |log|
  {
    && (m.inTransaction <==> exists i: nat :: InWindow(log, i, k))
    && forall i: nat, x :: InWindow(log, i, k) ==>
         (InList(x, m.writeList) <==> WrittenBetween(cfg, log, walks, i, k, x))
  }

  ghost predicate History(cfg: Config, st: Machine)
  {
    && (forall k :: 0 <= k < |st.log| ==> Exact(cfg, st.log, st.walks, k, st.log[k].before))
    && Exact(cfg, st.log, st.walks, |st.log|, st.memory)
    && forall v :: 0 <= v < |st.walks| ==> st.walks[v].at <= |st.log|
  }

  lemma NoWindow(log: seq<Decision>)
    ensures forall i: nat :: !InWindow(log, i, 0)
  {
  }

  lemma StartHistory(cfg: Config, lb: int)
    ensures History(cfg, NewSession(lb))
  {
    NoWindow([]);
  }

  /** A later decision does not change what earlier ones met. */
  lemma ExactExtends(cfg: Config, log: seq<Decision>, walks: seq<Walk>, d: Decision, k: nat, m: Memory)
    requires k <= |log| && Exact(cfg, log, walks, k, m)
    ensures Exact(cfg, log + [d], walks, k, m)
  {
    hide Writes, CallsTouch, InList, Opens, Control;
    var l := log + [d];
    assert forall j :: 0 <= j < |log| ==> l[j] == log[j];
    assert forall i: nat :: InWindow(l, i, k) <==> InWindow(log, i, k);
  }

  /** Nor does a later walk. */
  lemma ExactLaterWalk(cfg: Config, log: seq<Decision>, walks: seq<Walk>, v: Walk, k: nat, m: Memory)
    requires k < |log| && v.at == |log| && Exact(cfg, log, walks, k, m)
    ensures Exact(cfg, log, walks + [v], k, m)
  {
    hide Writes, CallsTouch, InList, InWindow;
    var l := walks + [v];
    assert forall j :: 0 <= j < |walks| ==> l[j] == walks[j];
  }

  /** The last decision takes the exact memory before it to an exact memory after it. */
  lemma ExactDecision(w: World, log: seq<Decision>, walks: seq<Walk>, n: nat)
    requires w.cl.Valid() && w.cfg.mode.MainReplica() && w.cfg.onWrite.DmlAdaptive?
    requires n < |log| && |log| - 1 == n && Entry(w, log, n) && Exact(w.cfg, log, walks, n, log[n].before)
    requires forall v :: 0 <= v < |walks| ==> walks[v].at <= n
    ensures Exact(w.cfg, log, walks, |log|, log[n].plan.memory)
  {
    hide Entry, Writes, CallsTouch, InList, Opens, Control, WrittenBetween, InWindow;
    MemoryStep(w, log, n);
    ControlOpens(log[n]);
    NothingInList();
    var m, k := log[n].plan.memory, |log|;
    WindowStep(log, n);
    if Opens(log[n]) {
      assert InWindow(log, n, k);
    } else if m.inTransaction {
      var i: nat :| InWindow(log, i, n);
      WindowBefore(log, i, n);
      assert InWindow(log, i, k);
    }
    forall i: nat, x | InWindow(log, i, k)
      ensures InList(x, m.writeList) <==> WrittenBetween(w.cfg, log, walks, i, k, x)
    {
      BetweenStep(w.cfg, log, walks, i, n, x);
    }
  }

  lemma ControlOpens(d: Decision)
    ensures Opens(d) ==> Control(d)
  {
  }

  lemma NothingInList()
    ensures forall x :: !InList(x, [])
  {
  }

  /** Windows after the last decision: the one it opens, or those it does not close. */
  lemma WindowStep(log: seq<Decision>, n: nat)
    requires n < |log| && |log| - 1 == n
    ensures forall i: nat :: InWindow(log, i, |log|) <==>
              (i == n && Opens(log[n])) || (i < n && !Control(log[n]) && InWindow(log, i, n))
  {
    hide Opens, Control;
    forall i: nat
      ensures InWindow(log, i, |log|) <==>
                (i == n && Opens(log[n])) || (i < n && !Control(log[n]) && InWindow(log, i, n))
    {
      WindowLast(log, n, i);
    }
  }

  lemma WindowLast(log: seq<Decision>, n: nat, i: nat)
    requires n < |log| && |log| - 1 == n
    ensures InWindow(log, i, |log|) <==>
              (i == n && Opens(log[n])) || (i < n && !Control(log[n]) && InWindow(log, i, n))
  {
    hide Opens, Control;
    if InWindow(log, i, |log|) && i < n {
      assert !Control(log[n]);
    }
  }

  lemma BetweenStep(cfg: Config, log: seq<Decision>, walks: seq<Walk>, i: nat, n: nat, x: string)
    requires n < |log| && |log| - 1 == n && i <= n && forall v :: 0 <= v < |walks| ==> walks[v].at <= n
    ensures i < n ==> (WrittenBetween(cfg, log, walks, i, |log|, x)
                       <==> WrittenBetween(cfg, log, walks, i, n, x) || Writes(cfg, log[n].q, x))
    ensures i == n ==> !WrittenBetween(cfg, log, walks, i, |log|, x)
  {
    hide Writes, CallsTouch;
  }

  /** A walk takes the exact memory to an exact memory. */
  lemma ExactWalk(cfg: Config, log: seq<Decision>, walks: seq<Walk>, q: Query, m: Memory)
    requires cfg.onWrite.DmlAdaptive? && Exact(cfg, log, walks, |log|, m)
    ensures Exact(cfg, log, walks + [Walk(|log|, q)], |log|, Walked(cfg, m, q))
  {
    hide Writes, CallsTouch, InList, InWindow, Walked, WrittenBetween;
    WalkKeepsNode(cfg, m, q);
    var l := walks + [Walk(|log|, q)];
    forall i: nat, x | InWindow(log, i, |log|)
      ensures InList(x, Walked(cfg, m, q).writeList) <==> WrittenBetween(cfg, log, l, i, |log|, x)
    {
      WindowBefore(log, i, |log|);
      WalkedMeans(cfg, m, q, x);
      BetweenWalk(cfg, log, walks, q, i, x);
    }
  }

  lemma WindowBefore(log: seq<Decision>, i: nat, k: nat)
    requires InWindow(log, i, k)
    ensures i < k
  {
  }

  lemma BetweenWalk(cfg: Config, log: seq<Decision>, walks: seq<Walk>, q: Query, i: nat, x: string)
    requires i < |log|
    ensures WrittenBetween(cfg, log, walks + [Walk(|log|, q)], i, |log|, x)
       <==> WrittenBetween(cfg, log, walks, i, |log|, x) || CallsTouch(cfg, q, x)
  {
    hide Writes, CallsTouch;
    var l := walks + [Walk(|log|, q)];
    assert forall j :: 0 <= j < |walks| ==> l[j] == walks[j];
    assert l[|walks|] == Walk(|log|, q);
  }

  // ----- sessions

  /** A step decides once, walks once, or leaves the memory alone. */
  lemma StepShape(w: World, st: Machine, op: Op)
    requires w.cl.Valid() && Tidy(st.store, st.extended) && Origins(st) && Enabled(w, st, op)
    ensures var r := Step(w, st, op);
            r.Some? ==>
              || (r.value.log == st.log && r.value.walks == st.walks && r.value.memory == st.memory)
              || (op.WalkAgain? && r.value.log == st.log
                  && var q := st.log[st.store.contexts[op.id].origin].q;
                     r.value.walks == st.walks + [Walk(|st.log|, q)] && r.value.memory == Walked(w.cfg, st.memory, q))
              || (|r.value.log| == |st.log| + 1 && r.value.log[..|st.log|] == st.log && r.value.walks == st.walks
                  && r.value.log[|st.log|].before == st.memory && r.value.memory == r.value.log[|st.log|].plan.memory)
  {
    hide FinalPlan, Parsed, Inherited, Live, Orderly, KindsNonzero, StoreStep, Walked, Listed, Lookup, FirstTarget, Arrived;
  }

  lemma StepHistory(w: World, st: Machine, op: Op)
    requires w.Steady() && w.cfg.mode.MainReplica() && w.cfg.onWrite.DmlAdaptive?
    requires Inv(w, st) && Enabled(w, st, op) && Origins(st) && History(w.cfg, st)
    ensures var r := Step(w, st, op); r.Some? ==> History(w.cfg, r.value)
  {
    hide Step, Exact, Entry, Tidy, ContextInv, Walked;
    StepShape(w, st, op);
    StepEntry(w, st, op);
    var r := Step(w, st, op);
    if r.Some? {
      if r.value.log == st.log {
        if r.value.walks != st.walks {
          WalkHistory(w, st, r.value, st.log[st.store.contexts[op.id].origin].q);
        }
      } else {
        DecisionHistory(w, st, r.value);
      }
    }
  }

  lemma WalkHistory(w: World, st: Machine, r: Machine, q: Query)
    requires w.cfg.onWrite.DmlAdaptive? && History(w.cfg, st) && r.log == st.log
    requires r.walks == st.walks + [Walk(|st.log|, q)] && r.memory == Walked(w.cfg, st.memory, q)
    ensures History(w.cfg, r)
  {
    hide Exact, Walked;
    ExactWalk(w.cfg, st.log, st.walks, q, st.memory);
    forall k | 0 <= k < |st.log|
      ensures Exact(w.cfg, r.log, r.walks, k, r.log[k].before)
    {
      ExactLaterWalk(w.cfg, st.log, st.walks, Walk(|st.log|, q), k, st.log[k].before);
    }
  }

  lemma DecisionHistory(w: World, st: Machine, r: Machine)
    requires w.cl.Valid() && w.cfg.mode.MainReplica() && w.cfg.onWrite.DmlAdaptive? && History(w.cfg, st)
    requires |r.log| == |st.log| + 1 && r.log[..|st.log|] == st.log && r.walks == st.walks
    requires r.log[|st.log|].before == st.memory && r.memory == r.log[|st.log|].plan.memory
    requires Entry(w, r.log, |st.log|)
    ensures History(w.cfg, r)
  {
    hide Exact, Entry;
    var n := |st.log|;
    var d := r.log[n];
    assert r.log == st.log + [d];
    forall k | 0 <= k < n
      ensures Exact(w.cfg, r.log, r.walks, k, r.log[k].before)
    {
      ExactExtends(w.cfg, st.log, st.walks, d, k, st.log[k].before);
    }
    ExactExtends(w.cfg, st.log, st.walks, d, n, st.memory);
    ExactDecision(w, r.log, r.walks, n);
  }

  /**
   * At every decision of every session the transaction flag is set exactly when a window is open, and
   * the write list then holds exactly the relations that the writes and calls of the window touch.
   */
  lemma {:induction false} WriteListMeans(w: World, lb: int, ops: seq<Op>)
    requires w.Steady() && 0 <= lb < w.cl.n && w.cfg.mode.MainReplica() && w.cfg.onWrite.DmlAdaptive?
    ensures var r := Run(w, lb, ops); r.Some? ==> History(w.cfg, r.value)
    decreases |ops|
  {
    hide Step, Inv, History, Enabled;
    if ops == [] {
      StartHistory(w.cfg, lb);
    } else {
      var shorter := ops[..|ops| - 1];
      WriteListMeans(w, lb, shorter);
      var st := Run(w, lb, shorter);
      var op := ops[|ops| - 1];
      if st.Some? && Enabled(w, st.value, op) {
        InvTidy(w, st.value);
        StepKeepsInv(w, st.value, op);
        StepHistory(w, st.value, op);
      }
    }
  }

  /** A write of x that decision k must respect: in its window before it, or by a function it calls itself. */
  ghost predicate Respects(cfg: Config, log: seq<Decision>, walks: seq<Walk>, k: nat, x: string)
    requires k < |log|
  {
    exists i: nat :: InWindow(log, i, k) && (WrittenBetween(cfg, log, walks, i, k, x) || Writes(cfg, log[k].q, x))
  }

  /** A SELECT is recognised as reading a written relation exactly when one of its relations must be respected. */
  lemma ReadsWrittenExactly(w: World, st: Machine, k: nat)
    requires w.cfg.mode.MainReplica() && w.cfg.onWrite.DmlAdaptive? && History(w.cfg, st)
    requires k < |st.log| && !st.log[k].q.multi && st.log[k].q.node.Select?
    ensures var d := st.log[k];
            ReadsWritten(w.cfg, Met(w, d), d.q) <==>
              exists n :: 0 <= n < |d.q.relations| && Respects(w.cfg, st.log, st.walks, k, d.q.relations[n])
  {
    hide Writes, InList, InWindow, WrittenBetween, Considered, Arrived;
    var d := st.log[k];
    assert Exact(w.cfg, st.log, st.walks, k, d.before);
    OutsideConsidered(w.cfg, d.before, d.q);
    if d.before.inTransaction {
      var i: nat :| InWindow(st.log, i, k);
      forall n | 0 <= n < |d.q.relations|
        ensures InList(d.q.relations[n], Met(w, d).writeList) <==> Respects(w.cfg, st.log, st.walks, k, d.q.relations[n])
      {
        MetMeans(w.cfg, d.before, d.q, d.q.relations[n]);
      }
    }
  }

  lemma PinnedPlan(w: World, m: Memory, lb: int, q: Query)
    requires w.Steady() && w.cfg.mode.MainReplica() && q.node.Select? && !q.multi
    requires ReadsWritten(w.cfg, Considered(w.cfg, m, q), q)
    ensures FinalPlan(w.cfg, w.cl, m, lb, q, None).where == {w.cl.Primary()}
  {
    hide ReadsWritten, Considered;
  }

  lemma NotInherited(w: World, log: seq<Decision>, k: nat)
    requires w.cl.Valid() && k < |log| && Entry(w, log, k) && log[k].q.node.Select?
    ensures log[k].plan == OwnPlan(w, log[k])
  {
    hide Sound, VirtualMain, BasePlan, OwnPlan, Extra;
  }

  /** The map of a statement decided on its own. */
  lemma OwnWhere(w: World, d: Decision)
    requires w.cl.Valid() && d.plan == OwnPlan(w, d)
    ensures d.plan.where
         == FinalPlan(w.cfg, w.cl, Arrived(w.cfg, d.before, d.q), d.start, d.q, None).where + Extra(w, d)
  {
    hide FinalPlan, AllNodes, Arrived;
    var own := FinalPlan(w.cfg, w.cl, Arrived(w.cfg, d.before, d.q), d.start, d.q, None);
    ParsedIs(w, own, d.q.arrival);
    ParsedMemory(w, own, d.q.arrival);
  }

  /**
   * Read your writes: in every session a SELECT goes to the primary alone when a statement since the
   * single-statement BEGIN of its transaction counted as a write of one of its relations, until the
   * next single-statement BEGIN, COMMIT, ROLLBACK or ROLLBACK TO. A Parse message that names its
   * statement is sent everywhere besides.
   */
  lemma ReadYourOwnWrites(w: World, lb: int, ops: seq<Op>, st: Machine, k: nat, n: nat)
    requires w.Steady() && 0 <= lb < w.cl.n && Run(w, lb, ops) == Some(st)
    requires w.cfg.mode.MainReplica() && w.cfg.onWrite.DmlAdaptive?
    requires k < |st.log| && st.log[k].q.node.Select? && !st.log[k].q.multi
    requires n < |st.log[k].q.relations| && Respects(w.cfg, st.log, st.walks, k, st.log[k].q.relations[n])
    ensures st.log[k].plan.where == {w.cl.Primary()} + Extra(w, st.log[k])
  {
    hide Run, Entry, FinalPlan, OwnPlan, ReadsWritten, Considered, Arrived, History, Extra, Respects;
    var log := st.log;
    WriteListMeans(w, lb, ops);
    ReadsWrittenExactly(w, st, k);
    assert Entry(w, log, k);
    NotInherited(w, log, k);
    OwnWhere(w, log[k]);
    PinnedPlan(w, Arrived(w.cfg, log[k].before, log[k].q), log[k].start, log[k].q);
  }

  /** Every guard of load balancing but the one about written relations. */
  predicate OtherGuards(cfg: Config, q: Query)
  {
    MayAskFunctions(cfg, q) && !q.facts.functionCall && !(cfg.mode.Streaming? && q.facts.delayed)
  }

  lemma FreePlan(w: World, m: Memory, lb: int, q: Query)
    requires w.Steady() && w.cfg.mode.MainReplica() && !q.multi && q.node.Select? && OtherGuards(w.cfg, q)
    requires !ReadsWritten(w.cfg, Considered(w.cfg, m, q), q)
    ensures FinalPlan(w.cfg, w.cl, m, lb, q, None).where == {if w.cfg.statementLevel then q.facts.pick else m.lb}
  {
    hide ReadsWritten, Considered;
  }

  /**
   * The rule is exact: a SELECT that passes every other guard is held on the primary if, and only if,
   * one of its relations was written in the open window, by a change or by a function call.
   */
  lemma HeldExactlyWhenWritten(w: World, lb: int, ops: seq<Op>, st: Machine, k: nat)
    requires w.Steady() && 0 <= lb < w.cl.n && Run(w, lb, ops) == Some(st)
    requires w.cfg.mode.MainReplica() && w.cfg.onWrite.DmlAdaptive? && k < |st.log|
    requires var q := st.log[k].q; !q.multi && q.node.Select? && OtherGuards(w.cfg, q)
    ensures var d := st.log[k];
            var written := exists n :: 0 <= n < |d.q.relations| && Respects(w.cfg, st.log, st.walks, k, d.q.relations[n]);
            var node := if written then w.cl.Primary() else if w.cfg.statementLevel then d.q.facts.pick else d.before.lb;
            d.plan.where == {node} + Extra(w, d)
  {
    hide Run, Entry, FinalPlan, OwnPlan, Respects, ReadsWritten, Considered, Arrived, History, Extra, OtherGuards;
    WriteListMeans(w, lb, ops);
    ReadsWrittenExactly(w, st, k);
    var d := st.log[k];
    assert Entry(w, st.log, k);
    NotInherited(w, st.log, k);
    OwnWhere(w, d);
    var met := Arrived(w.cfg, d.before, d.q);
    ConsideredKeepsNode(w.cfg, d.before, d.q);
    if ReadsWritten(w.cfg, Met(w, d), d.q) {
      PinnedPlan(w, met, d.start, d.q);
    } else {
      FreePlan(w, met, d.start, d.q);
    }
  }

  // ----- ROLLBACK TO a savepoint closes the window although the transaction goes on

  /**
   * After a single-statement ROLLBACK TO, a SELECT that passes the other guards is balanced again,
   * whatever the transaction wrote before the savepoint.
   */
  lemma RollbackToForgets(w: World, lb: int, ops: seq<Op>, st: Machine, k: nat)
    requires w.Steady() && 0 <= lb < w.cl.n && Run(w, lb, ops) == Some(st)
    requires w.cfg.mode.MainReplica() && w.cfg.onWrite.DmlAdaptive? && 0 < k < |st.log|
    requires var r := st.log[k - 1].q; !r.multi && r.node == TransactionStmt(RollbackTo)
    requires var q := st.log[k].q; !q.multi && q.node.Select? && OtherGuards(w.cfg, q)
    ensures var d := st.log[k];
            d.plan.where == {if w.cfg.statementLevel then d.q.facts.pick else d.before.lb} + Extra(w, d)
  {
    hide Run, Writes, OtherGuards, WrittenBetween, Extra;
    HeldExactlyWhenWritten(w, lb, ops, st, k);
    assert Control(st.log[k - 1]) && !Opens(st.log[k - 1]);
    assert forall i: nat :: !InWindow(st.log, i, k);
  }
}
