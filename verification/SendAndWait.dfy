/** Sending a simple query to the chosen nodes and waiting for each of them. */
module SendAndWait {
  import opened Bytes
  import opened Routing
  import opened RoutingSteps

  datatype Text = Original | Rewritten

  /** One call: whether it ends a transaction, the selection by node, and each node's transaction state. */
  datatype Call = Call(
    cfg: Config,
    cl: Cluster,
    isCommit: bool,
    resetContext: bool,
    sendType: int,
    nodeId: int,
    tx: seq<TxState>,
    beginReadWrite: bool,   // BEGIN READ WRITE or SERIALIZABLE: standbys get the rewritten BEGIN
    hasRewritten: bool)
  {
    predicate Valid() { cl.Valid() && |tx| == cl.n }

    /** A negative send type skips the node, a positive one sends to it alone. */
    predicate Selected(i: int)
    {
      !(sendType < 0 && i == nodeId) && !(sendType > 0 && i != nodeId)
    }

    /** VALID_BACKEND: in raw mode the main node, map or no map; else the nodes of the map that are up. */
    predicate Usable(where: set<int>, i: int)
    {
      if cfg.mode.Raw? then i == cl.realMain else i in where && i in cl.up
    }

    /** A COMMIT or ROLLBACK that would find the node outside any transaction. */
    predicate Skips(main: int, i: int)
      requires Valid() && 0 <= i < cl.n
    {
      isCommit && tx[i].Idle? && ((cfg.mode.MainReplica() && i != main) || resetContext)
    }

    function TextFor(i: int): (t: Text)
    {
      if beginReadWrite then (if cl.realPrimary == i then Original else Rewritten)
      else if hasRewritten then Rewritten
      else Original
    }

    ghost predicate Meant(where: set<int>, main: int, i: int)
      requires Valid()
    {
      0 <= i < cl.n && Usable(where, i) && Selected(i) && !Skips(main, i)
    }

    /** The one case in which a node is waited for that nothing was sent to. */
    predicate WaitsInVain(main: int)
      requires Valid()
    {
      cfg.mode.Raw? && 0 <= cl.realMain < cl.n && Selected(cl.realMain) && Skips(main, cl.realMain)
    }
  }

  /** The main node while the query is in progress; its ingredients do not change during the call. */
  function MainOf(c: Call, virtualMain: int, lb: int): (main: int)
  {
    if c.cfg.mode.SL() && virtualMain != lb && virtualMain != c.cl.Primary() then c.cl.Primary() else virtualMain
  }

  /** The first loop: nodes that would skip the query leave the map, the others are sent their text. */
  method SendLoop(c: Call, qc: QueryContext, main: int) returns (sent: map<int, Text>)
    requires c.Valid() && qc.Valid()
    modifies qc.where
    ensures forall i :: i in sent <==> c.Meant(old(qc.Targets()), main, i)
    ensures forall i :: i in sent ==> sent[i] == c.TextFor(i)
    ensures qc.Targets() <= old(qc.Targets())
    ensures var where := old(qc.Targets());
            forall i :: i in where ==>
              (i !in qc.Targets() <==> 0 <= i < c.cl.n && c.Usable(where, i) && c.Selected(i) && c.Skips(main, i))
  {
    ghost var where0 := qc.Targets();
    sent := map[];
    for i := 0 to c.cl.n
      invariant qc.Targets() <= where0
      invariant forall j :: j in where0 && j >= i ==> j in qc.Targets()
      invariant forall j :: j in where0 && 0 <= j < i ==>
                  (j !in qc.Targets() <==> c.Usable(where0, j) && c.Selected(j) && c.Skips(main, j))
      invariant forall j :: j in sent <==> 0 <= j < i && c.Meant(where0, main, j)
      invariant forall j :: j in sent ==> sent[j] == c.TextFor(j)
    {
      if !Usable(c, qc, i) {
        continue;
      } else if c.sendType < 0 && i == c.nodeId {
        continue;
      } else if c.sendType > 0 && i != c.nodeId {
        continue;
      }
      if c.isCommit && c.cfg.mode.MainReplica() && i != main && c.tx[i].Idle? {
        qc.where[i] := false;
        continue;
      }
      if c.isCommit && c.resetContext && c.tx[i].Idle? {
        qc.where[i] := false;
        continue;
      }
      var text := if c.hasRewritten then Rewritten else Original;
      if c.beginReadWrite {
        if c.cl.realPrimary == i {
          text := Original;
        } else {
          text := Rewritten;
        }
      }
      sent := sent[i := text];
    }
  }

  /** The second loop, over what is left of the map. */
  method WaitLoop(c: Call, qc: QueryContext) returns (waited: set<int>)
    requires c.Valid() && qc.Valid()
    ensures forall j :: j in waited <==> 0 <= j < c.cl.n && c.Usable(qc.Targets(), j) && c.Selected(j)
  {
    waited := {};
    for i := 0 to c.cl.n
      invariant forall j :: j in waited <==> 0 <= j < i && c.Usable(qc.Targets(), j) && c.Selected(j)
    {
      if !Usable(c, qc, i) {
        continue;
      } else if c.sendType < 0 && i == c.nodeId {
        continue;
      } else if c.sendType > 0 && i != c.nodeId {
        continue;
      }
      waited := waited + {i};
    }
  }

  /** Node i is in the map and up, or the main node in raw mode, and not deselected. */
  predicate Chosen(c: Call, where: set<int>, i: int)
  {
    && 0 <= i < c.cl.n
    && (if c.cfg.mode == Raw then i == c.cl.realMain else i in where && i in c.cl.up)
    && (c.sendType == 0 || (c.sendType > 0 && i == c.nodeId) || (c.sendType < 0 && i != c.nodeId))
  }

  /**
   * The chosen node is left out: a COMMIT or ROLLBACK would find it outside a transaction, and it is not
   * the main node of a mode with a primary, or the session is being reset.
   */
  predicate LeftOut(c: Call, main: int, i: int)
    requires c.Valid() && 0 <= i < c.cl.n
  {
    match c.cfg.mode
    case Streaming => c.isCommit && c.tx[i] == Idle && (i != main || c.resetContext)
    case Logical => c.isCommit && c.tx[i] == Idle && (i != main || c.resetContext)
    case Slony => c.isCommit && c.tx[i] == Idle && (i != main || c.resetContext)
    case _ => c.isCommit && c.tx[i] == Idle && c.resetContext
  }

  /**
   * The query goes to exactly the chosen nodes that are not left out. BEGIN READ WRITE and BEGIN
   * SERIALIZABLE reach the primary as they are and other nodes rewritten. Nodes that are left out leave the
   * map; and the nodes waited for are those sent to, except that raw mode, which looks past the map,
   * waits for a main node that was left out.
   */
  method Send(c: Call, qc: QueryContext) returns (sent: map<int, Text>, waited: set<int>)
    requires c.Valid() && qc.Valid()
    modifies qc.where
    ensures var where := old(qc.Targets());
            var main := MainOf(c, qc.virtualMain, qc.lb);
            && (forall i :: i in sent <==> Chosen(c, where, i) && !LeftOut(c, main, i))
            && (forall i :: i in where ==> (i !in qc.Targets() <==> Chosen(c, where, i) && LeftOut(c, main, i)))
            && qc.Targets() <= where
            && (waited == sent.Keys <==> !(c.cfg.mode == Raw && Chosen(c, where, c.cl.realMain) && LeftOut(c, main, c.cl.realMain)))
    ensures var where := old(qc.Targets());
            var main := MainOf(c, qc.virtualMain, qc.lb);
            && (forall i :: Chosen(c, where, i) && (c.tx[i] != Idle || !c.isCommit) ==> i in sent)
            && (Chosen(c, where, main) && !c.resetContext ==> main in sent)
    ensures forall i :: i in sent ==>
              sent[i] == if c.beginReadWrite then (if i == c.cl.realPrimary then Original else Rewritten)
                         else if c.hasRewritten then Rewritten else Original
  {
    ghost var where0 := qc.Targets();
    var main := MainOf(c, qc.virtualMain, qc.lb);
    sent := SendLoop(c, qc, main);
    waited := WaitLoop(c, qc);
    WaitedAreSent(c, where0, qc.Targets(), main, sent.Keys, waited);
    MeantCases(c, where0, main);
  }

  predicate Usable(c: Call, qc: QueryContext, i: int)
    requires qc.Valid() && 0 <= i < MAX_BACKENDS
    reads qc.where
    ensures Usable(c, qc, i) <==> c.Usable(qc.Targets(), i)
  {
    if c.cfg.mode.Raw? then i == c.cl.realMain else qc.where[i] && i in c.cl.up
  }

  lemma WaitedAreSent(c: Call, where0: set<int>, where1: set<int>, main: int, sent: set<int>, waited: set<int>)
    requires c.Valid() && where1 <= where0
    requires forall j :: j in where0 && 0 <= j < c.cl.n ==>
               (j !in where1 <==> c.Usable(where0, j) && c.Selected(j) && c.Skips(main, j))
    requires forall j :: j in sent <==> c.Meant(where0, main, j)
    requires forall j :: j in waited <==> 0 <= j < c.cl.n && c.Usable(where1, j) && c.Selected(j)
    ensures waited == sent <==> !c.WaitsInVain(main)
  {
    if c.WaitsInVain(main) {
      assert c.cl.realMain in waited && c.cl.realMain !in sent;
    } else {
      assert forall j :: j in waited <==> j in sent;
    }
  }

  /** The tests of the loops are those of the cases. */
  lemma MeantCases(c: Call, where: set<int>, main: int)
    requires c.Valid()
    ensures forall i :: 0 <= i < c.cl.n ==> (c.Usable(where, i) && c.Selected(i) <==> Chosen(c, where, i))
    ensures forall i :: 0 <= i < c.cl.n ==> (c.Skips(main, i) <==> LeftOut(c, main, i))
  {
  }

  /** The main node: the first node of the map, unless streaming or logical mode finds it to be no node of the session. */
  lemma MainCases(c: Call, virtualMain: int, lb: int)
    ensures c.cfg.mode != Streaming && c.cfg.mode != Logical ==> MainOf(c, virtualMain, lb) == virtualMain
    ensures virtualMain == lb || virtualMain == c.cl.Primary() ==> MainOf(c, virtualMain, lb) == virtualMain
    ensures (c.cfg.mode == Streaming || c.cfg.mode == Logical) && virtualMain != lb ==> MainOf(c, virtualMain, lb) == c.cl.Primary()
  {
  }

  /** The failing case: a COMMIT of the session reset, in raw mode, on an idle main node. */
  lemma RawResetWaits()
    ensures Call(Config(Raw, false, false, Off, false, false, false, []), Cluster(1, {0}, 0, 0, 0),
                 true, true, 0, 0, [Idle], false, false).WaitsInVain(0)
  {
  }
}
