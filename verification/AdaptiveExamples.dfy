/** Two transactions under dml_adaptive, statement by statement. */
module AdaptiveExamples {
  import opened Bytes
  import opened Routing
  import opened SessionRuns
  import opened ReadYourWrites

  /** A streaming pair with the primary at 0; t1 is associated with t2, and function f1 with tF. */
  function Pair(): (w: World)
  {
    World(Config(Streaming, true, false, DmlAdaptive, false, false, false,
                 [Related("t1", false, "t2"), Related("f1", true, "tF")]),
          Cluster(2, {0, 1}, 0, 0, 0))
  }

  function PlainFacts(isSelect: bool, functionCall: bool): (f: Facts)
  {
    Facts(isSelect, true, InBlock, false, false, false, false, false, false, false, functionCall, false, 1, 1,
          false, false, false)
  }

  function Tx(kind: TransKind): (q: Query)
  {
    Query(TransactionStmt(kind), [], [], false, Simple, PlainFacts(false, false))
  }

  /** INSERT INTO t1, SELECT FROM a relation, and SELECT f1(). */
  const INSERT_T1 := Query(Other, ["t1"], [], false, Simple, PlainFacts(false, false))

  function From(relation: string): (q: Query)
  {
    Query(Select(false, []), [relation], [], false, Simple, PlainFacts(true, false))
  }

  const CALL_F1 := Query(Select(false, []), [], ["f1"], false, Simple, PlainFacts(true, true))

  /** What a query is given when it arrives with the memory m. */
  function Routed(m: Memory, q: Query): (p: Plan)
  {
    FinalPlan(Pair().cfg, Pair().cl, Arrived(Pair().cfg, m, q), 0, q, None)
  }

  /** A session balanced to node 1, in an open window with the given write list. */
  function Window(list: seq<string>): (m: Memory)
  {
    Memory(1, true, list)
  }

  lemma Names()
    ensures SameName("t1", "t1") && SameName("t2", "t2") && SameName("f1", "f1") && SameName("tF", "tF")
    ensures !SameName("t1", "t2") && !SameName("t1", "tF") && !SameName("t3", "t1") && !SameName("t3", "t2")
    ensures !SameName("t3", "tF") && !SameName("t2", "t1")
  {
    assert LowerCase("t1")[1] == '1' && LowerCase("t2")[1] == '2' && LowerCase("t3")[1] == '3';
    assert LowerCase("tF")[1] == 'f';
  }

  lemma Controls(m: Memory, kind: TransKind)
    requires kind.Begin? || kind.RollbackTo?
    ensures Routed(m, Tx(kind)).memory == Memory(m.lb, kind.Begin?, [])
  {
    hide AllNodes;
  }

  lemma Inserted()
    ensures Routed(Window([]), INSERT_T1).memory == Window(["t1", "t2"])
    ensures Routed(Window([]), INSERT_T1).where == {0}
  {
    var cfg := Pair().cfg;
    Names();
    hide SameName;
    assert !InList("t1", []);
    assert Associated(cfg.related, "t1", false) == Some("t2");
    assert Noted(cfg, true, [], "t1") == ["t1", "t2"];
    assert NotedAll(cfg, true, ["t1", "t2"], ["t1"][1..]) == ["t1", "t2"];
    assert NotedAll(cfg, true, [], ["t1"]) == ["t1", "t2"];
    assert Remember(cfg, Window([]), INSERT_T1) == Window(["t1", "t2"]);
  }

  /** A SELECT that calls nothing leaves the memory and goes by the list. */
  lemma Selected(relation: string, list: seq<string>)
    ensures Routed(Window(list), From(relation)).memory == Window(list)
    ensures Routed(Window(list), From(relation)).where == if InList(relation, list) then {0} else {1}
  {
    hide InList;
    var q := From(relation);
    assert Considered(Pair().cfg, Window(list), q) == Window(list);
    assert q.relations[0] == relation;
  }

  lemma Called()
    ensures Routed(Window([]), CALL_F1).where == {0}
    ensures Routed(Window([]), CALL_F1).memory == Window(["tF", "tF"])
  {
    var cfg := Pair().cfg;
    Names();
    hide SameName, InList;
    assert Associated(cfg.related, "f1", true) == Associated(cfg.related[1..], "f1", true) == Some("tF");
    assert CALL_F1.functions[1..] == [];
    assert Walked(cfg, Window([]), CALL_F1) == Window(["tF"]);
    assert Walked(cfg, Window(["tF"]), CALL_F1) == Window(["tF", "tF"]);
    assert Considered(cfg, Window(["tF"]), CALL_F1) == Window(["tF", "tF"]);
  }

  /** BEGIN; SELECT FROM t2; INSERT INTO t1; then t1 and its associate t2 are held, t3 is balanced. */
  lemma RelationExample()
    ensures var m0 := Routed(Memory(1, false, []), Tx(Begin)).memory;
            var m1 := Routed(m0, From("t2")).memory;
            var m2 := Routed(m1, INSERT_T1).memory;
            && Routed(m0, From("t2")).where == {1}
            && Routed(m1, INSERT_T1).where == {0}
            && Routed(m2, From("t1")).where == {0}
            && Routed(m2, From("t3")).where == {1}
            && Routed(m2, From("t2")).where == {0}
  {
    hide Routed;
    Controls(Memory(1, false, []), Begin);
    Names();
    hide SameName;
    Selected("t2", []);
    Inserted();
    var list := ["t1", "t2"];
    Selected("t1", list);
    Selected("t3", list);
    Selected("t2", list);
    assert SameName("t1", list[0]) && SameName("t2", list[1]);
  }

  /** INSERT INTO T1, its name in the other case. */
  const INSERT_UPPER := INSERT_T1.(relations := ["T1"])

  lemma UpperNames()
    ensures SameName("T1", "t1") && SameName("t1", "T1") && SameName("T2", "t2") && !SameName("t3", "T1")
  {
    assert LowerCase("T1") == "t1" == LowerCase("t1");
    assert LowerCase("T2") == "t2" == LowerCase("t2");
    assert LowerCase("t3")[1] == '3' && LowerCase("T1")[1] == '1';
  }

  lemma InsertedUpper()
    ensures Routed(Window([]), INSERT_UPPER).memory == Window(["T1", "t2"])
  {
    var cfg := Pair().cfg;
    UpperNames();
    hide SameName;
    assert !InList("T1", []);
    assert Associated(cfg.related, "T1", false) == Some("t2");
    assert Noted(cfg, true, [], "T1") == ["T1", "t2"];
    assert NotedAll(cfg, true, ["T1", "t2"], ["T1"][1..]) == ["T1", "t2"];
    assert NotedAll(cfg, true, [], ["T1"]) == ["T1", "t2"];
    assert Remember(cfg, Window([]), INSERT_UPPER) == Window(["T1", "t2"]);
  }

  /** Names are compared without regard to case: a write of T1 holds t1, and its associate t2 written T2. */
  lemma CaseExample()
    ensures var m := Routed(Window([]), INSERT_UPPER).memory;
            && Routed(m, From("t1")).where == {0}
            && Routed(m, From("T2")).where == {0}
            && Routed(m, From("t3")).where == {1}
  {
    hide Routed;
    Names();
    UpperNames();
    hide SameName;
    InsertedUpper();
    var list := ["T1", "t2"];
    Selected("t1", list);
    Selected("T2", list);
    Selected("t3", list);
    assert SameName("t1", list[0]) && SameName("T2", list[1]);
  }

  /** BEGIN; SELECT FROM tF; SELECT f1(); then tF, which f1 is associated with, is held, t1 and t3 are balanced. */
  lemma FunctionExample()
    ensures var m0 := Routed(Memory(1, false, []), Tx(Begin)).memory;
            var m1 := Routed(m0, From("tF")).memory;
            var m2 := Routed(m1, CALL_F1).memory;
            && Routed(m0, From("tF")).where == {1}
            && Routed(m1, CALL_F1).where == {0}
            && Routed(m2, From("tF")).where == {0}
            && Routed(m2, From("t1")).where == {1}
            && Routed(m2, From("t3")).where == {1}
  {
    hide Routed;
    Controls(Memory(1, false, []), Begin);
    Names();
    hide SameName;
    Selected("tF", []);
    Called();
    var list := ["tF", "tF"];
    Selected("tF", list);
    Selected("t1", list);
    Selected("t3", list);
    assert SameName("tF", list[0]);
  }

  /** BEGIN; INSERT INTO t1; ROLLBACK TO s; SELECT FROM t1: held before the ROLLBACK TO, balanced after it. */
  lemma RollbackToExample()
    ensures var m0 := Routed(Memory(1, false, []), Tx(Begin)).memory;
            var m1 := Routed(m0, INSERT_T1).memory;
            && Routed(m1, From("t1")).where == {0}
            && Routed(Routed(m1, Tx(RollbackTo)).memory, From("t1")).where == {1}
  {
    hide Routed;
    Controls(Memory(1, false, []), Begin);
    Names();
    hide SameName;
    Inserted();
    var list := ["t1", "t2"];
    Selected("t1", list);
    assert SameName("t1", list[0]);
    Controls(Window(list), RollbackTo);
    AfterRollback();
  }

  lemma AfterRollback()
    ensures Routed(Memory(1, false, []), From("t1")).where == {1}
  {
    hide InList;
    assert Considered(Pair().cfg, Memory(1, false, []), From("t1")) == Memory(1, false, []);
  }
}
