/**
 * Where a statement is sent. The decision is given here as a function of the configuration, the
 * cluster, the statement and what the session remembers; RoutingSteps holds the code that takes it.
 */
module Routing {
  import opened Bytes

  const MAX_BACKENDS := 128

  datatype Mode = Raw | Streaming | Logical | Slony | NativeReplication | SnapshotIsolation {
    /** Streaming or logical replication. */
    predicate SL() { Streaming? || Logical? }
    predicate MainReplica() { SL() || Slony? }
    predicate Replication() { NativeReplication? || SnapshotIsolation? }
  }

  /** The setting disable_load_balance_on_write. */
  datatype WritePolicy = Off | Transaction | TransTransaction | Always | DmlAdaptive

  /** One pair of the setting dml_adaptive_object_relationship_list. */
  datatype Related = Related(left: string, leftIsFunction: bool, right: string)

  datatype Config = Config(
    mode: Mode,
    loadBalance: bool,
    statementLevel: bool,
    onWrite: WritePolicy,
    checkUnlogged: bool,
    preferLowerDelay: bool,
    replicateSelect: bool,
    related: seq<Related>)

  /** The backends as this session sees them: `up` holds those up or waiting for a connection. */
  datatype Cluster = Cluster(n: nat, up: set<int>, realPrimary: int, realMain: int, myMain: int) {
    predicate Valid()
    {
      && n <= MAX_BACKENDS
      && forall i :: i in up ==> 0 <= i < n
    }

    /** The primary if there is a live one, else the main node. */
    function Primary(): (p: int)
    {
      if realPrimary in up then realPrimary else realMain
    }
  }

  datatype TransKind = Begin | Start | Commit | Rollback | Savepoint | Release | RollbackTo
    | PrepareTransaction | CommitPrepared | RollbackPrepared

  datatype Const = Str(s: string) | Int(i: int) | OtherConst
  datatype DefElem = DefElem(defname: string, arg: Const)

  datatype Node =
    | Select(intoOrLocking: bool, ctes: seq<Node>)
    | Copy(isFrom: bool, query: Option<Node>)
    | Lock(mode: nat)
    | TransactionStmt(kind: TransKind)
    | SetValue(name: string, args: seq<Const>)
    | SetMulti(name: string, options: seq<DefElem>)
    | SetOther
    | Discard
    | Prepare(name: string, statement: Node)
    | Execute(name: string)
    | Deallocate(target: Option<string>)
    | Show
    | Explain(analyzed: Option<Node>)   // EXPLAIN, with the statement that EXPLAIN ANALYZE runs
    | Other

  const ROW_EXCLUSIVE_LOCK := 3

  // ----- the destination that syntax alone gives

  datatype Dest = PrimaryOnly | Standby | Either | Both

  function Lower(c: char): (r: char)
  {
    if 'A' <= c <= 'Z' then 'a' + (c - 'A') else c
  }

  function LowerCase(s: string): (r: string)
    ensures |r| == |s|
  {
    seq(|s|, i requires 0 <= i < |s| => Lower(s[i]))
  }

  /** strcasecmp(a, b) == 0 */
  predicate SameName(a: string, b: string)
  {
    LowerCase(a) == LowerCase(b)
  }

  predicate IsStart(node: Node)
  {
    node.TransactionStmt? && (node.kind.Begin? || node.kind.Start?)
  }

  predicate IsSavepoint(node: Node)
  {
    node.TransactionStmt? && (node.kind.Savepoint? || node.kind.RollbackTo? || node.kind.Release?)
  }

  predicate IsTwoPhase(node: Node)
  {
    node.TransactionStmt? && (node.kind.PrepareTransaction? || node.kind.CommitPrepared? || node.kind.RollbackPrepared?)
  }

  /** COMMIT, ROLLBACK, and also ROLLBACK TO a savepoint. */
  predicate IsCommitOrRollback(node: Node)
  {
    node.TransactionStmt? && (node.kind.Commit? || node.kind.Rollback? || node.kind.RollbackTo?)
  }

  predicate IsSerializableName(name: string)
  {
    name == "transaction_isolation" || name == "default_transaction_isolation"
  }

  predicate IsSessionWide(name: string)
  {
    name == "TRANSACTION" || name == "SESSION CHARACTERISTICS"
  }

  predicate SetsSerializable(node: Node)
  {
    || (node.SetValue? && IsSerializableName(node.name)
        && exists c :: c in node.args && c.Str? && SameName(c.s, "serializable"))
    || (node.SetMulti? && IsSessionWide(node.name)
        && exists o :: o in node.options && IsSerializableName(o.defname) && o.arg.Str? && SameName(o.arg.s, "serializable"))
  }

  /** A constant that turns transaction_read_only off; any nonzero integer counts, as the code has it. */
  predicate SaysOff(c: Const)
  {
    || (c.Str? && (SameName(c.s, "off") || SameName(c.s, "f") || SameName(c.s, "false")))
    || (c.Int? && c.i != 0)
  }

  /**
   * The destination by syntax. `SET transaction_read_only` keeps its answer in a bool, which turns
   * "both" into the number of "standby".
   */
  function SendToWhere(node: Node, sl: bool, txByMulti: bool): (d: Dest)
  {
    match node
    case Select(intoOrLocking, ctes) =>
      if intoOrLocking || exists cte :: cte in ctes && !cte.Select? then PrimaryOnly else Either
    case Copy(isFrom, query) =>
      if isFrom || (query.Some? && !query.value.Select?) then PrimaryOnly else Either
    case Lock(mode) => if mode >= ROW_EXCLUSIVE_LOCK then PrimaryOnly else Both
    case TransactionStmt(_) =>
      if IsStart(node) then Both
      else if IsSavepoint(node) then (if sl && txByMulti then PrimaryOnly else Both)
      else if IsTwoPhase(node) then PrimaryOnly
      else Both
    case SetValue(name, args) =>
      if name == "transaction_read_only" then
        (if exists c :: c in args && SaysOff(c) then PrimaryOnly else Standby)
      else if SetsSerializable(node) then PrimaryOnly
      else Both
    case SetMulti(name, options) =>
      if SetsSerializable(node) then PrimaryOnly
      else if IsSessionWide(name) && exists o :: o in options && o.defname == "transaction_read_only" && o.arg == Int(0)
      then PrimaryOnly
      else Both
    case SetOther => Both
    case Discard => Both
    case Prepare(_, statement) => SendToWhere(statement, sl, txByMulti)
    case Execute(_) => PrimaryOnly
    case Deallocate(_) => PrimaryOnly
    case Show => Either
    case Explain(_) => PrimaryOnly
    case Other => PrimaryOnly
  }

  // ----- one statement and its circumstances

  datatype TxState = Idle | InBlock | Failed

  /** What the session and the walkers outside this model say about the statement at hand. */
  datatype Facts = Facts(
    isSelect: bool,          // is_select_query
    protocol3: bool,
    txState: TxState,        // TSTATE of the primary, or of the main node
    writing: bool,
    failed: bool,
    serializable: bool,
    systemCatalog: bool,
    tempTable: bool,
    unloggedTable: bool,
    primaryPattern: bool,    // primary_routing_query_pattern_list
    functionCall: bool,      // a writing function
    delayed: bool,           // check_replication_delay of the load balance node
    pick: int,               // select_load_balancing_node, first call
    repick: int,             // and the call made when the first node lags
    txByMulti: bool,
    readOnlyTx: bool,
    readOnlyDefault: bool)

  /** How a statement comes to be routed: as a query, in a Parse message, or again when it is bound. */
  datatype Arrival = Simple | ParseUnnamed | ParseNamed | AtBind

  /**
   * A statement: its tree, the relations it names, the functions the walker for writing functions
   * meets in it, whether others follow it in the same query, and how it arrived.
   */
  datatype Query = Query(
    node: Node,
    relations: seq<string>,
    functions: seq<string>,
    multi: bool,
    arrival: Arrival,
    facts: Facts)

  /** What routing remembers between statements. */
  datatype Memory = Memory(lb: int, inTransaction: bool, writeList: seq<string>)

  /** A decision: the nodes to send to, the statement's load balance node, and the memory after it. */
  datatype Plan = Plan(where: set<int>, lb: int, memory: Memory)

  // ----- dml_adaptive

  predicate InList(name: string, list: seq<string>)
  {
    exists i :: 0 <= i < |list| && SameName(name, list[i])
  }

  /** The right-hand name of the first pair whose left-hand relation, or function, is `name`. */
  function Associated(related: seq<Related>, name: string, isFunction: bool): (r: Option<string>)
  {
    if related == [] then None
    else if related[0].leftIsFunction == isFunction && SameName(related[0].left, name) then Some(related[0].right)
    else Associated(related[1..], name, isFunction)
  }

  /** The write list after a look at the configured pairs, which happens inside a transaction only. */
  function WithAssociate(cfg: Config, inTransaction: bool, list: seq<string>, name: string, isFunction: bool): (r: seq<string>)
  {
    match Associated(cfg.related, name, isFunction)
    case Some(other) => if inTransaction then list + [other] else list
    case None => list
  }

  /** The write list after one relation: the name if new, then its associate. */
  function Noted(cfg: Config, inTransaction: bool, list: seq<string>, name: string): (r: seq<string>)
  {
    WithAssociate(cfg, inTransaction, if InList(name, list) then list else list + [name], name, false)
  }

  function NotedAll(cfg: Config, inTransaction: bool, list: seq<string>, names: seq<string>): (r: seq<string>)
    decreases |names|
  {
    if names == [] then list else NotedAll(cfg, inTransaction, Noted(cfg, inTransaction, list, names[0]), names[1..])
  }

  function CallsNoted(cfg: Config, inTransaction: bool, list: seq<string>, names: seq<string>): (r: seq<string>)
    decreases |names|
  {
    if names == [] then list
    else CallsNoted(cfg, inTransaction, WithAssociate(cfg, inTransaction, list, names[0], true), names[1..])
  }

  /** EXPLAIN ANALYZE of a SELECT: to tell whether it is a SELECT itself, its functions are looked at. */
  predicate Explains(node: Node)
  {
    match node
    case Explain(analyzed) => analyzed.Some? && analyzed.value.Select?
    case Prepare(_, statement) => Explains(statement)
    case _ => false
  }

  /** The walker for writing functions descends into SELECT, also when it is prepared or analyzed. */
  predicate Walkable(node: Node)
  {
    node.Select? || (node.Prepare? && node.statement.Select?) || Explains(node)
  }

  /** The memory after the walker: the associates of the functions it meets count as written. */
  function Walked(cfg: Config, m: Memory, q: Query): (r: Memory)
  {
    if cfg.onWrite.DmlAdaptive? && Walkable(q.node)
    then m.(writeList := CallsNoted(cfg, m.inTransaction, m.writeList, q.functions))
    else m
  }

  /** Before a query is routed, the walker looks for pg_terminate_backend in a SELECT. */
  function Arrived(cfg: Config, m: Memory, q: Query): (r: Memory)
  {
    if q.arrival.Simple? && q.node.Select? then Walked(cfg, m, q) else m
  }

  /** The memory after the statement has been looked at. */
  function Remember(cfg: Config, m: Memory, q: Query): (r: Memory)
  {
    if !cfg.onWrite.DmlAdaptive? then m
    else if IsStart(q.node) then m.(inTransaction := true, writeList := [])
    else if IsCommitOrRollback(q.node) then m.(inTransaction := false, writeList := [])
    else if q.node.TransactionStmt? then m
    else
      var e := if Explains(q.node) then Walked(cfg, m, q) else m;
      if q.facts.isSelect then e
      else e.(writeList := NotedAll(cfg, e.inTransaction, e.writeList, q.relations))
  }

  lemma WalkKeepsNode(cfg: Config, m: Memory, q: Query)
    ensures Walked(cfg, m, q).lb == m.lb && Walked(cfg, m, q).inTransaction == m.inTransaction
  {
  }

  lemma RememberKeepsNode(cfg: Config, m: Memory, q: Query)
    ensures Remember(cfg, m, q).lb == m.lb
  {
  }

  /** The statement reads a relation this transaction is known to have written. */
  predicate ReadsWritten(cfg: Config, m: Memory, q: Query)
  {
    && cfg.onWrite.DmlAdaptive? && m.inTransaction
    && exists i :: 0 <= i < |q.relations| && InList(q.relations[i], m.writeList)
  }

  // ----- the decision

  /** "All" nodes: in streaming and logical mode only those that can matter to this session. */
  function AllNodes(cfg: Config, cl: Cluster, lb: int): (r: set<int>)
    requires cl.Valid()
  {
    if !cfg.mode.SL() then cl.up
    else if !cfg.loadBalance then
      set i | i in cl.up && (i == cl.Primary() || (cl.Primary() < 0 && i == cl.myMain))
    else set i | i in cl.up && (cfg.statementLevel || i == cl.Primary() || i == lb)
  }

  lemma AllNodesUp(cfg: Config, cl: Cluster, lb: int)
    requires cl.Valid()
    ensures AllNodes(cfg, cl, lb) <= cl.up
    ensures !cfg.mode.SL() ==> AllNodes(cfg, cl, lb) == cl.up
  {
  }

  predicate QuietTransaction(f: Facts)
  {
    f.txState.Idle? || (!f.writing && !f.failed && !f.serializable)
  }

  /** The node a load-balanced statement would go to. */
  function Balanced(cfg: Config, m: Memory, f: Facts): (node: int)
  {
    var first := if cfg.statementLevel then f.pick else m.lb;
    if cfg.mode.Streaming? && f.delayed then f.repick else first
  }

  /** The SELECT uses no catalog, temporary or unlogged table and matches no pattern for the primary. */
  predicate Unremarkable(cfg: Config, f: Facts)
  {
    !f.systemCatalog && !f.tempTable && !(cfg.checkUnlogged && f.unloggedTable) && !f.primaryPattern
  }

  /** The guards before the one about writing functions. */
  predicate MayAskFunctions(cfg: Config, q: Query)
  {
    var f := q.facts;
    var dest := SendToWhere(q.node, cfg.mode.SL(), f.txByMulti);
    && dest != PrimaryOnly && dest != Both
    && !(f.writing && cfg.onWrite.Always?)
    && cfg.loadBalance && f.isSelect && f.protocol3
    && QuietTransaction(f)
    && Unremarkable(cfg, f)
  }

  /** The memory the test of the write list meets: asking about functions may have lengthened the list. */
  function Considered(cfg: Config, m: Memory, q: Query): (r: Memory)
  {
    var m' := Remember(cfg, m, q);
    if MayAskFunctions(cfg, q) then Walked(cfg, m', q) else m'
  }

  /** Every guard between a statement and a node other than the primary, the delay apart. */
  predicate MayBalance(cfg: Config, m: Memory, q: Query)
  {
    MayAskFunctions(cfg, q) && !q.facts.functionCall && !ReadsWritten(cfg, m, q)
  }

  predicate MayLeavePrimary(cfg: Config, m: Memory, q: Query)
  {
    MayBalance(cfg, m, q) && (cfg.mode.Streaming? && q.facts.delayed ==> cfg.preferLowerDelay)
  }

  function PlanMainReplica(cfg: Config, cl: Cluster, m: Memory, lb: int, q: Query): (p: Plan)
    requires cl.Valid()
  {
    var m' := Considered(cfg, m, q);
    var dest := SendToWhere(q.node, cfg.mode.SL(), q.facts.txByMulti);
    if dest.Both? && !q.facts.txByMulti then Plan(AllNodes(cfg, cl, m.lb), lb, m')
    else if MayLeavePrimary(cfg, m', q) then
      var node := Balanced(cfg, m, q.facts);
      Plan({node}, node, m'.(lb := node))
    else if MayBalance(cfg, m', q) && cfg.statementLevel then Plan({cl.Primary()}, lb, m'.(lb := q.facts.pick))
    else Plan({cl.Primary()}, lb, m')
  }

  /** In snapshot isolation a SELECT inside a read-only transaction is balanced before anything else. */
  predicate ReadOnlySnapshot(cfg: Config, f: Facts)
  {
    && cfg.mode.SnapshotIsolation?
    && ((f.txState.InBlock? && f.readOnlyTx) || (f.txState.Idle? && f.readOnlyDefault))
  }

  /** The statement may change data on the node that runs it, so every node must run it. */
  predicate MustReplicate(cfg: Config, q: Query)
  {
    !q.facts.isSelect || q.facts.functionCall || cfg.replicateSelect
  }

  function PlanReplication(cfg: Config, cl: Cluster, m: Memory, lb: int, q: Query): (p: Plan)
    requires cl.Valid()
  {
    var f := q.facts;
    var balanceable := cfg.loadBalance && f.isSelect && f.protocol3;
    if balanceable && (ReadOnlySnapshot(cfg, f) || (!MustReplicate(cfg, q) && QuietTransaction(f))) then
      var node := if cfg.statementLevel then f.pick else m.lb;
      Plan({node}, node, m.(lb := node))
    else if MustReplicate(cfg, q) then Plan(AllNodes(cfg, cl, m.lb), lb, m)
    else Plan({cl.realMain}, lb, m)
  }

  /** Before prepared statements are considered; `lb` is the load balance node of the context so far. */
  function BasePlan(cfg: Config, cl: Cluster, m: Memory, lb: int, q: Query): (p: Plan)
    requires cl.Valid()
  {
    if cfg.mode.Raw? then Plan({cl.realMain}, lb, m)
    else if cfg.mode.MainReplica() then
      if q.multi then Plan({cl.Primary()}, lb, m) else PlanMainReplica(cfg, cl, m, lb, q)
    else
      if q.multi then Plan(AllNodes(cfg, cl, m.lb), lb, m) else PlanReplication(cfg, cl, m, lb, q)
  }

  /** What a prepared statement was given when it was prepared. */
  datatype Stored = Stored(where: set<int>, lb: int)

  predicate UsesPrepared(node: Node)
  {
    node.Execute? || node.Deallocate?
  }

  /** The name to look up, if the statement uses one prepared statement. */
  function PreparedName(node: Node): (r: Option<string>)
  {
    if node.Execute? then Some(node.name)
    else if node.Deallocate? then node.target
    else None
  }

  /** EXECUTE and DEALLOCATE go where the statement they name went. */
  function Inherit(cfg: Config, cl: Cluster, p: Plan, node: Node, stored: Option<Stored>): (r: Plan)
    requires cl.Valid()
  {
    if !UsesPrepared(node) then p
    else if PreparedName(node).None? then p.(where := p.where + AllNodes(cfg, cl, p.memory.lb))
    else if stored.Some? then p.(where := stored.value.where, lb := stored.value.lb)
    else if cfg.mode.SL() then p.(where := p.where + {cl.Primary()})
    else p.(where := p.where + AllNodes(cfg, cl, p.memory.lb))
  }

  function FinalPlan(cfg: Config, cl: Cluster, m: Memory, lb: int, q: Query, stored: Option<Stored>): (p: Plan)
    requires cl.Valid()
  {
    Inherit(cfg, cl, BasePlan(cfg, cl, m, lb, q), q.node, stored)
  }

  /** The nodes a Parse message goes to: under dml_adaptive a named statement is parsed everywhere. */
  function Parsed(cfg: Config, cl: Cluster, p: Plan, arrival: Arrival): (r: Plan)
    requires cl.Valid()
  {
    if arrival.ParseNamed? && cfg.onWrite.DmlAdaptive? then p.(where := p.where + AllNodes(cfg, cl, p.memory.lb)) else p
  }

  /** The lowest-numbered backend in the map, or `otherwise` if there is none. */
  function FirstTarget(where: set<int>, i: nat, n: nat, otherwise: int): (r: int)
    requires i <= n
    decreases n - i
  {
    if i == n then otherwise else if i in where then i else FirstTarget(where, i + 1, n, otherwise)
  }

  /** The node whose answer speaks for all: pool_virtual_main_db_node_id for a query in progress. */
  function VirtualMain(cfg: Config, cl: Cluster, first: int, lb: int, terminating: bool): (r: int)
  {
    if cfg.mode.SL() && first != lb && first != cl.Primary() && !terminating then cl.Primary() else first
  }
}
