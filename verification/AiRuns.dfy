/** What holds of the balancer's state after every sequence of calls. */
module AiRuns {
  import opened Bytes
  import opened AiModel

  /** One node's metrics, when no response took longer than the bound. */
  ghost predicate Healthy(m: Metrics, bound: real)
  {
    && 0.2 <= m.health <= 1.0
    && 0.0 <= m.load <= 0.7
    && 0.0 <= m.avg <= bound
    && m.total == m.succeeded + m.failed
    && m.errorRate == if m.total == 0 then 0.0 else m.failed as real / m.total as real
  }

  function Successes(nodes: seq<Metrics>): (n: nat)
  {
    if nodes == [] then 0 else nodes[0].succeeded + Successes(nodes[1..])
  }

  ghost predicate AllHealthy(nodes: seq<Metrics>, bound: real)
  {
    forall i :: 0 <= i < |nodes| ==> Healthy(nodes[i], bound)
  }

  ghost predicate Sound(s: Model, bound: real)
  {
    0.05 <= s.rate <= 0.2 && AllHealthy(s.nodes, bound) && s.successes == Successes(s.nodes)
  }

  // ----- one step

  lemma BlendBetween(alpha: real, sample: real, mean: real, low: real, high: real)
    requires 0.0 <= alpha <= 1.0 && low <= sample <= high && low <= mean <= high
    ensures low <= Blend(alpha, sample, mean) <= high
  {
    assert alpha * (sample - low) >= 0.0 && (1.0 - alpha) * (mean - low) >= 0.0;
    assert alpha * (high - sample) >= 0.0 && (1.0 - alpha) * (high - mean) >= 0.0;
  }

  lemma Share(part: nat, whole: nat)
    requires part <= whole && whole > 0
    ensures 0.0 <= part as real / whole as real <= 1.0
  {
  }

  lemma HealthInRange(avg: real, succeeded: nat, total: nat)
    requires succeeded <= total && total > 0
    ensures 0.2 <= Health(avg, succeeded, total) <= 1.0
  {
    Share(succeeded, total);
  }

  lemma ObservedHealthy(m: Metrics, alpha: real, time: real, success: bool, bound: real)
    requires Healthy(m, bound) && 0.0 <= alpha <= 1.0 && 0.0 <= time <= bound
    ensures Healthy(Observed(m, alpha, time, success), bound)
    ensures Observed(m, alpha, time, success).succeeded == m.succeeded + if success then 1 else 0
    ensures Observed(m, alpha, time, success).failed == m.failed + if success then 0 else 1
  {
    hide Blend, Health;
    var avg := if m.avg == 0.0 then time else Blend(alpha, time, m.avg);
    var sample := if time > 100.0 then 0.7 else if time > 50.0 then 0.5 else 0.3;
    var c := Counted(m, success);
    BlendBetween(alpha, time, m.avg, 0.0, bound);
    BlendBetween(alpha, sample, m.load, 0.0, 0.7);
    HealthInRange(avg, c.succeeded, c.total);
  }

  lemma DecayedHealthy(m: Metrics, stale: bool, bound: real)
    requires Healthy(m, bound)
    ensures Healthy(Decayed(m, stale), bound) && Decayed(m, stale).succeeded == m.succeeded
    ensures Decayed(m, stale).failed == m.failed
  {
  }

  lemma SpeedInRange(time: real)
    requires time >= 0.0
    ensures 0.0 <= Speed(time) <= 1.0
  {
  }

  /** Every score of healthy metrics is above zero and at most one, for every pattern. */
  lemma ScoreInRange(mode: Mode, m: Metrics, p: Option<Pattern>, bound: real)
    requires Healthy(m, bound)
    ensures 0.0 < Score(mode, m, p) <= 1.0
  {
    hide Speed, Predicted;
    SpeedInRange(m.avg);
    if p.Some? && Predicted(m, p.value) > 0.0 {
      SpeedInRange(Predicted(m, p.value));
    }
  }

  lemma {:induction false} SuccessesUpdate(nodes: seq<Metrics>, i: nat, m: Metrics)
    requires i < |nodes|
    ensures Successes(nodes[i := m]) == Successes(nodes) - nodes[i].succeeded + m.succeeded
    decreases |nodes|
  {
    if i == 0 {
      assert nodes[i := m][1..] == nodes[1..];
    } else {
      assert nodes[i := m][1..] == nodes[1..][i - 1 := m];
      SuccessesUpdate(nodes[1..], i - 1, m);
    }
  }

  lemma {:induction false} SuccessesFresh(nodes: seq<Metrics>)
    requires forall i :: 0 <= i < |nodes| ==> nodes[i] == FRESH
    ensures Successes(nodes) == 0
  {
    if nodes == [] {
    } else {
      SuccessesFresh(nodes[1..]);
    }
  }

  lemma UpdatedSound(s: Model, node: int, time: real, success: bool, bound: real)
    requires Sound(s, bound) && 0.0 <= time <= bound
    ensures Sound(Updated(s, node, time, success), bound)
  {
    hide Observed, Successes, Healthy;
    if 0 <= node < |s.nodes| {
      ObservedHealthy(s.nodes[node], s.rate, time, success, bound);
      SuccessesUpdate(s.nodes, node, Observed(s.nodes[node], s.rate, time, success));
    }
  }

  /** A sweep leaves the metrics healthy and the counters alone, and its scores are in range. */
  lemma {:induction false} SweepSound(s: Model, p: Option<Pattern>, available: seq<int>, stale: seq<bool>, k: nat, bound: real)
    requires k <= |available| && Selectable(|s.nodes|, available, stale) && AllHealthy(s.nodes, bound)
    ensures var r := Sweep(s, p, available, stale, k);
            && AllHealthy(r.0, bound)
            && Successes(r.0) == Successes(s.nodes)
            && (forall i :: 0 <= i < k ==> 0.0 < r.1[i] <= 1.0)
            && (forall i :: 0 <= i < |r.0| ==>
                  r.0[i].succeeded == s.nodes[i].succeeded && r.0[i].failed == s.nodes[i].failed)
    decreases k
  {
    hide Decayed, Score, Healthy, Successes;
    if k == 0 {
    } else {
      SweepSound(s, p, available, stale, k - 1, bound);
      var nodes := Sweep(s, p, available, stale, k - 1).0;
      var i := available[k - 1];
      var m := Decayed(nodes[i], stale[k - 1]);
      DecayedHealthy(nodes[i], stale[k - 1], bound);
      ScoreInRange(s.mode, m, p, bound);
      SuccessesUpdate(nodes, i, m);
    }
  }

  // ----- runs

  datatype Op =
    | Select(pattern: Option<Pattern>, available: seq<int>, stale: seq<bool>)
    | Update(node: int, time: real, success: bool)
    | Learn(node: int, pattern: Option<Pattern>, time: real, success: bool)
    | Reset
    | SetMode(mode: Mode)

  /** Response times are not negative, nor above the bound; selection is over existing nodes. */
  predicate Allowed(op: Op, n: nat, bound: real)
  {
    match op
    case Select(_, available, stale) => Selectable(n, available, stale)
    case Update(_, time, _) => 0.0 <= time <= bound
    case Learn(_, _, time, _) => 0.0 <= time <= bound
    case _ => true
  }

  function Step(s: Model, op: Op, bound: real): (r: Model)
    requires Allowed(op, |s.nodes|, bound)
    ensures |r.nodes| == |s.nodes|
  {
    match op
    case Select(p, available, stale) => Swept(s, p, available, stale)
    case Update(node, time, success) => Updated(s, node, time, success)
    case Learn(node, p, time, success) => Learned(s, node, p, time, success)
    case Reset => ResetAll(s)
    case SetMode(mode) => s.(mode := mode)
  }

  lemma StepSound(s: Model, op: Op, bound: real)
    requires Sound(s, bound) && bound >= 0.0 && Allowed(op, |s.nodes|, bound)
    ensures Sound(Step(s, op, bound), bound)
  {
    hide Healthy, Updated, Successes, Sweep, Predicted;
    match op
    case Select(p, available, stale) => SweepSound(s, p, available, stale, |available|, bound);
    case Update(node, time, success) => UpdatedSound(s, node, time, success, bound);
    case Learn(node, p, time, success) => UpdatedSound(s, node, time, success, bound);
    case Reset =>
      FreshHealthy(bound);
      SuccessesFresh(ResetAll(s).nodes);
    case SetMode(_) =>
  }

  lemma FreshHealthy(bound: real)
    requires bound >= 0.0
    ensures Healthy(FRESH, bound)
  {
  }

  /** The state after a run from a new balancer, if every call was allowed. */
  ghost function Run(mode: Mode, n: nat, bound: real, ops: seq<Op>): (r: Option<Model>)
    requires bound >= 0.0
    ensures r.Some? ==> |r.value.nodes| == n && Sound(r.value, bound)
  {
    if ops == [] then
      FreshHealthy(bound);
      SuccessesFresh(Initial(mode, n).nodes);
      Some(Initial(mode, n))
    else
      var s := Run(mode, n, bound, ops[..|ops| - 1]);
      var op := ops[|ops| - 1];
      if s.None? || !Allowed(op, n, bound) then None
      else
        StepSound(s.value, op, bound);
        Some(Step(s.value, op, bound))
  }

  /** How many reports of a kind the calls since the last reset made about a node. */
  function Reports(ops: seq<Op>, node: nat, success: bool): (k: nat)
  {
    if ops == [] then 0
    else
      var before := ops[..|ops| - 1];
      match ops[|ops| - 1]
      case Reset => 0
      case Update(i, _, ok) => Reports(before, node, success) + if i == node && ok == success then 1 else 0
      case Learn(i, p, _, ok) =>
        Reports(before, node, success) + if p.Some? && i == node && ok == success then 1 else 0
      case _ => Reports(before, node, success)
  }

  lemma CountStep(s: Model, op: Op, i: nat, bound: real)
    requires Sound(s, bound) && Allowed(op, |s.nodes|, bound) && i < |s.nodes|
    ensures var m, r := s.nodes[i], Step(s, op, bound).nodes[i];
            match op
            case Reset => r.succeeded == 0 && r.failed == 0
            case Update(j, _, ok) =>
              && r.succeeded == m.succeeded + (if j == i && ok then 1 else 0)
              && r.failed == m.failed + if j == i && !ok then 1 else 0
            case Learn(j, p, _, ok) =>
              && r.succeeded == m.succeeded + (if p.Some? && j == i && ok then 1 else 0)
              && r.failed == m.failed + if p.Some? && j == i && !ok then 1 else 0
            case _ => r.succeeded == m.succeeded && r.failed == m.failed
  {
    hide Healthy, Blend, Health, Successes, Predicted, Sweep;
    match op
    case Select(p, available, stale) => SweepSound(s, p, available, stale, |available|, bound);
    case _ =>
  }

  /** The counters of every node are the reports made about it, and the global count is their sum. */
  lemma {:induction false} CountersAreReports(mode: Mode, n: nat, bound: real, ops: seq<Op>, i: nat)
    requires bound >= 0.0 && i < n && Run(mode, n, bound, ops).Some?
    ensures var s := Run(mode, n, bound, ops).value;
            && s.nodes[i].succeeded == Reports(ops, i, true)
            && s.nodes[i].failed == Reports(ops, i, false)
            && s.nodes[i].total == Reports(ops, i, true) + Reports(ops, i, false)
            && s.successes == Successes(s.nodes)
    decreases |ops|
  {
    hide Step, Successes;
    if ops != [] {
      var before := ops[..|ops| - 1];
      CountersAreReports(mode, n, bound, before, i);
      CountStep(Run(mode, n, bound, before).value, ops[|ops| - 1], i, bound);
    }
    assert Healthy(Run(mode, n, bound, ops).value.nodes[i], bound);
  }

  /** After every run all scores are above zero and at most one, so the draw always falls on a node. */
  lemma ScoresAfterRun(mode: Mode, n: nat, bound: real, ops: seq<Op>, p: Option<Pattern>, available: seq<int>, stale: seq<bool>)
    requires bound >= 0.0 && Run(mode, n, bound, ops).Some? && Selectable(n, available, stale)
    ensures var scores := Scores(Run(mode, n, bound, ops).value, p, available, stale);
            AllPositive(scores) && forall i :: 0 <= i < |scores| ==> scores[i] <= 1.0
  {
    hide Run, Sweep, Healthy;
    SweepSound(Run(mode, n, bound, ops).value, p, available, stale, |available|, bound);
  }
}
