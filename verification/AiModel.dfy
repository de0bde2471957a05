/** The adaptive balancer's model state and what each call makes of it, over the reals. */
module AiModel {
  import opened Bytes

  datatype Mode = Disabled | Adaptive | Predictive | Hybrid

  datatype Metrics = Metrics(avg: real, load: real, total: nat, succeeded: nat, failed: nat,
                             errorRate: real, health: real)

  datatype Model = Model(mode: Mode, nodes: seq<Metrics>, rate: real, decisions: nat, successes: nat)

  datatype Pattern = Pattern(complexity: int, rows: int, readOnly: bool)

  const EXPLORATION_RATE := 0.2
  const FRESH := Metrics(0.0, 0.0, 0, 0, 0, 0.0, 1.0)

  function Initial(mode: Mode, n: nat): (m: Model)
  {
    Model(mode, seq(n, i requires 0 <= i < n => FRESH), 0.1, 0, 0)
  }

  function Min(a: real, b: real): (r: real) { if a < b then a else b }

  function Max(a: real, b: real): (r: real) { if a > b then a else b }

  function Abs(a: real): (r: real) { if a < 0.0 then -a else a }

  /** A moving average: the sample weighs alpha. */
  function Blend(alpha: real, sample: real, mean: real): (r: real)
  {
    alpha * sample + (1.0 - alpha) * mean
  }

  // ----- scores

  /** 1 for no time at all, 0 from a second on. */
  function Speed(time: real): (r: real)
  {
    1.0 - Min(time / 1000.0, 1.0)
  }

  function Complexity(p: Pattern): (f: real)
  {
    var f := 1.0 + p.complexity as real / 200.0;
    var g := if p.rows > 1000 then f * 1.5 else if p.rows > 100 then f * 1.2 else f;
    if p.readOnly then g * 0.8 else g
  }

  function Predicted(m: Metrics, p: Pattern): (time: real)
  {
    (if m.avg > 0.0 then m.avg else 50.0) * Complexity(p)
  }

  function BaseScore(m: Metrics): (s: real)
  {
    m.health * 0.4 + (1.0 - m.load) * 0.3 + (if m.avg > 0.0 then Speed(m.avg) else 0.5) * 0.3
  }

  function Score(mode: Mode, m: Metrics, p: Option<Pattern>): (s: real)
  {
    if mode.Predictive? && p.Some? && Predicted(m, p.value) > 0.0
    then BaseScore(m) * 0.7 + Speed(Predicted(m, p.value)) * 0.3
    else BaseScore(m)
  }

  // ----- steps

  /** Metrics not updated for a minute drift back. */
  function Decayed(m: Metrics, stale: bool): (r: Metrics)
  {
    if !stale then m
    else m.(load := m.load * 0.9, health := if m.health < 1.0 then Min(1.0, m.health + 0.05) else m.health)
  }

  function Counted(m: Metrics, success: bool): (r: Metrics)
    ensures r.total == m.total + 1
  {
    if success then m.(total := m.total + 1, succeeded := m.succeeded + 1)
    else m.(total := m.total + 1, failed := m.failed + 1)
  }

  function Health(avg: real, succeeded: nat, total: nat): (h: real)
    requires total > 0
  {
    succeeded as real / total as real * 0.6 + (if avg < 100.0 then 1.0 else if avg < 500.0 then 0.8 else 0.5) * 0.4
  }

  function Observed(m: Metrics, alpha: real, time: real, success: bool): (r: Metrics)
  {
    var c := Counted(m, success);
    var avg := if m.avg == 0.0 then time else Blend(alpha, time, m.avg);
    var sample := if time > 100.0 then 0.7 else if time > 50.0 then 0.5 else 0.3;
    c.(avg := avg,
       errorRate := c.failed as real / c.total as real,
       health := Health(avg, c.succeeded, c.total),
       load := Blend(alpha, sample, m.load))
  }

  function Updated(s: Model, node: int, time: real, success: bool): (r: Model)
  {
    if 0 <= node < |s.nodes| then
      s.(nodes := s.nodes[node := Observed(s.nodes[node], s.rate, time, success)],
         successes := if success then s.successes + 1 else s.successes)
    else s
  }

  /** A poor prediction speeds learning up, a good one slows it down. */
  function Adjusted(rate: real, error: real): (r: real)
  {
    if error > 100.0 then Min(0.2, rate * 1.1)
    else if error < 10.0 then Max(0.05, rate * 0.95)
    else rate
  }

  function Learned(s: Model, node: int, p: Option<Pattern>, time: real, success: bool): (r: Model)
  {
    if p.Some? && 0 <= node < |s.nodes| then
      var error := Abs(time - Predicted(s.nodes[node], p.value));
      Updated(s, node, time, success).(rate := Adjusted(s.rate, error))
    else s
  }

  function ResetAll(s: Model): (r: Model)
  {
    s.(decisions := 0, successes := 0, nodes := seq(|s.nodes|, i requires 0 <= i < |s.nodes| => FRESH))
  }

  // ----- selection

  /** The available nodes are nodes, each with whether its metrics are stale. */
  predicate Selectable(n: nat, available: seq<int>, stale: seq<bool>)
  {
    |available| == |stale| && forall i :: 0 <= i < |available| ==> 0 <= available[i] < n
  }

  /** The metrics and scores once the first k available nodes are decayed and scored. */
  function Sweep(s: Model, p: Option<Pattern>, available: seq<int>, stale: seq<bool>, k: nat)
    : (r: (seq<Metrics>, seq<real>))
    requires k <= |available| && Selectable(|s.nodes|, available, stale)
    ensures |r.0| == |s.nodes| && |r.1| == k
  {
    if k == 0 then (s.nodes, [])
    else
      var (nodes, scores) := Sweep(s, p, available, stale, k - 1);
      var m := Decayed(nodes[available[k - 1]], stale[k - 1]);
      (nodes[available[k - 1] := m], scores + [Score(s.mode, m, p)])
  }

  function Scores(s: Model, p: Option<Pattern>, available: seq<int>, stale: seq<bool>): (r: seq<real>)
    requires Selectable(|s.nodes|, available, stale)
    ensures |r| == |available|
  {
    Sweep(s, p, available, stale, |available|).1
  }

  function Swept(s: Model, p: Option<Pattern>, available: seq<int>, stale: seq<bool>): (r: Model)
    requires Selectable(|s.nodes|, available, stale)
    ensures |r.nodes| == |s.nodes|
  {
    s.(nodes := Sweep(s, p, available, stale, |available|).0, decisions := s.decisions + 1)
  }

  function Sum(w: seq<real>): (r: real)
  {
    if w == [] then 0.0 else Sum(w[..|w| - 1]) + w[|w| - 1]
  }

  /** The first of the greatest values. */
  ghost predicate FirstMax(w: seq<real>, i: nat)
  {
    && i < |w|
    && (forall j :: 0 <= j < |w| ==> w[j] <= w[i])
    && (forall j :: 0 <= j < i ==> w[j] < w[i])
  }

  predicate AllPositive(w: seq<real>)
  {
    forall i :: 0 <= i < |w| ==> w[i] > 0.0
  }

  /** The draw scaled to the total weight. */
  function Point(w: seq<real>, roll: real): (r: real)
  {
    roll * Sum(w)
  }

  /** Position i is where the point falls when the weights are laid end to end. */
  ghost predicate Brackets(w: seq<real>, point: real, i: nat)
  {
    && i < |w|
    && point <= Sum(w[..i + 1])
    && (i > 0 ==> Sum(w[..i]) < point)
  }

  lemma SumStep(w: seq<real>, i: nat)
    requires i < |w|
    ensures Sum(w[..i + 1]) == Sum(w[..i]) + w[i]
  {
    assert w[..i + 1][..i] == w[..i];
  }

  lemma {:induction false} SumPositive(w: seq<real>)
    requires AllPositive(w)
    ensures Sum(w) >= 0.0 && (w != [] ==> Sum(w) > 0.0)
  {
    if w == [] {
    } else {
      SumPositive(w[..|w| - 1]);
    }
  }

  lemma PointInside(w: seq<real>, roll: real)
    requires 0.0 <= roll <= 1.0 && Sum(w) >= 0.0
    ensures Point(w, roll) <= Sum(w)
  {
    assert (1.0 - roll) * Sum(w) >= 0.0;
  }
}
