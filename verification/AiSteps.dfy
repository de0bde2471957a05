/** The balancer's calls on its state in place. */
module AiSteps {
  import opened Bytes
  import opened AiModel

  method BestIndex(scores: seq<real>) returns (best: nat)
    requires scores != []
    ensures FirstMax(scores, best)
  {
    var max := scores[0];
    best := 0;
    for i := 1 to |scores|
      invariant best < i && max == scores[best]
      invariant forall j :: 0 <= j < i ==> scores[j] <= max
      invariant forall j :: 0 <= j < best ==> scores[j] < max
    {
      if scores[i] > max {
        max, best := scores[i], i;
      }
    }
  }

  /** With positive weights neither the zero-total branch nor the fallback to the last node is taken. */
  method WeightedIndex(weights: seq<real>, dice: nat, roll: real) returns (pick: nat, ghost regular: bool)
    requires weights != [] && 0.0 <= roll <= 1.0
    ensures pick < |weights|
    ensures regular ==> Brackets(weights, Point(weights, roll), pick)
    ensures AllPositive(weights) ==> regular
  {
    hide Sum, Point, AllPositive;
    var total := 0.0;
    EmptySum(weights);
    for i := 0 to |weights|
      invariant total == Sum(weights[..i])
    {
      SumStep(weights, i);
      total := total + weights[i];
    }
    assert weights[..|weights|] == weights;
    if AllPositive(weights) {
      SumPositive(weights);
      PointInside(weights, roll);
    }
    if total == 0.0 { return dice % |weights|, false; }
    var point := roll * total;
    assert point == Point(weights, roll) by { PointIs(weights, roll); }
    var cumulative := 0.0;
    for i := 0 to |weights|
      invariant cumulative == Sum(weights[..i])
      invariant i > 0 ==> cumulative < point
    {
      SumStep(weights, i);
      cumulative := cumulative + weights[i];
      if point <= cumulative { return i, true; }
    }
    return |weights| - 1, false;
  }

  lemma EmptySum(w: seq<real>)
    ensures Sum(w[..0]) == 0.0
  {
  }

  lemma PointIs(w: seq<real>, roll: real)
    ensures Point(w, roll) == roll * Sum(w)
  {
  }

  class Balancer {
    var mode: Mode
    const nodes: array<Metrics>
    var rate: real
    var decisions: nat
    var successes: nat

    ghost function View(): (s: Model)
      reads this, nodes
    {
      Model(mode, nodes[..], rate, decisions, successes)
    }

    constructor (m: Mode, n: nat)
      ensures View() == Initial(m, n) && fresh(nodes)
    {
      mode, rate, decisions, successes := m, 0.1, 0, 0;
      nodes := new Metrics[n](_ => FRESH);
    }

    /**
     * Picks a backend among the first n slots; `first` decides between exploring and exploiting,
     * `second` and `dice` are the other draws. With no backend available the first slot is returned.
     */
    method Select(p: Option<Pattern>, slots: seq<int>, n: int, stale: seq<bool>, first: real, second: real, dice: nat)
      returns (node: int, ghost index: nat)
      requires slots != [] && n <= |slots| && 0.0 <= second <= 1.0
      requires n > 0 ==> Selectable(nodes.Length, slots[..n], stale)
      modifies this, nodes
      ensures n <= 0 ==> View() == old(View()) && node == slots[0]
      ensures n > 0 ==> View() == Swept(old(View()), p, slots[..n], stale)
      ensures n > 0 ==> index < n && node == slots[index]
      ensures n > 0 ==>
                var scores := Scores(old(View()), p, slots[..n], stale);
                if first < EXPLORATION_RATE
                then AllPositive(scores) ==> Brackets(scores, Point(scores, second), index)
                else FirstMax(scores, index)
    {
      hide Score, Decayed, Point, Brackets, FirstMax, AllPositive;
      if n <= 0 {
        return slots[0], 0;
      }
      var available := slots[..n];
      ghost var before := View();
      var scores: seq<real> := [];
      for i := 0 to |available|
        invariant mode == before.mode && rate == before.rate
        invariant decisions == before.decisions && successes == before.successes
        invariant (nodes[..], scores) == Sweep(before, p, available, stale, i)
      {
        var m := Decayed(nodes[available[i]], stale[i]);
        nodes[available[i]] := m;
        scores := scores + [Score(mode, m, p)];
      }
      var best;
      if first < EXPLORATION_RATE {
        ghost var regular;
        best, regular := WeightedIndex(scores, dice, second);
      } else {
        best := BestIndex(scores);
      }
      index, node := best, available[best];
      decisions := decisions + 1;
    }

    method UpdateMetrics(node: int, time: real, success: bool)
      modifies this, nodes
      ensures View() == Updated(old(View()), node, time, success)
    {
      if node < 0 || node >= nodes.Length { return; }
      var m := nodes[node];
      var total, succeeded, failed := m.total + 1, m.succeeded, m.failed;
      if success {
        succeeded := succeeded + 1;
        successes := successes + 1;
      } else {
        failed := failed + 1;
      }
      var avg := time;
      if m.avg != 0.0 { avg := Blend(rate, time, m.avg); }
      var health := Health(avg, succeeded, total);
      var sample := if time > 100.0 then 0.7 else if time > 50.0 then 0.5 else 0.3;
      nodes[node] := Metrics(avg, Blend(rate, sample, m.load), total, succeeded, failed,
                             failed as real / total as real, health);
    }

    method LearnFromFeedback(node: int, p: Option<Pattern>, time: real, success: bool)
      modifies this, nodes
      ensures View() == Learned(old(View()), node, p, time, success)
    {
      if p.None? || node < 0 || node >= nodes.Length { return; }
      var error := Abs(time - Predicted(nodes[node], p.value));
      UpdateMetrics(node, time, success);
      if error > 100.0 {
        rate := Min(0.2, rate * 1.1);
      } else if error < 10.0 {
        rate := Max(0.05, rate * 0.95);
      }
    }

    method ResetModel()
      modifies this, nodes
      ensures View() == ResetAll(old(View()))
    {
      decisions, successes := 0, 0;
      for i := 0 to nodes.Length
        invariant mode == old(mode) && rate == old(rate) && decisions == 0 && successes == 0
        invariant forall j :: 0 <= j < i ==> nodes[j] == FRESH
      {
        nodes[i] := FRESH;
      }
    }

    method SetMode(m: Mode)
      modifies this
      ensures View() == old(View()).(mode := m)
    {
      mode := m;
    }
  }
}
