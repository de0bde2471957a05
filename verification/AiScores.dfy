/** What the scores of the balancer prefer, and what its averages come to. */
module AiScores {
  import opened Bytes
  import opened AiModel

  /** The speed of a node lies between 1 and 0 and falls by one in a second. */
  lemma SpeedFalls(a: real, b: real)
    requires a <= b
    ensures Speed(a) >= Speed(b)
    ensures 0.0 <= a && b <= 1000.0 ==> Speed(a) - Speed(b) == (b - a) / 1000.0
    ensures Speed(0.0) == 1.0 && (a >= 1000.0 ==> Speed(a) == 0.0)
  {
  }

  lemma Scaled(a: real, b: real, f: real)
    requires a <= b && f > 0.0
    ensures a * f <= b * f
  {
  }

  lemma PredictionSign(a: real, f: real)
    requires a > 0.0
    ensures a * f > 0.0 <==> f > 0.0
  {
  }

  /** Of two measured nodes, one that is no less healthy, no more loaded and no slower never scores less. */
  lemma ScorePrefers(mode: Mode, a: Metrics, b: Metrics, p: Option<Pattern>)
    requires a.health >= b.health && a.load <= b.load && 0.0 < a.avg <= b.avg
    ensures Score(mode, a, p) >= Score(mode, b, p)
  {
    hide Speed, Complexity;
    SpeedFalls(a.avg, b.avg);
    if p.Some? {
      var f := Complexity(p.value);
      PredictionSign(a.avg, f);
      PredictionSign(b.avg, f);
      if f > 0.0 {
        Scaled(a.avg, b.avg, f);
        SpeedFalls(Predicted(a, p.value), Predicted(b, p.value));
      }
    }
  }

  /** The weights: 0.4 for health, 0.3 for load, 0.3 for speed; and 0.3 of the whole for the prediction. */
  lemma ScoreWeights(mode: Mode, m: Metrics, p: Option<Pattern>, health: real, load: real)
    ensures BaseScore(m.(health := health)) - BaseScore(m) == 0.4 * (health - m.health)
    ensures BaseScore(m.(load := load)) - BaseScore(m) == -0.3 * (load - m.load)
    ensures m.avg > 0.0 ==> BaseScore(m) - BaseScore(m.(avg := 1000.0)) == 0.3 * Speed(m.avg)
    ensures BaseScore(Metrics(1000.0, 1.0, m.total, m.succeeded, m.failed, m.errorRate, 0.0)) == 0.0
    ensures m.avg <= 0.0 ==> BaseScore(m) == BaseScore(m.(avg := 500.0))
    ensures Score(mode, m, None) == BaseScore(m) && (mode != Predictive ==> Score(mode, m, p) == BaseScore(m))
    ensures p.Some? && Predicted(m, p.value) > 0.0 ==> Score(Predictive, m, p) == 0.7 * BaseScore(m) + 0.3 * Speed(Predicted(m, p.value))
  {
  }

  /** Health counts successes for 0.6 and the average time, in three steps, for 0.4. */
  lemma HealthValues(avg: real, succeeded: nat, total: nat)
    requires total > 0 && succeeded <= total
    ensures succeeded == total && avg < 100.0 ==> Health(avg, succeeded, total) == 1.0
    ensures succeeded == total && 100.0 <= avg < 500.0 ==> Health(avg, succeeded, total) == 0.92
    ensures succeeded == total && avg >= 500.0 ==> Health(avg, succeeded, total) == 0.8
    ensures Health(avg, total, total) - Health(avg, succeeded, total) == 0.6 * ((total - succeeded) as real / total as real)
  {
    assert total as real / total as real == 1.0;
  }

  /** Two reports for a new node: a success in 60 ms, then a failure after 160 ms. */
  lemma TwoReports()
    ensures var one := Observed(FRESH, 0.1, 60.0, true);
            var two := Observed(one, 0.1, 160.0, false);
            && one.avg == 60.0 && one.load == 0.05 && one.health == 1.0 && one.errorRate == 0.0
            && two.avg == 70.0 && two.load == 0.115 && two.health == 0.7 && two.errorRate == 0.5
  {
  }

  /** A row count above a hundred, above a thousand, and a query that only reads. */
  lemma ComplexityValues()
    ensures Complexity(Pattern(50, 100, true)) == 1.0 && Complexity(Pattern(100, 100, false)) == 1.5
    ensures Complexity(Pattern(0, 101, false)) == 1.2 && Complexity(Pattern(0, 1000, false)) == 1.2
    ensures Complexity(Pattern(0, 1001, false)) == 1.5
  {
  }

  /** A node never measured is predicted as if it took 50 ms. */
  lemma PredictedValues(m: Metrics, p: Pattern)
    ensures m.avg <= 0.0 ==> Predicted(m, p) == Predicted(m.(avg := 50.0), p)
    ensures m.avg > 0.0 && p == Pattern(50, 100, true) ==> Predicted(m, p) == m.avg
  {
  }

  /** The rate grows by a tenth after a poor prediction and shrinks by a twentieth after a good one, within its bounds. */
  lemma RateValues()
    ensures Adjusted(0.1, 101.0) == 0.11 && Adjusted(0.19, 101.0) == 0.2
    ensures Adjusted(0.1, 9.0) == 0.095 && Adjusted(0.05, 9.0) == 0.05
    ensures Adjusted(0.1, 10.0) == 0.1 && Adjusted(0.1, 100.0) == 0.1
  {
  }

  /** A minute without reports takes a tenth off the load and gives back a twentieth of health. */
  lemma StaleValues(m: Metrics)
    ensures Decayed(m, false) == m
    ensures Decayed(m, true).load == m.load - m.load / 10.0
    ensures m.health <= 0.95 ==> Decayed(m, true).health == m.health + 0.05
    ensures 0.95 <= m.health <= 1.0 ==> Decayed(m, true).health == 1.0
  {
  }
}
