/**
 * The multi-run aggregator: run one strategy on several independent draw
 * sequences and average the trajectories step by step and, for the learning
 * policies, the final estimates arm by arm.
 */
module Aggregator {
  import opened Bandit
  import opened Estimator
  import opened Simulator

  datatype Option<T> = None | Some(value: T)

  /** A strategy as the aggregator sees it. The random baseline forms no
      estimates, so the aggregator returns none for it. */
  datatype Strategy = Learning(learner: Learner) | RandomBaseline

  function Sum(xs: seq<real>): real {
    if |xs| == 0 then 0.0 else Sum(xs[..|xs| - 1]) + xs[|xs| - 1]
  }

  function Mean(xs: seq<real>): real
    requires |xs| >= 1
  {
    Sum(xs) / |xs| as real
  }

  lemma {:induction false} SumBounds(xs: seq<real>)
    requires AllInUnit(xs)
    ensures 0.0 <= Sum(xs) <= |xs| as real
  {
    if |xs| > 0 {
      SumBounds(xs[..|xs| - 1]);
    }
  }

  /** The mean of values in `[0, 1]` lies in `[0, 1]`. */
  lemma MeanInUnit(xs: seq<real>)
    requires |xs| >= 1 && AllInUnit(xs)
    ensures InUnit(Mean(xs))
  {
    SumBounds(xs);
    RatioInUnit(Sum(xs), |xs| as real);
  }

  lemma {:induction false} SumAppend(xs: seq<real>, ys: seq<real>)
    ensures Sum(xs + ys) == Sum(xs) + Sum(ys)
  {
    if |ys| > 0 {
      assert (xs + ys)[..|xs + ys| - 1] == xs + ys[..|ys| - 1];
      SumAppend(xs, ys[..|ys| - 1]);
    } else {
      assert xs + ys == xs;
    }
  }

  /** Summation across runs does not depend on the order of the runs. */
  lemma {:induction false} SumIgnoresOrder(xs: seq<real>, ys: seq<real>)
    requires multiset(xs) == multiset(ys)
    ensures Sum(xs) == Sum(ys)
    decreases |xs|
  {
    if |xs| > 0 {
      var x := xs[|xs| - 1];
      assert x in multiset(ys);
      var k :| 0 <= k < |ys| && ys[k] == x;
      var rest := ys[..k] + ys[k + 1..];
      assert ys == ys[..k] + [x] + ys[k + 1..];
      assert xs == xs[..|xs| - 1] + [x];
      assert multiset(rest) == multiset(ys) - multiset{x};
      assert multiset(xs[..|xs| - 1]) == multiset(xs) - multiset{x};
      SumIgnoresOrder(xs[..|xs| - 1], rest);
      SumAppend(ys[..k] + [x], ys[k + 1..]);
      SumAppend(ys[..k], [x]);
      SumAppend(ys[..k], ys[k + 1..]);
      assert Sum([x]) == x by { assert [x][..0] == []; }
    }
  }

  /** Entry `j` of every row. */
  function Column(rows: seq<seq<real>>, j: nat): (col: seq<real>)
    requires forall i :: 0 <= i < |rows| ==> j < |rows[i]|
    ensures |col| == |rows|
    ensures forall i :: 0 <= i < |rows| ==> col[i] == rows[i][j]
  {
    seq(|rows|, i requires 0 <= i < |rows| => rows[i][j])
  }

  /** The element-wise mean of equally long rows. */
  function AverageColumns(rows: seq<seq<real>>, width: nat): (avg: seq<real>)
    requires |rows| >= 1
    requires forall i :: 0 <= i < |rows| ==> |rows[i]| == width
    ensures |avg| == width
    ensures forall j :: 0 <= j < width ==> avg[j] == Mean(Column(rows, j))
    ensures (forall i :: 0 <= i < |rows| ==> AllInUnit(rows[i])) ==> AllInUnit(avg)
  {
    AverageInUnit(rows, width);
    seq(width, j requires 0 <= j < width => Mean(Column(rows, j)))
  }

  lemma AverageInUnit(rows: seq<seq<real>>, width: nat)
    requires |rows| >= 1
    requires forall i :: 0 <= i < |rows| ==> |rows[i]| == width
    ensures (forall i :: 0 <= i < |rows| ==> AllInUnit(rows[i])) ==>
              forall j :: 0 <= j < width ==> InUnit(Mean(Column(rows, j)))
  {
    if forall i :: 0 <= i < |rows| ==> AllInUnit(rows[i]) {
      forall j | 0 <= j < width
        ensures InUnit(Mean(Column(rows, j)))
      {
        MeanInUnit(Column(rows, j));
      }
    }
  }

  /** Whether the strategy consumes uniform arm picks from its draws. */
  predicate UsesPicks(strategy: Strategy) {
    strategy.RandomBaseline? || strategy.learner.EpsilonGreedy?
  }

  /** The draws the aggregator may be given: one sequence of `numSteps`
      draws per run, with picks in range where the strategy uses them. */
  predicate RunDraws(cfg: Config, strategy: Strategy, draws: seq<seq<Draw>>) {
    forall i :: 0 <= i < |draws| ==>
      && |draws[i]| == cfg.numSteps
      && (UsesPicks(strategy) ==> PicksInRange(draws[i], cfg.numArms))
  }

  /** The trajectory of one run of the strategy. */
  function RunCurve(cfg: Config, strategy: Strategy, draws: seq<Draw>): (curve: seq<real>)
    requires cfg.Valid() && |draws| == cfg.numSteps
    requires UsesPicks(strategy) ==> PicksInRange(draws, cfg.numArms)
    ensures |curve| == cfg.numSteps && AllInUnit(curve)
  {
    match strategy
    case Learning(learner) => RunLearner(cfg, learner, draws).0
    case RandomBaseline => RunRandom(cfg, draws)
  }

  /** The trajectories of all runs, one per draw sequence. */
  function Curves(cfg: Config, strategy: Strategy, draws: seq<seq<Draw>>): (curves: seq<seq<real>>)
    requires cfg.Valid() && RunDraws(cfg, strategy, draws)
    ensures |curves| == |draws|
    ensures forall i :: 0 <= i < |draws| ==> curves[i] == RunCurve(cfg, strategy, draws[i])
  {
    seq(|draws|, i requires 0 <= i < |draws| => RunCurve(cfg, strategy, draws[i]))
  }

  /** The final estimates of all runs of a learning policy. */
  function Finals(cfg: Config, learner: Learner, draws: seq<seq<Draw>>): (finals: seq<seq<real>>)
    requires cfg.Valid() && RunDraws(cfg, Learning(learner), draws)
    ensures |finals| == |draws|
    ensures forall i :: 0 <= i < |draws| ==>
              |finals[i]| == cfg.numArms && AllInUnit(finals[i])
              && finals[i] == RunLearner(cfg, learner, draws[i]).1
  {
    seq(|draws|, i requires 0 <= i < |draws| => RunLearner(cfg, learner, draws[i]).1)
  }

  /** Average `runs` independent runs of a strategy. The curve has one entry
      per step, the mean over runs of that step's running average, and lies
      in `[0, 1]`. A learning strategy also yields one averaged estimate per
      arm, the mean over runs of that arm's final estimate; the random
      baseline yields none. */
  function AverageRuns(cfg: Config, strategy: Strategy, runs: nat, draws: seq<seq<Draw>>)
    : (r: (seq<real>, Option<seq<real>>))
    requires cfg.Valid() && runs >= 1 && |draws| == runs && RunDraws(cfg, strategy, draws)
    ensures |r.0| == cfg.numSteps && AllInUnit(r.0)
    ensures forall t :: 0 <= t < cfg.numSteps ==> r.0[t] == Mean(Column(Curves(cfg, strategy, draws), t))
    ensures r.1.None? <==> strategy.RandomBaseline?
    ensures r.1.Some? ==> |r.1.value| == cfg.numArms && AllInUnit(r.1.value)
    ensures r.1.Some? ==> forall a :: 0 <= a < cfg.numArms ==>
              r.1.value[a] == Mean(Column(Finals(cfg, strategy.learner, draws), a))
  {
    var avg := AverageCurve(cfg, strategy, draws);
    match strategy
    case RandomBaseline => (avg, None)
    case Learning(learner) => (avg, Some(AverageFinals(cfg, learner, draws)))
  }

  function AverageCurve(cfg: Config, strategy: Strategy, draws: seq<seq<Draw>>): (avg: seq<real>)
    requires cfg.Valid() && |draws| >= 1 && RunDraws(cfg, strategy, draws)
    ensures |avg| == cfg.numSteps && AllInUnit(avg)
    ensures forall t :: 0 <= t < cfg.numSteps ==> avg[t] == Mean(Column(Curves(cfg, strategy, draws), t))
  {
    AverageColumns(Curves(cfg, strategy, draws), cfg.numSteps)
  }

  function AverageFinals(cfg: Config, learner: Learner, draws: seq<seq<Draw>>): (avg: seq<real>)
    requires cfg.Valid() && |draws| >= 1 && RunDraws(cfg, Learning(learner), draws)
    ensures |avg| == cfg.numArms && AllInUnit(avg)
    ensures forall a :: 0 <= a < cfg.numArms ==> avg[a] == Mean(Column(Finals(cfg, learner, draws), a))
  {
    AverageColumns(Finals(cfg, learner, draws), cfg.numArms)
  }

  /** The element-wise mean of a single row is that row. */
  lemma AverageOfOneRow(row: seq<real>)
    ensures AverageColumns([row], |row|) == row
  {
    var avg := AverageColumns([row], |row|);
    forall j | 0 <= j < |row|
      ensures avg[j] == row[j]
    {
      var col := Column([row], j);
      assert col[..0] == [];
      assert Sum(col) == Sum(col[..0]) + col[0];
    }
  }

  /** The element-wise mean does not depend on the order of the rows:
      exchanging two rows leaves it unchanged. */
  lemma AverageIgnoresRowOrder(rows: seq<seq<real>>, width: nat, i: nat, j: nat)
    requires |rows| >= 1
    requires forall k :: 0 <= k < |rows| ==> |rows[k]| == width
    requires i < |rows| && j < |rows|
    ensures AverageColumns(rows[i := rows[j]][j := rows[i]], width) == AverageColumns(rows, width)
  {
    var rows' := rows[i := rows[j]][j := rows[i]];
    var a := AverageColumns(rows, width);
    var b := AverageColumns(rows', width);
    forall t | 0 <= t < width
      ensures a[t] == b[t]
    {
      var xs := Column(rows, t);
      var ys := Column(rows', t);
      assert ys == xs[i := xs[j]][j := xs[i]];
      SwapKeepsMultiset(xs, i, j);
      SumIgnoresOrder(xs, ys);
    }
  }

  lemma SwapKeepsMultiset(xs: seq<real>, i: nat, j: nat)
    requires i < |xs| && j < |xs|
    ensures multiset(xs[i := xs[j]][j := xs[i]]) == multiset(xs)
  {
  }

  /** Averaging a single run returns that run's trajectory unchanged. */
  lemma AverageOfOneRun(cfg: Config, strategy: Strategy, draws: seq<Draw>)
    requires cfg.Valid() && |draws| == cfg.numSteps
    requires UsesPicks(strategy) ==> PicksInRange(draws, cfg.numArms)
    ensures AverageRuns(cfg, strategy, 1, [draws]).0 == RunCurve(cfg, strategy, draws)
  {
    var curve := RunCurve(cfg, strategy, draws);
    assert Curves(cfg, strategy, [draws]) == [curve];
    AverageOfOneRow(curve);
  }

  /** Replacing one run's draws keeps the draws admissible. */
  lemma ReplaceKeepsRunDraws(cfg: Config, strategy: Strategy, draws: seq<seq<Draw>>, i: nat, d: seq<Draw>)
    requires RunDraws(cfg, strategy, draws) && i < |draws|
    requires |d| == cfg.numSteps && (UsesPicks(strategy) ==> PicksInRange(d, cfg.numArms))
    ensures RunDraws(cfg, strategy, draws[i := d])
  {
  }

  /** Replacing one run's draws replaces that run's trajectory and no other. */
  lemma ReplaceRun(cfg: Config, strategy: Strategy, draws: seq<seq<Draw>>, i: nat, d: seq<Draw>)
    requires cfg.Valid() && RunDraws(cfg, strategy, draws) && i < |draws|
    requires |d| == cfg.numSteps && (UsesPicks(strategy) ==> PicksInRange(d, cfg.numArms))
    ensures RunDraws(cfg, strategy, draws[i := d])
    ensures Curves(cfg, strategy, draws[i := d]) == Curves(cfg, strategy, draws)[i := RunCurve(cfg, strategy, d)]
  {
    ReplaceKeepsRunDraws(cfg, strategy, draws, i, d);
  }

  /** Replacing one run's draws replaces that run's final estimates and no other. */
  lemma ReplaceFinal(cfg: Config, learner: Learner, draws: seq<seq<Draw>>, i: nat, d: seq<Draw>)
    requires cfg.Valid() && RunDraws(cfg, Learning(learner), draws) && i < |draws|
    requires |d| == cfg.numSteps && (learner.EpsilonGreedy? ==> PicksInRange(d, cfg.numArms))
    ensures RunDraws(cfg, Learning(learner), draws[i := d])
    ensures Finals(cfg, learner, draws[i := d]) == Finals(cfg, learner, draws)[i := RunLearner(cfg, learner, d).1]
  {
    ReplaceKeepsRunDraws(cfg, Learning(learner), draws, i, d);
  }

  /** Exchanging two runs' draws exchanges their trajectories. */
  lemma SwapRuns(cfg: Config, strategy: Strategy, draws: seq<seq<Draw>>, i: nat, j: nat)
    requires cfg.Valid() && RunDraws(cfg, strategy, draws)
    requires i < |draws| && j < |draws|
    ensures RunDraws(cfg, strategy, draws[i := draws[j]][j := draws[i]])
    ensures var curves := Curves(cfg, strategy, draws);
            Curves(cfg, strategy, draws[i := draws[j]][j := draws[i]]) == curves[i := curves[j]][j := curves[i]]
  {
    ReplaceRun(cfg, strategy, draws, i, draws[j]);
    ReplaceRun(cfg, strategy, draws[i := draws[j]], j, draws[i]);
  }

  /** Exchanging two runs' draws exchanges their final estimates. */
  lemma SwapFinals(cfg: Config, learner: Learner, draws: seq<seq<Draw>>, i: nat, j: nat)
    requires cfg.Valid() && RunDraws(cfg, Learning(learner), draws)
    requires i < |draws| && j < |draws|
    ensures RunDraws(cfg, Learning(learner), draws[i := draws[j]][j := draws[i]])
    ensures var finals := Finals(cfg, learner, draws);
            Finals(cfg, learner, draws[i := draws[j]][j := draws[i]]) == finals[i := finals[j]][j := finals[i]]
  {
    ReplaceFinal(cfg, learner, draws, i, draws[j]);
    ReplaceFinal(cfg, learner, draws[i := draws[j]], j, draws[i]);
  }

  /** The averages do not depend on the order in which the runs are listed:
      exchanging two runs leaves both the averaged curve and the averaged
      estimates unchanged. */
  lemma AverageIgnoresRunOrder(cfg: Config, strategy: Strategy, runs: nat, draws: seq<seq<Draw>>, i: nat, j: nat)
    requires cfg.Valid() && runs >= 1 && |draws| == runs && RunDraws(cfg, strategy, draws)
    requires i < runs && j < runs
    ensures var swapped := draws[i := draws[j]][j := draws[i]];
            AverageRuns(cfg, strategy, runs, swapped).0 == AverageRuns(cfg, strategy, runs, draws).0
    ensures var swapped := draws[i := draws[j]][j := draws[i]];
            AverageRuns(cfg, strategy, runs, swapped).1 == AverageRuns(cfg, strategy, runs, draws).1
  {
    SwapRuns(cfg, strategy, draws, i, j);
    var curves := Curves(cfg, strategy, draws);
    AverageIgnoresRowOrder(curves, cfg.numSteps, i, j);
    if strategy.Learning? {
      SwapFinals(cfg, strategy.learner, draws, i, j);
      var finals := Finals(cfg, strategy.learner, draws);
      AverageIgnoresRowOrder(finals, cfg.numArms, i, j);
    }
  }
}
