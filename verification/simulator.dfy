/**
 * The single-run simulator. A run is a pure function of its configuration
 * and its sequence of draws, one draw per step. The state after `t` steps is
 * defined by recursion on `t`, and the pulls the run made are recorded as a
 * trace, so that the run's outputs can be compared with reference meanings
 * computed from that trace.
 */
module Simulator {
  import opened Bandit
  import opened TieBreak
  import opened Estimator
  import opened Trajectory
  import opened Policies

  /** The two learning policies. UCB1 carries the natural logarithm and the
      square root it applies, which the model does not compute. */
  datatype Learner = EpsilonGreedy(epsilon: real) | Ucb(ln: real -> real, sqrt: real -> real)

  /** The locals of a learning run after some steps: the estimator, the
      trajectory, and the log of the pulls made so far. The log is not kept
      by the simulation itself; it is the record against which the estimator
      and the trajectory are given their meaning. */
  datatype Progress = Progress(est: Estimates, track: Track, trace: seq<Pull>)

  /** UCB1 relies on every arm below `step` having been pulled. */
  predicate WarmedUp(est: Estimates, step: nat) {
    forall a :: 0 <= a < |est.counts| && a < step ==> est.counts[a] >= 1
  }

  /** What a learner's draws must satisfy: epsilon-greedy takes its uniform
      picks from them. UCB1 never draws a pick. */
  predicate DrawsFor(cfg: Config, learner: Learner, draws: seq<Draw>) {
    learner.EpsilonGreedy? ==> PicksInRange(draws, cfg.numArms)
  }

  /** The arm a learner chooses at step `step`. */
  function SelectArm(cfg: Config, learner: Learner, est: Estimates, step: nat, draw: Draw): (arm: nat)
    requires cfg.Valid() && est.Covers(cfg.numArms)
    requires learner.EpsilonGreedy? ==> draw.pick < cfg.numArms
    requires learner.Ucb? ==> WarmedUp(est, step)
    ensures arm < cfg.numArms
  {
    match learner
    case EpsilonGreedy(epsilon) => EpsilonGreedySelect(est.values, epsilon, draw.coin, draw.pick)
    case Ucb(ln, sqrt) => UcbSelect(est.counts, est.values, step, ln, sqrt)
  }

  /** One step of a learner: select an arm, then pull it. */
  function LearnerPull(cfg: Config, learner: Learner, est: Estimates, step: nat, draw: Draw): (p: Pull)
    requires cfg.Valid() && est.Covers(cfg.numArms)
    requires learner.EpsilonGreedy? ==> draw.pick < cfg.numArms
    requires learner.Ucb? ==> WarmedUp(est, step)
    ensures p.arm < cfg.numArms && IsReward(p.reward)
    ensures learner.Ucb? && step < cfg.numArms ==> p.arm == step
  {
    var arm := SelectArm(cfg, learner, est, step, draw);
    Pull(arm, PullArm(cfg.trueMeans, arm, draw.bernoulli))
  }

  /** The loop body shared by both learning runs: pull, update the pulled
      arm's count and estimate, and extend the trajectory. */
  function Advance(cfg: Config, learner: Learner, g: Progress, step: nat, draw: Draw): (g': Progress)
    requires cfg.Valid() && g.est.Covers(cfg.numArms)
    requires learner.EpsilonGreedy? ==> draw.pick < cfg.numArms
    requires learner.Ucb? ==> WarmedUp(g.est, step)
    ensures g'.est.Covers(cfg.numArms)
    ensures g'.trace == g.trace + [LearnerPull(cfg, learner, g.est, step, draw)]
    ensures |g'.track.curve| == |g.track.curve| + 1
    ensures TotalCount(g'.est.counts) == TotalCount(g.est.counts) + 1
    ensures ArmsBelow(g.trace, cfg.numArms) ==> ArmsBelow(g'.trace, cfg.numArms)
    ensures Binary(g.trace) ==> Binary(g'.trace)
    ensures learner.Ucb? ==> WarmedUp(g'.est, step + 1)
  {
    Record(g, LearnerPull(cfg, learner, g.est, step, draw), step)
  }

  /** Record pull `p` made at step `step`: update the estimator, extend the
      trajectory and the log. */
  function Record(g: Progress, p: Pull, step: nat): (g': Progress)
    requires |g.est.counts| == |g.est.values| && p.arm < |g.est.counts|
    ensures g'.est.Covers(|g.est.counts|)
    ensures g'.trace == g.trace + [p]
    ensures |g'.track.curve| == |g.track.curve| + 1
    ensures TotalCount(g'.est.counts) == TotalCount(g.est.counts) + 1
    ensures ArmsBelow(g.trace, |g.est.counts|) ==> ArmsBelow(g'.trace, |g.est.counts|)
    ensures Binary(g.trace) && IsReward(p.reward) ==> Binary(g'.trace)
    ensures WarmedUp(g.est, step) && (step < |g.est.counts| ==> p.arm == step) ==> WarmedUp(g'.est, step + 1)
  {
    UpdateKeepsWarmUp(g.est, p.arm, p.reward, step);
    Progress(Update(g.est, p.arm, p.reward), Extend(g.track, step, p.reward), g.trace + [p])
  }

  /** Pulling arm `step` during the warm-up extends the warmed-up prefix by one. */
  lemma UpdateKeepsWarmUp(est: Estimates, arm: nat, reward: int, step: nat)
    requires |est.counts| == |est.values| && arm < |est.counts|
    ensures WarmedUp(est, step) && (step < |est.counts| ==> arm == step)
            ==> WarmedUp(Update(est, arm, reward), step + 1)
  {
  }

  /** A learning run's locals after its first `t` steps. The sum of all
      counts is the number of steps taken, and under UCB1 every arm below `t`
      has been pulled, so from step `numArms` on the score is always defined. */
  function LearnerAfter(cfg: Config, learner: Learner, draws: seq<Draw>, t: nat): (g: Progress)
    requires cfg.Valid() && t <= |draws| && DrawsFor(cfg, learner, draws)
    ensures g.est.Covers(cfg.numArms)
    ensures |g.track.curve| == t && |g.trace| == t
    ensures ArmsBelow(g.trace, cfg.numArms) && Binary(g.trace)
    ensures TotalCount(g.est.counts) == t
    ensures learner.Ucb? ==> WarmedUp(g.est, t)
  {
    if t == 0 then Progress(Fresh(cfg.numArms), Start(), [])
    else Advance(cfg, learner, LearnerAfter(cfg, learner, draws, t - 1), t - 1, draws[t - 1])
  }

  /** The estimator summarises the log (counts and estimates are the per-arm
      pull counts and sample means) and the trajectory holds the running
      averages of the logged rewards. */
  predicate Consistent(g: Progress) {
    Summarises(g.est, g.trace) && RunningAverages(g.track, RewardsOf(g.trace))
  }

  lemma AdvanceKeepsConsistent(cfg: Config, learner: Learner, g: Progress, step: nat, draw: Draw)
    requires cfg.Valid() && g.est.Covers(cfg.numArms)
    requires learner.EpsilonGreedy? ==> draw.pick < cfg.numArms
    requires learner.Ucb? ==> WarmedUp(g.est, step)
    requires Consistent(g) && step == |g.trace|
    ensures Consistent(Advance(cfg, learner, g, step, draw))
  {
    var p := LearnerPull(cfg, learner, g.est, step, draw);
    UpdateSummarises(g.est, g.trace, p);
    ExtendKeepsRunningAverages(g.track, RewardsOf(g.trace), p.reward);
    RewardsOfAppend(g.trace, p);
  }

  /** The state after any number of steps is consistent with its log. */
  lemma {:induction false} LearnerConsistent(cfg: Config, learner: Learner, draws: seq<Draw>, t: nat)
    requires cfg.Valid() && t <= |draws| && DrawsFor(cfg, learner, draws)
    ensures Consistent(LearnerAfter(cfg, learner, draws, t))
  {
    if t > 0 {
      LearnerConsistent(cfg, learner, draws, t - 1);
      AdvanceKeepsConsistent(cfg, learner, LearnerAfter(cfg, learner, draws, t - 1), t - 1, draws[t - 1]);
    }
  }

  /** One run of a learning policy over `numSteps` draws: the trajectory and
      the final estimates. The trajectory has one entry per step, entry `t`
      being the total reward through step `t` divided by `t + 1`; the
      estimates are the exact sample means of each arm's rewards; and all of
      them lie in `[0, 1]`. */
  function RunLearner(cfg: Config, learner: Learner, draws: seq<Draw>): (r: (seq<real>, seq<real>))
    requires cfg.Valid() && |draws| == cfg.numSteps && DrawsFor(cfg, learner, draws)
    ensures |r.0| == cfg.numSteps && |r.1| == cfg.numArms
    ensures AllInUnit(r.0) && AllInUnit(r.1)
    ensures var rs := RewardsOf(LearnerAfter(cfg, learner, draws, cfg.numSteps).trace);
            forall t :: 0 <= t < cfg.numSteps ==>
              r.0[t] == RewardSum(rs[..t + 1]) as real / (t + 1) as real
    ensures forall a :: 0 <= a < cfg.numArms ==>
              r.1[a] == SampleMean(LearnerAfter(cfg, learner, draws, cfg.numSteps).trace, a)
  {
    var g := LearnerAfter(cfg, learner, draws, cfg.numSteps);
    LearnerRunInUnit(cfg, learner, draws);
    (g.track.curve, g.est.values)
  }

  lemma LearnerRunInUnit(cfg: Config, learner: Learner, draws: seq<Draw>)
    requires cfg.Valid() && |draws| == cfg.numSteps && DrawsFor(cfg, learner, draws)
    ensures var g := LearnerAfter(cfg, learner, draws, cfg.numSteps);
            Consistent(g) && AllInUnit(g.track.curve) && AllInUnit(g.est.values)
  {
    var g := LearnerAfter(cfg, learner, draws, cfg.numSteps);
    LearnerConsistent(cfg, learner, draws, cfg.numSteps);
    RunningAveragesInUnit(g.track, RewardsOf(g.trace));
    forall a | 0 <= a < cfg.numArms
      ensures InUnit(g.est.values[a])
    {
      SampleMeanInUnit(g.trace, a);
    }
  }

  /** Each logged reward is the outcome of the logged arm on that step's draw. */
  predicate RewardsFollowDraws(cfg: Config, draws: seq<Draw>, h: seq<Pull>)
    requires cfg.Valid() && |h| <= |draws| && ArmsBelow(h, cfg.numArms)
  {
    forall k :: 0 <= k < |h| ==> h[k].reward == PullArm(cfg.trueMeans, h[k].arm, draws[k].bernoulli)
  }

  /** The epsilon-greedy rule, read off the log: a step whose coin fell below
      `epsilon` pulled the uniform pick, and every other step pulled the first
      arm of highest sample mean over the pulls before it. */
  predicate FollowsEpsilonGreedy(cfg: Config, epsilon: real, draws: seq<Draw>, h: seq<Pull>)
    requires |h| <= |draws|
  {
    forall k :: 0 <= k < |h| ==>
      && (draws[k].coin < epsilon ==> h[k].arm == draws[k].pick)
      && (draws[k].coin >= epsilon ==> IsFirstMax(Means(h[..k], cfg.numArms), h[k].arm))
  }

  /** The UCB1 rule, read off the log: step `k < numArms` pulled arm `k`;
      every later step found each arm pulled at least once before it and
      pulled the first arm of highest score, the scores being computed from
      the pull counts and sample means over the pulls before it. */
  predicate FollowsUcb(cfg: Config, ln: real -> real, sqrt: real -> real, h: seq<Pull>) {
    forall k :: 0 <= k < |h| ==>
      && (k < cfg.numArms ==> h[k].arm == k)
      && (k >= cfg.numArms ==>
            && PulledEach(h[..k], cfg.numArms)
            && IsFirstMax(UcbScores(Counts(h[..k], cfg.numArms), Means(h[..k], cfg.numArms), k, ln, sqrt),
                          h[k].arm))
  }

  /** What the log of a learner must look like. */
  predicate FollowsLearner(cfg: Config, learner: Learner, draws: seq<Draw>, h: seq<Pull>)
    requires cfg.Valid() && |h| <= |draws| && ArmsBelow(h, cfg.numArms)
  {
    && RewardsFollowDraws(cfg, draws, h)
    && match learner
       case EpsilonGreedy(epsilon) => FollowsEpsilonGreedy(cfg, epsilon, draws, h)
       case Ucb(ln, sqrt) => FollowsUcb(cfg, ln, sqrt, h)
  }

  /** The log after one more step, for the lemmas below. */
  lemma AdvanceLog(cfg: Config, learner: Learner, draws: seq<Draw>, g: Progress)
    requires cfg.Valid() && g.est.Covers(cfg.numArms) && |g.trace| < |draws|
    requires DrawsFor(cfg, learner, draws)
    requires learner.Ucb? ==> WarmedUp(g.est, |g.trace|)
    ensures var step := |g.trace|;
            var p := LearnerPull(cfg, learner, g.est, step, draws[step]);
            && Advance(cfg, learner, g, step, draws[step]).trace == g.trace + [p]
            && p.reward == PullArm(cfg.trueMeans, p.arm, draws[step].bernoulli)
            && (learner.Ucb? && step < cfg.numArms ==> p.arm == step)
            && (learner.Ucb? && step >= cfg.numArms ==>
                  IsFirstMax(UcbScores(g.est.counts, g.est.values, step, learner.ln, learner.sqrt), p.arm))
            && (learner.EpsilonGreedy? && draws[step].coin < learner.epsilon ==> p.arm == draws[step].pick)
            && (learner.EpsilonGreedy? && draws[step].coin >= learner.epsilon ==> IsFirstMax(g.est.values, p.arm))
  {
  }

  lemma AdvanceFollowsLearner(cfg: Config, learner: Learner, draws: seq<Draw>, g: Progress)
    requires cfg.Valid() && g.est.Covers(cfg.numArms) && |g.trace| < |draws|
    requires DrawsFor(cfg, learner, draws) && ArmsBelow(g.trace, cfg.numArms)
    requires learner.Ucb? ==> WarmedUp(g.est, |g.trace|)
    requires Consistent(g) && FollowsLearner(cfg, learner, draws, g.trace)
    ensures var g' := Advance(cfg, learner, g, |g.trace|, draws[|g.trace|]);
            ArmsBelow(g'.trace, cfg.numArms) && FollowsLearner(cfg, learner, draws, g'.trace)
  {
    var step := |g.trace|;
    var p := LearnerPull(cfg, learner, g.est, step, draws[step]);
    AdvanceLog(cfg, learner, draws, g);
    RewardsFollowDrawsExtends(cfg, draws, g.trace, p);
    match learner
    case EpsilonGreedy(epsilon) =>
      AdvanceFollowsEpsilonGreedy(cfg, epsilon, draws, g);
    case Ucb(ln, sqrt) =>
      AdvanceFollowsUcb(cfg, ln, sqrt, draws, g);
  }

  lemma AdvanceFollowsEpsilonGreedy(cfg: Config, epsilon: real, draws: seq<Draw>, g: Progress)
    requires cfg.Valid() && g.est.Covers(cfg.numArms) && |g.trace| < |draws|
    requires PicksInRange(draws, cfg.numArms)
    requires Summarises(g.est, g.trace) && FollowsEpsilonGreedy(cfg, epsilon, draws, g.trace)
    ensures FollowsEpsilonGreedy(cfg, epsilon, draws, Advance(cfg, EpsilonGreedy(epsilon), g, |g.trace|, draws[|g.trace|]).trace)
  {
    var h := g.trace;
    var p := LearnerPull(cfg, EpsilonGreedy(epsilon), g.est, |h|, draws[|h|]);
    AdvanceLog(cfg, EpsilonGreedy(epsilon), draws, g);
    SummaryOfLog(g.est, h, cfg.numArms);
    FollowsEpsilonGreedyExtends(cfg, epsilon, draws, h, p);
  }

  lemma AdvanceFollowsUcb(cfg: Config, ln: real -> real, sqrt: real -> real, draws: seq<Draw>, g: Progress)
    requires cfg.Valid() && g.est.Covers(cfg.numArms) && |g.trace| < |draws|
    requires WarmedUp(g.est, |g.trace|)
    requires Summarises(g.est, g.trace) && FollowsUcb(cfg, ln, sqrt, g.trace)
    ensures FollowsUcb(cfg, ln, sqrt, Advance(cfg, Ucb(ln, sqrt), g, |g.trace|, draws[|g.trace|]).trace)
  {
    var h := g.trace;
    var p := LearnerPull(cfg, Ucb(ln, sqrt), g.est, |h|, draws[|h|]);
    AdvanceLog(cfg, Ucb(ln, sqrt), draws, g);
    SummaryOfLog(g.est, h, cfg.numArms);
    FollowsUcbExtends(cfg, ln, sqrt, h, p);
  }

  lemma FollowsUcbExtends(cfg: Config, ln: real -> real, sqrt: real -> real, h: seq<Pull>, p: Pull)
    requires FollowsUcb(cfg, ln, sqrt, h)
    requires |h| < cfg.numArms ==> p.arm == |h|
    requires |h| >= cfg.numArms ==>
               && PulledEach(h, cfg.numArms)
               && IsFirstMax(UcbScores(Counts(h, cfg.numArms), Means(h, cfg.numArms), |h|, ln, sqrt), p.arm)
    ensures FollowsUcb(cfg, ln, sqrt, h + [p])
  {
    var h' := h + [p];
    forall k | 0 <= k < |h'|
      ensures && (k < cfg.numArms ==> h'[k].arm == k)
              && (k >= cfg.numArms ==>
                    && PulledEach(h'[..k], cfg.numArms)
                    && IsFirstMax(UcbScores(Counts(h'[..k], cfg.numArms), Means(h'[..k], cfg.numArms), k, ln, sqrt),
                                  h'[k].arm))
    {
      if k < |h| {
        assert h'[..k] == h[..k];
      } else {
        assert h'[..k] == h;
      }
    }
  }

  lemma RewardsFollowDrawsExtends(cfg: Config, draws: seq<Draw>, h: seq<Pull>, p: Pull)
    requires cfg.Valid() && |h| < |draws| && ArmsBelow(h, cfg.numArms) && p.arm < cfg.numArms
    requires RewardsFollowDraws(cfg, draws, h)
    requires p.reward == PullArm(cfg.trueMeans, p.arm, draws[|h|].bernoulli)
    ensures ArmsBelow(h + [p], cfg.numArms) && RewardsFollowDraws(cfg, draws, h + [p])
  {
  }

  lemma FollowsEpsilonGreedyExtends(cfg: Config, epsilon: real, draws: seq<Draw>, h: seq<Pull>, p: Pull)
    requires |h| < |draws| && FollowsEpsilonGreedy(cfg, epsilon, draws, h)
    requires draws[|h|].coin < epsilon ==> p.arm == draws[|h|].pick
    requires draws[|h|].coin >= epsilon ==> IsFirstMax(Means(h, cfg.numArms), p.arm)
    ensures FollowsEpsilonGreedy(cfg, epsilon, draws, h + [p])
  {
    var h' := h + [p];
    forall k | 0 <= k < |h'|
      ensures && (draws[k].coin < epsilon ==> h'[k].arm == draws[k].pick)
              && (draws[k].coin >= epsilon ==> IsFirstMax(Means(h'[..k], cfg.numArms), h'[k].arm))
    {
      if k < |h| {
        assert h'[..k] == h[..k];
      } else {
        assert h'[..k] == h;
      }
    }
  }

  /** Every pull a learning run logs follows its policy and pays the
      Bernoulli outcome of its own draw. */
  lemma {:induction false} LearnerFollowsPolicy(cfg: Config, learner: Learner, draws: seq<Draw>, t: nat)
    requires cfg.Valid() && t <= |draws| && DrawsFor(cfg, learner, draws)
    ensures var g := LearnerAfter(cfg, learner, draws, t);
            Consistent(g) && FollowsLearner(cfg, learner, draws, g.trace)
  {
    LearnerConsistent(cfg, learner, draws, t);
    if t > 0 {
      LearnerFollowsPolicy(cfg, learner, draws, t - 1);
      AdvanceFollowsLearner(cfg, learner, draws, LearnerAfter(cfg, learner, draws, t - 1));
    }
  }

  /** UCB1's warm-up: the arms pulled at steps `0 .. numArms - 1` are exactly
      `0, 1, .., numArms - 1`, whatever the draws. */
  lemma UcbWarmUp(cfg: Config, ln: real -> real, sqrt: real -> real, draws: seq<Draw>)
    requires cfg.Valid() && |draws| == cfg.numSteps
    ensures var h := LearnerAfter(cfg, Ucb(ln, sqrt), draws, cfg.numSteps).trace;
            forall t :: 0 <= t < cfg.numSteps && t < cfg.numArms ==> h[t].arm == t
  {
    LearnerFollowsPolicy(cfg, Ucb(ln, sqrt), draws, cfg.numSteps);
  }

  /** After the warm-up every arm has been pulled at least once, so every
      score is defined, and the next UCB1 pull is the first arm of highest
      score. */
  lemma UcbAfterWarmUp(cfg: Config, ln: real -> real, sqrt: real -> real, draws: seq<Draw>, t: nat)
    requires cfg.Valid() && cfg.numArms <= t < |draws|
    ensures var est := LearnerAfter(cfg, Ucb(ln, sqrt), draws, t).est;
            && (forall a :: 0 <= a < cfg.numArms ==> est.counts[a] >= 1)
            && IsFirstMax(UcbScores(est.counts, est.values, t, ln, sqrt),
                          LearnerPull(cfg, Ucb(ln, sqrt), est, t, draws[t]).arm)
  {
  }

  lemma EpsilonExtremesOnLog(cfg: Config, epsilon: real, draws: seq<Draw>, h: seq<Pull>)
    requires |h| <= |draws| && FollowsEpsilonGreedy(cfg, epsilon, draws, h)
    requires forall k :: 0 <= k < |draws| ==> 0.0 <= draws[k].coin < 1.0
    ensures forall k :: 0 <= k < |h| ==>
              && (epsilon == 0.0 ==> IsFirstMax(Means(h[..k], cfg.numArms), h[k].arm))
              && (epsilon == 1.0 ==> h[k].arm == draws[k].pick)
  {
  }

  /** Epsilon-greedy with epsilon 0 and coins in `[0, 1)` is purely greedy:
      every pull is the first arm of highest sample mean so far. With
      epsilon 1 every pull is the uniform pick. */
  lemma EpsilonGreedyExtremes(cfg: Config, epsilon: real, draws: seq<Draw>)
    requires cfg.Valid() && |draws| == cfg.numSteps && PicksInRange(draws, cfg.numArms)
    requires forall k :: 0 <= k < |draws| ==> 0.0 <= draws[k].coin < 1.0
    ensures var h := LearnerAfter(cfg, EpsilonGreedy(epsilon), draws, cfg.numSteps).trace;
            forall k :: 0 <= k < cfg.numSteps ==>
              && (epsilon == 0.0 ==> IsFirstMax(Means(h[..k], cfg.numArms), h[k].arm))
              && (epsilon == 1.0 ==> h[k].arm == draws[k].pick)
  {
    var h := LearnerAfter(cfg, EpsilonGreedy(epsilon), draws, cfg.numSteps).trace;
    LearnerFollowsPolicy(cfg, EpsilonGreedy(epsilon), draws, cfg.numSteps);
    assert FollowsEpsilonGreedy(cfg, epsilon, draws, h);
    EpsilonExtremesOnLog(cfg, epsilon, draws, h);
  }

  // The random baseline keeps no estimates, only the trajectory.

  /** The random baseline's pull at one step: the uniform pick. */
  function RandomPull(cfg: Config, draw: Draw): (p: Pull)
    requires cfg.Valid() && draw.pick < cfg.numArms
    ensures p.arm == draw.pick && IsReward(p.reward)
    ensures p.reward == PullArm(cfg.trueMeans, draw.pick, draw.bernoulli)
  {
    Pull(draw.pick, PullArm(cfg.trueMeans, draw.pick, draw.bernoulli))
  }

  /** The random baseline's trajectory after its first `t` steps. */
  function RandomAfter(cfg: Config, draws: seq<Draw>, t: nat): (tr: Track)
    requires cfg.Valid() && t <= |draws| && PicksInRange(draws, cfg.numArms)
    ensures |tr.curve| == t
  {
    if t == 0 then Start()
    else Extend(RandomAfter(cfg, draws, t - 1), t - 1, RandomPull(cfg, draws[t - 1]).reward)
  }

  /** The random baseline's pulls; each depends on its own draw only. */
  function RandomTrace(cfg: Config, draws: seq<Draw>, t: nat): (h: seq<Pull>)
    requires cfg.Valid() && t <= |draws| && PicksInRange(draws, cfg.numArms)
  {
    seq(t, i requires 0 <= i < t => RandomPull(cfg, draws[i]))
  }

  lemma {:induction false} RandomMatchesTrace(cfg: Config, draws: seq<Draw>, t: nat)
    requires cfg.Valid() && t <= |draws| && PicksInRange(draws, cfg.numArms)
    ensures RunningAverages(RandomAfter(cfg, draws, t), RewardsOf(RandomTrace(cfg, draws, t)))
  {
    if t > 0 {
      RandomMatchesTrace(cfg, draws, t - 1);
      var rs := RewardsOf(RandomTrace(cfg, draws, t - 1));
      var r := RandomPull(cfg, draws[t - 1]).reward;
      ExtendKeepsRunningAverages(RandomAfter(cfg, draws, t - 1), rs, r);
      assert RewardsOf(RandomTrace(cfg, draws, t)) == rs + [r];
    }
  }

  /** One run of the random baseline: a trajectory only, one entry per step,
      entry `t` being the mean reward of steps `0 .. t`, always in `[0, 1]`. */
  function RunRandom(cfg: Config, draws: seq<Draw>): (curve: seq<real>)
    requires cfg.Valid() && |draws| == cfg.numSteps && PicksInRange(draws, cfg.numArms)
    ensures |curve| == cfg.numSteps && AllInUnit(curve)
    ensures var rs := RewardsOf(RandomTrace(cfg, draws, cfg.numSteps));
            forall t :: 0 <= t < cfg.numSteps ==>
              curve[t] == RewardSum(rs[..t + 1]) as real / (t + 1) as real
  {
    var tr := RandomAfter(cfg, draws, cfg.numSteps);
    var rs := RewardsOf(RandomTrace(cfg, draws, cfg.numSteps));
    RandomMatchesTrace(cfg, draws, cfg.numSteps);
    assert AllRewards(rs);
    RunningAveragesInUnit(tr, rs);
    tr.curve
  }
}
