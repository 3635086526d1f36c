/**
 * Shared vocabulary of the bandit simulation: the experiment configuration,
 * the pre-drawn random values one step may consume, and the reward source.
 *
 * All randomness of the simulation is turned into explicit inputs: a run is
 * a pure function of its sequence of `Draw`s.
 */
module Bandit {

  /** The fixed parameters of an experiment: how many arms there are, how many
      steps each run takes, and each arm's hidden success probability. */
  datatype Config = Config(numArms: nat, numSteps: nat, trueMeans: seq<real>) {
    /** What the simulation relies on: at least one arm (an empty arm list
        makes both `max` and `randint(0, -1)` fail) and one mean per arm. */
    predicate Valid() {
      numArms >= 1 && |trueMeans| == numArms
    }
  }

  /** The random values available to one step: the exploration coin of
      epsilon-greedy, a uniformly picked arm index, and the uniform value
      the reward source compares with the arm's mean. A policy that does not
      need a value ignores it. */
  datatype Draw = Draw(coin: real, pick: nat, bernoulli: real)

  /** One pull of an arm and the reward it paid. */
  datatype Pull = Pull(arm: nat, reward: int)

  /** Uniform arm picks lie in `[0, numArms)`, as `randint(0, numArms - 1)` promises. */
  predicate PicksInRange(draws: seq<Draw>, numArms: nat) {
    forall i :: 0 <= i < |draws| ==> draws[i].pick < numArms
  }

  predicate InUnit(x: real) {
    0.0 <= x <= 1.0
  }

  predicate AllInUnit(xs: seq<real>) {
    forall i :: 0 <= i < |xs| ==> InUnit(xs[i])
  }

  /** Rewards of a Bernoulli arm are 0 or 1. */
  predicate IsReward(r: int) {
    r == 0 || r == 1
  }

  /** The rewards paid by a sequence of pulls, in order. */
  function RewardsOf(h: seq<Pull>): (rs: seq<int>)
    ensures |rs| == |h|
    ensures forall i :: 0 <= i < |h| ==> rs[i] == h[i].reward
  {
    seq(|h|, i requires 0 <= i < |h| => h[i].reward)
  }

  lemma RewardsOfAppend(h: seq<Pull>, p: Pull)
    ensures RewardsOf(h + [p]) == RewardsOf(h) + [p.reward]
  {
  }

  /** A ratio of a non-negative number to a positive one no smaller than it
      lies in `[0, 1]`. */
  lemma RatioInUnit(num: real, den: real)
    requires 0.0 <= num <= den && den > 0.0
    ensures InUnit(num / den)
  {
  }

  /** The reward source: one Bernoulli trial of arm `arm`, driven by the
      uniform value `draw`. It pays 1 exactly when the draw falls strictly
      below the arm's true mean. */
  function PullArm(trueMeans: seq<real>, arm: nat, draw: real): (reward: int)
    requires arm < |trueMeans|
    ensures IsReward(reward)
    ensures reward == 1 <==> draw < trueMeans[arm]
  {
    if draw < trueMeans[arm] then 1 else 0
  }

  /** Coupling of arms through a shared draw: whenever an arm pays, every arm
      with a mean at least as large pays on the same draw. With a draw in
      `[0, 1)`, an arm of mean 0 never pays and an arm of mean 1 always pays. */
  lemma PullArmMonotone(trueMeans: seq<real>, a: nat, b: nat, draw: real)
    requires a < |trueMeans| && b < |trueMeans|
    requires trueMeans[a] <= trueMeans[b]
    ensures PullArm(trueMeans, a, draw) <= PullArm(trueMeans, b, draw)
    ensures 0.0 <= draw && trueMeans[a] <= 0.0 ==> PullArm(trueMeans, a, draw) == 0
    ensures draw < 1.0 && trueMeans[b] >= 1.0 ==> PullArm(trueMeans, b, draw) == 1
  {
  }
}
