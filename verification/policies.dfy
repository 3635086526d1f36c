/**
 * The per-step selection rules of the two learning policies. The random
 * baseline needs no rule of its own: its arm is the uniform pick itself.
 */
module Policies {
  import opened TieBreak

  /** Epsilon-greedy: when the coin falls below `epsilon`, explore with the
      uniformly picked arm; otherwise exploit the first arm with the highest
      estimate. */
  function EpsilonGreedySelect(values: seq<real>, epsilon: real, coin: real, pick: nat): (arm: nat)
    requires |values| >= 1 && pick < |values|
    ensures arm < |values|
    ensures coin < epsilon ==> arm == pick
    ensures coin >= epsilon ==> IsFirstMax(values, arm)
  {
    if coin < epsilon then pick else ArgMax(values)
  }

  /** With epsilon 0 and a coin in `[0, 1)` the policy is purely greedy; with
      epsilon 1 it always takes the uniform pick. */
  lemma EpsilonExtremes(values: seq<real>, coin: real, pick: nat)
    requires |values| >= 1 && pick < |values|
    requires 0.0 <= coin < 1.0
    ensures EpsilonGreedySelect(values, 0.0, coin, pick) == ArgMax(values)
    ensures EpsilonGreedySelect(values, 1.0, coin, pick) == pick
  {
  }

  /** The UCB1 score `value + sqrt(2 * ln(step + 1) / count)`. The logarithm
      and the square root are left as parameters; the division by the pull
      count is kept, so the score is defined only for an arm pulled at least
      once. */
  function UcbScore(value: real, step: nat, count: nat, ln: real -> real, sqrt: real -> real): real
    requires count >= 1
  {
    value + sqrt(2.0 * ln((step + 1) as real) / count as real)
  }

  /** The scores of all arms, defined once every arm has been pulled. */
  function UcbScores(counts: seq<nat>, values: seq<real>, step: nat, ln: real -> real, sqrt: real -> real): (scores: seq<real>)
    requires |counts| == |values|
    requires forall a :: 0 <= a < |counts| ==> counts[a] >= 1
    ensures |scores| == |values|
    ensures forall a :: 0 <= a < |values| ==> scores[a] == UcbScore(values[a], step, counts[a], ln, sqrt)
    ensures forall a, b :: 0 <= a < |values| && 0 <= b < |values| && counts[a] == counts[b] ==>
              scores[a] - values[a] == scores[b] - values[b]
  {
    seq(|values|, a requires 0 <= a < |values| => UcbScore(values[a], step, counts[a], ln, sqrt))
  }

  /** Adding the same amount to every entry keeps the first-on-tie maximum. */
  lemma ShiftKeepsFirstMax(xs: seq<real>, ys: seq<real>, c: real, i: int)
    requires |xs| == |ys|
    requires forall a :: 0 <= a < |xs| ==> ys[a] == xs[a] + c
    ensures IsFirstMax(ys, i) <==> IsFirstMax(xs, i)
  {
  }

  /** When every arm has been pulled equally often the exploration bonus is
      the same for all arms, so UCB1 picks the same arm as pure greedy
      selection on the estimates. */
  lemma UcbEqualCountsIsGreedy(counts: seq<nat>, values: seq<real>, step: nat, ln: real -> real, sqrt: real -> real)
    requires |counts| == |values| >= 1
    requires forall a :: 0 <= a < |counts| ==> counts[a] == counts[0] >= 1
    ensures ArgMax(UcbScores(counts, values, step, ln, sqrt)) == ArgMax(values)
  {
    var scores := UcbScores(counts, values, step, ln, sqrt);
    var c := scores[0] - values[0];
    var i := ArgMax(scores);
    ShiftKeepsFirstMax(values, scores, c, i);
    ArgMaxCharacterised(values, i);
  }

  /** UCB1: during the first `|counts|` steps pull arm `step` itself; from
      then on take the first arm with the highest score. The caller must
      guarantee that the warm-up has pulled every arm before the scores are
      needed, since the score divides by the pull count. */
  function UcbSelect(counts: seq<nat>, values: seq<real>, step: nat, ln: real -> real, sqrt: real -> real): (arm: nat)
    requires |counts| == |values| >= 1
    requires step >= |counts| ==> forall a :: 0 <= a < |counts| ==> counts[a] >= 1
    ensures arm < |counts|
    ensures step < |counts| ==> arm == step
    ensures step >= |counts| ==> IsFirstMax(UcbScores(counts, values, step, ln, sqrt), arm)
  {
    if step < |counts| then step
    else ArgMax(UcbScores(counts, values, step, ln, sqrt))
  }
}
