/**
 * The running-average reward trajectory of one run: after step `t` the run
 * appends (total reward through step `t`) / (t + 1).
 */
module Trajectory {
  import opened Bandit

  /** The running total and the trajectory built so far. */
  datatype Track = Track(total: int, curve: seq<real>)

  function Start(): Track {
    Track(0, [])
  }

  /** Record the reward of step `step`. Earlier entries are never rewritten. */
  function Extend(tr: Track, step: nat, reward: int): (tr': Track)
    ensures |tr'.curve| == |tr.curve| + 1
    ensures tr'.curve[..|tr.curve|] == tr.curve
  {
    var total := tr.total + reward;
    Track(total, tr.curve + [total as real / (step + 1) as real])
  }

  function RewardSum(rs: seq<int>): int {
    if |rs| == 0 then 0 else RewardSum(rs[..|rs| - 1]) + rs[|rs| - 1]
  }

  /** `tr` is the trajectory of reward sequence `rs`: its total is the sum of
      `rs` and entry `i` is the mean of the first `i + 1` rewards. */
  predicate RunningAverages(tr: Track, rs: seq<int>) {
    && tr.total == RewardSum(rs)
    && |tr.curve| == |rs|
    && forall i :: 0 <= i < |rs| ==>
         tr.curve[i] == RewardSum(rs[..i + 1]) as real / (i + 1) as real
  }

  /** Extending by the reward of the next step keeps the trajectory equal to
      the running averages of the longer reward sequence. */
  lemma ExtendKeepsRunningAverages(tr: Track, rs: seq<int>, r: int)
    requires RunningAverages(tr, rs)
    ensures RunningAverages(Extend(tr, |rs|, r), rs + [r])
  {
    var rs' := rs + [r];
    var tr' := Extend(tr, |rs|, r);
    assert rs'[..|rs'| - 1] == rs;
    assert tr'.total == RewardSum(rs');
    forall i | 0 <= i < |rs'|
      ensures tr'.curve[i] == RewardSum(rs'[..i + 1]) as real / (i + 1) as real
    {
      if i < |rs| {
        assert rs'[..i + 1] == rs[..i + 1];
        assert tr'.curve[i] == tr.curve[i];
      } else {
        assert rs'[..i + 1] == rs';
      }
    }
  }

  predicate AllRewards(rs: seq<int>) {
    forall i :: 0 <= i < |rs| ==> IsReward(rs[i])
  }

  lemma {:induction false} RewardSumBounds(rs: seq<int>)
    requires AllRewards(rs)
    ensures 0 <= RewardSum(rs) <= |rs|
  {
    if |rs| > 0 {
      RewardSumBounds(rs[..|rs| - 1]);
    }
  }

  /** Every running average of 0/1 rewards lies in `[0, 1]`. */
  lemma RunningAveragesInUnit(tr: Track, rs: seq<int>)
    requires RunningAverages(tr, rs) && AllRewards(rs)
    ensures AllInUnit(tr.curve)
  {
    forall i | 0 <= i < |rs|
      ensures InUnit(tr.curve[i])
    {
      var prefix := rs[..i + 1];
      assert AllRewards(prefix);
      RewardSumBounds(prefix);
      RatioInUnit(RewardSum(prefix) as real, (i + 1) as real);
    }
  }
}
