/**
 * The per-arm value estimator: pull counts and running means, maintained by
 * the incremental-mean recurrence
 *     counts[arm] += 1; values[arm] += (reward - values[arm]) / counts[arm]
 * and its reference meaning, the sample mean of the rewards seen for an arm.
 */
module Estimator {
  import opened Bandit

  datatype Estimates = Estimates(counts: seq<nat>, values: seq<real>) {
    /** One count and one estimate for each of `n` arms. */
    predicate Covers(n: nat) {
      |counts| == n && |values| == n
    }
  }

  /** Sum of all pull counts. */
  function TotalCount(s: seq<nat>): nat {
    if |s| == 0 then 0 else TotalCount(s[..|s| - 1]) + s[|s| - 1]
  }

  /** The estimator a run starts from: nothing pulled, every estimate zero. */
  function Fresh(n: nat): (e: Estimates)
    ensures e.Covers(n)
    ensures TotalCount(e.counts) == 0
    ensures forall a :: 0 <= a < n ==> e.counts[a] == 0 && e.values[a] == 0.0
  {
    var zeros := seq(n, _ => 0);
    ZerosCountNothing(zeros);
    Estimates(zeros, seq(n, _ => 0.0))
  }

  lemma {:induction false} ZerosCountNothing(s: seq<nat>)
    requires forall i :: 0 <= i < |s| ==> s[i] == 0
    ensures TotalCount(s) == 0
  {
    if |s| > 0 {
      ZerosCountNothing(s[..|s| - 1]);
    }
  }

  lemma {:induction false} TotalCountIncrement(s: seq<nat>, i: nat)
    requires i < |s|
    ensures TotalCount(s[i := s[i] + 1]) == TotalCount(s) + 1
  {
    var t := s[i := s[i] + 1];
    if i == |s| - 1 {
      assert t[..|t| - 1] == s[..|s| - 1];
    } else {
      assert t[..|t| - 1] == s[..|s| - 1][i := s[i] + 1];
      TotalCountIncrement(s[..|s| - 1], i);
    }
  }

  /** One step of the recurrence moves an estimate in `[0, 1]` towards a
      0/1 reward without leaving `[0, 1]`. */
  lemma StepStaysInUnit(v: real, r: int, c: nat)
    requires c >= 1
    ensures InUnit(v) && IsReward(r) ==> InUnit(v + (r as real - v) / c as real)
  {
    var k := c as real;
    var d := (r as real - v) / k;
    assert d * k == r as real - v;
    assert d * k - d == d * (k - 1.0);
    if !InUnit(v) || !IsReward(r) {
    } else if r == 1 {
      assert d >= 0.0;
      assert d * (k - 1.0) >= 0.0;
    } else {
      assert d <= 0.0;
      assert d * (k - 1.0) <= 0.0;
    }
  }

  /** The incremental update after pulling `arm` and receiving `reward`.
      Only the pulled arm's entry changes. */
  function Update(e: Estimates, arm: nat, reward: int): (e': Estimates)
    requires |e.counts| == |e.values| && arm < |e.counts|
    ensures |e'.counts| == |e.counts| && |e'.values| == |e.values|
    ensures e'.counts[arm] == e.counts[arm] + 1
    ensures forall b :: 0 <= b < |e.counts| && b != arm ==>
              e'.counts[b] == e.counts[b] && e'.values[b] == e.values[b]
    ensures TotalCount(e'.counts) == TotalCount(e.counts) + 1
    ensures AllInUnit(e.values) && IsReward(reward) ==> AllInUnit(e'.values)
  {
    var c := e.counts[arm] + 1;
    var v := e.values[arm] + (reward as real - e.values[arm]) / c as real;
    TotalCountIncrement(e.counts, arm);
    StepStaysInUnit(e.values[arm], reward, c);
    Estimates(e.counts[arm := c], e.values[arm := v])
  }

  // Reference meaning of the estimator: counts and means taken over the
  // whole history of pulls.

  /** How many pulls of `h` chose arm `a`. */
  function PullCount(h: seq<Pull>, a: nat): (c: nat)
    ensures c <= |h|
  {
    if |h| == 0 then 0
    else PullCount(h[..|h| - 1], a) + (if h[|h| - 1].arm == a then 1 else 0)
  }

  /** The total reward paid by arm `a` over `h`. */
  function RewardTotal(h: seq<Pull>, a: nat): int {
    if |h| == 0 then 0
    else RewardTotal(h[..|h| - 1], a) + (if h[|h| - 1].arm == a then h[|h| - 1].reward else 0)
  }

  /** The arithmetic mean of arm `a`'s rewards in `h`, and 0 if `a` was never pulled. */
  function SampleMean(h: seq<Pull>, a: nat): real {
    var c := PullCount(h, a);
    if c == 0 then 0.0 else RewardTotal(h, a) as real / c as real
  }

  /** The sample means of arms `0 .. n - 1`. */
  function Means(h: seq<Pull>, n: nat): (m: seq<real>)
    ensures |m| == n
    ensures forall a :: 0 <= a < n ==> m[a] == SampleMean(h, a)
  {
    seq(n, a requires 0 <= a < n => SampleMean(h, a))
  }

  /** The pull counts of arms `0 .. n - 1`. */
  function Counts(h: seq<Pull>, n: nat): (c: seq<nat>)
    ensures |c| == n
    ensures forall a :: 0 <= a < n ==> c[a] == PullCount(h, a)
  {
    seq(n, a requires 0 <= a < n => PullCount(h, a))
  }

  /** Every arm below `n` occurs in `h`. */
  predicate PulledEach(h: seq<Pull>, n: nat) {
    forall a :: 0 <= a < n ==> PullCount(h, a) >= 1
  }

  predicate ArmsBelow(h: seq<Pull>, n: nat) {
    forall i :: 0 <= i < |h| ==> h[i].arm < n
  }

  predicate Binary(h: seq<Pull>) {
    forall i :: 0 <= i < |h| ==> IsReward(h[i].reward)
  }

  /** `e` is exactly the summary of history `h`: each arm's count is the
      number of times it was pulled and its estimate the mean of its rewards. */
  predicate Summarises(e: Estimates, h: seq<Pull>) {
    && |e.counts| == |e.values|
    && forall a :: 0 <= a < |e.counts| ==>
         e.counts[a] == PullCount(h, a) && e.values[a] == SampleMean(h, a)
  }

  /** An estimator that summarises `h` holds exactly the counts and means of `h`. */
  lemma SummaryOfLog(e: Estimates, h: seq<Pull>, n: nat)
    requires e.Covers(n) && Summarises(e, h)
    ensures e.counts == Counts(h, n) && e.values == Means(h, n)
    ensures (forall a :: 0 <= a < n ==> e.counts[a] >= 1) ==> PulledEach(h, n)
  {
  }

  lemma {:induction false} UnpulledPaysNothing(h: seq<Pull>, a: nat)
    ensures PullCount(h, a) == 0 ==> RewardTotal(h, a) == 0
  {
    if |h| > 0 {
      UnpulledPaysNothing(h[..|h| - 1], a);
    }
  }

  lemma {:induction false} RewardTotalBounds(h: seq<Pull>, a: nat)
    requires Binary(h)
    ensures 0 <= RewardTotal(h, a) <= PullCount(h, a)
  {
    if |h| > 0 {
      RewardTotalBounds(h[..|h| - 1], a);
    }
  }

  /** With 0/1 rewards every sample mean lies in `[0, 1]`. */
  lemma SampleMeanInUnit(h: seq<Pull>, a: nat)
    requires Binary(h)
    ensures InUnit(SampleMean(h, a))
  {
    RewardTotalBounds(h, a);
    var c := PullCount(h, a);
    if c > 0 {
      RatioInUnit(RewardTotal(h, a) as real, c as real);
    }
  }

  /** The recurrence step turns the mean of `c` samples with sum `sum` into
      the mean of those samples and `r`. */
  lemma MeanStep(v: real, sum: int, c: nat, r: int)
    requires c == 0 ==> sum == 0 && v == 0.0
    requires c > 0 ==> v == sum as real / c as real
    ensures v + (r as real - v) / (c + 1) as real == (sum + r) as real / (c + 1) as real
  {
  }

  /** The incremental update keeps the estimator equal to the summary of the
      history extended by the new pull. */
  lemma UpdateSummarises(e: Estimates, h: seq<Pull>, p: Pull)
    requires Summarises(e, h) && p.arm < |e.counts|
    ensures Summarises(Update(e, p.arm, p.reward), h + [p])
  {
    var h' := h + [p];
    assert h'[..|h'| - 1] == h;
    var e' := Update(e, p.arm, p.reward);
    UnpulledPaysNothing(h, p.arm);
    MeanStep(e.values[p.arm], RewardTotal(h, p.arm), PullCount(h, p.arm), p.reward);
    forall a | 0 <= a < |e'.counts|
      ensures e'.counts[a] == PullCount(h', a) && e'.values[a] == SampleMean(h', a)
    {
    }
  }

  /** The estimator after applying the updates of `h` in order to a fresh one. */
  function Replay(n: nat, h: seq<Pull>): (e: Estimates)
    requires ArmsBelow(h, n)
    ensures e.Covers(n)
  {
    if |h| == 0 then Fresh(n)
    else
      var p := h[|h| - 1];
      Update(Replay(n, h[..|h| - 1]), p.arm, p.reward)
  }

  /** After any sequence of updates, each count is the number of pulls of its
      arm and each estimate the exact mean of that arm's rewards (0 if never
      pulled); with 0/1 rewards every estimate lies in `[0, 1]`. */
  lemma {:induction false} ReplayComputesMeans(n: nat, h: seq<Pull>)
    requires ArmsBelow(h, n)
    ensures Summarises(Replay(n, h), h)
    ensures Binary(h) ==> AllInUnit(Replay(n, h).values)
  {
    if |h| > 0 {
      var p := h[|h| - 1];
      ReplayComputesMeans(n, h[..|h| - 1]);
      UpdateSummarises(Replay(n, h[..|h| - 1]), h[..|h| - 1], p);
      assert h[..|h| - 1] + [p] == h;
    }
    if Binary(h) {
      forall a | 0 <= a < n
        ensures InUnit(Replay(n, h).values[a])
      {
        SampleMeanInUnit(h, a);
      }
    }
  }

  /** Pull counts and reward totals over a concatenation are the sums over its parts. */
  lemma {:induction false} AppendCounts(u: seq<Pull>, v: seq<Pull>, a: nat)
    ensures PullCount(u + v, a) == PullCount(u, a) + PullCount(v, a)
    ensures RewardTotal(u + v, a) == RewardTotal(u, a) + RewardTotal(v, a)
  {
    if |v| == 0 {
      assert u + v == u;
    } else {
      assert (u + v)[..|u + v| - 1] == u + v[..|v| - 1];
      AppendCounts(u, v[..|v| - 1], a);
    }
  }

  /** Pull counts and reward totals depend only on which pulls were made,
      not on their order. */
  lemma {:induction false} CountsIgnoreOrder(h: seq<Pull>, h2: seq<Pull>, a: nat)
    requires multiset(h) == multiset(h2)
    ensures PullCount(h, a) == PullCount(h2, a) && RewardTotal(h, a) == RewardTotal(h2, a)
    decreases |h|
  {
    if |h| > 0 {
      var p := h[|h| - 1];
      assert p in multiset(h2);
      var k :| 0 <= k < |h2| && h2[k] == p;
      var rest := h2[..k] + h2[k + 1..];
      assert h2 == h2[..k] + [p] + h2[k + 1..];
      assert h == h[..|h| - 1] + [p];
      assert multiset(rest) == multiset(h2) - multiset{p};
      assert multiset(h[..|h| - 1]) == multiset(h) - multiset{p};
      CountsIgnoreOrder(h[..|h| - 1], rest, a);
      AppendCounts(h2[..k] + [p], h2[k + 1..], a);
      AppendCounts(h2[..k], [p], a);
      AppendCounts(h2[..k], h2[k + 1..], a);
      assert [p][..0] == [];
    } else {
      assert |h2| == 0;
    }
  }

  lemma ReorderKeepsArmsBelow(h: seq<Pull>, h2: seq<Pull>, n: nat)
    requires ArmsBelow(h, n) && multiset(h) == multiset(h2)
    ensures ArmsBelow(h2, n)
  {
    forall i | 0 <= i < |h2|
      ensures h2[i].arm < n
    {
      assert h2[i] in multiset(h);
    }
  }

  /** Two estimators that summarise reorderings of one history are equal. */
  lemma SummariesAgree(n: nat, e: Estimates, e2: Estimates, h: seq<Pull>, h2: seq<Pull>)
    requires e.Covers(n) && e2.Covers(n)
    requires Summarises(e, h) && Summarises(e2, h2) && multiset(h) == multiset(h2)
    ensures e == e2
  {
    forall a | 0 <= a < n
      ensures e.counts[a] == e2.counts[a] && e.values[a] == e2.values[a]
    {
      CountsIgnoreOrder(h, h2, a);
    }
    assert e.counts == e2.counts;
    assert e.values == e2.values;
  }

  /** The estimator after a sequence of updates does not depend on the order
      in which the pulls arrived: any reordering of the history yields the
      same counts and the same estimates. */
  lemma ReplayIgnoresOrder(n: nat, h: seq<Pull>, h2: seq<Pull>)
    requires ArmsBelow(h, n) && multiset(h) == multiset(h2)
    ensures ArmsBelow(h2, n)
    ensures Replay(n, h) == Replay(n, h2)
  {
    ReorderKeepsArmsBelow(h, h2, n);
    ReplayComputesMeans(n, h);
    ReplayComputesMeans(n, h2);
    SummariesAgree(n, Replay(n, h), Replay(n, h2), h, h2);
  }
}
