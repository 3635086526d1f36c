# Multi-armed bandit simulation, modelled in Dafny

This project models the simulation engine of `multi_armed_bandit.py`. The
script compares three strategies on a stationary Bernoulli bandit:
epsilon-greedy, UCB1 and a uniform random baseline. The model covers:

- the reward source `pull_arm`;
- the incremental-mean estimator (`counts[arm] += 1; values[arm] += (reward - values[arm]) / counts[arm]`);
- the first-on-tie arg-max `xs.index(max(xs))`;
- the per-step selection rules of epsilon-greedy and UCB1, including UCB1's warm-up;
- the single-run loops `run_epsilon_greedy`, `run_ucb` and `run_random`,
  which build the running-average trajectory `total_reward / (step + 1)`;
- the multi-run averager `average_runs`, which returns no estimate vector for
  the random baseline.

All randomness is turned into inputs. A run is a pure function of its
configuration and a sequence of `Draw(coin, pick, bernoulli)` values, one per
step:

- `coin` is the exploration coin of epsilon-greedy (`random.random() < epsilon`);
- `pick` is the uniform arm index (`random.randint(0, NUM_ARMS - 1)`);
- `bernoulli` is the uniform value `pull_arm` compares with the arm's mean.

A strategy ignores the fields it does not draw. The module constants
`NUM_ARMS`, `NUM_STEPS`, `TRUE_MEANS` and `EPSILON` become the parameters
`Config(numArms, numSteps, trueMeans)` and `EpsilonGreedy(epsilon)`. The
number of runs becomes the length of the sequence of per-run draws.
Arithmetic is exact (`real`).

Files, one module each:

- `bandit.dfy` (`Bandit`): configuration, draws, pulls, `PullArm`.
- `argmax.dfy` (`TieBreak`): `Max`, `IndexOf`, `ArgMax` and the first-on-tie predicate `IsFirstMax`.
- `estimator.dfy` (`Estimator`): the incremental update and its reference
  meaning. The reference meaning is the per-arm pull count and sample mean
  over the history of pulls.
- `trajectory.dfy` (`Trajectory`): the running total and running-average
  curve, and their meaning, the prefix sums of the rewards.
- `policies.dfy` (`Policies`): the epsilon-greedy and UCB1 selection rules.
- `simulator.dfy` (`Simulator`): a learning run (`LearnerAfter`, `RunLearner`)
  and the random baseline (`RunRandom`). A learning run's state carries a log
  of its pulls. That log is not part of the script; it is what the estimates
  and the trajectory are proved to summarise.
- `aggregator.dfy` (`Aggregator`): `AverageRuns` and its properties.

Configuration validation: the script validates nothing. Its constants are
fixed, and an invalid value would simply raise inside the loop or go
unnoticed. The model states what the code relies on as preconditions, which
a caller that validates its configuration must guarantee:

- `numArms >= 1`, since `max` of an empty list and `randint(0, -1)` both fail;
- one mean per arm;
- at least one run, since `average_runs` divides by `runs`.

`numSteps = 0` is allowed, because the loops then return empty curves.

## Model

| member | source | states |
|---|---|---|
| `Bandit.PullArm` | multi_armed_bandit.py:36-38 | The reward is 0 or 1, and it is 1 exactly when the draw is strictly below the arm's true mean. |
| `Bandit.PullArmMonotone` | multi_armed_bandit.py:36-38 | On a shared draw, an arm with a mean at least as large pays whenever a smaller-mean arm pays. An arm of mean 0 never pays on a draw in [0, 1), and an arm of mean 1 always does. |
| `TieBreak.ArgMax` | multi_armed_bandit.py:55 | `values.index(max(values))` is a valid index holding the maximum, and no earlier index holds it (first on ties). |
| `TieBreak.ArgMaxCharacterised` | multi_armed_bandit.py:86 | An index is the first-on-tie maximum of the scores if and only if it is the one `ArgMax` returns, so the choice is unique. |
| `Estimator.Fresh` | multi_armed_bandit.py:45-46 | A run starts with one zero count and one zero estimate per arm, and a total count of 0. |
| `Estimator.Update` | multi_armed_bandit.py:57-60 | One update increments the pulled arm's count and leaves every other arm's count and estimate untouched. The total count grows by exactly one. Estimates in [0, 1] stay in [0, 1] under a 0/1 reward. |
| `Estimator.UpdateSummarises` | multi_armed_bandit.py:58-60 | If the estimator holds each arm's pull count and sample mean for a history, then after one update it holds them for that history extended by the new pull. |
| `Estimator.ReplayComputesMeans` | multi_armed_bandit.py:89-90 | Take any sequence of updates applied to a fresh estimator. Each count is then the number of pulls of its arm, and each estimate is the exact mean of that arm's rewards, or 0 if it was never pulled. With 0/1 rewards every estimate lies in [0, 1]. |
| `Estimator.ReplayIgnoresOrder` | multi_armed_bandit.py:58-60 | The estimator after a sequence of updates depends only on which pulls were made, not on their order: any reordering of the history gives the same counts and the same estimates. |
| `Estimator.SampleMeanInUnit` | multi_armed_bandit.py:60 | With 0/1 rewards every arm's sample mean lies in [0, 1]. |
| `Trajectory.Extend` | multi_armed_bandit.py:61-62 | Recording a step appends exactly one entry and never rewrites earlier ones. |
| `Trajectory.ExtendKeepsRunningAverages` | multi_armed_bandit.py:61-62 | If the total is the sum of the rewards so far, and entry `i` is the mean of the first `i + 1` rewards, then both facts still hold after one more reward. |
| `Trajectory.RunningAveragesInUnit` | multi_armed_bandit.py:62 | Every running average of 0/1 rewards lies in [0, 1]. |
| `Policies.EpsilonGreedySelect` | multi_armed_bandit.py:52-55 | The chosen arm is valid. A coin below epsilon chooses the uniform pick; any other coin chooses the first arm of highest estimate. |
| `Policies.EpsilonExtremes` | multi_armed_bandit.py:52-55 | With a coin in [0, 1), epsilon 0 always exploits and epsilon 1 always explores. |
| `Policies.UcbScores` | multi_armed_bandit.py:82-85 | Defined only once every arm's count is at least 1, with one score per arm: the arm's estimate plus `sqrt(2 * ln(step + 1) / count)`, where `ln` and `sqrt` are parameters. The bonus over the estimate depends only on the step and the arm's own count, so two arms pulled equally often get the same bonus. |
| `Policies.UcbEqualCountsIsGreedy` | multi_armed_bandit.py:82-86 | When every arm has been pulled equally often, UCB1's choice is the greedy choice: the first arm of highest score is the first arm of highest estimate. |
| `Policies.UcbSelect` | multi_armed_bandit.py:78-86 | The chosen arm is valid. During the first `numArms` steps it is the step index itself; afterwards it is the first arm of highest UCB1 score. |
| `Simulator.LearnerPull` | multi_armed_bandit.py:44-94 | One step of a learning policy pulls a valid arm and gets a 0/1 reward. During UCB1's warm-up the pulled arm is the step index. |
| `Simulator.UpdateKeepsWarmUp` | multi_armed_bandit.py:78-79 | Suppose all arms below `step` have been pulled and the warm-up pulls arm `step`. Then after the update, all arms below `step + 1` have been pulled. |
| `Simulator.Advance` | multi_armed_bandit.py:50-92 | One loop iteration logs exactly the pull the policy made. It extends the trajectory by one entry and increases the total count by one. Under UCB1 it extends the warmed-up prefix of arms by one. |
| `Simulator.LearnerAfter` | multi_armed_bandit.py:50-92 | After `t` steps the trajectory and the log have length `t` and the counts sum to `t`. Under UCB1 every arm below `t` has count at least 1, so the division in the score is always defined. |
| `Simulator.LearnerConsistent` | multi_armed_bandit.py:50-92 | After any number of steps, counts and estimates are the pull counts and sample means of the logged pulls. Trajectory entry `t` is the logged reward total through step `t` divided by `t + 1`. |
| `Simulator.LearnerFollowsPolicy` | multi_armed_bandit.py:50-90 | Every logged reward is the Bernoulli outcome of its own step's draw. Every epsilon-greedy step pulled the uniform pick if its coin fell below epsilon, and otherwise the first arm of highest sample mean over the pulls before it. UCB1 pulled arm `k` at every warm-up step `k`. At every later step `k`, every arm occurs among the pulls before `k`, and UCB1 pulled the first arm of highest score, with the scores computed from the pull counts and sample means of those earlier pulls. |
| `Simulator.RunLearner` | multi_armed_bandit.py:44-94 | A learning run returns `numSteps` averages and `numArms` estimates, all in [0, 1]. Average `t` is the total reward through step `t` divided by `t + 1`. Estimate `a` is the sample mean of arm `a`'s rewards. |
| `Simulator.UcbWarmUp` | multi_armed_bandit.py:78-79 | Whatever the draws, UCB1's selections at steps `0 .. numArms - 1` are exactly `0, 1, .., numArms - 1`. |
| `Simulator.UcbAfterWarmUp` | multi_armed_bandit.py:81-86 | At every step from `numArms` on, every count is at least 1 and the pulled arm is the first arm of highest UCB1 score. |
| `Simulator.EpsilonGreedyExtremes` | multi_armed_bandit.py:50-55 | Over a whole run with coins in [0, 1), epsilon 0 is purely greedy on the sample means so far, and epsilon 1 always takes the uniform pick. |
| `Simulator.RandomPull` | multi_armed_bandit.py:104-105 | The random baseline pulls exactly the uniform pick, and its reward is that arm's `pull_arm` outcome on the step's own Bernoulli draw, so 0 or 1. |
| `Simulator.RandomMatchesTrace` | multi_armed_bandit.py:103-107 | After any number of steps of the random baseline, the total is the sum of its rewards, and entry `t` is the mean of the rewards through step `t`. |
| `Simulator.RunRandom` | multi_armed_bandit.py:100-108 | The random baseline returns `numSteps` averages in [0, 1], and average `t` is the total reward through step `t` divided by `t + 1`. |
| `Aggregator.MeanInUnit` | multi_armed_bandit.py:125-126 | The mean over runs of values in [0, 1] lies in [0, 1]. |
| `Aggregator.SumIgnoresOrder` | multi_armed_bandit.py:125 | The sum across runs depends only on the multiset of summands, not on their order. |
| `Aggregator.AverageColumns` | multi_armed_bandit.py:125-130 | The element-wise average has one entry per column, and entry `j` is the mean over rows of the rows' entries `j`. If every row lies in [0, 1], so does the average. |
| `Aggregator.AverageRuns` | multi_armed_bandit.py:111-132 | The curve has `numSteps` entries in [0, 1], entry `t` being the mean over runs of each run's entry `t`. The estimate vector is absent exactly for the random baseline. For a learning policy it has `numArms` entries in [0, 1], entry `a` being the mean over runs of each run's final estimate of arm `a`. |
| `Aggregator.AverageOfOneRun` | multi_armed_bandit.py:111-126 | Averaging a single run returns that run's trajectory unchanged. |
| `Aggregator.AverageIgnoresRunOrder` | multi_armed_bandit.py:115-130 | Exchanging two runs' draws leaves both the averaged curve and the averaged estimate vector unchanged. |

## Left out

- `print_bar_chart`, `print_performance_summary` and `main` (multi_armed_bandit.py:135-188): console formatting and orchestration, with no algorithmic content.
- Real randomness: `random.random` and `random.randint` are replaced by the draw inputs. No distributional property is claimed. That covers uniformity, the random baseline's convergence to the mean of the true means, and the learning policies beating the random baseline. Runs sharing no state is by construction, since each run is a function of its own draws.
- The ranges of the draws are assumed only where a result needs them. Picks must lie in `[0, numArms)` for every step of a strategy that draws picks. For epsilon-greedy this includes exploiting steps, where the script draws no pick. That excludes no behaviour, because an unused pick can be any in-range value. Coins in `[0, 1)` are assumed only by the epsilon 0 / epsilon 1 lemmas. The reward source works for any real draw.
- `math.log` and `math.sqrt` in the UCB1 bonus (multi_armed_bandit.py:83) are not computed. They are parameters `ln` and `sqrt` of the `Ucb` learner. Only the warm-up, the division by the pull count and the arg-max structure around them are modelled.
- IEEE floating-point rounding: estimates, scores, averages and means are exact reals. This idealisation is why the estimator and the averaged curve are exactly independent of the order of the pulls and of the runs, rather than only up to rounding.
- Rounding also affects which arm is selected. Two estimates or scores that tie in exact reals can differ after rounding, and two that differ can round to a tie. The script can then pick a different arm from the model, and from that step on the two runs diverge. `ArgMax`, `UcbEqualCountsIsGreedy`, the epsilon 0 / epsilon 1 lemmas and the log rules of `LearnerFollowsPolicy` hold for the exact-arithmetic model only.
- Configuration validation is not modelled, because the script has none. The requirements on the configuration are preconditions instead. Epsilon is not restricted to [0, 1], since the code does not need it.
- Aggregator.AverageRuns: for `runs = 0` the script divides by zero when there is at least one step, and returns `([], None)` when there are no steps. The model requires at least one run, so neither case is modelled.
- An arm-less configuration with zero steps is not modelled. The script would return empty results for it without failing, but every run function here requires at least one arm.
