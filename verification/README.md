# Frozen lake: MDP, policies and utility analysis

A Dafny model of a small frozen-lake Markov decision process and of the
analyzer that scores two policies on it.

The lake is a rectangular grid of one-character cells. The cell kinds are:

- `S`: the start;
- `F`: frozen;
- `H`: a hole;
- `G`: the goal.

A state is a cell with its coordinate and tag, or the absorbing state ⊥.
After entering a hole or the goal, the only legal action is ⊥, and the
next state is ⊥ with probability 1.

Moves are slippery. The intended move happens with probability 0.8. Each
of its two perpendicular moves happens with probability 0.1. A move off the
grid leaves the agent where it is.

Rewards are paid on entering a state:

| entered state | reward |
|---|---|
| `F` | 0.1 |
| `H` | -1 |
| `G` | 1 |
| `S` or ⊥ | 0 |

There are two policies:

- RandomPolicy picks a legal action uniformly.
- CustomPolicy goes DOWN if the cell below exists and is not a hole. Otherwise it goes RIGHT under the same test. Otherwise it takes the first legal action.

The analyzer runs one trial like this. From the start, it takes the
policy's action and samples the transition. It adds gamma^t times the
reward of the entered state. It stops at a terminal state or after the
step limit. It reports the discounted utility, the number of steps, and the
ending: goal, hole or none.

It evaluates a policy by running n trials, seeded base, base + 1, and so
on. It then summarises them by:

- the mean and the population variance of the utility;
- the frequency of each ending;
- the mean length.

The report names the better policy. The higher mean utility wins. If the
means are equal, the lower variance wins. A full tie goes to the random
policy.

The modules follow the source files:

- `LakeMdp` (`lake_mdp.py`): the grid, the start scan, actions, rewards and the transition distribution.
- `Policies` (`policies.py`): the two decision rules.
- `Trial` (`UtilityAnalyzer.run_trial`): the runner's loop, against a reference definition of an episode as the path of entered states.
- `Evaluation` (`UtilityAnalyzer.evaluate`): the batch of trials and its statistics.
- `Report` (`run.py`): the winner rule and the default map.
- `AsWritten`: the two places where the code reads a state in a shape it does not have (see Findings).

The random generator is an oracle. `rng(t)` yields two indices for step t:

- the index RandomPolicy uses to pick among the legal actions;
- the index of the sampled transition entry.

The source draws the action index uniformly over the legal actions, and
draws the outcome index i with probability `Weights[i]` (0.8, 0.1, 0.1).
The model admits any sequence of indices. Seeded generators are a function
`seeds: int -> Rng`.

The runner's loop (`Trial.Run`) is proved equal to a fold of its update
over the entered path (`Trial.Entered`). The discounting update is then
shown to track the closed-form utility of that path. This yields
`Trial.RunTrial`: the utility, the length and the ending are those of the
episode path.

The start cell `S` earns reward 0 (lake_mdp.py:57), so a 1x1 lake `[['S']]`
yields utility 0 with the ending "none" (`Trial.SingleStartCellNeverTerminates`).

## Model

| member | source | states |
|---|---|---|
| LakeMdp.FindStart | lake_mdp.py:28-31 | the row-major scan finds no start exactly when the grid has no `S`, and otherwise finds the last `S` in row-major order |
| LakeMdp.StartState | lake_mdp.py:31-37 | the start state is the last `S` cell of the grid, tagged `S` and consistent with the grid |
| LakeMdp.Actions | lake_mdp.py:39-45 | ⊥, hole and goal states allow only ⊥; every other state allows UP, RIGHT, DOWN, LEFT in that order |
| LakeMdp.ActionsDistinct | lake_mdp.py:39-45 | the legal actions of a state are pairwise distinct |
| LakeMdp.Reward | lake_mdp.py:47-57 | entry reward 0.1 for `F`, -1 for `H`, 1 for `G`, 0 otherwise; always within [-1, 1], and negative exactly on holes |
| LakeMdp.IsTerminal | lake_mdp.py:60-64 | ⊥, hole and goal states are terminal, every other cell is not; `AsWritten.StatesReadAsWritten` shows the source's own reading of the tuple agrees on every state |
| LakeMdp.TerminalIffSingleAction | lake_mdp.py:39-70 | a state is terminal exactly when ⊥ is its only action, exactly when its transition is ⊥ with probability 1 |
| LakeMdp.Directions | lake_mdp.py:73-83 | the three tried directions are the intended one and its two perpendiculars, all distinct, never the reverse move |
| LakeMdp.MoveTo | lake_mdp.py:90-95 | a move stays put exactly when the target lies off the grid, and otherwise reaches the target |
| LakeMdp.Transition | lake_mdp.py:66-88 | terminal states go to ⊥ with probability 1; otherwise there are three entries (intended 0.8, laterals 0.1 each), all positive, summing to 1, each landing on a consistent cell |
| LakeMdp.SingleCellOutcomesNotMerged | lake_mdp.py:82-88 | entries landing on the same cell stay separate, so on a 1x1 lake the list has three copies of the start cell |
| LakeMdp.OutcomesAreNeighbours | lake_mdp.py:84-95 | every transition entry lands on the same cell or an orthogonal neighbour |
| Policies.RandomDecision | policies.py:10-12 | the action picked at any index is a legal action |
| Policies.RandomDecisionIsBijection | policies.py:10-12 | indices and legal actions correspond one to one, so a uniform index is a uniform legal action |
| Policies.CustomDecision | policies.py:24-34 | ⊥ on ⊥; DOWN when the cell below is in the grid and no hole; else RIGHT under the same test; else the first legal action; DOWN or RIGHT only when safe |
| Policies.Decide | policies.py:10-34 | either policy names a legal action on every non-terminal state, and ⊥ on ⊥ |
| Policies.CustomIgnoresChoice | policies.py:24-34 | CustomPolicy's action does not depend on the generator's index |
| Policies.CustomFallbackIsUp | policies.py:34 | on a non-terminal cell with neither DOWN nor RIGHT safe the custom rule goes UP |
| Policies.CustomOnTerminalCell | policies.py:24-34 | on a hole cell with a free cell below the rule names DOWN, which is not a legal action there |
| Trial.Step | utility_analyzer.py:32-33 | one step from a live state enters a cell consistent with the grid |
| Trial.StepSamplesTransition | utility_analyzer.py:32-33 | the entered state is the sampled entry of the transition list for the policy's action, and is a neighbour or the same cell |
| Trial.KindOf | utility_analyzer.py:37-40 | an ending is "goal" exactly on a `G` cell and "hole" exactly on an `H` cell |
| Trial.Entered | utility_analyzer.py:31-43 | the entered path has at most limit - t states, no terminal state before its last, and ends in a terminal state when it stops early |
| Trial.Run | utility_analyzer.py:28-44 | the loop's step count is between the starting step and the limit |
| Trial.RunFollowsPath | utility_analyzer.py:31-44 | the loop's accumulators are the fold of its update over the entered path, its length counts that path, and its ending is the path's |
| Trial.UtilitySnoc | utility_analyzer.py:34-35 | appending an entered state adds its reward discounted by its position |
| Trial.DiscountStep | utility_analyzer.py:34-35 | one update takes a prefix's utility and discount to those of the prefix extended by one state |
| Trial.FoldTracks | utility_analyzer.py:31-43 | folding an update that tracks a path function carries its value on a prefix to its value on the extended path |
| Trial.DiscountTracks | utility_analyzer.py:28-35 | the runner's update keeps the accumulators equal to the utility and discount of the entered path |
| Trial.EnteredExtends | utility_analyzer.py:31-42 | a larger step limit only extends the entered path, and leaves one that ended in a terminal state unchanged |
| Trial.EnteredCellsConsistent | lake_mdp.py:84-87 | every state a trial enters is a cell whose tag is the grid's tag at its position |
| Trial.EpisodeEnds | utility_analyzer.py:29-42 | an episode has no ending exactly when it never enters a terminal state, and then runs the full limit; a goal or hole cell is always its last state |
| Trial.RunTrial | utility_analyzer.py:18-44 | the returned utility, length and ending are the discounted utility, the length and the ending of the episode path, and the length is at most the limit |
| Trial.TrialOutcome | utility_analyzer.py:29-42 | the ending is "none" exactly when no terminal state is entered, in which case the length is the limit; entering `G` or `H` ends the trial as goal or hole |
| Trial.StepLimitMonotone | utility_analyzer.py:31-42 | a trial that ends in the goal or a hole gives the same result under any larger step limit |
| Trial.UtilityOfZeroRewards | utility_analyzer.py:34 | a path of zero-reward states has utility 0 |
| Trial.UtilityBounded | utility_analyzer.py:34-35 | for gamma in [0, 1] a path's utility lies within plus or minus its length |
| Trial.CustomIgnoresChoiceIndex | policies.py:24-34 | the lake's environment under CustomPolicy does not depend on the action index of a draw |
| Trial.EnteredIgnoresChoices | utility_analyzer.py:31-43 | an environment that ignores the action index enters the same path under generators whose outcome indices agree |
| Trial.CustomTrialIgnoresChoices | utility_analyzer.py:25-44 | CustomPolicy's trial result depends only on the sampled outcome indices |
| Trial.SingleStartCellNeverTerminates | utility_analyzer.py:18-44 | on the 1x1 lake `[['S']]` every trial runs the full limit with utility 0 and no ending |
| Evaluation.Trials | utility_analyzer.py:49-52 | n results, the i-th from the generator seeded base + i |
| Evaluation.TrialsSplit | utility_analyzer.py:50-51 | m + k trials are the first m followed by k trials seeded from base + m |
| Evaluation.SquaredDeviations | utility_analyzer.py:56 | the sum of squared deviations is non-negative |
| Evaluation.Variance | utility_analyzer.py:56 | the population variance is non-negative |
| Evaluation.SumConstant | utility_analyzer.py:55 | a sum of n copies of a value is n times that value |
| Evaluation.DeviationsOfConstant | utility_analyzer.py:56 | a sequence of equal values has no squared deviation from that value |
| Evaluation.ConstantHasNoVariance | utility_analyzer.py:55-56 | trials that all earn the same utility have that utility as mean and variance 0 |
| Evaluation.SumBounds | utility_analyzer.py:55 | a sum of values within [lo, hi] lies within [n lo, n hi] |
| Evaluation.MeanBounds | utility_analyzer.py:55 | the mean of a non-empty sequence of values within [lo, hi] lies within [lo, hi] |
| Evaluation.Count | utility_analyzer.py:57-59 | a count of endings is at most the number of trials |
| Evaluation.CountsPartition | utility_analyzer.py:57-59 | the goal, hole and none counts add up to the number of trials |
| Evaluation.CountPositive | utility_analyzer.py:57-58 | a count is positive exactly when some trial ended that way |
| Evaluation.Summarize | utility_analyzer.py:53-61 | frequencies in [0, 1] summing to 1, positive exactly when the ending occurred; mean length within [0, limit]; variance non-negative; n_trials is the batch size |
| Evaluation.Evaluate | utility_analyzer.py:46-61 | evaluation fails exactly when there are no trials; otherwise it is the summary of the n seeded trials, with frequencies summing to 1 and mean length within the limit |
| Evaluation.CountMonotone | utility_analyzer.py:57-58 | if every trial of kind k in one batch has kind k in the other, the first count is no larger |
| Evaluation.LimitKeepsEndings | utility_analyzer.py:31-58 | a larger step limit never lowers the goal or hole frequency |
| Evaluation.MeanUtilityBounded | utility_analyzer.py:55 | for gamma in [0, 1] the mean utility lies within plus or minus the step limit |
| Report.Best | run.py:31-36 | the higher mean wins; on equal means the custom policy wins exactly with the strictly lower variance |
| Report.BestIsRanking | run.py:31-36 | the custom policy is named exactly when it ranks strictly above the random one |
| Report.RanksAboveIsStrict | run.py:31-36 | the ranking is irreflexive, asymmetric and transitive |
| Report.BestSwapped | run.py:31-36 | a win does not survive swapping the two summaries, and both orders name the second argument exactly on a full tie |
| Report.TieGoesToRandom | run.py:35-36 | equal mean and variance name the random policy |
| Report.Compare | run.py:27-36 | with the same seeds for both policies, the custom policy is named exactly when its summary ranks above the random one |
| Report.DefaultMapStart | run.py:9-14 | the default lake is well formed, starts at (0, 0), and CustomPolicy heads DOWN from there |
| AsWritten.Encode | lake_mdp.py:31-33 | a state is a pair whose first item is a coordinate pair for cells and ⊥ for the absorbing state |
| AsWritten.EncodeInjective | lake_mdp.py:31-87 | distinct states are distinct tuples |
| AsWritten.StatesReadAsWritten | lake_mdp.py:39-64 | `actions` and `is_terminal`, run on the tuple of any state, return that state's actions and terminal flag |
| AsWritten.CustomDecisionAsWritten | policies.py:26-34 | as written, the rule gets past `r, c = s` and `r + 1` only for the bare symbol ⊥ or a pair of integers; every other value raises |
| AsWritten.CustomDecisionOnBarePair | policies.py:25-34 | lines 26-34 alone, given the cell's actions and a bare in-grid pair `(r, c)`, return the intended decision; line 25's `actions` raises on a bare pair and on the bare ⊥, so the whole decision never gets there |
| AsWritten.DecisionAsWritten | policies.py:24-34 | `_decision` as written raises whenever line 25's `actions` raises, and otherwise is lines 26-34 run on the actions that call returned |
| AsWritten.DecisionAsWrittenAlwaysRaises | policies.py:24-34 | `_decision` as written (line 25's `actions`, then lines 26-34) raises on every Python value, so no reshaping of the state before the call avoids the error |
| AsWritten.CustomDecisionAsWrittenRaises | policies.py:25-29 | as written, the custom rule raises on every state the code builds, both as a whole and in lines 26-34 alone |
| AsWritten.CustomDecisionAsWrittenOnStart | policies.py:26-30 | from a start cell with a free cell below, the intended rule goes DOWN while the code as written raises |
| AsWritten.TerminalKindAsWritten | utility_analyzer.py:38-40 | as written, goal or hole is recorded only when the value's first item is an integer; otherwise the ending is none or the line raises |
| AsWritten.TerminalKindOnBarePair | utility_analyzer.py:37-40 | lines 38-40 alone, handed a bare pair `(r, c)` of a cell consistent with the grid, yield that cell's ending; line 37's `is_terminal` raises on a bare pair and on the bare ⊥, so the loop never gets there |
| AsWritten.TerminalKindAsWrittenRaises | utility_analyzer.py:37-40 | as written, classifying an entered state raises for every state the code builds |

## Left out

- The numpy generator's bit streams and `rng.choice` are not modelled. The generator is an oracle that yields one action index and one outcome index per step, so any sequence of draws is admitted, and the uniform distribution is not stated. In the source, both policies and the step draw from one shared stream, and CustomPolicy draws nothing; pairing the draws by step abstracts from that order.
- `MDP.step` and the `Policy` base class (`__call__`, the constructor) are not modelled, because solution/mdp.py and solution/policy.py are not part of this model. A step is taken to sample one entry of `transition`, with the entry's index drawn from the generator, and to return the entered state's reward. A policy call is taken to return `_decision`.
- Floating point is not modelled. Probabilities, rewards, discounts and statistics are exact reals, so rounding in the sums and in `np.mean` and `np.var` is ignored.
- The JSON report is left out. This covers the dictionary in run.py:21, the loop over the undefined name `gammas` at run.py:23, and the write into the report at run.py:39-43, which sits outside the loop. Of `evaluate_all`'s body only the winner rule (run.py:31-36) is modelled, in `Report.Best` and `Report.Compare`; `DEFAULT_MAP` is `Report.DefaultMap`.
- Grid validation is left out. The grid is assumed rectangular and non-empty (`WellFormed`), and trials assume it has a start cell (`HasStart`); the source fails with an attribute error when there is none.
- Out-of-range states passed to `transition` are excluded by precondition. So is the action ⊥ on a non-terminal state, where the source raises a KeyError.
- Policies.CustomDecision: modelled as evidently intended, reading the coordinate and the tag from the state; the code as written raises on every state (see Findings and `AsWritten`).
- Trial.KindOf: modelled as evidently intended, reading the tag of the entered state; the code at utility_analyzer.py:38 as written raises (see Findings and `AsWritten`).
- Trial.RunTrial: the step limit is a natural number. The source also accepts a negative `step_limit`; `range` is then empty, and the trial returns `(0.0, 0, "none")`. The model's bound "length at most the limit" would not hold there.
- Evaluation.Evaluate: the trial count `n` and the step limit are natural numbers. With a negative `n_trials` the source returns frequencies of -0.0 and NaN means instead of raising. With a negative `step_limit`, its mean length exceeds the limit.
- Evaluation.Evaluate: seeds range over all integers (`Seeds = int -> Rng`). numpy's `default_rng` rejects a negative seed, so a negative `base + i` makes the source raise, which the model does not.
- Evaluation.Evaluate: with zero trials the source raises at the frequency division, and the model returns None; the NaN warnings numpy gives first are not modelled.
- The analyzer's defaults (gamma 0.99, step limit 100) and run.py's default trial count and seed are parameters of the model.

## Findings

| source | as written | input that shows it | evidently intended | confidence | as-written member | corrected member |
|---|---|---|---|---|---|---|
| policies.py:26-29 | the state is compared with the bare string ⊥ and unpacked as `r, c`, then `r + 1` is computed | the start state `((0, 0), 'S')`: `r` is the tuple `(0, 0)`, so `r + 1` raises TypeError; on ⊥, `r` is the string ⊥ | compare with the absorbing state, unpack `(r, c), tag = s` | high (`_decision` raises on every Python value, so the unseen base class cannot avoid it); not executed | AsWritten.DecisionAsWritten, AsWritten.CustomDecisionAsWritten, AsWritten.DecisionAsWrittenAlwaysRaises, AsWritten.CustomDecisionAsWrittenRaises | Policies.CustomDecision, Policies.Decide |
| utility_analyzer.py:38 | `grid[ns[0]][ns[1]]` indexes the grid with the state's first item | entering the goal `((3, 3), 'G')`: `grid[(3, 3)]` raises TypeError | read the tag `ns[1]`, or index `grid[r][c]` with `(r, c) = ns[0]` | medium (`MDP.step` is not part of this model); not executed | AsWritten.TerminalKindAsWritten, AsWritten.TerminalKindAsWrittenRaises, AsWritten.TerminalKindOnBarePair | Trial.KindOf, Trial.TrialOutcome |
