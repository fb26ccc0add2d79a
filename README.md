# Dyna agents in a grid world, and the two-step task

This project models the core of a small reinforcement-learning codebase in Dafny.

- **The grid world** (`GridWorld`, grid_world.dfy). The cells of a rectangular maze are numbered row by row. There are four moves: up, down, left and right. An edge or a blocked cell keeps the agent where it is. Moving onto the goal cell pays the goal reward. The environment builds a transition table `T` and a reward table `R` by looping over every state and action.
- **The Dyna agent** (`Tabular`, tabular.dfy, and `Dyna`, dyna_agent.dfy). The agent keeps four things:
  - a Q table;
  - a world model, the *experience buffer*, holding one row `(s, a, r, s1)` per state-action pair;
  - visitation counts that feed an exploration bonus;
  - the history of real moves.

  Each trial runs in four steps:
  1. choose a greedy action with respect to Q plus the weighted, square-rooted count, breaking ties at random;
  2. learn from the real move;
  3. record the move in the buffer, the counts and the history;
  4. optionally replay random buffer rows with the bonus (planning), then return to the start after reaching the goal.

  The distance-weighted variant of the agent adds a per-state amount to the counts instead of one. The model keeps that amount as a per-state increment matrix: the plain agent is the all-ones matrix and the variant is the matrix of distances.
- **The two-step task** (`TwoStep`, two_step.dfy). The environment is a three-state machine. It goes from state 0 to a second-stage state (the "common" one with probability 0.7), pays a reward there with a drifting probability, and returns to 0. The agent logs its trials and tallies how often it repeats its first-stage choice, split by common or rare transition and by rewarded or unrewarded trial.

The model states each operation against its own specification:
- the move function against the geometry of the grid;
- the Q table after a trial or after planning against `QUpdate` and `Replay`;
- the world model and the counts against the history (`LastObserved`, `Staleness`, kept by the `Synced` invariant);
- the stay-count loop against the recursive `Tally`.

The random draws of the program are inputs:
- the tie-break index of the policy;
- the uniform number used to sample the next state;
- the planning indices;
- the two uniform draws of the two-step environment;
- the Gaussian walk of its reward probabilities.

## Model

| member | source | states |
|---|---|---|
| `GridWorld.StateToCoords` | code/environment.py:89-96 | row and column satisfy `i * numX + j == s` with `0 <= j < numX`, and a state of the grid has its row in `[0, numY)` |
| `GridWorld.CoordsToState` | code/environment.py:98-106 | reading the row-major table of state numbers succeeds exactly for indices in `[-n, n)` in both dimensions (numpy's negative indices), and then gives a state of the grid; any other index is the index error, `None` |
| `GridWorld.StateCoordsRoundTrip` | code/environment.py:89-106 | converting a state to coordinates and back gives the state |
| `GridWorld.CoordsStateRoundTrip` | code/environment.py:89-106 | converting in-range coordinates to a state and back gives the coordinates |
| `GridWorld.GetNewState` | code/environment.py:43-87 | on a grid of at least two rows and two columns the move always succeeds; a successful move's next state lies in the grid |
| `GridWorld.GetNewStateIsIntended` | code/environment.py:51-87 | on a grid of at least two rows and two columns the move is exactly `IntendedMove`: enter the neighbouring cell unless it is outside the grid or blocked, and be paid the goal reward exactly when entering the goal |
| `GridWorld.WallKeepsState` | code/environment.py:54-66 | a move that points out of the grid at an edge returns the state itself with reward 0 |
| `GridWorld.BlockedKeepsState` | code/environment.py:79-81 | a move into a blocked cell returns the state itself with reward 0 |
| `GridWorld.NeighbourOffset` | code/environment.py:68-77 | the neighbour in the direction of a move is the state number plus the move's nonzero offset (`-numX`, `+numX`, `-1`, `+1`) |
| `GridWorld.NextIsSelfOrNeighbour` | code/environment.py:68-81 | the next state lies in the grid and is either the state itself or its unblocked neighbour in the direction of the action |
| `GridWorld.RewardOnlyAtGoal` | code/environment.py:83-87 | the reward is the goal reward exactly when the move enters the goal, and 0 otherwise |
| `GridWorld.OneRowMoveDownFails` | code/environment.py:55-60 | on a one-row grid moving down skips the bottom-edge check and fails with the index error |
| `GridWorld.OneColumnMoveRightFails` | code/environment.py:61-66 | on a one-column grid moving right skips the right-edge check and fails with the index error |
| `GridWorld.OneHotSumsToOne` | code/environment.py:35-39 | a row with one count of 1 sums to 1, so normalising it changes nothing |
| `GridWorld.DrawOneHot` | code/agent.py:200 | drawing from a row whose whole probability is on one state returns that state, whatever the uniform number |
| `GridWorld.Environment.constructor` | code/environment.py:8-17 | the environment holds its configuration and tables that satisfy `Valid` |
| `GridWorld.Environment.GenerateEnvModel` | code/environment.py:19-41 | builds fresh tables in which `T[s, a, :]` has a single 1, at the state the move leads to, and `R[s, a]` is the move's reward, for every state and action (`Valid`) |
| `GridWorld.Environment.SampleNext` | code/agent.py:200 | the sampled next state has a nonzero entry in `T[s, a, :]` and is the move's next state |
| `GridWorld.Environment.RowsSumToOne` | code/environment.py:25-39 | every row of `T` sums to 1 and has its 1 at the move's next state, so no row is all zero |
| `Tabular.RowMax` | code/agent.py:105 | the maximum of a row is one of its values and no value exceeds it |
| `Tabular.TdUpdate` | code/agent.py:105 | for a learning rate in `[0, 1]` the new value lies between the old value and the target `r + bonus + gamma * max`; alpha 0 leaves it, alpha 1 sets it to the target |
| `Tabular.QUpdate` | code/agent.py:93-107 | the updated table has the same shape, entry `(s, a)` is the TD update towards `r + bonus + gamma * max Q[s1, :]`, and no other entry changes |
| `Tabular.RealUpdateIgnoresCounts` | code/agent.py:105 | without the bonus the update does not depend on the counts |
| `Tabular.QUpdateWithoutLearning` | code/agent.py:105 | with learning rate 0 the update leaves the table unchanged |
| `Tabular.Replay` | code/agent.py:162-165 | replaying buffer rows keeps the table's shape |
| `Tabular.ReplayChangesOnlyReplayed` | code/agent.py:162-165 | planning changes no entry whose state-action pair is not among the replayed rows |
| `Tabular.ReplayWithoutLearning` | code/agent.py:162-165 | with learning rate 0 planning leaves the table unchanged |
| `Tabular.Maximisers` | code/agent.py:150 | the maximiser set is never empty and holds exactly the indices of the maximal value, in increasing order |
| `Tabular.ChooseMax` | code/agent.py:149-150 | the chosen index holds the maximal value: no action scores higher |
| `Tabular.UniqueMaximiserChosen` | code/agent.py:150 | a strict maximiser is chosen whatever the random index |
| `Tabular.EveryMaximiserChosen` | code/agent.py:150 | every maximiser is chosen by some random index, so no tied action is excluded |
| `Tabular.LastObserved` | code/agent.py:51-54 | the buffer entry a history leads to belongs to its own pair and is either a move of the history or the initial self-loop `(s, a, 0, s)` |
| `Tabular.LastObservedIsLatest` | code/agent.py:89 | the buffer entry of a pair is the latest move taken from it |
| `Tabular.LastObservedAppend` | code/agent.py:89 | recording a move overwrites the entry of its own pair and no other |
| `Tabular.Staleness` | code/agent.py:109-122 | the count a history leads to is never negative |
| `Tabular.StalenessAppend` | code/agent.py:119-120 | a step zeroes the count of its own pair and adds its increment to every other pair |
| `Tabular.UniformStalenessCountsSteps` | code/agent.py:119-120 | with one added per step, a pair's count is the number of steps since the pair was last taken (or since the start) |
| `Tabular.BufferOf` | code/agent.py:45-91 | the world model a history leads to has one in-range row per pair, and row `s * 4 + a` is the latest move from `(s, a)` (or its initial self-loop) |
| `Tabular.CountsOf` | code/agent.py:109-122 | the count table a history leads to has the table's shape, and entry `(s, a)` is the pair's `Staleness` |
| `Tabular.RealUpdates` | code/agent.py:204 | learning from a sequence of real moves, one no-bonus update each in order, keeps the table's shape |
| `Tabular.Run` | code/agent.py:195-218 | the Q table after a run of trials (each real update followed by that trial's planning over the world model and counts of the history so far) keeps the table's shape |
| `Tabular.RunAppend` | code/agent.py:198-213 | one more trial extends the run by its real update, then the replay of the trial's planning indices over the world model and counts of the extended history |
| `Tabular.RunWithoutPlanning` | code/agent.py:212-213 | with no planning indices the run is exactly the real updates of its moves |
| `Tabular.CumulativeRewards` | code/agent.py:175 | as long as the history, the k-th element is the sum of the rewards of rows 0..k |
| `Tabular.RewardSumGrows` | code/agent.py:175 | with nonnegative rewards a longer prefix has at least the reward sum of a shorter one |
| `Tabular.CumulativeRewardsMonotone` | code/agent.py:175 | with nonnegative rewards the cumulative reward never decreases |
| `Dyna.DynaAgent.SyncedTables` | code/agent.py:78-122 | when buffer and counts are in step with the history, they equal `BufferOf` and `CountsOf` of the history |
| `Dyna.DynaAgent.constructor` | code/agent.py:187-193 | a new agent holds its parameters and environment, satisfies `Valid` and `Synced`, has an empty history, a zero Q table and stands at the start |
| `Dyna.DynaAgent.InitQValues` | code/agent.py:35-43 | a fresh Q table of states by actions, all zero |
| `Dyna.DynaAgent.InitExperienceBuffer` | code/agent.py:45-56 | a fresh buffer whose row `s * 4 + a` is `(s, a, 0, s)` for every pair |
| `Dyna.DynaAgent.InitHistory` | code/agent.py:58-66 | the history is empty |
| `Dyna.DynaAgent.InitActionCount` | code/agent.py:68-76 | a fresh count table of states by actions, all zero |
| `Dyna.DynaAgent.ResetAgent` | code/agent.py:187-193 | fresh zero tables, the initial buffer, empty history and the start state, with `Valid` and `Synced` established |
| `Dyna.DynaAgent.UpdateExperienceBuffer` | code/agent.py:78-91 | row `s * 4 + a` becomes `(s, a, r, s1)` and every other row is unchanged |
| `Dyna.DynaAgent.UpdateQvals` | code/agent.py:93-107 | Q becomes `QUpdate` of the old Q: only `Q[s, a]` changes, alpha 0 changes nothing, and the world model, counts and history stay in step with each other |
| `Dyna.DynaAgent.UpdateActionCount` | code/agent.py:109-122 | the count of `(s, a)` becomes 0 and every other count grows by the step's increment (one for the plain agent, the distance from `s` for the distance-weighted one); counts stay nonnegative |
| `Dyna.DynaAgent.UpdateHistory` | code/agent.py:124-137 | the history grows by exactly the row `(s, a, r, s1)` |
| `Dyna.DynaAgent.Policy` | code/agent.py:139-152 | an action whose score `Q[s, a] + epsilon * sqrt(count[s, a])` is maximal among the state's actions |
| `Dyna.DynaAgent.Plan` | code/agent.py:154-167 | Q becomes the replay of the buffer rows at the n given indices, in order, each with the bonus; the buffer, counts and history are unchanged |
| `Dyna.DynaAgent.GetPerformance` | code/agent.py:169-175 | as long as the history, the k-th element is the reward sum of the first k + 1 moves |
| `Dyna.DynaAgent.Observe` | code/agent.py:205-210 | buffer, counts and history take in the move and stay in step with each other (`Synced`: every buffer row is `LastObserved` of the history and every count is its `Staleness`); Q is unchanged |
| `Dyna.DynaAgent.Move` | code/agent.py:199-210 | the move starts at the current state with the given action and lands on the environment's next state with its reward; Q is the no-bonus update of the old Q; the history grows by the move |
| `Dyna.DynaAgent.PlanIfAsked` | code/agent.py:211-213 | Q becomes the replay of the given planning indices, and stays unchanged when planning is off |
| `Dyna.DynaAgent.MoveOn` | code/agent.py:215-218 | the agent goes to the start when the move reached the goal and to the move's next state otherwise |
| `Dyna.DynaAgent.Trial` | code/agent.py:195-218 | one history row per trial, following the environment from the current state; Q is the real update followed by planning; the new state is the start after the goal and the next state otherwise |
| `Dyna.DynaAgent.RunExtends` | code/agent.py:215-218 | a move that starts where a run of moves leaves the agent extends the run |
| `Dyna.DynaAgent.RunTrials` | code/agent.py:195-218 | exactly one history row per trial is appended to the old history; the new rows form a run from the old state, each following the environment and starting where the previous one left the agent; buffer and counts stay in step with the history; Q is the `Run` of the new rows with each trial's planning indices, and without planning it is just their `RealUpdates` |
| `Dyna.DynaAgent.Simulate` | code/agent.py:177-220 | after a reset the history has exactly `numTrials` rows forming a run from the start; without a reset they are appended to the old history from the old state; Q is the `Run` of the new rows from the old (or, after a reset, zero) table, and without planning just their `RealUpdates`; alpha 0 leaves Q as it was, or zero after a reset |
| `TwoStep.RewardIndex` | code/environment.py:152 | the reward-probability index of a second-stage state and action is `2 * (s - 1) + a`, in `[0, 4)` |
| `TwoStep.Reflect` | code/environment.py:133-138 | a probability that stays in `[0.25, 0.75]` after the walk takes the walked value, and one that leaves it is reflected back at the crossed bound |
| `TwoStep.ReflectStaysInBand` | code/environment.py:136 | with steps of at most 0.5 the probabilities stay in `[0.25, 0.75]` |
| `TwoStep.StepOutcome` | code/environment.py:140-159 | from state 0: reward 0 and next state `a + 1` exactly when the draw is at most 0.7, else `2 - a`, so always 1 or 2; from a second-stage state: back to 0, reward 1 exactly when the draw is at most the pair's reward probability, else 0 |
| `TwoStep.CommonIffLikely` | code/agent.py:340-341 | the agent calls a trial common exactly when the environment took its 0.7 branch |
| `TwoStep.TrialReturnsToStart` | code/environment.py:140-159 | two steps from state 0 pass through state 1 or 2 and end at 0 |
| `TwoStep.TwoStepEnv.constructor` | code/environment.py:111-119 | a new environment is at state 0 with every reward probability 0.5 |
| `TwoStep.TwoStepEnv.InitRewardp` | code/environment.py:121-125 | every reward probability becomes 0.5 |
| `TwoStep.TwoStepEnv.Reset` | code/environment.py:127-131 | the state becomes 0 |
| `TwoStep.TwoStepEnv.UpdateRewardp` | code/environment.py:133-138 | the probabilities take one reflected step of the walk |
| `TwoStep.TwoStepEnv.Step` | code/environment.py:140-159 | new state and reward are `StepOutcome` of the old state; the probabilities walk only after a second-stage step |
| `TwoStep.StaysAtMostTotals` | code/agent.py:336-359 | no kind of trial has more stays than trials |
| `TwoStep.TotalsCountTrials` | code/agent.py:335-359 | the four totals add up to the number of trials minus one, or 0 for an empty history |
| `TwoStep.TallyAppend` | code/agent.py:336-338 | logging a trial counts the previous last trial against it and nothing else |
| `TwoStep.StayProbabilities` | code/agent.py:361 | the four ratios exist exactly when every kind of trial happened (otherwise the division by zero, `None`); each lies in `[0, 1]` and times its total gives its stays |
| `TwoStep.RatioBounded` | code/agent.py:361 | a ratio of stays to a positive total lies in `[0, 1]` |
| `TwoStep.TwoStepAgent.constructor` | code/agent.py:296-304 | a new agent's trial log is empty |
| `TwoStep.TwoStepAgent.InitHistory` | code/agent.py:296-304 | the trial log becomes empty |
| `TwoStep.TwoStepAgent.UpdateHistory` | code/agent.py:306-318 | the log grows by exactly the row `(a, s1, r1)` |
| `TwoStep.TwoStepAgent.CountStays` | code/agent.py:326-359 | the eight counters of the loop are `Tally` of the log: each trial but the last counts in its kind (common or rare, rewarded or not), as a stay when the next trial repeats its action |
| `TwoStep.TwoStepAgent.GetStayProbabilities` | code/agent.py:320-361 | the result is `StayProbabilities` of the log's tally, whose stays are bounded by the totals |

## Left out

- Floating point. Q values, counts and probabilities are Dafny reals, so rounding is not modelled.
- The square root of the exploration bonus is a function value carried in `Params`. It is not the real square root, so no property of it beyond being a function is used.
- Normalisation of `T` (code/environment.py:35-39). The tables hold integer counts. `RowsSumToOne` shows every row sums to 1, so the division the program makes leaves each row as it is.
- Probability distributions. `np.random.choice`, `randint`, `uniform` and `normal` become inputs: a tie-break index, a uniform number, planning indices, two uniform draws and a walk vector. Fairness of the tie-break and the shapes of the distributions are statistical and not stated.
- Dyna.DynaAgent.RunTrials: does not state which action each appended move took. The loop draws it from `Policy` at the state and Q of that moment, and `Policy`'s own contract (maximal score) is where that choice is stated.
- Dyna.DynaAgent.Simulate: same as `RunTrials`, the action of each move is stated only through `Policy`'s contract.
- Dyna.DynaAgent.RunTrials: Q after a run with planning is stated only when buffer and counts start in step with the history (`Synced`), which every agent built by the constructor or reset is.
- Dyna.DynaAgent.Trial: takes the chosen action as an argument; the policy call sits in the trial loop of `RunTrials`.
- The distances of the distance-weighted agent (code/agent.py:246-248) need a square root. They are the `increment` matrix given to the agent, which only has to be nonnegative. The plain agent's `+1` is `UniformIncrement`.
- The counts of the plain agent are integers in the program and reals here. With the all-ones increment they take integer values (`UniformStalenessCountsSteps`).
- Grids of one row or one column. `ValidConfig` requires at least two of each, because the program's `elif` edge checks let a move leave such a grid and fail with an index error. `GetNewState` models that error as `None`; see `OneRowMoveDownFails` and `OneColumnMoveRightFails`.
- `ValidConfig` also requires the start cell to be a cell of the grid. The environment itself never reads the start cell; the agent starts there, and a start outside the grid would make its first move index outside the tables.
- The configuration passed as keyword arguments and the inheritance wiring (`init_env`, the agent subclassing the environment) are replaced by a `Config` record and an `Environment` object held by the agent.
- The agent's tables are created by its constructor. The program creates them only in `simulate` with `reset_agent` set, and fails when asked to continue without a reset first.
- The two-step agent's learning rules (`_update_QTD`, `_update_QMB`, `_update_Qnet`), its softmax policy and its `simulate` loop (code/agent.py:363-443) are floating-point learning and orchestration over them. They are not part of this model. Its trial log is created by the constructor rather than by `simulate`.
- `TwoStepEnv.rewardp_history` is created but never filled by the program and is not modelled.
- The two-step actions are required to be 0 or 1. The program does not check this, and another action would index the reward probabilities elsewhere.
