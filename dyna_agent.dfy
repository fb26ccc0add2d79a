/**
 * The Dyna agent: Q-learning from real moves in the grid world, a world model that keeps the
 * latest outcome of every (state, action) pair, visitation counts that feed an exploration
 * bonus, a history of real moves, and a planning loop that replays the world model.
 */
module Dyna {
  import opened Wrappers
  import opened GridWorld
  import opened Tabular

  /** The real table held by a two-dimensional array. */
  function TableOf(m: array2<real>): (t: Table)
    reads m
    ensures |t| == m.Length0
    ensures forall i :: 0 <= i < m.Length0 ==> |t[i]| == m.Length1
    ensures forall i, j :: 0 <= i < m.Length0 && 0 <= j < m.Length1 ==> t[i][j] == m[i, j]
  {
    seq(m.Length0, i requires 0 <= i < m.Length0 reads m =>
      seq(m.Length1, j requires 0 <= j < m.Length1 reads m => m[i, j]))
  }

  /** The planning indices of each of numTrials trials: none when planning is off. */
  function TrialPlans(planning: Option<nat>, planIdx: seq<seq<int>>, numTrials: nat, n: int): (plans: seq<seq<int>>)
    requires planning.Some? ==> |planIdx| == numTrials && PlansInRange(planIdx, n)
    ensures |plans| == numTrials && PlansInRange(plans, n)
    ensures forall k :: 0 <= k < numTrials ==> plans[k] == if planning.Some? then planIdx[k] else []
  {
    seq(numTrials, k requires 0 <= k < numTrials => if planning.Some? then planIdx[k] else [])
  }

  /**
   * The agent. The visitation increment is a parameter: the ordinary agent adds one to every
   * count per step (UniformIncrement); the distance-weighted variant adds, to the counts of
   * each state, that state's distance from the state just left.
   */
  class DynaAgent {
    const params: Params
    const env: Environment
    const increment: seq<seq<real>>   // increment[v][w]: added to the counts of w after a step from v
    var Q: array2<real>               // Q[s, a]: the value estimate
    var buffer: array<Transition>     // buffer[s * NumActions + a]: the latest outcome of (s, a)
    var actionCount: array2<real>     // actionCount[s, a]: the staleness of (s, a)
    var history: seq<Transition>      // the real moves, in order
    var s: int                        // the current state

    function N(): int {
      NumStates(env.cfg)
    }

    /** The environment is built, the tables have their shapes, and buffer and counts are well formed. */
    ghost predicate Tables()
      reads this`Q, this`buffer, this`actionCount, env, env.T, env.R, Q, buffer, actionCount
    {
      && env.Valid()
      && Q.Length0 == N() && Q.Length1 == NumActions
      && actionCount.Length0 == N() && actionCount.Length1 == NumActions
      && Q != actionCount
      && buffer.Length == N() * NumActions
      && IsIncrement(increment, N())
      && (forall i :: 0 <= i < buffer.Length ==> InRange(buffer[i], N()))
      && (forall i, j :: 0 <= i < N() && 0 <= j < NumActions ==> actionCount[i, j] >= 0.0)
    }

    ghost predicate Valid()
      reads this, env, env.T, env.R, Q, buffer, actionCount
    {
      Tables() && AllInRange(history, N()) && 0 <= s < N()
    }

    /** The world model and the counts are the ones the history leads to. */
    ghost predicate Synced()
      reads this`history, this`buffer, this`actionCount, buffer, actionCount
    {
      && IsIncrement(increment, N()) && AllInRange(history, N())
      && buffer.Length == N() * NumActions
      && actionCount.Length0 == N() && actionCount.Length1 == NumActions
      && (forall i, j :: 0 <= i < N() && 0 <= j < NumActions ==>
            buffer[i * NumActions + j] == LastObserved(history, i, j))
      && (forall i, j :: 0 <= i < N() && 0 <= j < NumActions ==>
            actionCount[i, j] == Staleness(increment, history, i, j))
    }

    /** Where the agent goes after move t: back to the start when t reached the goal. */
    function After(t: Transition): int {
      if t.s1 == env.cfg.goal then env.cfg.start else t.s1
    }

    /** In step with the history, the world model and the counts are the tables the history leads to. */
    lemma SyncedTables()
      requires Synced()
      ensures buffer[..] == BufferOf(history, N())
      ensures TableOf(actionCount) == CountsOf(increment, history)
    {
      var rows := BufferOf(history, N());
      forall k | 0 <= k < buffer.Length
        ensures buffer[k] == rows[k]
      {
        var i, j := k / NumActions, k % NumActions;
        DivBelowRows(k, NumActions, N());
        assert k == i * NumActions + j;
      }
      TablesEqual(TableOf(actionCount), CountsOf(increment, history), N());
    }

    constructor (params: Params, env: Environment, increment: seq<seq<real>>)
      requires env.Valid() && IsIncrement(increment, NumStates(env.cfg))
      ensures this.params == params && this.env == env && this.increment == increment
      ensures Valid() && Synced()
      ensures history == [] && s == env.cfg.start && TableOf(Q) == Zeros(N())
    {
      this.params := params;
      this.env := env;
      this.increment := increment;
      Q := new real[0, 0];
      buffer := new Transition[0];
      actionCount := new real[0, 0];
      history := [];
      s := env.cfg.start;
      new;
      ResetAgent();
    }

    method InitQValues()
      requires ValidConfig(env.cfg)
      modifies this`Q
      ensures fresh(Q) && Q.Length0 == N() && Q.Length1 == NumActions
      ensures TableOf(Q) == Zeros(N())
    {
      Q := new real[N(), NumActions]((_, _) => 0.0);
      TablesEqual(TableOf(Q), Zeros(N()), N());
    }

    /** Every entry of the world model starts as a self-loop with zero reward. */
    method InitExperienceBuffer()
      requires ValidConfig(env.cfg)
      modifies this`buffer
      ensures fresh(buffer) && buffer.Length == N() * NumActions
      ensures forall i, j :: 0 <= i < N() && 0 <= j < NumActions ==> buffer[i * NumActions + j] == Transition(i, j, 0, i)
    {
      var rows := new Transition[N() * NumActions];
      for i := 0 to N()
        invariant forall i', j :: 0 <= i' < i && 0 <= j < NumActions ==> rows[i' * NumActions + j] == Transition(i', j, 0, i')
      {
        for j := 0 to NumActions
          invariant forall i', j' :: (0 <= i' < i && 0 <= j' < NumActions) || (i' == i && 0 <= j' < j) ==>
            rows[i' * NumActions + j'] == Transition(i', j', 0, i')
        {
          rows[i * NumActions + j] := Transition(i, j, 0, i);
        }
      }
      buffer := rows;
    }

    method InitHistory()
      modifies this`history
      ensures history == []
    {
      history := [];
    }

    method InitActionCount()
      requires ValidConfig(env.cfg)
      modifies this`actionCount
      ensures fresh(actionCount) && actionCount.Length0 == N() && actionCount.Length1 == NumActions
      ensures forall i, j :: 0 <= i < N() && 0 <= j < NumActions ==> actionCount[i, j] == 0.0
    {
      actionCount := new real[N(), NumActions]((_, _) => 0.0);
    }

    /** Clears what the agent has learnt and puts it at the start. */
    method ResetAgent()
      requires env.Valid() && IsIncrement(increment, N())
      modifies this`Q, this`buffer, this`actionCount, this`history, this`s
      ensures fresh(Q) && fresh(buffer) && fresh(actionCount)
      ensures Valid() && Synced()
      ensures history == [] && s == env.cfg.start && TableOf(Q) == Zeros(N())
    {
      InitQValues();
      InitExperienceBuffer();
      InitActionCount();
      InitHistory();
      s := env.cfg.start;
      forall k | 0 <= k < buffer.Length
        ensures InRange(buffer[k], N())
      {
        var i, j := k / NumActions, k % NumActions;
        assert k == i * NumActions + j && 0 <= i < N() && 0 <= j < NumActions;
        assert buffer[i * NumActions + j] == Transition(i, j, 0, i);
      }
    }

    /** Records the outcome of (s, a) in the world model, overwriting the previous one. */
    method UpdateExperienceBuffer(s: int, a: int, r: int, s1: int)
      requires Valid() && InRange(Transition(s, a, r, s1), N())
      modifies buffer
      ensures Valid()
      ensures buffer[s * NumActions + a] == Transition(s, a, r, s1)
      ensures forall k :: 0 <= k < buffer.Length && k != s * NumActions + a ==> buffer[k] == old(buffer[k])
    {
      buffer[s * NumActions + a] := Transition(s, a, r, s1);
    }

    /**
     * The learning step: Q[s, a] moves towards r + gamma * max Q[s1, :], plus the exploration
     * bonus when `bonus` is set; no other entry changes.
     */
    method UpdateQvals(s: int, a: int, r: int, s1: int, bonus: bool)
      requires Valid() && InRange(Transition(s, a, r, s1), N())
      modifies Q
      ensures Valid()
      ensures TableOf(Q) == QUpdate(params, old(TableOf(Q)), TableOf(actionCount), Transition(s, a, r, s1), bonus)
      ensures params.alpha == 0.0 ==> TableOf(Q) == old(TableOf(Q))
      ensures old(Synced()) ==> Synced()
    {
      ghost var before := TableOf(Q);
      var nextMax := RowMax(TableOf(Q)[s1]);
      Q[s, a] := TdUpdate(params, Q[s, a], r, BonusTerm(params, actionCount[s, a], bonus), nextMax);
      TablesEqual(TableOf(Q), QUpdate(params, before, TableOf(actionCount), Transition(s, a, r, s1), bonus), N());
      if params.alpha == 0.0 {
        QUpdateWithoutLearning(params, before, TableOf(actionCount), Transition(s, a, r, s1), bonus);
      }
    }

    /**
     * Ages every count by the increment of a step from s, then zeroes the count of the pair taken.
     */
    method UpdateActionCount(s: int, a: int)
      requires Valid() && 0 <= s < N() && 0 <= a < NumActions
      modifies actionCount
      ensures Valid()
      ensures forall i, j :: 0 <= i < N() && 0 <= j < NumActions ==>
        actionCount[i, j] == if i == s && j == a then 0.0 else old(actionCount[i, j]) + increment[s][i]
    {
      for i := 0 to N()
        invariant forall i', j :: 0 <= i' < N() && 0 <= j < NumActions ==>
          actionCount[i', j] == old(actionCount[i', j]) + (if i' < i then increment[s][i'] else 0.0)
      {
        for j := 0 to NumActions
          invariant forall i', j' :: 0 <= i' < N() && 0 <= j' < NumActions ==>
            actionCount[i', j'] == old(actionCount[i', j']) + (if i' < i || (i' == i && j' < j) then increment[s][i'] else 0.0)
        {
          actionCount[i, j] := actionCount[i, j] + increment[s][i];
        }
      }
      actionCount[s, a] := 0.0;
    }

    /** Appends a real move to the history. */
    method UpdateHistory(s: int, a: int, r: int, s1: int)
      requires Valid() && InRange(Transition(s, a, r, s1), N())
      modifies this`history
      ensures Valid()
      ensures history == old(history) + [Transition(s, a, r, s1)]
    {
      history := history + [Transition(s, a, r, s1)];
    }

    /** The score the policy maximises: the Q value plus the weighted, transformed count. */
    function Score(s: int, a: int): real
      reads this, Q, actionCount
      requires 0 <= s < Q.Length0 && 0 <= a < Q.Length1
      requires actionCount.Length0 == Q.Length0 && actionCount.Length1 == Q.Length1
    {
      Q[s, a] + params.epsilon * params.sqrt(actionCount[s, a])
    }

    /**
     * The policy: an action of maximal score in state s; among tied actions, the random index
     * `pick` selects one.
     */
    function Policy(s: int, pick: nat): (a: int)
      reads this, env, env.T, env.R, Q, buffer, actionCount
      requires Valid() && 0 <= s < N()
      ensures 0 <= a < NumActions
      ensures forall b :: 0 <= b < NumActions ==> Score(s, b) <= Score(s, a)
    {
      var v := Scores(params, TableOf(Q)[s], TableOf(actionCount)[s]);
      assert forall b :: 0 <= b < NumActions ==> v[b] == Score(s, b);
      ChooseMax(v, pick)
    }

    /**
     * Planning: replays the world-model rows at the n random indices, in order, each with the
     * exploration bonus. Only Q changes.
     */
    method Plan(n: nat, idx: seq<int>)
      requires Valid() && |idx| == n && forall k :: 0 <= k < n ==> 0 <= idx[k] < buffer.Length
      modifies Q
      ensures Valid()
      ensures TableOf(Q) == Replay(params, old(TableOf(Q)), TableOf(actionCount), buffer[..], idx)
      ensures buffer[..] == old(buffer[..]) && TableOf(actionCount) == old(TableOf(actionCount))
      ensures history == old(history) && (old(Synced()) ==> Synced())
    {
      ghost var q0, counts, rows := TableOf(Q), TableOf(actionCount), buffer[..];
      for k := 0 to n
        invariant Valid()
        invariant TableOf(Q) == Replay(params, q0, counts, rows, idx[..k])
      {
        var t := buffer[idx[k]];
        ghost var prev := idx[..k];
        ghost var next := idx[..k + 1];
        assert next[..k] == prev && t == rows[next[k]];
        UpdateQvals(t.s, t.a, t.r, t.s1, true);
        assert TableOf(actionCount) == counts;
      }
      assert idx[..n] == idx;
    }

    /** The cumulative reward after each real move. */
    function GetPerformance(): (c: seq<int>)
      reads this
      ensures |c| == |history|
      ensures forall k :: 0 <= k < |history| ==> c[k] == RewardSum(history[..k + 1])
    {
      CumulativeRewards(history)
    }

    /** The planning indices of a trial: none when planning is off. */
    function PlanIndices(planIdx: Option<seq<int>>): seq<int> {
      if planIdx.Some? then planIdx.value else []
    }

    /** A real move of the grid world: its next state and reward are those of the environment. */
    ghost predicate FollowsEnv(t: Transition) {
      && ValidConfig(env.cfg) && InRange(t, N())
      && t.s1 == NextState(env.cfg, t.s, t.a) && t.r == Reward(env.cfg, t.s, t.a)
    }

    /**
     * The bookkeeping of a real move: the world model, the counts and the history all take it
     * in, so they stay in step; Q does not change.
     */
    method Observe(s: int, a: int, r: int, s1: int)
      requires Valid() && InRange(Transition(s, a, r, s1), N())
      modifies buffer, actionCount, this`history
      ensures Valid()
      ensures old(Synced()) ==> Synced()
      ensures history == old(history) + [Transition(s, a, r, s1)]
      ensures TableOf(Q) == old(TableOf(Q))
    {
      ghost var wasSynced := Synced();
      ghost var h0 := history;
      UpdateExperienceBuffer(s, a, r, s1);
      UpdateActionCount(s, a);
      UpdateHistory(s, a, r, s1);
      if wasSynced {
        var t := Transition(s, a, r, s1);
        forall i, j | 0 <= i < N() && 0 <= j < NumActions
          ensures buffer[i * NumActions + j] == LastObserved(history, i, j)
          ensures actionCount[i, j] == Staleness(increment, history, i, j)
        {
          LastObservedAppend(h0, t, i, j);
          StalenessAppend(increment, h0, t, i, j);
        }
      }
    }

    /**
     * The real move of a trial with the action a the policy chose: sample the next state, learn
     * from the move without the bonus and take it into the world model, counts and history.
     */
    method Move(a: int, u: real) returns (t: Transition)
      requires Valid() && 0 <= a < NumActions && 0.0 <= u < 1.0
      modifies this`history, Q, buffer, actionCount
      ensures Valid()
      ensures old(Synced()) ==> Synced()
      ensures history == old(history) + [t]
      ensures t.s == s && t.a == a && FollowsEnv(t)
      ensures TableOf(Q) == QUpdate(params, old(TableOf(Q)), old(TableOf(actionCount)), t, false)
      ensures params.alpha == 0.0 ==> TableOf(Q) == old(TableOf(Q))
    {
      var s1 := env.SampleNext(s, a, u);
      var r := env.R[s, a];
      t := Transition(s, a, r, s1);
      UpdateQvals(s, a, r, s1, false);
      Observe(s, a, r, s1);
    }

    /** Planning after a real move, when a number of planning updates is given. */
    method PlanIfAsked(planIdx: Option<seq<int>>)
      requires Valid()
      requires forall k :: 0 <= k < |PlanIndices(planIdx)| ==> 0 <= PlanIndices(planIdx)[k] < N() * NumActions
      modifies Q
      ensures Valid() && (old(Synced()) ==> Synced())
      ensures TableOf(Q) == Replay(params, old(TableOf(Q)), TableOf(actionCount), buffer[..], PlanIndices(planIdx))
      ensures params.alpha == 0.0 ==> TableOf(Q) == old(TableOf(Q))
    {
      if planIdx.Some? {
        assert PlanIndices(planIdx) == planIdx.value && buffer.Length == N() * NumActions;
        Plan(|planIdx.value|, planIdx.value);
      }
      if params.alpha == 0.0 {
        ReplayWithoutLearning(params, old(TableOf(Q)), TableOf(actionCount), buffer[..], PlanIndices(planIdx));
      }
    }

    /** Goes on from the next state of move t, or from the start after reaching the goal. */
    method MoveOn(t: Transition)
      requires Valid() && FollowsEnv(t)
      modifies this`s
      ensures Valid() && s == After(t) && (old(Synced()) ==> Synced())
    {
      if t.s1 == env.cfg.goal {
        s := env.cfg.start;
      } else {
        s := t.s1;
      }
    }

    /**
     * One trial: the real move, then planning if asked, then on to the next state, or to the
     * start after reaching the goal.
     */
    method Trial(a: int, u: real, planIdx: Option<seq<int>>) returns (t: Transition)
      requires Valid() && 0 <= a < NumActions && 0.0 <= u < 1.0
      requires forall k :: 0 <= k < |PlanIndices(planIdx)| ==> 0 <= PlanIndices(planIdx)[k] < N() * NumActions
      modifies this`s, this`history, Q, buffer, actionCount
      ensures Valid()
      ensures old(Synced()) ==> Synced()
      ensures history == old(history) + [t]
      ensures t.s == old(s) && t.a == a && FollowsEnv(t) && s == After(t)
      ensures TableOf(Q) == Replay(params, QUpdate(params, old(TableOf(Q)), old(TableOf(actionCount)), t, false),
                                   TableOf(actionCount), buffer[..], PlanIndices(planIdx))
      ensures params.alpha == 0.0 ==> TableOf(Q) == old(TableOf(Q))
    {
      t := Move(a, u);
      PlanIfAsked(planIdx);
      MoveOn(t);
    }

    /**
     * A run of real moves starting in state `from`: each follows the grid world and starts
     * where the previous one left the agent.
     */
    ghost predicate IsRun(moves: seq<Transition>, from: int) {
      && (forall k :: 0 <= k < |moves| ==> FollowsEnv(moves[k]))
      && (|moves| > 0 ==> moves[0].s == from)
      && (forall k :: 0 <= k < |moves| - 1 ==> moves[k + 1].s == After(moves[k]))
    }

    /** Where a run starting in `from` leaves the agent. */
    function EndOfRun(moves: seq<Transition>, from: int): int {
      if moves == [] then from else After(moves[|moves| - 1])
    }

    lemma AppendAssoc(h: seq<Transition>, moves: seq<Transition>, t: Transition)
      ensures (h + moves) + [t] == h + (moves + [t])
    {
    }

    /** A move that starts where a run ends extends the run. */
    lemma RunExtends(moves: seq<Transition>, from: int, t: Transition)
      requires IsRun(moves, from) && FollowsEnv(t) && t.s == EndOfRun(moves, from)
      ensures IsRun(moves + [t], from) && EndOfRun(moves + [t], from) == After(t)
    {
      var m := moves + [t];
      forall k | 0 <= k < |m| - 1
        ensures m[k + 1].s == After(m[k])
      {
        if k + 1 < |moves| {
          assert m[k + 1] == moves[k + 1] && m[k] == moves[k];
        } else {
          assert m[k + 1] == t && m[k] == moves[|moves| - 1];
        }
      }
    }

    /**
     * The trial loop: numTrials trials from the current state, planning only when a number of
     * planning updates is given. The random inputs are the tie-break indices, the uniform draws
     * of the next state and the planning indices.
     */
    method RunTrials(numTrials: nat, planning: Option<nat>, picks: seq<nat>, draws: seq<real>, planIdx: seq<seq<int>>)
      requires Valid()
      requires |picks| == numTrials && |draws| == numTrials
      requires forall k :: 0 <= k < numTrials ==> 0.0 <= draws[k] < 1.0
      requires planning.Some? ==> |planIdx| == numTrials
      requires planning.Some? ==> forall k :: 0 <= k < numTrials ==> |planIdx[k]| == planning.value
      requires planning.Some? ==> PlansInRange(planIdx, N())
      modifies this`s, this`history, Q, buffer, actionCount
      ensures Valid()
      ensures old(Synced()) ==> Synced()
      ensures |history| == |old(history)| + numTrials && history == old(history) + history[|old(history)|..]
      ensures IsRun(history[|old(history)|..], old(s)) && s == EndOfRun(history[|old(history)|..], old(s))
      ensures planning.None? ==> TableOf(Q) == RealUpdates(params, old(TableOf(Q)), history[|old(history)|..])
      ensures old(Synced()) ==>
                TableOf(Q) == Run(params, increment, old(TableOf(Q)), old(history), history[|old(history)|..],
                                  TrialPlans(planning, planIdx, numTrials, N()))
      ensures params.alpha == 0.0 ==> TableOf(Q) == old(TableOf(Q))
    {
      ghost var h0, s0, q0 := history, s, TableOf(Q);
      ghost var wasSynced := Synced();
      ghost var moves: seq<Transition> := [];
      ghost var plans := TrialPlans(planning, planIdx, numTrials, N());
      for k := 0 to numTrials
        invariant Valid()
        invariant wasSynced ==> Synced()
        invariant history == h0 + moves && |moves| == k
        invariant IsRun(moves, s0) && s == EndOfRun(moves, s0)
        invariant planning.None? ==> TableOf(Q) == RealUpdates(params, q0, moves)
        invariant wasSynced ==> TableOf(Q) == Run(params, increment, q0, h0, moves, plans)
        invariant params.alpha == 0.0 ==> TableOf(Q) == q0
      {
        var idx := if planning.Some? then Some(planIdx[k]) else None;
        var a := Policy(s, picks[k]);
        ghost var qPrev, cPrev := TableOf(Q), TableOf(actionCount);
        var t := Trial(a, draws[k], idx);
        RealUpdateIgnoresCounts(params, qPrev, cPrev, Zeros(N()), t);
        RunExtends(moves, s0, t);
        AppendAssoc(h0, moves, t);
        if planning.None? {
          assert (moves + [t])[..k] == moves;
        }
        if wasSynced {
          SyncedTables();
          assert plans[k] == PlanIndices(idx);
          RunAppend(params, increment, q0, h0, moves, plans, t);
        }
        moves := moves + [t];
      }
      assert history[|h0|..] == moves;
    }

    /**
     * The simulation: clears what the agent has learnt if resetAgent is set, then runs the
     * trial loop.
     */
    method Simulate(numTrials: nat, resetAgent: bool, planning: Option<nat>,
                    picks: seq<nat>, draws: seq<real>, planIdx: seq<seq<int>>)
      requires Valid()
      requires |picks| == numTrials && |draws| == numTrials
      requires forall k :: 0 <= k < numTrials ==> 0.0 <= draws[k] < 1.0
      requires planning.Some? ==> |planIdx| == numTrials
      requires planning.Some? ==> forall k :: 0 <= k < numTrials ==> |planIdx[k]| == planning.value
      requires planning.Some? ==> PlansInRange(planIdx, N())
      modifies this`s, this`history, this`Q, this`buffer, this`actionCount, Q, buffer, actionCount
      ensures Valid()
      ensures resetAgent || old(Synced()) ==> Synced()
      ensures var base := if resetAgent then 0 else |old(history)|;
        var from := if resetAgent then env.cfg.start else old(s);
        && |history| == base + numTrials
        && (!resetAgent ==> history[..base] == old(history))
        && IsRun(history[base..], from)
        && s == EndOfRun(history[base..], from)
      ensures var base := if resetAgent then 0 else |old(history)|;
        var q0 := if resetAgent then Zeros(N()) else old(TableOf(Q));
        planning.None? ==> TableOf(Q) == RealUpdates(params, q0, history[base..])
      ensures var base := if resetAgent then 0 else |old(history)|;
        var q0 := if resetAgent then Zeros(N()) else old(TableOf(Q));
        var h0 := if resetAgent then [] else old(history);
        resetAgent || old(Synced()) ==>
          TableOf(Q) == Run(params, increment, q0, h0, history[base..], TrialPlans(planning, planIdx, numTrials, N()))
      ensures params.alpha == 0.0 ==> TableOf(Q) == if resetAgent then Zeros(N()) else old(TableOf(Q))
    {
      if resetAgent {
        ResetAgent();
      }
      RunTrials(numTrials, planning, picks, draws, planIdx);
    }
  }
}
