/**
 * Value-level specifications of the Dyna agent's tables: the Q-value update and its replay
 * during planning, the greedy choice with random tie-breaking, the experience buffer entry
 * and the visitation count a history of transitions leads to, and the cumulative reward.
 */
module Tabular {
  import GridWorld

  /** One transition: state, action, reward, next state (a row of the buffer and of the history). */
  datatype Transition = Transition(s: int, a: int, r: int, s1: int)

  /**
   * The learning parameters: learning rate, discount factor, weight of the exploration bonus,
   * and the concave transform the bonus applies to a count (the square root).
   */
  datatype Params = Params(alpha: real, gamma: real, epsilon: real, sqrt: real -> real)

  /** A table indexed by (state, action). */
  type Table = seq<seq<real>>

  /** A table with n states and one column per action. */
  predicate IsTable(q: Table, n: int) {
    |q| == n && forall i :: 0 <= i < n ==> |q[i]| == GridWorld.NumActions
  }

  /** A transition whose states lie in [0, n) and whose action is one of the actions. */
  predicate InRange(t: Transition, n: int) {
    0 <= t.s < n && 0 <= t.a < GridWorld.NumActions && 0 <= t.s1 < n
  }

  predicate AllInRange(h: seq<Transition>, n: int) {
    forall k :: 0 <= k < |h| ==> InRange(h[k], n)
  }

  /** The largest value of a row. */
  function RowMax(row: seq<real>): (m: real)
    requires |row| > 0
    ensures m in row
    ensures forall k :: 0 <= k < |row| ==> row[k] <= m
  {
    if |row| == 1 then row[0]
    else
      var rest := RowMax(row[1..]);
      if row[0] >= rest then row[0] else rest
  }

  /** The exploration bonus added to the target: epsilon times the transformed count, or nothing. */
  function BonusTerm(p: Params, count: real, bonus: bool): real {
    if bonus then p.epsilon * p.sqrt(count) else 0.0
  }

  /**
   * The temporal-difference update of one entry: q moves by the fraction alpha of the way
   * towards the target r + bonus + gamma * (best value of the next state).
   */
  function TdUpdate(p: Params, q: real, r: int, bonusTerm: real, nextMax: real): (v: real)
    ensures p.alpha == 0.0 ==> v == q
    ensures p.alpha == 1.0 ==> v == r as real + bonusTerm + p.gamma * nextMax
    ensures 0.0 <= p.alpha <= 1.0 ==>
      var target := r as real + bonusTerm + p.gamma * nextMax;
      (q <= target ==> q <= v <= target) && (target <= q ==> target <= v <= q)
  {
    var d := r as real + bonusTerm + p.gamma * nextMax - q;
    assert 0.0 <= p.alpha <= 1.0 && d >= 0.0 ==> 0.0 <= p.alpha * d <= d;
    assert 0.0 <= p.alpha <= 1.0 && d <= 0.0 ==> d <= p.alpha * d <= 0.0;
    q + p.alpha * d
  }

  /** The Q table after learning from transition t; the counts feed the bonus when it is on. */
  function QUpdate(p: Params, q: Table, counts: Table, t: Transition, bonus: bool): (q': Table)
    requires IsTable(q, |q|) && IsTable(counts, |q|) && InRange(t, |q|)
    ensures IsTable(q', |q|)
    ensures q'[t.s][t.a] == TdUpdate(p, q[t.s][t.a], t.r, BonusTerm(p, counts[t.s][t.a], bonus), RowMax(q[t.s1]))
    ensures forall i, j :: 0 <= i < |q| && 0 <= j < GridWorld.NumActions && (i != t.s || j != t.a) ==>
      q'[i][j] == q[i][j]
  {
    var v := TdUpdate(p, q[t.s][t.a], t.r, BonusTerm(p, counts[t.s][t.a], bonus), RowMax(q[t.s1]));
    q[t.s := q[t.s][t.a := v]]
  }

  /** Learning from real experience (no bonus) does not depend on the visitation counts. */
  lemma RealUpdateIgnoresCounts(p: Params, q: Table, c1: Table, c2: Table, t: Transition)
    requires IsTable(q, |q|) && IsTable(c1, |q|) && IsTable(c2, |q|) && InRange(t, |q|)
    ensures QUpdate(p, q, c1, t, false) == QUpdate(p, q, c2, t, false)
  {
  }

  /**
   * The Q table after replaying, in order, the buffer rows at the given indices, each with the
   * exploration bonus on: the effect of the planning loop.
   */
  function Replay(p: Params, q: Table, counts: Table, rows: seq<Transition>, idx: seq<int>): (q': Table)
    requires IsTable(q, |q|) && IsTable(counts, |q|) && AllInRange(rows, |q|)
    requires forall k :: 0 <= k < |idx| ==> 0 <= idx[k] < |rows|
    ensures IsTable(q', |q|)
    decreases |idx|
  {
    if idx == [] then q
    else QUpdate(p, Replay(p, q, counts, rows, idx[..|idx| - 1]), counts, rows[idx[|idx| - 1]], true)
  }

  /** Planning changes only the entries of the (state, action) pairs of the rows it replays. */
  lemma {:induction false} ReplayChangesOnlyReplayed(p: Params, q: Table, counts: Table, rows: seq<Transition>,
                                                      idx: seq<int>, i: int, j: int)
    requires IsTable(q, |q|) && IsTable(counts, |q|) && AllInRange(rows, |q|)
    requires forall k :: 0 <= k < |idx| ==> 0 <= idx[k] < |rows|
    requires 0 <= i < |q| && 0 <= j < GridWorld.NumActions
    requires forall k :: 0 <= k < |idx| ==> rows[idx[k]].s != i || rows[idx[k]].a != j
    ensures Replay(p, q, counts, rows, idx)[i][j] == q[i][j]
  {
    if idx != [] {
      ReplayChangesOnlyReplayed(p, q, counts, rows, idx[..|idx| - 1], i, j);
    }
  }

  /** With learning rate zero, planning leaves the Q table unchanged. */
  lemma {:induction false} ReplayWithoutLearning(p: Params, q: Table, counts: Table, rows: seq<Transition>, idx: seq<int>)
    requires IsTable(q, |q|) && IsTable(counts, |q|) && AllInRange(rows, |q|)
    requires forall k :: 0 <= k < |idx| ==> 0 <= idx[k] < |rows|
    requires p.alpha == 0.0
    ensures Replay(p, q, counts, rows, idx) == q
  {
    if idx != [] {
      ReplayWithoutLearning(p, q, counts, rows, idx[..|idx| - 1]);
      var q' := Replay(p, q, counts, rows, idx);
      assert forall i :: 0 <= i < |q| ==> q'[i] == q[i];
    }
  }

  /** The score of each action: its Q value plus epsilon times the transformed count. */
  function Scores(p: Params, qRow: seq<real>, countRow: seq<real>): (v: seq<real>)
    requires |countRow| == |qRow|
    ensures |v| == |qRow|
  {
    seq(|qRow|, k requires 0 <= k < |qRow| => qRow[k] + p.epsilon * p.sqrt(countRow[k]))
  }

  /** The indices k >= from whose value is x, in increasing order. */
  function IndicesOf(v: seq<real>, x: real, from: nat): (ks: seq<nat>)
    requires from <= |v|
    ensures forall i :: 0 <= i < |ks| ==> from <= ks[i] < |v| && v[ks[i]] == x
    ensures forall k :: from <= k < |v| && v[k] == x ==> k in ks
    ensures forall i, j :: 0 <= i < j < |ks| ==> ks[i] < ks[j]
    decreases |v| - from
  {
    if from == |v| then []
    else if v[from] == x then [from] + IndicesOf(v, x, from + 1)
    else IndicesOf(v, x, from + 1)
  }

  /** The indices of the maximal values of v, in increasing order. */
  function Maximisers(v: seq<real>): (ks: seq<nat>)
    requires |v| > 0
    ensures |ks| > 0
    ensures forall k: nat :: k in ks <==> k < |v| && v[k] == RowMax(v)
    ensures forall i, j :: 0 <= i < j < |ks| ==> ks[i] < ks[j]
  {
    assert RowMax(v) in v;
    IndicesOf(v, RowMax(v), 0)
  }

  /** The greedy choice: the maximiser that the random index `pick` selects. */
  function ChooseMax(v: seq<real>, pick: nat): (k: nat)
    requires |v| > 0
    ensures k < |v| && v[k] == RowMax(v)
    ensures forall j :: 0 <= j < |v| ==> v[j] <= v[k]
  {
    var ks := Maximisers(v);
    assert ks[pick % |ks|] in ks;
    ks[pick % |ks|]
  }

  /** A strict maximiser is chosen whatever the random index. */
  lemma UniqueMaximiserChosen(v: seq<real>, k: nat, pick: nat)
    requires k < |v| && forall j :: 0 <= j < |v| && j != k ==> v[j] < v[k]
    ensures ChooseMax(v, pick) == k
  {
    var c := ChooseMax(v, pick);
    assert v[k] <= v[c];
  }

  lemma ModBelow(x: nat, n: nat)
    requires x < n
    ensures x % n == x
  {
  }

  /** The position of k in ks. */
  function IndexOf(ks: seq<nat>, k: nat): (i: nat)
    requires k in ks
    ensures i < |ks| && ks[i] == k
  {
    if ks[0] == k then 0 else 1 + IndexOf(ks[1..], k)
  }

  /** Every maximiser is the choice for some random index: ties are not resolved by position. */
  lemma EveryMaximiserChosen(v: seq<real>, k: nat) returns (pick: nat)
    requires k < |v| && v[k] == RowMax(v)
    ensures ChooseMax(v, pick) == k
  {
    var ks := Maximisers(v);
    assert k in ks;
    pick := IndexOf(ks, k);
    ModBelow(pick, |ks|);
  }

  /** The buffer entry for (s, a) after the transitions of h: the last one from s by a, or a self-loop with zero reward. */
  function LastObserved(h: seq<Transition>, s: int, a: int): (t: Transition)
    ensures t.s == s && t.a == a
    ensures t in h || t == Transition(s, a, 0, s)
  {
    if h == [] then Transition(s, a, 0, s)
    else if h[|h| - 1].s == s && h[|h| - 1].a == a then h[|h| - 1]
    else LastObserved(h[..|h| - 1], s, a)
  }

  /** The buffer entry for a pair is the latest transition taken from it: later visits overwrite earlier ones. */
  lemma {:induction false} LastObservedIsLatest(h: seq<Transition>, k: int)
    requires 0 <= k < |h|
    requires forall j :: k < j < |h| ==> h[j].s != h[k].s || h[j].a != h[k].a
    ensures LastObserved(h, h[k].s, h[k].a) == h[k]
  {
    if k < |h| - 1 {
      LastObservedIsLatest(h[..|h| - 1], k);
    }
  }

  /** Per-state increments: inc[v][w] is added to the count of every action of w after a step from v. */
  predicate IsIncrement(inc: seq<seq<real>>, n: int) {
    |inc| == n && (forall v :: 0 <= v < n ==> |inc[v]| == n) &&
    forall v, w :: 0 <= v < n && 0 <= w < n ==> inc[v][w] >= 0.0
  }

  /** The increments of the ordinary agent: one per elapsed step. */
  function UniformIncrement(n: nat): (inc: seq<seq<real>>)
    ensures IsIncrement(inc, n)
  {
    seq(n, v => seq(n, w => 1.0))
  }

  /**
   * The visitation count of (s, a) after the transitions of h, starting from zero: every step
   * adds its increment to every pair and then zeroes the pair it took.
   */
  function Staleness(inc: seq<seq<real>>, h: seq<Transition>, s: int, a: int): (x: real)
    requires IsIncrement(inc, |inc|) && AllInRange(h, |inc|) && 0 <= s < |inc|
    ensures x >= 0.0
  {
    if h == [] then 0.0
    else if h[|h| - 1].s == s && h[|h| - 1].a == a then 0.0
    else Staleness(inc, h[..|h| - 1], s, a) + inc[h[|h| - 1].s][s]
  }

  /** The index of the last transition of h from s by a, or -1 if there is none. */
  function LastVisit(h: seq<Transition>, s: int, a: int): (k: int)
    ensures -1 <= k < |h|
    ensures k >= 0 ==> h[k].s == s && h[k].a == a
    ensures forall j :: k < j < |h| ==> h[j].s != s || h[j].a != a
  {
    if h == [] then -1
    else if h[|h| - 1].s == s && h[|h| - 1].a == a then |h| - 1
    else LastVisit(h[..|h| - 1], s, a)
  }

  /** With one increment per step, a pair's count is the number of steps since it was last taken. */
  lemma {:induction false} UniformStalenessCountsSteps(n: nat, h: seq<Transition>, s: int, a: int)
    requires AllInRange(h, n) && 0 <= s < n
    ensures Staleness(UniformIncrement(n), h, s, a) == (|h| - 1 - LastVisit(h, s, a)) as real
  {
    if h != [] && !(h[|h| - 1].s == s && h[|h| - 1].a == a) {
      UniformStalenessCountsSteps(n, h[..|h| - 1], s, a);
    }
  }

  /** The sum of the rewards of h. */
  function RewardSum(h: seq<Transition>): int {
    if h == [] then 0 else RewardSum(h[..|h| - 1]) + h[|h| - 1].r
  }

  /** The running sum of the rewards of h. */
  function CumulativeRewards(h: seq<Transition>): (c: seq<int>)
    ensures |c| == |h|
    ensures forall k :: 0 <= k < |h| ==> c[k] == RewardSum(h[..k + 1])
  {
    if h == [] then []
    else
      var init := h[..|h| - 1];
      var prev := CumulativeRewards(init);
      var c := prev + [(if prev == [] then 0 else prev[|prev| - 1]) + h[|h| - 1].r];
      assert forall k :: 0 <= k < |h| ==> c[k] == RewardSum(h[..k + 1]) by {
        forall k | 0 <= k < |h| - 1
          ensures c[k] == RewardSum(h[..k + 1])
        {
          assert init[..k + 1] == h[..k + 1];
        }
        if prev != [] {
          assert init[..|init|] == init;
        }
        assert h[..|h|] == h;
      }
      c
  }

  /** With nonnegative rewards, the sum over a prefix is at most the sum over a longer prefix. */
  lemma {:induction false} RewardSumGrows(h: seq<Transition>, i: int, j: int)
    requires 0 <= i <= j <= |h|
    requires forall k :: 0 <= k < |h| ==> h[k].r >= 0
    ensures RewardSum(h[..i]) <= RewardSum(h[..j])
  {
    if i < j {
      RewardSumGrows(h, i, j - 1);
      assert h[..j][..j - 1] == h[..j - 1];
    }
  }

  /** With nonnegative rewards the cumulative reward never decreases. */
  lemma CumulativeRewardsMonotone(h: seq<Transition>, i: int, j: int)
    requires 0 <= i <= j < |h|
    requires forall k :: 0 <= k < |h| ==> h[k].r >= 0
    ensures CumulativeRewards(h)[i] <= CumulativeRewards(h)[j]
  {
    var c := CumulativeRewards(h);
    assert c[i] == RewardSum(h[..i + 1]);
    assert c[j] == RewardSum(h[..j + 1]);
    RewardSumGrows(h, i + 1, j + 1);
  }

  /** Two tables of the same shape with the same entries are equal. */
  lemma TablesEqual(x: Table, y: Table, n: int)
    requires IsTable(x, n) && IsTable(y, n)
    requires forall i, j :: 0 <= i < n && 0 <= j < GridWorld.NumActions ==> x[i][j] == y[i][j]
    ensures x == y
  {
    assert forall i :: 0 <= i < n ==> x[i] == y[i];
  }

  /** The table of n states whose every entry is zero. */
  function Zeros(n: nat): (q: Table)
    ensures IsTable(q, n)
  {
    seq(n, i => seq(GridWorld.NumActions, j => 0.0))
  }

  /** With learning rate zero, an update leaves the Q table unchanged. */
  lemma QUpdateWithoutLearning(p: Params, q: Table, counts: Table, t: Transition, bonus: bool)
    requires IsTable(q, |q|) && IsTable(counts, |q|) && InRange(t, |q|) && p.alpha == 0.0
    ensures QUpdate(p, q, counts, t, bonus) == q
  {
    TablesEqual(QUpdate(p, q, counts, t, bonus), q, |q|);
  }

  /** Recording a transition overwrites the entry of its own pair and no other. */
  lemma LastObservedAppend(h: seq<Transition>, t: Transition, i: int, j: int)
    ensures LastObserved(h + [t], i, j) == if t.s == i && t.a == j then t else LastObserved(h, i, j)
  {
    assert (h + [t])[..|h|] == h;
  }

  /** A step zeroes the count of its own pair and adds its increment to every other pair. */
  lemma StalenessAppend(inc: seq<seq<real>>, h: seq<Transition>, t: Transition, i: int, j: int)
    requires IsIncrement(inc, |inc|) && AllInRange(h, |inc|) && InRange(t, |inc|) && 0 <= i < |inc|
    ensures AllInRange(h + [t], |inc|)
    ensures Staleness(inc, h + [t], i, j) ==
      if t.s == i && t.a == j then 0.0 else Staleness(inc, h, i, j) + inc[t.s][i]
  {
    assert forall k :: 0 <= k < |h| ==> h[k] == (h + [t])[k];
    assert (h + [t])[..|h|] == h;
  }

  /** The world model a history leads to: row s * NumActions + a is the latest outcome of (s, a). */
  function BufferOf(h: seq<Transition>, n: nat): (rows: seq<Transition>)
    requires AllInRange(h, n)
    ensures |rows| == n * GridWorld.NumActions && AllInRange(rows, n)
    ensures forall i, j :: 0 <= i < n && 0 <= j < GridWorld.NumActions ==>
      rows[i * GridWorld.NumActions + j] == LastObserved(h, i, j)
  {
    var rows := seq(n * GridWorld.NumActions, k => LastObserved(h, k / GridWorld.NumActions, k % GridWorld.NumActions));
    forall k | 0 <= k < |rows|
      ensures InRange(rows[k], n)
    {
      var i := k / GridWorld.NumActions;
      GridWorld.DivBelowRows(k, GridWorld.NumActions, n);
      var t := LastObserved(h, i, k % GridWorld.NumActions);
      if t in h {
        var m :| 0 <= m < |h| && h[m] == t;
      }
    }
    forall i, j | 0 <= i < n && 0 <= j < GridWorld.NumActions
      ensures rows[i * GridWorld.NumActions + j] == LastObserved(h, i, j)
    {
      var k := i * GridWorld.NumActions + j;
      GridWorld.CellInRange(i, j, GridWorld.NumActions, n);
      GridWorld.DivModUnique(k / GridWorld.NumActions, k % GridWorld.NumActions, i, j, GridWorld.NumActions);
    }
    rows
  }

  /** The visitation counts a history leads to. */
  function CountsOf(inc: seq<seq<real>>, h: seq<Transition>): (c: Table)
    requires IsIncrement(inc, |inc|) && AllInRange(h, |inc|)
    ensures IsTable(c, |inc|)
    ensures forall i, j :: 0 <= i < |inc| && 0 <= j < GridWorld.NumActions ==> c[i][j] == Staleness(inc, h, i, j)
  {
    seq(|inc|, i requires 0 <= i < |inc| => seq(GridWorld.NumActions, j => Staleness(inc, h, i, j)))
  }

  /** The Q table after learning from the real moves of `moves` in order, without planning. */
  function RealUpdates(p: Params, q: Table, moves: seq<Transition>): (q': Table)
    requires IsTable(q, |q|) && AllInRange(moves, |q|)
    ensures IsTable(q', |q|)
    decreases |moves|
  {
    if moves == [] then q
    else QUpdate(p, RealUpdates(p, q, moves[..|moves| - 1]), Zeros(|q|), moves[|moves| - 1], false)
  }

  /** Planning indices for a run of trials, each within a world model of n states. */
  predicate PlansInRange(plans: seq<seq<int>>, n: int) {
    forall k, i :: 0 <= k < |plans| && 0 <= i < |plans[k]| ==> 0 <= plans[k][i] < n * GridWorld.NumActions
  }

  /**
   * The Q table after a run of trials that follow the history h0: trial k learns from its
   * real move, then replays, at its planning indices plans[k], the world model and the counts
   * that the history up to and including that move leads to.
   */
  function Run(p: Params, inc: seq<seq<real>>, q: Table, h0: seq<Transition>, moves: seq<Transition>,
               plans: seq<seq<int>>): (q': Table)
    requires IsTable(q, |inc|) && IsIncrement(inc, |inc|) && AllInRange(h0 + moves, |inc|)
    requires |moves| <= |plans| && PlansInRange(plans, |inc|)
    ensures IsTable(q', |inc|)
    decreases |moves|
  {
    if moves == [] then q
    else
      var k := |moves| - 1;
      var h := h0 + moves;
      assert h0 + moves[..k] == h[..|h| - 1] && moves[k] == h[|h| - 1];
      var before := Run(p, inc, q, h0, moves[..k], plans);
      Replay(p, QUpdate(p, before, Zeros(|inc|), moves[k], false), CountsOf(inc, h), BufferOf(h, |inc|), plans[k])
  }

  /** One more trial extends the run by its real update and its planning. */
  lemma RunAppend(p: Params, inc: seq<seq<real>>, q: Table, h0: seq<Transition>, moves: seq<Transition>,
                  plans: seq<seq<int>>, t: Transition)
    requires IsTable(q, |inc|) && IsIncrement(inc, |inc|) && AllInRange(h0 + (moves + [t]), |inc|)
    requires |moves| < |plans| && PlansInRange(plans, |inc|)
    ensures AllInRange(h0 + moves, |inc|) && InRange(t, |inc|)
    ensures Run(p, inc, q, h0, moves + [t], plans) ==
      Replay(p, QUpdate(p, Run(p, inc, q, h0, moves, plans), Zeros(|inc|), t, false),
             CountsOf(inc, h0 + (moves + [t])), BufferOf(h0 + (moves + [t]), |inc|), plans[|moves|])
  {
    assert (h0 + (moves + [t]))[..|h0 + moves|] == h0 + moves;
    assert (moves + [t])[..|moves|] == moves;
    assert (h0 + (moves + [t]))[|h0 + moves|] == t;
  }

  /** With no planning indices, a run is the real updates of its moves alone. */
  lemma {:induction false} RunWithoutPlanning(p: Params, inc: seq<seq<real>>, q: Table, h0: seq<Transition>,
                                              moves: seq<Transition>, plans: seq<seq<int>>)
    requires IsTable(q, |inc|) && IsIncrement(inc, |inc|) && AllInRange(h0 + moves, |inc|)
    requires |moves| <= |plans| && forall k :: 0 <= k < |plans| ==> plans[k] == []
    ensures AllInRange(moves, |inc|) && PlansInRange(plans, |inc|)
    ensures Run(p, inc, q, h0, moves, plans) == RealUpdates(p, q, moves)
    decreases |moves|
  {
    assert forall k :: 0 <= k < |moves| ==> moves[k] == (h0 + moves)[|h0| + k];
    if moves != [] {
      var k := |moves| - 1;
      assert (h0 + moves)[..|h0| + k] == h0 + moves[..k];
      RunWithoutPlanning(p, inc, q, h0, moves[..k], plans);
    }
  }
}
