/**
 * The maze environment: a rectangular grid of cells numbered row by row, four moves
 * (0 up, 1 down, 2 left, 3 right), blocked cells the agent cannot enter and a goal
 * cell that pays a reward when the agent moves onto it.
 */
module GridWorld {
  import opened Wrappers

  const NumActions: int := 4

  /** The configuration the environment is built from (the keyword arguments of the constructor). */
  datatype Config = Config(
    numX: int,          // number of columns
    numY: int,          // number of rows
    blocked: set<int>,  // cells that cannot be entered
    goal: int,          // the goal cell
    rewardAtGoal: int,  // reward for moving onto the goal
    start: int)         // where the agent starts (read by the agent)

  function NumStates(c: Config): int {
    c.numX * c.numY
  }

  /** A grid with at least one row and one column: coordinates are defined. */
  predicate Shaped(c: Config) {
    c.numX >= 1 && c.numY >= 1
  }

  /** A grid on which every move stays inside the table, with a start cell inside the grid. */
  predicate ValidConfig(c: Config) {
    c.numX >= 2 && c.numY >= 2 && 0 <= c.start < NumStates(c)
  }

  lemma CellInRange(i: int, j: int, nx: int, ny: int)
    requires 0 <= i < ny && 0 <= j < nx
    ensures 0 <= i * nx + j < nx * ny
  {
    assert i * nx + j < (i + 1) * nx;
    assert (i + 1) * nx <= ny * nx;
  }

  /**
   * Row and column of a state (floor division and remainder by the row length; for a
   * positive divisor these agree with Dafny's Euclidean operators).
   */
  function StateToCoords(c: Config, s: int): (ij: (int, int))
    requires c.numX >= 1
    ensures ij.0 * c.numX + ij.1 == s && 0 <= ij.1 < c.numX
    ensures 0 <= s < NumStates(c) ==> 0 <= ij.0 < c.numY
  {
    DivBelowRows(s, c.numX, c.numY);
    (s / c.numX, s % c.numX)
  }

  lemma DivBelowRows(s: int, nx: int, ny: int)
    requires nx >= 1
    ensures 0 <= s < nx * ny ==> 0 <= s / nx < ny
  {
    var q := s / nx;
    assert q >= ny ==> q * nx >= ny * nx;
  }

  /** Quotient and remainder by a positive divisor are unique. */
  lemma DivModUnique(q1: int, r1: int, q2: int, r2: int, n: int)
    requires n >= 1 && 0 <= r1 < n && 0 <= r2 < n && q1 * n + r1 == q2 * n + r2
    ensures q1 == q2 && r1 == r2
  {
    assert (q1 - q2) * n == r2 - r1;
    assert q1 - q2 >= 1 ==> (q1 - q2) * n >= n;
    assert q1 - q2 <= -1 ==> (q1 - q2) * n <= -n;
  }

  /** An index into a dimension of length n, as numpy reads it: negative indices count from the end. */
  function Wrap(k: int, n: int): int {
    if k < 0 then k + n else k
  }

  /**
   * The state at row i, column j, read out of the row-major table of state numbers; an index
   * outside [-n, n) raises an index error, modelled as None.
   */
  function CoordsToState(c: Config, i: int, j: int): (r: Option<int>)
    requires Shaped(c)
    ensures r.Some? <==> -c.numY <= i < c.numY && -c.numX <= j < c.numX
    ensures r.Some? ==> 0 <= r.value < NumStates(c)
  {
    if -c.numY <= i < c.numY && -c.numX <= j < c.numX then
      CellInRange(Wrap(i, c.numY), Wrap(j, c.numX), c.numX, c.numY);
      Some(Wrap(i, c.numY) * c.numX + Wrap(j, c.numX))
    else
      None
  }

  /** Converting a state to coordinates and back gives the state. */
  lemma StateCoordsRoundTrip(c: Config, s: int)
    requires Shaped(c) && 0 <= s < NumStates(c)
    ensures CoordsToState(c, StateToCoords(c, s).0, StateToCoords(c, s).1) == Some(s)
  {
  }

  /** Converting in-range coordinates to a state and back gives the coordinates. */
  lemma CoordsStateRoundTrip(c: Config, i: int, j: int)
    requires Shaped(c) && 0 <= i < c.numY && 0 <= j < c.numX
    ensures CoordsToState(c, i, j).Some?
    ensures StateToCoords(c, CoordsToState(c, i, j).value) == (i, j)
  {
    var s := i * c.numX + j;
    var ij := StateToCoords(c, s);
    DivModUnique(ij.0, ij.1, i, j, c.numX);
  }

  /**
   * The boundary checks of a move. Because the bottom (right) check sits in an `elif`, it is
   * made only when the cell is not also in the top row (left column).
   */
  predicate HitsWall(c: Config, i: int, j: int, a: int) {
    (if i == 0 then a == 0 else i == c.numY - 1 && a == 1)
    || (if j == 0 then a == 2 else j == c.numX - 1 && a == 3)
  }

  /** The coordinates one step away in the direction of action a (any other action moves right). */
  function Step(i: int, j: int, a: int): (int, int) {
    if a == 0 then (i - 1, j)
    else if a == 1 then (i + 1, j)
    else if a == 2 then (i, j - 1)
    else (i, j + 1)
  }

  /**
   * The deterministic move: the next state and the reward. None is the index error the
   * program raises when a move leaves a grid of one row or one column.
   */
  function GetNewState(c: Config, s: int, a: int): (r: Option<(int, int)>)
    requires Shaped(c) && 0 <= s < NumStates(c) && 0 <= a < NumActions
    ensures c.numX >= 2 && c.numY >= 2 ==> r.Some?
    ensures r.Some? ==> 0 <= r.value.0 < NumStates(c)
  {
    var (i, j) := StateToCoords(c, s);
    if HitsWall(c, i, j, a) then
      Some((s, 0))
    else
      var (ni, nj) := Step(i, j, a);
      match CoordsToState(c, ni, nj)
      case None => None
      case Some(s1) =>
        if s1 in c.blocked then Some((s, 0))
        else if s1 == c.goal then Some((s1, c.rewardAtGoal))
        else Some((s1, 0))
  }

  /** The next state of a move on a grid of at least two rows and two columns. */
  function NextState(c: Config, s: int, a: int): int
    requires ValidConfig(c) && 0 <= s < NumStates(c) && 0 <= a < NumActions
  {
    GetNewState(c, s, a).value.0
  }

  /** The reward of a move on a grid of at least two rows and two columns. */
  function Reward(c: Config, s: int, a: int): int
    requires ValidConfig(c) && 0 <= s < NumStates(c) && 0 <= a < NumActions
  {
    GetNewState(c, s, a).value.1
  }

  function RowDelta(a: int): int {
    if a == 0 then -1 else if a == 1 then 1 else 0
  }

  function ColDelta(a: int): int {
    if a == 2 then -1 else if a == 3 then 1 else 0
  }

  /** The cell next to s in the direction of action a, if that cell lies inside the grid. */
  function Neighbour(c: Config, s: int, a: int): Option<int>
    requires Shaped(c) && 0 <= s < NumStates(c)
  {
    var (i, j) := StateToCoords(c, s);
    var (ni, nj) := (i + RowDelta(a), j + ColDelta(a));
    if 0 <= ni < c.numY && 0 <= nj < c.numX then Some(ni * c.numX + nj) else None
  }

  /**
   * What a move should do, stated from the grid's geometry alone: the agent enters the
   * neighbouring cell unless it is outside the grid or blocked, and is paid the goal reward
   * exactly when it enters the goal.
   */
  function IntendedMove(c: Config, s: int, a: int): (int, int)
    requires Shaped(c) && 0 <= s < NumStates(c)
  {
    match Neighbour(c, s, a)
    case None => (s, 0)
    case Some(t) =>
      if t in c.blocked then (s, 0)
      else (t, if t == c.goal then c.rewardAtGoal else 0)
  }

  /** On a grid of at least two rows and two columns the move is exactly the intended move. */
  lemma GetNewStateIsIntended(c: Config, s: int, a: int)
    requires c.numX >= 2 && c.numY >= 2 && 0 <= s < NumStates(c) && 0 <= a < NumActions
    ensures GetNewState(c, s, a) == Some(IntendedMove(c, s, a))
  {
    var (i, j) := StateToCoords(c, s);
    var (ni, nj) := (i + RowDelta(a), j + ColDelta(a));
    assert Step(i, j, a) == (ni, nj);
    if !HitsWall(c, i, j, a) {
      assert 0 <= ni < c.numY && 0 <= nj < c.numX;
      assert CoordsToState(c, ni, nj) == Some(ni * c.numX + nj);
    }
  }

  /** A move that points out of the grid at an edge leaves the state unchanged and pays nothing. */
  lemma WallKeepsState(c: Config, s: int, a: int)
    requires c.numX >= 2 && c.numY >= 2 && 0 <= s < NumStates(c) && 0 <= a < NumActions
    requires var (i, j) := StateToCoords(c, s);
      (i == 0 && a == 0) || (i == c.numY - 1 && a == 1) || (j == 0 && a == 2) || (j == c.numX - 1 && a == 3)
    ensures GetNewState(c, s, a) == Some((s, 0))
  {
    GetNewStateIsIntended(c, s, a);
  }

  /** A move into a blocked cell leaves the state unchanged and pays nothing. */
  lemma BlockedKeepsState(c: Config, s: int, a: int)
    requires c.numX >= 2 && c.numY >= 2 && 0 <= s < NumStates(c) && 0 <= a < NumActions
    requires Neighbour(c, s, a).Some? && Neighbour(c, s, a).value in c.blocked
    ensures GetNewState(c, s, a) == Some((s, 0))
  {
    GetNewStateIsIntended(c, s, a);
  }

  /** The offset between the numbers of two cells one move apart. */
  function Offset(c: Config, a: int): int {
    RowDelta(a) * c.numX + ColDelta(a)
  }

  /** The neighbour in the direction of a move is a different cell, Offset(c, a) away. */
  lemma NeighbourOffset(c: Config, s: int, a: int)
    requires c.numX >= 2 && c.numY >= 1 && 0 <= s < NumStates(c) && 0 <= a < NumActions
    ensures Neighbour(c, s, a).Some? ==> Neighbour(c, s, a).value == s + Offset(c, a)
    ensures Offset(c, a) != 0
  {
    var (i, j) := StateToCoords(c, s);
    var nx := c.numX;
    if a == 0 {
      assert (i - 1) * nx + j == i * nx + j - nx;
    } else if a == 1 {
      assert (i + 1) * nx + j == i * nx + j + nx;
    } else {
      assert Offset(c, a) == ColDelta(a);
    }
  }

  /**
   * The next state is in the grid and is either the state itself or its neighbour in the
   * direction of the action, which is then neither blocked nor outside the grid.
   */
  lemma NextIsSelfOrNeighbour(c: Config, s: int, a: int)
    requires c.numX >= 2 && c.numY >= 2 && 0 <= s < NumStates(c) && 0 <= a < NumActions
    ensures var s1 := GetNewState(c, s, a).value.0;
      && 0 <= s1 < NumStates(c)
      && (s1 == s || (s1 == s + Offset(c, a) && Neighbour(c, s, a) == Some(s1) && s1 !in c.blocked))
  {
    GetNewStateIsIntended(c, s, a);
    NeighbourOffset(c, s, a);
  }

  /** The reward is the goal reward exactly when the agent moves onto the goal, and 0 otherwise. */
  lemma RewardOnlyAtGoal(c: Config, s: int, a: int)
    requires c.numX >= 2 && c.numY >= 2 && 0 <= s < NumStates(c) && 0 <= a < NumActions
    ensures var (s1, r) := GetNewState(c, s, a).value;
      r == if s1 != s && s1 == c.goal then c.rewardAtGoal else 0
  {
    GetNewStateIsIntended(c, s, a);
    NeighbourOffset(c, s, a);
  }

  /** On a grid of one row, moving down raises the index error instead of staying put. */
  lemma OneRowMoveDownFails(c: Config, s: int)
    requires c.numY == 1 && c.numX >= 1 && 0 <= s < NumStates(c)
    ensures GetNewState(c, s, 1) == None
  {
    var (i, j) := StateToCoords(c, s);
    assert i == 0;
  }

  /** On a grid of one column, moving right raises the index error instead of staying put. */
  lemma OneColumnMoveRightFails(c: Config, s: int)
    requires c.numX == 1 && c.numY >= 1 && 0 <= s < NumStates(c)
    ensures GetNewState(c, s, 3) == None
  {
    var (i, j) := StateToCoords(c, s);
    assert j == 0;
  }

  /** Sum of a sequence of counts. */
  function Sum(w: seq<int>): int {
    if w == [] then 0 else w[0] + Sum(w[1..])
  }

  /** A row of n counts holding a single 1, at index k. */
  function OneHot(n: nat, k: int): (w: seq<int>) {
    seq(n, t => if t == k then 1 else 0)
  }

  /** A row with a single 1 sums to 1, so dividing it by its sum leaves it unchanged. */
  lemma {:induction false} OneHotSumsToOne(n: nat, k: int)
    requires 0 <= k < n
    ensures Sum(OneHot(n, k)) == 1
  {
    if k == 0 {
      ZeroRowSum(n - 1);
      assert OneHot(n, k)[1..] == OneHot(n - 1, -1);
    } else {
      assert OneHot(n, k)[1..] == OneHot(n - 1, k - 1);
      OneHotSumsToOne(n - 1, k - 1);
    }
  }

  lemma {:induction false} ZeroRowSum(n: nat)
    ensures Sum(OneHot(n, -1)) == 0
  {
    if n > 0 {
      assert OneHot(n, -1)[1..] == OneHot(n - 1, -1);
      ZeroRowSum(n - 1);
    }
  }

  /**
   * Drawing an index from a row of probabilities with a uniform number u in [0, 1): the first
   * index whose cumulative probability exceeds u (the last index if none does).
   */
  function Draw(w: seq<int>, u: real): (k: nat)
    requires |w| > 0
    ensures k < |w|
  {
    if |w| == 1 || w[0] as real > u then 0 else 1 + Draw(w[1..], u - w[0] as real)
  }

  /** A draw from a row whose whole probability sits on one index returns that index. */
  lemma {:induction false} DrawOneHot(n: nat, k: int, u: real)
    requires 0 <= k < n && 0.0 <= u < 1.0
    ensures Draw(OneHot(n, k), u) == k
  {
    if k > 0 {
      assert OneHot(n, k)[1..] == OneHot(n - 1, k - 1);
      DrawOneHot(n - 1, k - 1, u);
    }
  }

  /** The environment: its configuration and the transition and reward tables built from it. */
  class Environment {
    const cfg: Config
    var T: array3<int>  // T[s, a, t]: the count of moves from s by a that land in t
    var R: array2<int>  // R[s, a]: the reward of the move from s by a

    ghost predicate Valid()
      reads this, T, R
    {
      && ValidConfig(cfg)
      && T.Length0 == NumStates(cfg) && T.Length1 == NumActions && T.Length2 == NumStates(cfg)
      && R.Length0 == NumStates(cfg) && R.Length1 == NumActions
      && (forall s, a, t :: 0 <= s < T.Length0 && 0 <= a < T.Length1 && 0 <= t < T.Length2 ==>
            T[s, a, t] == if t == NextState(cfg, s, a) then 1 else 0)
      && (forall s, a :: 0 <= s < R.Length0 && 0 <= a < R.Length1 ==> R[s, a] == Reward(cfg, s, a))
    }

    constructor (cfg: Config)
      requires ValidConfig(cfg)
      ensures Valid() && this.cfg == cfg
    {
      this.cfg := cfg;
      T := new int[0, 0, 0];
      R := new int[0, 0];
      new;
      GenerateEnvModel();
    }

    /**
     * Builds the tables: for every state and action, one count at the state the move leads to
     * and the move's reward.
     */
    method GenerateEnvModel()
      requires ValidConfig(cfg)
      modifies this
      ensures Valid() && fresh(T) && fresh(R)
    {
      var n := NumStates(cfg);
      var counts := new int[n, NumActions, n]((_, _, _) => 0);
      var rewards := new int[n, NumActions]((_, _) => 0);
      for s := 0 to n
        invariant forall s', a', t :: 0 <= s' < n && 0 <= a' < NumActions && 0 <= t < n ==>
          counts[s', a', t] == if s' < s && t == NextState(cfg, s', a') then 1 else 0
        invariant forall s', a' :: 0 <= s' < s && 0 <= a' < NumActions ==> rewards[s', a'] == Reward(cfg, s', a')
      {
        for a := 0 to NumActions
          invariant forall s', a', t :: 0 <= s' < n && 0 <= a' < NumActions && 0 <= t < n ==>
            counts[s', a', t] == if (s' < s || (s' == s && a' < a)) && t == NextState(cfg, s', a') then 1 else 0
          invariant forall s', a' :: (0 <= s' < s || (s' == s && 0 <= a' < a)) && 0 <= a' < NumActions ==>
            rewards[s', a'] == Reward(cfg, s', a')
        {
          var (s1, r) := GetNewState(cfg, s, a).value;
          counts[s, a, s1] := counts[s, a, s1] + 1;
          rewards[s, a] := r;
        }
      }
      T, R := counts, rewards;
    }

    /** The transition row T[s, a, :]. */
    function Row(s: int, a: int): (w: seq<int>)
      reads this, T
      requires 0 <= s < T.Length0 && 0 <= a < T.Length1
      ensures |w| == T.Length2 && forall t :: 0 <= t < |w| ==> w[t] == T[s, a, t]
    {
      var m := T;
      seq(m.Length2, t requires 0 <= t < m.Length2 reads m => m[s, a, t])
    }

    /**
     * Samples the next state from the row T[s, a, :] with a uniform number u: every row holds
     * all its probability at the state the move leads to, so the sample is that state.
     */
    function SampleNext(s: int, a: int, u: real): (s1: int)
      reads this, T, R
      requires Valid() && 0 <= s < NumStates(cfg) && 0 <= a < NumActions && 0.0 <= u < 1.0
      ensures 0 <= s1 < NumStates(cfg) && T[s, a, s1] > 0
      ensures s1 == NextState(cfg, s, a)
    {
      assert Row(s, a) == OneHot(NumStates(cfg), NextState(cfg, s, a));
      DrawOneHot(NumStates(cfg), NextState(cfg, s, a), u);
      Draw(Row(s, a), u)
    }

    /** Every row of T sums to 1 and holds its single nonzero count at the move's next state. */
    lemma RowsSumToOne(s: int, a: int)
      requires Valid() && 0 <= s < NumStates(cfg) && 0 <= a < NumActions
      ensures Sum(Row(s, a)) == 1 && T[s, a, NextState(cfg, s, a)] == 1
    {
      assert Row(s, a) == OneHot(NumStates(cfg), NextState(cfg, s, a));
      OneHotSumsToOne(NumStates(cfg), NextState(cfg, s, a));
    }
  }
}
