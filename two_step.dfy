/**
 * The two-step task: a three-state machine that goes from the start state 0 to one of the two
 * second-stage states 1 and 2 (the "common" one with probability 0.7), pays a reward there with
 * a drifting probability, and returns to 0; and the agent's bookkeeping of its trials, from which
 * it tallies how often it repeats its first-stage choice.
 */
module TwoStep {
  import opened Wrappers

  const NumStates: int := 3
  const NumActions: int := 2
  /** The probability of the common transition from the start state. */
  const CommonProb: real := 0.7

  /** The index into the reward probabilities of second-stage state s and action a. */
  function RewardIndex(s: int, a: int): (k: int)
    ensures 1 <= s <= 2 && 0 <= a < NumActions ==> 0 <= k < 4
    ensures 1 <= s <= 2 && 0 <= a < NumActions ==> k == 2 * (s - 1) + a
  {
    s * NumActions + a - 2
  }

  /** x clipped to [lo, hi]. */
  function Clip(x: real, lo: real, hi: real): real {
    if x < lo then lo else if x > hi then hi else x
  }

  /**
   * One step of the reward probabilities' random walk: each probability moves by its walk
   * component and is reflected back into [0.25, 0.75] when it leaves that band.
   */
  function Reflect(rewardp: seq<real>, walk: seq<real>): (q: seq<real>)
    requires |walk| == |rewardp|
    ensures |q| == |rewardp|
    ensures forall i :: 0 <= i < |q| && 0.25 <= rewardp[i] + walk[i] <= 0.75 ==> q[i] == rewardp[i] + walk[i]
    ensures forall i :: 0 <= i < |q| && rewardp[i] + walk[i] > 0.75 ==> q[i] == 1.5 - (rewardp[i] + walk[i])
    ensures forall i :: 0 <= i < |q| && rewardp[i] + walk[i] < 0.25 ==> q[i] == 0.5 - (rewardp[i] + walk[i])
  {
    seq(|rewardp|, i requires 0 <= i < |rewardp| => 2.0 * Clip(rewardp[i] + walk[i], 0.25, 0.75) - rewardp[i] - walk[i])
  }

  predicate InBand(rewardp: seq<real>) {
    forall i :: 0 <= i < |rewardp| ==> 0.25 <= rewardp[i] <= 0.75
  }

  /** A walk whose steps are at most 0.5 keeps probabilities in [0.25, 0.75] inside that band. */
  lemma ReflectStaysInBand(rewardp: seq<real>, walk: seq<real>)
    requires |walk| == |rewardp| && InBand(rewardp)
    requires forall i :: 0 <= i < |walk| ==> -0.5 <= walk[i] <= 0.5
    ensures InBand(Reflect(rewardp, walk))
  {
    var q := Reflect(rewardp, walk);
    forall i | 0 <= i < |q|
      ensures 0.25 <= q[i] <= 0.75
    {
      var x := rewardp[i] + walk[i];
      if x > 0.75 {
        assert q[i] == 1.5 - x;
      } else if x < 0.25 {
        assert q[i] == 0.5 - x;
      } else {
        assert q[i] == x;
      }
    }
  }

  /**
   * What a step does to the state and what it pays: from the start state, no reward and a move
   * to a + 1 when the draw p is at most 0.7, to 2 - a otherwise; from a second-stage state, a
   * reward of 1 when the draw u is at most that state and action's reward probability, 0
   * otherwise, and back to the start.
   */
  function StepOutcome(s: int, a: int, p: real, u: real, rewardp: seq<real>): (out: (int, int))
    requires 0 <= s < NumStates && 0 <= a < NumActions && |rewardp| == 4
    ensures s == 0 ==> out.1 == 0 && 1 <= out.0 <= 2 && (out.0 == a + 1 <==> p <= CommonProb)
    ensures s != 0 ==> out.0 == 0 && 0 <= out.1 <= 1 && (out.1 == 1 <==> u <= rewardp[RewardIndex(s, a)])
  {
    if s == 0 then
      (if p <= CommonProb then s + a + 1 else s + 2 - a, 0)
    else
      (0, if u <= rewardp[RewardIndex(s, a)] then 1 else 0)
  }

  /** A first-stage move is common when action 0 led to state 1 or action 1 to state 2. */
  predicate IsCommon(a: int, s1: int) {
    (a == 0 && s1 == 1) || (a == 1 && s1 == 2)
  }

  /** The agent's classification of a trial as common is exactly the environment's likely branch. */
  lemma CommonIffLikely(a: int, p: real, u: real, rewardp: seq<real>)
    requires 0 <= a < NumActions && |rewardp| == 4
    ensures IsCommon(a, StepOutcome(0, a, p, u, rewardp).0) <==> p <= CommonProb
  {
    var s1 := StepOutcome(0, a, p, u, rewardp).0;
    assert IsCommon(a, s1) <==> s1 == a + 1;
  }

  /** Two steps from the start state, whatever the actions and draws, end back at the start. */
  lemma TrialReturnsToStart(a: int, a1: int, p: real, u: real, rewardp: seq<real>)
    requires 0 <= a < NumActions && 0 <= a1 < NumActions && |rewardp| == 4
    ensures var s1 := StepOutcome(0, a, p, 0.0, rewardp).0;
      && 1 <= s1 <= 2
      && StepOutcome(s1, a1, 0.0, u, rewardp).0 == 0
  {
  }

  class TwoStepEnv {
    var s: int                // the current state
    var rewardp: seq<real>    // the reward probability of each (second-stage state, action)

    ghost predicate Valid()
      reads this
    {
      0 <= s < NumStates && |rewardp| == 4
    }

    constructor ()
      ensures Valid() && s == 0 && rewardp == [0.5, 0.5, 0.5, 0.5]
    {
      s := 0;
      rewardp := [0.5, 0.5, 0.5, 0.5];
    }

    method InitRewardp()
      modifies this`rewardp
      ensures rewardp == [0.5, 0.5, 0.5, 0.5] && InBand(rewardp)
    {
      rewardp := [0.5, 0.5, 0.5, 0.5];
    }

    method Reset()
      modifies this`s
      ensures s == 0
    {
      s := 0;
    }

    /** The random walk of the reward probabilities; the walk's components are the Gaussian draws. */
    method UpdateRewardp(walk: seq<real>)
      requires |walk| == |rewardp|
      modifies this`rewardp
      ensures rewardp == Reflect(old(rewardp), walk)
    {
      var rp := rewardp;
      rewardp := seq(|rp|, i requires 0 <= i < |rp| => 2.0 * Clip(rp[i] + walk[i], 0.25, 0.75) - rp[i] - walk[i]);
    }

    /**
     * Takes action a and returns the reward. The uniform draws p (first stage) and u (second
     * stage) and the walk of the reward probabilities are inputs; after a second-stage step the
     * probabilities take one step of their walk and the state returns to the start.
     */
    method Step(a: int, p: real, u: real, walk: seq<real>) returns (r: int)
      requires Valid() && 0 <= a < NumActions && |walk| == 4
      modifies this`s, this`rewardp
      ensures Valid()
      ensures (s, r) == StepOutcome(old(s), a, p, u, old(rewardp))
      ensures rewardp == if old(s) == 0 then old(rewardp) else Reflect(old(rewardp), walk)
    {
      if s == 0 {
        r := 0;
        if p <= CommonProb {
          s := s + a + 1;
        } else {
          s := s + 2 - a;
        }
      } else {
        if u <= rewardp[s * NumActions + a - 2] {
          r := 1;
        } else {
          r := 0;
        }
        UpdateRewardp(walk);
        Reset();
      }
    }
  }

  /** One trial as the agent logs it: first-stage action, second-stage state, reward. */
  datatype TrialRow = TrialRow(a: int, s1: int, r1: int)

  /** How many trials of one kind were followed by the same first-stage action, out of how many. */
  datatype Counter = Counter(stays: nat, total: nat)

  /** The four kinds of trial: common or rare transition, rewarded or not. */
  datatype StayTally = StayTally(commonR: Counter, rareR: Counter, commonNR: Counter, rareNR: Counter)

  const NoTrials: StayTally := StayTally(Counter(0, 0), Counter(0, 0), Counter(0, 0), Counter(0, 0))

  function Count(c: Counter, stay: bool): (c': Counter)
    ensures c'.total == c.total + 1
    ensures c'.stays == c.stays + (if stay then 1 else 0)
  {
    Counter(if stay then c.stays + 1 else c.stays, c.total + 1)
  }

  /** Counts trial `row` in its kind, as a stay when the next trial's action aNext repeats it. */
  function Classify(t: StayTally, row: TrialRow, aNext: int): StayTally {
    var stay := row.a == aNext;
    if IsCommon(row.a, row.s1) then
      if row.r1 == 1 then t.(commonR := Count(t.commonR, stay))
      else t.(commonNR := Count(t.commonNR, stay))
    else
      if row.r1 == 1 then t.(rareR := Count(t.rareR, stay))
      else t.(rareNR := Count(t.rareNR, stay))
  }

  /** The tally of a history: every trial but the last, judged against the trial after it. */
  function Tally(h: seq<TrialRow>): StayTally
    decreases |h|
  {
    if |h| < 2 then NoTrials
    else Classify(Tally(h[..|h| - 1]), h[|h| - 2], h[|h| - 1].a)
  }

  predicate StaysBounded(t: StayTally) {
    && t.commonR.stays <= t.commonR.total && t.rareR.stays <= t.rareR.total
    && t.commonNR.stays <= t.commonNR.total && t.rareNR.stays <= t.rareNR.total
  }

  function TotalTrials(t: StayTally): nat {
    t.commonR.total + t.rareR.total + t.commonNR.total + t.rareNR.total
  }

  /** No kind has more stays than trials. */
  lemma {:induction false} StaysAtMostTotals(h: seq<TrialRow>)
    ensures StaysBounded(Tally(h))
    decreases |h|
  {
    if |h| >= 2 {
      StaysAtMostTotals(h[..|h| - 1]);
    }
  }

  /** Every trial but the last is counted in exactly one kind. */
  lemma {:induction false} TotalsCountTrials(h: seq<TrialRow>)
    ensures TotalTrials(Tally(h)) == if |h| == 0 then 0 else |h| - 1
    decreases |h|
  {
    if |h| >= 2 {
      TotalsCountTrials(h[..|h| - 1]);
    }
  }

  /** Logging one more trial counts the previous last trial against it and changes nothing else. */
  lemma TallyAppend(h: seq<TrialRow>, row: TrialRow)
    requires |h| >= 1
    ensures Tally(h + [row]) == Classify(Tally(h), h[|h| - 1], row.a)
  {
    assert (h + [row])[..|h|] == h;
  }

  /** The fraction of stays of one kind, or None when that kind never happened. */
  function Ratio(c: Counter): Option<real> {
    if c.total == 0 then None else Some(c.stays as real / c.total as real)
  }

  /**
   * The stay probabilities (common rewarded, rare rewarded, common unrewarded, rare
   * unrewarded); None when some kind never happened, where the division fails.
   */
  function StayProbabilities(t: StayTally): (r: Option<seq<real>>)
    requires StaysBounded(t)
    ensures r.Some? <==> t.commonR.total > 0 && t.rareR.total > 0 && t.commonNR.total > 0 && t.rareNR.total > 0
    ensures r.Some? ==> |r.value| == 4 && forall k :: 0 <= k < 4 ==> 0.0 <= r.value[k] <= 1.0
    ensures r.Some? ==> r.value[0] * (t.commonR.total as real) == t.commonR.stays as real
    ensures r.Some? ==> r.value[1] * (t.rareR.total as real) == t.rareR.stays as real
    ensures r.Some? ==> r.value[2] * (t.commonNR.total as real) == t.commonNR.stays as real
    ensures r.Some? ==> r.value[3] * (t.rareNR.total as real) == t.rareNR.stays as real
  {
    var cr, rr, cn, rn := Ratio(t.commonR), Ratio(t.rareR), Ratio(t.commonNR), Ratio(t.rareNR);
    if cr.Some? && rr.Some? && cn.Some? && rn.Some? then
      RatioBounded(t.commonR);
      RatioBounded(t.rareR);
      RatioBounded(t.commonNR);
      RatioBounded(t.rareNR);
      Some([cr.value, rr.value, cn.value, rn.value])
    else None
  }

  lemma RatioBounded(c: Counter)
    requires c.stays <= c.total
    ensures Ratio(c).Some? ==> 0.0 <= Ratio(c).value <= 1.0 && Ratio(c).value * (c.total as real) == c.stays as real
  {
    if c.total > 0 {
      var x := c.stays as real / c.total as real;
      assert x * (c.total as real) == c.stays as real;
      assert x <= 1.0;
    }
  }

  /** The two-step agent's trial log. */
  class TwoStepAgent {
    var history: seq<TrialRow>

    constructor ()
      ensures history == []
    {
      history := [];
    }

    method InitHistory()
      modifies this`history
      ensures history == []
    {
      history := [];
    }

    method UpdateHistory(a: int, s1: int, r1: int)
      modifies this`history
      ensures history == old(history) + [TrialRow(a, s1, r1)]
    {
      history := history + [TrialRow(a, s1, r1)];
    }

    /**
     * The counting loop: each trial but the last counts in its kind, as a stay when the next
     * trial repeats its first-stage action.
     */
    method CountStays() returns (t: StayTally)
      ensures t == Tally(history)
    {
      var commonR, numCommonR, commonNR, numCommonNR := 0, 0, 0, 0;
      var rareR, numRareR, rareNR, numRareNR := 0, 0, 0, 0;
      var numTrials := |history|;
      var i := 0;
      while i + 1 < numTrials
        invariant 0 <= i && (numTrials == 0 ==> i == 0) && (numTrials > 0 ==> i < numTrials)
        invariant Tally(history[..if numTrials == 0 then 0 else i + 1]) ==
          StayTally(Counter(commonR, numCommonR), Counter(rareR, numRareR),
                    Counter(commonNR, numCommonNR), Counter(rareNR, numRareNR))
        decreases numTrials - i
      {
        var a, s1, r1 := history[i].a, history[i].s1, history[i].r1;
        var aNext := history[i + 1].a;
        if (a == 0 && s1 == 1) || (a == 1 && s1 == 2) {
          if r1 == 1 {
            if a == aNext {
              commonR := commonR + 1;
            }
            numCommonR := numCommonR + 1;
          } else {
            if a == aNext {
              commonNR := commonNR + 1;
            }
            numCommonNR := numCommonNR + 1;
          }
        } else {
          if r1 == 1 {
            if a == aNext {
              rareR := rareR + 1;
            }
            numRareR := numRareR + 1;
          } else {
            if a == aNext {
              rareNR := rareNR + 1;
            }
            numRareNR := numRareNR + 1;
          }
        }
        assert history[..i + 2][..i + 1] == history[..i + 1];
        i := i + 1;
      }
      t := StayTally(Counter(commonR, numCommonR), Counter(rareR, numRareR),
                     Counter(commonNR, numCommonNR), Counter(rareNR, numRareNR));
      assert numTrials > 0 ==> history[..i + 1] == history;
    }

    /** The stay probabilities of the logged trials; None when some kind of trial never happened. */
    method GetStayProbabilities() returns (r: Option<seq<real>>)
      ensures StaysBounded(Tally(history)) && r == StayProbabilities(Tally(history))
    {
      var t := CountStays();
      StaysAtMostTotals(history);
      r := StayProbabilities(t);
    }
  }
}
