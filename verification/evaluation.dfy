/**
  The aggregator of the utility analyzer: n trials of one policy, trial i
  run with the generator seeded base + i, summarised by the mean and the
  population variance of the utilities, the frequency of each ending and
  the mean length.
 */
module Evaluation {
  import opened LakeMdp
  import opened Policies
  import opened Trial

  /** A family of seeded generators: seeds(k) is the generator created from seed k. */
  type Seeds = int -> Rng

  datatype Summary = Summary(
    nTrials: nat,
    meanUtility: real,
    utilityVariance: real,
    pGoal: real,
    pHole: real,
    pNone: real,
    meanLength: real)

  // ---------------------------------------------------------------------------
  // Running the trials
  // ---------------------------------------------------------------------------

  /** One trial of a policy on the lake, as a function of its generator. */
  function TrialOf(grid: Grid, policy: Policy, gamma: real, limit: nat): (trial: Rng -> TrialResult)
    requires WellFormed(grid) && HasStart(grid)
    ensures forall rng :: trial(rng) == RunTrial(grid, policy, gamma, limit, rng)
  {
    rng => RunTrial(grid, policy, gamma, limit, rng)
  }

  /** The results of the n trials seeded base, base + 1, ..., base + n - 1, in that order. */
  function Trials(trial: Rng -> TrialResult, seeds: Seeds, base: int, n: nat): (rs: seq<TrialResult>)
    ensures |rs| == n
    ensures forall i :: 0 <= i < n ==> rs[i] == trial(seeds(base + i))
  {
    if n == 0 then []
    else
      var init := Trials(trial, seeds, base, n - 1);
      var rs := init + [trial(seeds(base + n - 1))];
      assert forall i :: 0 <= i < n - 1 ==> rs[i] == init[i];
      rs
  }

  /** Running m + k trials is running m trials and then k more from seed base + m. */
  lemma TrialsSplit(trial: Rng -> TrialResult, seeds: Seeds, base: int, m: nat, k: nat)
    ensures Trials(trial, seeds, base, m + k)
      == Trials(trial, seeds, base, m) + Trials(trial, seeds, base + m, k)
  {
    var all := Trials(trial, seeds, base, m + k);
    var front := Trials(trial, seeds, base, m);
    var back := Trials(trial, seeds, base + m, k);
    forall i | m <= i < m + k
      ensures all[i] == (front + back)[i]
    {
      assert base + i == (base + m) + (i - m);
    }
  }

  // ---------------------------------------------------------------------------
  // Statistics over exact reals
  // ---------------------------------------------------------------------------

  function Sum(xs: seq<real>): real {
    if |xs| == 0 then 0.0 else Sum(xs[..|xs| - 1]) + xs[|xs| - 1]
  }

  /** The arithmetic mean. */
  function Mean(xs: seq<real>): real
    requires |xs| > 0
  {
    Sum(xs) / |xs| as real
  }

  function Square(d: real): (sq: real)
    ensures sq >= 0.0
  {
    d * d
  }

  /** The sum of the squared deviations of xs from m; never negative. */
  function SquaredDeviations(xs: seq<real>, m: real): (total: real)
    ensures total >= 0.0
  {
    if |xs| == 0 then 0.0
    else SquaredDeviations(xs[..|xs| - 1], m) + Square(xs[|xs| - 1] - m)
  }

  /** A sum of n copies of x is n times x. */
  lemma {:induction false} SumConstant(xs: seq<real>, x: real)
    requires forall i :: 0 <= i < |xs| ==> xs[i] == x
    ensures Sum(xs) == (|xs| as real) * x
  {
    if |xs| > 0 {
      SumConstant(xs[..|xs| - 1], x);
    }
  }

  /** Deviations from the common value of a constant sequence are all zero. */
  lemma {:induction false} DeviationsOfConstant(xs: seq<real>, x: real)
    requires forall i :: 0 <= i < |xs| ==> xs[i] == x
    ensures SquaredDeviations(xs, x) == 0.0
  {
    if |xs| > 0 {
      DeviationsOfConstant(xs[..|xs| - 1], x);
    }
  }

  /** The population variance: the mean squared deviation from the mean (divisor n). */
  function Variance(xs: seq<real>): (v: real)
    requires |xs| > 0
    ensures v >= 0.0
  {
    DivNonneg(SquaredDeviations(xs, Mean(xs)), |xs| as real);
    SquaredDeviations(xs, Mean(xs)) / |xs| as real
  }

  /** Trials that all earn the same utility have that utility as their mean and variance zero. */
  lemma ConstantHasNoVariance(xs: seq<real>, x: real)
    requires |xs| > 0
    requires forall i :: 0 <= i < |xs| ==> xs[i] == x
    ensures Mean(xs) == x
    ensures Variance(xs) == 0.0
  {
    SumConstant(xs, x);
    var n := |xs| as real;
    assert Sum(xs) / n == x;
    DeviationsOfConstant(xs, x);
  }

  lemma DivNonneg(a: real, n: real)
    requires a >= 0.0 && n > 0.0
    ensures a / n >= 0.0
  {
  }

  /** A sum of values that all lie in [lo, hi] lies in [n * lo, n * hi]. */
  lemma {:induction false} SumBounds(xs: seq<real>, lo: real, hi: real)
    requires forall i :: 0 <= i < |xs| ==> lo <= xs[i] <= hi
    ensures (|xs| as real) * lo <= Sum(xs) <= (|xs| as real) * hi
  {
    if |xs| > 0 {
      SumBounds(xs[..|xs| - 1], lo, hi);
      assert (|xs| as real) * lo == ((|xs| - 1) as real) * lo + lo;
      assert (|xs| as real) * hi == ((|xs| - 1) as real) * hi + hi;
    }
  }

  /** The mean of values that all lie in [lo, hi] lies in [lo, hi]. */
  lemma MeanBounds(xs: seq<real>, lo: real, hi: real)
    requires |xs| > 0
    requires forall i :: 0 <= i < |xs| ==> lo <= xs[i] <= hi
    ensures lo <= Mean(xs) <= hi
  {
    SumBounds(xs, lo, hi);
    DivBounds(Sum(xs), |xs| as real, lo, hi);
  }

  lemma DivBounds(a: real, n: real, lo: real, hi: real)
    requires n > 0.0 && n * lo <= a <= n * hi
    ensures lo <= a / n <= hi
  {
  }

  // ---------------------------------------------------------------------------
  // Per-trial columns
  // ---------------------------------------------------------------------------

  function Utilities(rs: seq<TrialResult>): (us: seq<real>)
    ensures |us| == |rs| && forall i :: 0 <= i < |rs| ==> us[i] == rs[i].utility
  {
    seq(|rs|, i requires 0 <= i < |rs| => rs[i].utility)
  }

  function Lengths(rs: seq<TrialResult>): (ls: seq<real>)
    ensures |ls| == |rs| && forall i :: 0 <= i < |rs| ==> ls[i] == rs[i].length as real
  {
    seq(|rs|, i requires 0 <= i < |rs| => rs[i].length as real)
  }

  /** How many of the trials ended with kind k. */
  function Count(rs: seq<TrialResult>, k: TerminalKind): (c: nat)
    ensures c <= |rs|
  {
    if |rs| == 0 then 0
    else Count(rs[..|rs| - 1], k) + (if rs[|rs| - 1].kind == k then 1 else 0)
  }

  /** Every trial ends with exactly one of the three kinds. */
  lemma {:induction false} CountsPartition(rs: seq<TrialResult>)
    ensures Count(rs, GoalKind) + Count(rs, HoleKind) + Count(rs, NoneKind) == |rs|
  {
    if |rs| > 0 {
      CountsPartition(rs[..|rs| - 1]);
    }
  }

  /** Count finds a trial of kind k exactly when one is there. */
  lemma {:induction false} CountPositive(rs: seq<TrialResult>, k: TerminalKind)
    ensures Count(rs, k) > 0 <==> exists i :: 0 <= i < |rs| && rs[i].kind == k
  {
    if |rs| > 0 {
      var init := rs[..|rs| - 1];
      CountPositive(init, k);
      if exists i :: 0 <= i < |init| && init[i].kind == k {
        var i :| 0 <= i < |init| && init[i].kind == k;
        assert rs[i].kind == k;
      }
      if exists i :: 0 <= i < |rs| && rs[i].kind == k {
        var i :| 0 <= i < |rs| && rs[i].kind == k;
        if i < |init| {
          assert init[i].kind == k;
        }
      }
    }
  }

  /** A fraction of n with a count of at most n lies in [0, 1]. */
  lemma FractionInUnit(c: nat, n: nat)
    requires 0 < n && c <= n
    ensures 0.0 <= (c as real) / (n as real) <= 1.0
  {
    DivBounds(c as real, n as real, 0.0, 1.0);
  }

  /** Fractions of n whose counts add up to n add up to 1. */
  lemma FractionsSumToOne(a: nat, b: nat, c: nat, n: nat)
    requires 0 < n && a + b + c == n
    ensures (a as real) / (n as real) + (b as real) / (n as real) + (c as real) / (n as real) == 1.0
  {
    var N := n as real;
    assert (a as real) / N + (b as real) / N + (c as real) / N == ((a + b + c) as real) / N;
  }

  // ---------------------------------------------------------------------------
  // The summary
  // ---------------------------------------------------------------------------

  /**
    The summary of a non-empty batch of trial results: the frequencies
    form a probability distribution, the mean length is within the limit
    every trial respects, and the variance is non-negative.
   */
  function Summarize(rs: seq<TrialResult>, limit: nat): (sum: Summary)
    requires |rs| > 0
    requires forall i :: 0 <= i < |rs| ==> rs[i].length <= limit
    ensures sum.nTrials == |rs|
    ensures 0.0 <= sum.pGoal <= 1.0 && 0.0 <= sum.pHole <= 1.0 && 0.0 <= sum.pNone <= 1.0
    ensures sum.pGoal + sum.pHole + sum.pNone == 1.0
    ensures 0.0 <= sum.meanLength <= limit as real
    ensures sum.utilityVariance >= 0.0
    ensures sum.pGoal > 0.0 <==> exists i :: 0 <= i < |rs| && rs[i].kind == GoalKind
    ensures sum.pHole > 0.0 <==> exists i :: 0 <= i < |rs| && rs[i].kind == HoleKind
    ensures sum.pNone > 0.0 <==> exists i :: 0 <= i < |rs| && rs[i].kind == NoneKind
  {
    var n := |rs|;
    var goals, holes, nones := Count(rs, GoalKind), Count(rs, HoleKind), Count(rs, NoneKind);
    CountsPartition(rs);
    FractionInUnit(goals, n);
    FractionInUnit(holes, n);
    FractionInUnit(nones, n);
    FractionsSumToOne(goals, holes, nones, n);
    MeanBounds(Lengths(rs), 0.0, limit as real);
    CountPositive(rs, GoalKind);
    CountPositive(rs, HoleKind);
    CountPositive(rs, NoneKind);
    PositiveFraction(goals, n);
    PositiveFraction(holes, n);
    PositiveFraction(nones, n);
    Summary(
      n,
      Mean(Utilities(rs)),
      Variance(Utilities(rs)),
      (goals as real) / (n as real),
      (holes as real) / (n as real),
      (nones as real) / (n as real),
      Mean(Lengths(rs)))
  }

  lemma PositiveFraction(c: nat, n: nat)
    requires 0 < n
    ensures (c as real) / (n as real) > 0.0 <==> c > 0
  {
    if c > 0 {
      assert (c as real) / (n as real) > 0.0;
    }
  }

  /**
    The analyzer's evaluate: run the trials seeded base + i for i < n and
    summarise them. With no trials the frequencies divide by zero, which is
    an error in the source; that case yields None.
   */
  function Evaluate(grid: Grid, policy: Policy, gamma: real, limit: nat, seeds: Seeds, base: int, n: nat)
    : (r: Option<Summary>)
    requires WellFormed(grid) && HasStart(grid)
    ensures r.None? <==> n == 0
    ensures r.Some? ==> r.value == Summarize(Trials(TrialOf(grid, policy, gamma, limit), seeds, base, n), limit)
    ensures r.Some? ==> r.value.nTrials == n
    ensures r.Some? ==> r.value.pGoal + r.value.pHole + r.value.pNone == 1.0
    ensures r.Some? ==> 0.0 <= r.value.meanLength <= limit as real
  {
    if n == 0 then None
    else Some(Summarize(Trials(TrialOf(grid, policy, gamma, limit), seeds, base, n), limit))
  }

  /** Among trials paired index by index, the second batch has kind k wherever the first has. */
  lemma {:induction false} CountMonotone(rs1: seq<TrialResult>, rs2: seq<TrialResult>, k: TerminalKind)
    requires |rs1| == |rs2|
    requires forall i :: 0 <= i < |rs1| && rs1[i].kind == k ==> rs2[i].kind == k
    ensures Count(rs1, k) <= Count(rs2, k)
  {
    if |rs1| > 0 {
      CountMonotone(rs1[..|rs1| - 1], rs2[..|rs2| - 1], k);
    }
  }

  lemma DivMonotone(a: real, b: real, n: real)
    requires n > 0.0 && a <= b
    ensures a / n <= b / n
  {
  }

  /**
    Raising the step limit never lowers the goal or hole frequency: a trial
    that ended in the goal or a hole ends the same way under a larger limit.
   */
  lemma LimitKeepsEndings(grid: Grid, policy: Policy, gamma: real, l1: nat, l2: nat,
                          seeds: Seeds, base: int, n: nat)
    requires WellFormed(grid) && HasStart(grid) && l1 <= l2 && n > 0
    ensures Evaluate(grid, policy, gamma, l1, seeds, base, n).value.pGoal
      <= Evaluate(grid, policy, gamma, l2, seeds, base, n).value.pGoal
    ensures Evaluate(grid, policy, gamma, l1, seeds, base, n).value.pHole
      <= Evaluate(grid, policy, gamma, l2, seeds, base, n).value.pHole
  {
    var rs1 := Trials(TrialOf(grid, policy, gamma, l1), seeds, base, n);
    var rs2 := Trials(TrialOf(grid, policy, gamma, l2), seeds, base, n);
    forall i | 0 <= i < n
      ensures rs1[i].kind != NoneKind ==> rs2[i] == rs1[i]
    {
      StepLimitMonotone(grid, policy, gamma, l1, l2, seeds(base + i));
    }
    CountMonotone(rs1, rs2, GoalKind);
    CountMonotone(rs1, rs2, HoleKind);
    DivMonotone(Count(rs1, GoalKind) as real, Count(rs2, GoalKind) as real, n as real);
    DivMonotone(Count(rs1, HoleKind) as real, Count(rs2, HoleKind) as real, n as real);
  }

  /**
    For a discount factor in [0, 1] the mean utility lies within the step
    limit either way, since a trial earns at most 1 in absolute value per step.
   */
  lemma MeanUtilityBounded(grid: Grid, policy: Policy, gamma: real, limit: nat,
                           seeds: Seeds, base: int, n: nat)
    requires WellFormed(grid) && HasStart(grid) && 0.0 <= gamma <= 1.0 && n > 0
    ensures var mean := Evaluate(grid, policy, gamma, limit, seeds, base, n).value.meanUtility;
      -(limit as real) <= mean <= limit as real
  {
    var rs := Trials(TrialOf(grid, policy, gamma, limit), seeds, base, n);
    forall i | 0 <= i < n
      ensures -(limit as real) <= rs[i].utility <= limit as real
    {
      var rng := seeds(base + i);
      UtilityBounded(Episode(grid, policy, limit, rng), gamma);
    }
    MeanBounds(Utilities(rs), -(limit as real), limit as real);
  }
}
