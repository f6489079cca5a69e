/**
  One simulated episode (the trial runner of the utility analyzer).

  From the start state the runner asks the policy for an action, samples one
  entry of the transition list, adds the discounted reward of the entered
  state, and stops when the entered state is terminal or after the step
  limit. The random generator is an oracle: at step t it yields the index
  RandomPolicy uses to pick an action and the index of the sampled
  transition entry.

  The loop itself (Run) and the reference description of an episode
  (Entered, Utility, PathKind) are written over an environment step
  function, so that their relation is proved once; Environment is the step
  of the lake under a policy.
 */
module Trial {
  import opened LakeMdp
  import opened Policies

  /** An index into the four legal actions of a non-terminal cell. */
  type ChoiceIndex = i: nat | i < 4

  /** An index into the three entries of a non-terminal cell's transition list. */
  type OutcomeIndex = i: nat | i < 3

  /** What the generator yields for one step. */
  datatype Draw = Draw(choice: ChoiceIndex, outcome: OutcomeIndex)

  /** A seeded generator: rng(t) is its draw for step t. */
  type Rng = nat -> Draw

  /** The state entered from a state under one draw. */
  type Env = (State, Draw) -> State

  datatype TerminalKind = GoalKind | HoleKind | NoneKind

  datatype TrialResult = TrialResult(utility: real, length: nat, kind: TerminalKind)

  /** A state the runner may stand on: consistent with the grid and not terminal. */
  predicate Live(grid: Grid, s: State)
    requires WellFormed(grid)
  {
    Consistent(grid, s) && !IsTerminal(s)
  }

  /**
    The product of two reals, as a named function. Products of two varying
    quantities (the discount so far and gamma or a reward) are written
    through it so that the solver treats each product as a term of its own
    and the arithmetic in the proofs below stays linear.
   */
  function Scale(x: real, y: real): real { x * y }

  /** x to the power n. */
  function Pow(x: real, n: nat): real {
    if n == 0 then 1.0 else Scale(Pow(x, n - 1), x)
  }

  // ---------------------------------------------------------------------------
  // The environment step
  // ---------------------------------------------------------------------------

  /**
    One environment step from a live state: the policy's action, then the
    state of the sampled entry of the transition list (see StepSamplesTransition).
   */
  function Step(grid: Grid, policy: Policy, s: State, d: Draw): (ns: State)
    requires WellFormed(grid) && Live(grid, s)
    ensures ns.Cell? && Consistent(grid, ns)
  {
    var a := Decide(policy, grid, s, d.choice);
    Land(grid, s.pos, Directions(a)[d.outcome])
  }

  /** A step enters the sampled entry of the transition list: a neighbour or the same cell. */
  lemma StepSamplesTransition(grid: Grid, policy: Policy, s: State, d: Draw)
    requires WellFormed(grid) && Live(grid, s)
    ensures var a := Decide(policy, grid, s, d.choice);
      Step(grid, policy, s, d) == Transition(grid, s, a)[d.outcome].next
    ensures var ns := Step(grid, policy, s, d);
      ns.pos == s.pos || Adjacent(s.pos, ns.pos)
  {
    OutcomesAreNeighbours(grid, s, Decide(policy, grid, s, d.choice), d.outcome);
  }

  /** The lake under a policy as an environment; the runner never steps from other states. */
  function Environment(grid: Grid, policy: Policy): (env: Env)
    requires WellFormed(grid)
    ensures forall s, d :: Live(grid, s) ==> env(s, d) == Step(grid, policy, s, d)
  {
    (s: State, d: Draw) => if Live(grid, s) then Step(grid, policy, s, d) else Absorb
  }

  // ---------------------------------------------------------------------------
  // The episode as a path of entered states
  // ---------------------------------------------------------------------------

  /** How an episode whose last entered state is s ended. */
  function KindOf(s: State): (k: TerminalKind)
    ensures k == GoalKind <==> s.Cell? && s.tag == 'G'
    ensures k == HoleKind <==> s.Cell? && s.tag == 'H'
  {
    if s.Cell? && s.tag == 'G' then GoalKind
    else if s.Cell? && s.tag == 'H' then HoleKind
    else NoneKind
  }

  /**
    The states entered from step t on, starting in s: one per step until a
    terminal state is entered or the limit is reached.
   */
  function Entered(env: Env, s: State, rng: Rng, t: nat, limit: nat): (path: seq<State>)
    requires t <= limit
    ensures |path| <= limit - t
    ensures forall i :: 0 <= i < |path| - 1 ==> !IsTerminal(path[i])
    ensures |path| < limit - t ==> |path| > 0 && IsTerminal(path[|path| - 1])
    decreases limit - t
  {
    if t == limit then []
    else
      var ns := env(s, rng(t));
      if IsTerminal(ns) then [ns]
      else
        var rest := Entered(env, ns, rng, t + 1, limit);
        assert forall i :: 1 <= i < |rest| + 1 ==> ([ns] + rest)[i] == rest[i - 1];
        [ns] + rest
  }

  /** The sum over t < |path| of gamma^t times the reward of path[t]. */
  function Utility(path: seq<State>, gamma: real): real {
    if |path| == 0 then 0.0
    else Utility(path[..|path| - 1], gamma) + Scale(Pow(gamma, |path| - 1), Reward(path[|path| - 1]))
  }

  /** How a path ended: by the kind of its last state if that is terminal, else "none". */
  function PathKind(path: seq<State>): TerminalKind {
    if |path| > 0 && IsTerminal(path[|path| - 1]) then KindOf(path[|path| - 1]) else NoneKind
  }

  // ---------------------------------------------------------------------------
  // The runner's loop
  // ---------------------------------------------------------------------------

  /** The runner's accumulators: the utility so far and gamma^t. */
  datatype Acc = Acc(total: real, gammaT: real)

  /** How the accumulators absorb one entered state. */
  type Update = (Acc, State) -> Acc

  /** What the loop returns: the accumulators, the number of steps taken, and how it ended. */
  datatype Loop = Loop(acc: Acc, length: nat, kind: TerminalKind)

  /**
    The runner's loop from step t in state s with accumulators acc: it
    steps, updates the accumulators with the entered state, and stops on a
    terminal state or at the limit.
   */
  function Run(env: Env, update: Update, rng: Rng, limit: nat, s: State, t: nat, acc: Acc): (res: Loop)
    requires t <= limit
    ensures t <= res.length <= limit
    decreases limit - t
  {
    if t == limit then Loop(acc, t, NoneKind)
    else
      var ns := env(s, rng(t));
      var acc' := update(acc, ns);
      if IsTerminal(ns) then Loop(acc', t + 1, KindOf(ns))
      else Run(env, update, rng, limit, ns, t + 1, acc')
  }

  /** The accumulators after absorbing every state of path in order. */
  function Fold(update: Update, acc: Acc, path: seq<State>): Acc
    decreases |path|
  {
    if |path| == 0 then acc else Fold(update, update(acc, path[0]), path[1..])
  }

  /**
    The loop absorbs exactly the states it enters: its accumulators are the
    fold over the entered path, its length counts them, and its kind is the
    path's.
   */
  lemma {:induction false} RunFollowsPath(env: Env, update: Update, rng: Rng, limit: nat,
                                          s: State, t: nat, acc: Acc)
    requires t <= limit
    ensures var path := Entered(env, s, rng, t, limit);
      Run(env, update, rng, limit, s, t, acc)
      == Loop(Fold(update, acc, path), t + |path|, PathKind(path))
    decreases limit - t
  {
    if t < limit {
      var ns := env(s, rng(t));
      if IsTerminal(ns) {
        assert Entered(env, s, rng, t, limit) == [ns];
        assert Fold(update, acc, [ns]) == update(acc, ns);
      } else {
        var rest := Entered(env, ns, rng, t + 1, limit);
        var path := [ns] + rest;
        RunFollowsPath(env, update, rng, limit, ns, t + 1, update(acc, ns));
        assert Entered(env, s, rng, t, limit) == path;
        assert path[1..] == rest;
        assert PathKind(path) == PathKind(rest) by {
          if |rest| > 0 {
            assert path[|path| - 1] == rest[|rest| - 1];
          }
        }
      }
    }
  }

  /** The runner's update: add gamma_t times the reward, then multiply gamma_t by gamma. */
  function Discount(gamma: real): (update: Update)
    ensures forall acc, ns ::
      update(acc, ns) == Acc(acc.total + Scale(acc.gammaT, Reward(ns)), Scale(acc.gammaT, gamma))
  {
    (acc: Acc, ns: State) => Acc(acc.total + Scale(acc.gammaT, Reward(ns)), Scale(acc.gammaT, gamma))
  }

  /** Appending one entered state adds its reward, discounted by its position. */
  lemma UtilitySnoc(prefix: seq<State>, ns: State, gamma: real)
    ensures Utility(prefix + [ns], gamma) == Utility(prefix, gamma) + Scale(Pow(gamma, |prefix|), Reward(ns))
  {
    assert (prefix + [ns])[..|prefix|] == prefix;
  }

  /** One update takes the utility and discount of prefix to those of prefix + [ns]. */
  lemma DiscountStep(gamma: real, prefix: seq<State>, ns: State)
    ensures Discount(gamma)(Acc(Utility(prefix, gamma), Pow(gamma, |prefix|)), ns)
      == Acc(Utility(prefix + [ns], gamma), Pow(gamma, |prefix + [ns]|))
  {
    UtilitySnoc(prefix, ns, gamma);
  }

  /** f assigns each path the accumulators that update produces from its predecessor's. */
  ghost predicate Tracks(update: Update, f: seq<State> -> Acc) {
    forall p, x :: f(p + [x]) == update(f(p), x)
  }

  /** Folding such an update over path carries f(prefix) to f(prefix + path). */
  lemma {:induction false} FoldTracks(update: Update, f: seq<State> -> Acc, prefix: seq<State>, path: seq<State>)
    requires Tracks(update, f)
    ensures Fold(update, f(prefix), path) == f(prefix + path)
    decreases |path|
  {
    if |path| == 0 {
      assert prefix + path == prefix;
    } else {
      var prefix' := prefix + [path[0]];
      assert f(prefix') == update(f(prefix), path[0]);
      FoldTracks(update, f, prefix', path[1..]);
      assert prefix' + path[1..] == prefix + path;
    }
  }

  /** The utility and discount factor of a path. */
  function Discounted(gamma: real): (f: seq<State> -> Acc)
    ensures forall p :: f(p) == Acc(Utility(p, gamma), Pow(gamma, |p|))
  {
    p => Acc(Utility(p, gamma), Pow(gamma, |p|))
  }

  /** The runner's update keeps its accumulators equal to the utility and discount of the path. */
  lemma DiscountTracks(gamma: real)
    ensures Tracks(Discount(gamma), Discounted(gamma))
  {
    forall p, x {
      DiscountStep(gamma, p, x);
    }
  }

  /** Raising the limit only extends a path, and never changes one that ended in a terminal state. */
  lemma {:induction false} EnteredExtends(env: Env, s: State, rng: Rng, t: nat, l1: nat, l2: nat)
    requires t <= l1 <= l2
    ensures Entered(env, s, rng, t, l1) <= Entered(env, s, rng, t, l2)
    ensures PathKind(Entered(env, s, rng, t, l1)) != NoneKind
      ==> Entered(env, s, rng, t, l1) == Entered(env, s, rng, t, l2)
    decreases l1 - t
  {
    if t < l1 {
      var ns := env(s, rng(t));
      if !IsTerminal(ns) {
        EnteredExtends(env, ns, rng, t + 1, l1, l2);
        var e1 := Entered(env, ns, rng, t + 1, l1);
        var e2 := Entered(env, ns, rng, t + 1, l2);
        assert Entered(env, s, rng, t, l1) == [ns] + e1;
        assert Entered(env, s, rng, t, l2) == [ns] + e2;
        if PathKind([ns] + e1) != NoneKind {
          assert |e1| > 0 && ([ns] + e1)[|[ns] + e1| - 1] == e1[|e1| - 1];
        }
      }
    }
  }

  /** Every state of the path is a cell consistent with the grid. */
  predicate AllConsistent(grid: Grid, path: seq<State>)
    requires WellFormed(grid)
  {
    forall i :: 0 <= i < |path| ==> path[i].Cell? && Consistent(grid, path[i])
  }

  /** From a live state the lake's environment enters only cells consistent with the grid. */
  lemma {:induction false} EnteredCellsConsistent(grid: Grid, policy: Policy, s: State, rng: Rng,
                                                  t: nat, limit: nat)
    requires WellFormed(grid) && Live(grid, s) && t <= limit
    ensures AllConsistent(grid, Entered(Environment(grid, policy), s, rng, t, limit))
    decreases limit - t
  {
    var env := Environment(grid, policy);
    if t < limit {
      var ns := env(s, rng(t));
      assert ns == Step(grid, policy, s, rng(t));
      assert ns.Cell? && Consistent(grid, ns);
      var path := Entered(env, s, rng, t, limit);
      if !IsTerminal(ns) {
        EnteredCellsConsistent(grid, policy, ns, rng, t + 1, limit);
        var rest := Entered(env, ns, rng, t + 1, limit);
        assert path == [ns] + rest;
        assert AllConsistent(grid, rest);
        forall i | 0 <= i < |path|
          ensures path[i].Cell? && Consistent(grid, path[i])
        {
          if i > 0 {
            assert path[i] == rest[i - 1];
          }
        }
      } else {
        assert path == [ns];
      }
    }
  }

  // ---------------------------------------------------------------------------
  // One trial
  // ---------------------------------------------------------------------------

  /** The states entered by a whole trial, from the start state. */
  function Episode(grid: Grid, policy: Policy, limit: nat, rng: Rng): seq<State>
    requires WellFormed(grid) && HasStart(grid)
  {
    Entered(Environment(grid, policy), StartState(grid), rng, 0, limit)
  }

  /**
    An episode of the lake ends in "none" exactly when it enters no terminal
    state, and then it used every step; a goal or hole cell can only be the
    last state entered.
   */
  lemma EpisodeEnds(grid: Grid, policy: Policy, limit: nat, rng: Rng)
    requires WellFormed(grid) && HasStart(grid)
    ensures var path := Episode(grid, policy, limit, rng);
      PathKind(path) == NoneKind <==> forall i :: 0 <= i < |path| ==> !IsTerminal(path[i])
    ensures var path := Episode(grid, policy, limit, rng);
      PathKind(path) == NoneKind ==> |path| == limit
    ensures var path := Episode(grid, policy, limit, rng);
      forall i :: 0 <= i < |path| && path[i].Cell? && path[i].tag in {'G', 'H'} ==>
        i == |path| - 1 && PathKind(path) == KindOf(path[i])
  {
    var path := Episode(grid, policy, limit, rng);
    EnteredCellsConsistent(grid, policy, StartState(grid), rng, 0, limit);
    assert AllConsistent(grid, path);
    if |path| > 0 {
      assert path[|path| - 1].Cell?;
    }
  }

  /**
    One trial: the runner's loop from the start state with utility 0 and
    discount 1; it reports the utility, the number of steps and the kind.
   */
  function RunTrial(grid: Grid, policy: Policy, gamma: real, limit: nat, rng: Rng)
    : (res: TrialResult)
    requires WellFormed(grid) && HasStart(grid)
    ensures var path := Episode(grid, policy, limit, rng);
      && res.length == |path|
      && res.utility == Utility(path, gamma)
      && res.kind == PathKind(path)
    ensures res.length <= limit
  {
    var env := Environment(grid, policy);
    var loop := Run(env, Discount(gamma), rng, limit, StartState(grid), 0, Acc(0.0, 1.0));
    RunFollowsPath(env, Discount(gamma), rng, limit, StartState(grid), 0, Acc(0.0, 1.0));
    DiscountTracks(gamma);
    FoldTracks(Discount(gamma), Discounted(gamma), [], Episode(grid, policy, limit, rng));
    assert [] + Episode(grid, policy, limit, rng) == Episode(grid, policy, limit, rng);
    TrialResult(loop.acc.total, loop.length, loop.kind)
  }

  /**
    A trial reports "none" exactly when it entered no terminal state, and
    then it ran for the whole limit; a goal or hole cell is only ever the
    last state entered, and it decides the reported kind.
   */
  lemma TrialOutcome(grid: Grid, policy: Policy, gamma: real, limit: nat, rng: Rng)
    requires WellFormed(grid) && HasStart(grid)
    ensures var res := RunTrial(grid, policy, gamma, limit, rng);
      res.kind == NoneKind ==> res.length == limit
    ensures var res := RunTrial(grid, policy, gamma, limit, rng);
      var path := Episode(grid, policy, limit, rng);
      res.kind == NoneKind <==> forall i :: 0 <= i < |path| ==> !IsTerminal(path[i])
    ensures var res := RunTrial(grid, policy, gamma, limit, rng);
      var path := Episode(grid, policy, limit, rng);
      forall i :: 0 <= i < |path| && path[i].Cell? && path[i].tag == 'G' ==>
        i == |path| - 1 && res.kind == GoalKind
    ensures var res := RunTrial(grid, policy, gamma, limit, rng);
      var path := Episode(grid, policy, limit, rng);
      forall i :: 0 <= i < |path| && path[i].Cell? && path[i].tag == 'H' ==>
        i == |path| - 1 && res.kind == HoleKind
  {
    EpisodeEnds(grid, policy, limit, rng);
  }

  /** A trial that reached a hole or the goal gives the same result under any larger limit. */
  lemma StepLimitMonotone(grid: Grid, policy: Policy, gamma: real, l1: nat, l2: nat, rng: Rng)
    requires WellFormed(grid) && HasStart(grid) && l1 <= l2
    ensures RunTrial(grid, policy, gamma, l1, rng).kind != NoneKind
      ==> RunTrial(grid, policy, gamma, l2, rng) == RunTrial(grid, policy, gamma, l1, rng)
  {
    EnteredExtends(Environment(grid, policy), StartState(grid), rng, 0, l1, l2);
  }

  /** A path whose every reward is zero has zero utility. */
  lemma {:induction false} UtilityOfZeroRewards(path: seq<State>, gamma: real)
    requires forall i :: 0 <= i < |path| ==> Reward(path[i]) == 0.0
    ensures Utility(path, gamma) == 0.0
  {
    if |path| > 0 {
      UtilityOfZeroRewards(path[..|path| - 1], gamma);
    }
  }

  lemma MulNonneg(x: real, y: real)
    requires x >= 0.0 && y >= 0.0
    ensures x * y >= 0.0
  {
  }

  /** A factor in [0, 1] keeps a value of [-1, 1] within [-1, 1], and one of [0, 1] within [0, y]. */
  lemma ScaleInUnit(x: real, y: real)
    requires 0.0 <= x <= 1.0 && -1.0 <= y <= 1.0
    ensures -1.0 <= Scale(x, y) <= 1.0
    ensures 0.0 <= y ==> 0.0 <= Scale(x, y) <= y
  {
    if y >= 0.0 {
      MulNonneg(1.0 - x, y);
      MulNonneg(x, y);
    } else {
      MulNonneg(1.0 - x, -y);
      MulNonneg(x, -y);
    }
  }

  /** For a discount factor in [0, 1], every power of it lies in [0, 1]. */
  lemma {:induction false} PowInUnit(gamma: real, n: nat)
    requires 0.0 <= gamma <= 1.0
    ensures 0.0 <= Pow(gamma, n) <= 1.0
  {
    if n > 0 {
      PowInUnit(gamma, n - 1);
      ScaleInUnit(Pow(gamma, n - 1), gamma);
    }
  }

  /**
    For a discount factor in [0, 1], each entered state changes the utility
    by at most 1 either way, since every reward lies in [-1, 1].
   */
  lemma {:induction false} UtilityBounded(path: seq<State>, gamma: real)
    requires 0.0 <= gamma <= 1.0
    ensures -(|path| as real) <= Utility(path, gamma) <= |path| as real
  {
    if |path| > 0 {
      UtilityBounded(path[..|path| - 1], gamma);
      PowInUnit(gamma, |path| - 1);
      ScaleInUnit(Pow(gamma, |path| - 1), Reward(path[|path| - 1]));
    }
  }

  /** The environment's step depends on the draw only through the sampled outcome index. */
  ghost predicate IgnoresChoice(env: Env) {
    forall s, d1: Draw, d2: Draw :: d1.outcome == d2.outcome ==> env(s, d1) == env(s, d2)
  }

  /** Under CustomPolicy the lake's step depends only on the sampled outcome index. */
  lemma CustomIgnoresChoiceIndex(grid: Grid)
    requires WellFormed(grid)
    ensures IgnoresChoice(Environment(grid, CustomPolicy))
  {
    forall s, d1: Draw, d2: Draw | d1.outcome == d2.outcome
      ensures Environment(grid, CustomPolicy)(s, d1) == Environment(grid, CustomPolicy)(s, d2)
    {
      if Live(grid, s) {
        CustomIgnoresChoice(grid, s, d1.choice, d2.choice);
      }
    }
  }

  /** Generators that sample the same outcome indices make such an environment enter the same states. */
  lemma {:induction false} EnteredIgnoresChoices(env: Env, s: State, rng1: Rng, rng2: Rng, t: nat, limit: nat)
    requires IgnoresChoice(env) && t <= limit
    requires forall u :: t <= u < limit ==> rng1(u).outcome == rng2(u).outcome
    ensures Entered(env, s, rng1, t, limit) == Entered(env, s, rng2, t, limit)
    decreases limit - t
  {
    if t < limit {
      assert env(s, rng1(t)) == env(s, rng2(t));
      EnteredIgnoresChoices(env, env(s, rng1(t)), rng1, rng2, t + 1, limit);
    }
  }

  /**
    A CustomPolicy trial never uses the generator's action index: two
    generators that sample the same outcome indices give the same result.
   */
  lemma CustomTrialIgnoresChoices(grid: Grid, gamma: real, limit: nat, rng1: Rng, rng2: Rng)
    requires WellFormed(grid) && HasStart(grid)
    requires forall u :: 0 <= u < limit ==> rng1(u).outcome == rng2(u).outcome
    ensures RunTrial(grid, CustomPolicy, gamma, limit, rng1) == RunTrial(grid, CustomPolicy, gamma, limit, rng2)
  {
    CustomIgnoresChoiceIndex(grid);
    EnteredIgnoresChoices(Environment(grid, CustomPolicy), StartState(grid), rng1, rng2, 0, limit);
  }

  /**
    On a grid whose only cell is the start, every action keeps the agent in
    place: each trial exhausts the limit, ends with kind "none", and earns
    nothing, since the start cell's reward is 0.
   */
  lemma SingleStartCellNeverTerminates(policy: Policy, gamma: real, limit: nat, rng: Rng)
    ensures WellFormed([['S']]) && HasStart([['S']])
    ensures RunTrial([['S']], policy, gamma, limit, rng) == TrialResult(0.0, limit, NoneKind)
  {
    var grid := [['S']];
    assert IsStartCell(grid, Pos(0, 0));
    var path := Episode(grid, policy, limit, rng);
    EnteredCellsConsistent(grid, policy, StartState(grid), rng, 0, limit);
    assert AllConsistent(grid, path);
    assert forall i :: 0 <= i < |path| ==> path[i] == Cell(Pos(0, 0), 'S');
    UtilityOfZeroRewards(path, gamma);
  }
}
