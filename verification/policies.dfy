/**
  The two action-selection rules evaluated on the lake.

  RandomPolicy picks a legal action by an index that the random generator
  supplies. CustomPolicy is deterministic: DOWN when the cell below exists
  and is not a hole, else RIGHT under the same test, else the first legal
  action. It looks only at the intended cell, never at slip outcomes.
 */
module Policies {
  import opened LakeMdp

  datatype Policy = RandomPolicy | CustomPolicy

  /** Trying a from p would really move (no wall) onto a cell that is not a hole. */
  predicate SafeIntended(grid: Grid, p: Pos, a: Action)
    requires WellFormed(grid) && InGrid(grid, p.r, p.c) && a != Bottom
  {
    var q := MoveTo(grid, p, a);
    q != p && grid[q.r][q.c] != 'H'
  }

  /** The uniform choice among the legal actions, at the generator's index. */
  function RandomDecision(s: State, choice: nat): (a: Action)
    requires choice < |Actions(s)|
    ensures a in Actions(s)
  {
    Actions(s)[choice]
  }

  /** The priority rule DOWN, RIGHT, first legal action. */
  function CustomDecision(grid: Grid, s: State): (a: Action)
    requires WellFormed(grid) && InBounds(grid, s)
    ensures s.Absorb? ==> a == Bottom
    ensures s.Cell? && SafeIntended(grid, s.pos, Down) ==> a == Down
    ensures s.Cell? && !SafeIntended(grid, s.pos, Down) && SafeIntended(grid, s.pos, Right)
      ==> a == Right
    ensures s.Cell? && !SafeIntended(grid, s.pos, Down) && !SafeIntended(grid, s.pos, Right)
      ==> a == Actions(s)[0]
    ensures a in {Down, Right} ==> s.Cell? && SafeIntended(grid, s.pos, a)
  {
    var acts := Actions(s);
    if s.Absorb? then Bottom
    else
      var r, c := s.pos.r, s.pos.c;
      if r + 1 < Rows(grid) && grid[r + 1][c] != 'H' then Down
      else if c + 1 < Cols(grid) && grid[r][c + 1] != 'H' then Right
      else acts[0]
  }

  /** The action a policy takes in s; choice is used by RandomPolicy only. */
  function Decide(policy: Policy, grid: Grid, s: State, choice: nat): (a: Action)
    requires WellFormed(grid) && InBounds(grid, s)
    requires policy.RandomPolicy? ==> choice < |Actions(s)|
    ensures !IsTerminal(s) ==> a in Actions(s)
    ensures s.Absorb? ==> a == Bottom
  {
    match policy
    case RandomPolicy => RandomDecision(s, choice)
    case CustomPolicy => CustomDecision(grid, s)
  }

  /**
    Every legal action is chosen by exactly one index, so a uniformly drawn
    index gives a uniformly drawn legal action.
   */
  lemma RandomDecisionIsBijection(s: State)
    ensures forall i, j :: 0 <= i < j < |Actions(s)| ==> RandomDecision(s, i) != RandomDecision(s, j)
    ensures forall a :: a in Actions(s) ==>
      exists i :: 0 <= i < |Actions(s)| && RandomDecision(s, i) == a
  {
    ActionsDistinct(s);
    forall a | a in Actions(s)
      ensures exists i :: 0 <= i < |Actions(s)| && RandomDecision(s, i) == a
    {
      var i :| 0 <= i < |Actions(s)| && Actions(s)[i] == a;
      assert RandomDecision(s, i) == a;
    }
  }

  /** CustomPolicy never consults the generator. */
  lemma CustomIgnoresChoice(grid: Grid, s: State, i: nat, j: nat)
    requires WellFormed(grid) && InBounds(grid, s)
    ensures Decide(CustomPolicy, grid, s, i) == Decide(CustomPolicy, grid, s, j)
  {
  }

  /** On a boxed-in non-terminal cell CustomPolicy falls back to UP. */
  lemma CustomFallbackIsUp(grid: Grid, s: State)
    requires WellFormed(grid) && InBounds(grid, s) && s.Cell? && !IsTerminal(s)
    requires !SafeIntended(grid, s.pos, Down) && !SafeIntended(grid, s.pos, Right)
    ensures CustomDecision(grid, s) == Up
  {
  }

  /**
    The rule is applied to hole and goal cells as well, where it can name a
    move that is not among the legal actions; trial runs never ask a policy
    about such a cell.
   */
  lemma CustomOnTerminalCell()
    ensures WellFormed(HoleAboveIce)
    ensures CustomDecision(HoleAboveIce, Cell(Pos(0, 0), 'H')) == Down
    ensures Down !in Actions(Cell(Pos(0, 0), 'H'))
  {
    assert InGrid(HoleAboveIce, 1, 0) && HoleAboveIce[1][0] == 'F';
  }

  /** A hole with a frozen cell below it. */
  const HoleAboveIce: Grid := [['H'], ['F']]
}
