/**
  The frozen-lake Markov Decision Process.

  A grid of single-character tags ('S' start, 'F' frozen, 'H' hole, 'G' goal)
  defines states, legal actions, state-entry rewards, the terminal test and a
  slippery three-outcome transition list: the intended direction with
  probability 0.8 and each of the two perpendicular directions with 0.1,
  clamped at the walls of the grid. Hole and goal cells, and the absorbing
  state, lead to the absorbing state with probability 1.
 */
module LakeMdp {

  datatype Option<T> = None | Some(value: T)

  /** A grid of cell tags, indexed grid[row][column]. */
  type Grid = seq<seq<char>>

  /** Rectangular and non-empty: the only shape the model can index safely. */
  predicate WellFormed(grid: Grid) {
    |grid| > 0 && forall i :: 0 <= i < |grid| ==> |grid[i]| == |grid[0]|
  }

  function Rows(grid: Grid): nat {
    |grid|
  }

  /** The column count is read from the first row. */
  function Cols(grid: Grid): nat
    requires |grid| > 0
  {
    |grid[0]|
  }

  predicate InGrid(grid: Grid, r: int, c: int)
    requires WellFormed(grid)
  {
    0 <= r < Rows(grid) && 0 <= c < Cols(grid)
  }

  datatype Pos = Pos(r: nat, c: nat)

  /** A cell state carries its coordinate and its tag; Absorb is the state ⊥. */
  datatype State = Cell(pos: Pos, tag: char) | Absorb

  /** The four moves, and Bottom, the single action ⊥ of a terminal state. */
  datatype Action = Up | Right | Down | Left | Bottom

  /** One entry of a transition list: a next state and its probability. */
  datatype Outcome = Outcome(next: State, prob: real)

  /** The state's coordinate, if any, indexes the grid. */
  predicate InBounds(grid: Grid, s: State)
    requires WellFormed(grid)
  {
    s.Cell? ==> InGrid(grid, s.pos.r, s.pos.c)
  }

  /** In bounds, and the state's tag is the tag the grid holds there. */
  predicate Consistent(grid: Grid, s: State)
    requires WellFormed(grid)
  {
    InBounds(grid, s) && (s.Cell? ==> s.tag == grid[s.pos.r][s.pos.c])
  }

  // ---------------------------------------------------------------------------
  // The start cell: a row-major scan that keeps the last 'S' it meets
  // ---------------------------------------------------------------------------

  /** Strict row-major order on coordinates. */
  predicate Before(p: Pos, q: Pos) {
    p.r < q.r || (p.r == q.r && p.c < q.c)
  }

  /** q is a grid cell the scan has passed before reaching (r, c). */
  predicate Seen(grid: Grid, r: nat, c: nat, q: Pos)
    requires WellFormed(grid)
  {
    InGrid(grid, q.r, q.c) && Before(q, Pos(r, c))
  }

  predicate IsStartCell(grid: Grid, q: Pos)
    requires WellFormed(grid)
  {
    InGrid(grid, q.r, q.c) && grid[q.r][q.c] == 'S'
  }

  ghost predicate HasStart(grid: Grid)
    requires WellFormed(grid)
  {
    exists q :: IsStartCell(grid, q)
  }

  /** p is an 'S' cell and no 'S' cell follows it in row-major order. */
  ghost predicate IsLastStart(grid: Grid, p: Pos)
    requires WellFormed(grid)
  {
    IsStartCell(grid, p) && forall q :: IsStartCell(grid, q) ==> !Before(p, q)
  }

  /** What the scan has remembered on reaching (r, c): the last 'S' seen so far. */
  ghost predicate ScanInvariant(grid: Grid, r: nat, c: nat, acc: Option<Pos>)
    requires WellFormed(grid)
  {
    match acc
    case None => forall q :: Seen(grid, r, c, q) ==> !IsStartCell(grid, q)
    case Some(p) =>
      && Seen(grid, r, c, p) && IsStartCell(grid, p)
      && forall q :: Seen(grid, r, c, q) && Before(p, q) ==> !IsStartCell(grid, q)
  }

  /** The inner loop of the scan over row r, from column c to the end. */
  function ScanRow(grid: Grid, r: nat, c: nat, acc: Option<Pos>): (res: Option<Pos>)
    requires WellFormed(grid) && r < Rows(grid) && c <= Cols(grid)
    requires ScanInvariant(grid, r, c, acc)
    ensures ScanInvariant(grid, r + 1, 0, res)
    decreases Cols(grid) - c
  {
    if c == Cols(grid) then
      assert forall q :: Seen(grid, r, c, q) <==> Seen(grid, r + 1, 0, q);
      acc
    else
      var acc' := if grid[r][c] == 'S' then Some(Pos(r, c)) else acc;
      assert ScanInvariant(grid, r, c + 1, acc') by {
        forall q | Seen(grid, r, c + 1, q)
          ensures Seen(grid, r, c, q) || q == Pos(r, c)
        {
        }
      }
      ScanRow(grid, r, c + 1, acc')
  }

  /** The outer loop of the scan, from row r to the last row. */
  function ScanRows(grid: Grid, r: nat, acc: Option<Pos>): (res: Option<Pos>)
    requires WellFormed(grid) && r <= Rows(grid)
    requires ScanInvariant(grid, r, 0, acc)
    ensures ScanInvariant(grid, Rows(grid), 0, res)
    decreases Rows(grid) - r
  {
    if r == Rows(grid) then acc
    else ScanRows(grid, r + 1, ScanRow(grid, r, 0, acc))
  }

  /** The start cell found by the constructor's scan, if the grid has one. */
  function FindStart(grid: Grid): (res: Option<Pos>)
    requires WellFormed(grid)
    ensures res.None? <==> !HasStart(grid)
    ensures res.Some? ==> IsLastStart(grid, res.value)
  {
    var res := ScanRows(grid, 0, None);
    assert forall r, c :: 0 <= r < Rows(grid) && 0 <= c < Cols(grid) ==>
      Seen(grid, Rows(grid), 0, Pos(r, c));
    if res.None? then
      assert !HasStart(grid) by {
        forall r, c | 0 <= r < Rows(grid) && 0 <= c < Cols(grid)
          ensures grid[r][c] != 'S'
        {
          assert !IsStartCell(grid, Pos(r, c));
        }
      }
      res
    else
      res
  }

  /** The start state: the last 'S' of the scan, with its tag. */
  function StartState(grid: Grid): (s: State)
    requires WellFormed(grid) && HasStart(grid)
    ensures s.Cell? && s.tag == 'S' && IsLastStart(grid, s.pos)
    ensures Consistent(grid, s)
  {
    Cell(FindStart(grid).value, 'S')
  }

  // ---------------------------------------------------------------------------
  // Actions, rewards, terminal test
  // ---------------------------------------------------------------------------

  predicate IsTerminal(s: State) {
    s.Absorb? || s.tag == 'H' || s.tag == 'G'
  }

  function Actions(s: State): (acts: seq<Action>)
    ensures IsTerminal(s) ==> acts == [Bottom]
    ensures !IsTerminal(s) ==> acts == [Up, Right, Down, Left]
  {
    if s.Absorb? then [Bottom]
    else if s.tag in {'H', 'G'} then [Bottom]
    else [Up, Right, Down, Left]
  }

  /** The reward for entering s. */
  function Reward(s: State): (v: real)
    ensures s.Absorb? ==> v == 0.0
    ensures s.Cell? && s.tag == 'F' ==> v == 0.1
    ensures s.Cell? && s.tag == 'H' ==> v == -1.0
    ensures s.Cell? && s.tag == 'G' ==> v == 1.0
    ensures s.Cell? && s.tag !in {'F', 'H', 'G'} ==> v == 0.0
    ensures -1.0 <= v <= 1.0
    ensures v < 0.0 <==> s.Cell? && s.tag == 'H'
  {
    if s.Absorb? then 0.0
    else if s.tag == 'F' then 0.1
    else if s.tag == 'H' then -1.0
    else if s.tag == 'G' then 1.0
    else 0.0
  }

  // ---------------------------------------------------------------------------
  // Directions and moves
  // ---------------------------------------------------------------------------

  /** Row and column offset of a move. */
  function Delta(a: Action): (d: (int, int))
    requires a != Bottom
    ensures d != (0, 0)
  {
    match a
    case Up => (-1, 0)
    case Down => (1, 0)
    case Left => (0, -1)
    case Right => (0, 1)
  }

  predicate IsVertical(a: Action)
    requires a != Bottom
  {
    Delta(a).1 == 0
  }

  /** The move that undoes a. */
  function Reverse(a: Action): (b: Action)
    requires a != Bottom
    ensures b != Bottom && Delta(b) == (-Delta(a).0, -Delta(a).1)
  {
    match a
    case Up => Down
    case Down => Up
    case Left => Right
    case Right => Left
  }

  /** The two slip directions of a move. */
  function Laterals(a: Action): seq<Action>
    requires a != Bottom
  {
    if a in {Up, Down} then [Left, Right] else [Up, Down]
  }

  /** The intended direction followed by the two slip directions. */
  function Directions(a: Action): (ds: seq<Action>)
    requires a != Bottom
    ensures |ds| == 3 && ds[0] == a
    ensures forall i :: 0 <= i < 3 ==> ds[i] != Bottom
    ensures forall i :: 1 <= i < 3 ==> IsVertical(ds[i]) != IsVertical(a)
    ensures ds[1] != ds[2]
    ensures Reverse(a) !in ds
  {
    [a] + Laterals(a)
  }

  /** Probability of each entry of Directions(a). */
  const Weights: seq<real> := [0.8, 0.1, 0.1]

  /** The cell reached by trying a from p; a wall leaves p unchanged. */
  function MoveTo(grid: Grid, p: Pos, a: Action): (q: Pos)
    requires WellFormed(grid) && a != Bottom
    ensures InGrid(grid, p.r, p.c) ==> InGrid(grid, q.r, q.c)
    ensures q == p <==> !InGrid(grid, p.r + Delta(a).0, p.c + Delta(a).1)
    ensures q != p ==> q.r == p.r + Delta(a).0 && q.c == p.c + Delta(a).1
  {
    var nr := p.r + Delta(a).0;
    var nc := p.c + Delta(a).1;
    if InGrid(grid, nr, nc) then Pos(nr, nc) else p
  }

  /** The state entered by a move in direction d from p, tagged from the grid. */
  function Land(grid: Grid, p: Pos, d: Action): (s: State)
    requires WellFormed(grid) && InGrid(grid, p.r, p.c) && d != Bottom
    ensures s.Cell? && s.pos == MoveTo(grid, p, d) && Consistent(grid, s)
  {
    var q := MoveTo(grid, p, d);
    Cell(q, grid[q.r][q.c])
  }

  /** q is one of the four orthogonal neighbours of p. */
  predicate Adjacent(p: Pos, q: Pos) {
    || (p.r == q.r && (q.c == p.c + 1 || p.c == q.c + 1))
    || (p.c == q.c && (q.r == p.r + 1 || p.r == q.r + 1))
  }

  // ---------------------------------------------------------------------------
  // Transitions
  // ---------------------------------------------------------------------------

  function TotalProbability(dist: seq<Outcome>): real {
    if |dist| == 0 then 0.0 else dist[0].prob + TotalProbability(dist[1..])
  }

  /**
    The outcome list of taking a in s. Entries are never merged: two
    directions that land on the same cell give two entries.
   */
  function Transition(grid: Grid, s: State, a: Action): (dist: seq<Outcome>)
    requires WellFormed(grid) && InBounds(grid, s)
    requires !IsTerminal(s) ==> a != Bottom
    ensures IsTerminal(s) ==> dist == [Outcome(Absorb, 1.0)]
    ensures !IsTerminal(s) ==> |dist| == 3
    ensures !IsTerminal(s) ==> forall i :: 0 <= i < |dist| ==>
      dist[i].next == Land(grid, s.pos, Directions(a)[i]) && dist[i].prob == Weights[i]
    ensures TotalProbability(dist) == 1.0
    ensures forall i :: 0 <= i < |dist| ==> dist[i].prob > 0.0 && Consistent(grid, dist[i].next)
  {
    if s.Absorb? then [Outcome(Absorb, 1.0)]
    else if IsTerminal(s) then [Outcome(Absorb, 1.0)]
    else
      var lat := Laterals(a);
      var dist := [Outcome(Land(grid, s.pos, a), 0.8),
                   Outcome(Land(grid, s.pos, lat[0]), 0.1),
                   Outcome(Land(grid, s.pos, lat[1]), 0.1)];
      assert TotalProbability(dist[2..]) == 0.1 + TotalProbability(dist[3..]);
      assert TotalProbability(dist[1..]) == 0.1 + TotalProbability(dist[2..]);
      dist
  }

  // ---------------------------------------------------------------------------
  // Properties relating the operations
  // ---------------------------------------------------------------------------

  /** A state is terminal exactly when ⊥ is its only action and its only outcome is ⊥. */
  lemma TerminalIffSingleAction(grid: Grid, s: State, a: Action)
    requires WellFormed(grid) && InBounds(grid, s)
    requires !IsTerminal(s) ==> a != Bottom
    ensures IsTerminal(s) <==> Bottom in Actions(s)
    ensures IsTerminal(s) <==> |Actions(s)| == 1
    ensures IsTerminal(s) <==> Transition(grid, s, a) == [Outcome(Absorb, 1.0)]
  {
    if !IsTerminal(s) {
      assert Transition(grid, s, a)[0].next.Cell?;
    }
  }

  /** The legal actions never repeat, so choosing by index is a bijection. */
  lemma ActionsDistinct(s: State)
    ensures forall i, j :: 0 <= i < j < |Actions(s)| ==> Actions(s)[i] != Actions(s)[j]
  {
  }

  /** On a one-cell grid all three outcomes land on the same cell and stay separate. */
  lemma SingleCellOutcomesNotMerged(a: Action)
    requires a != Bottom
    ensures WellFormed(SingleCell)
    ensures var s := Cell(Pos(0, 0), 'S');
      Transition(SingleCell, s, a) == [Outcome(s, 0.8), Outcome(s, 0.1), Outcome(s, 0.1)]
  {
    var s := Cell(Pos(0, 0), 'S');
    assert Rows(SingleCell) == 1 && Cols(SingleCell) == 1 && SingleCell[0][0] == 'S';
    var dist := Transition(SingleCell, s, a);
    forall i | 0 <= i < 3
      ensures dist[i].next == s
    {
      assert MoveTo(SingleCell, Pos(0, 0), Directions(a)[i]) == Pos(0, 0);
    }
  }

  /** The lake of a single start cell. */
  const SingleCell: Grid := [['S']]

  /** Taking a move from a non-terminal cell lands on that cell or a 4-neighbour of it. */
  lemma OutcomesAreNeighbours(grid: Grid, s: State, a: Action, i: nat)
    requires WellFormed(grid) && InBounds(grid, s) && !IsTerminal(s) && a != Bottom
    requires i < 3
    ensures var q := Transition(grid, s, a)[i].next.pos;
      q == s.pos || Adjacent(s.pos, q)
  {
    var d := Directions(a)[i];
    assert Transition(grid, s, a)[i].next.pos == MoveTo(grid, s.pos, d);
  }
}
