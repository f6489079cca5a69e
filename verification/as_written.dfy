/**
  The lake states as the Python code holds them, and the two places that read
  them in a shape they do not have.

  A state is the tuple ((r, c), tag), and the absorbing state is the pair
  (⊥, ⊥). CustomPolicy's decision compares the state with the bare symbol ⊥
  and then unpacks it as a coordinate pair; the trial loop indexes the grid
  with the state's first component. Both read the state as if it were a bare
  (r, c) pair or ⊥, so on every real state the code raises a TypeError. The
  members below model those lines as they stand (None is the raised error);
  the rest of the model uses the intended readings, Policies.CustomDecision
  and Trial.KindOf.
 */
module AsWritten {
  import opened LakeMdp
  import opened Policies
  import opened Trial

  /** The Python values a lake state is built from. */
  datatype PyValue = PyInt(i: int) | PyStr(str: string) | PyPair(fst: PyValue, snd: PyValue)

  const AbsorbSymbol: PyValue := PyStr("⊥")

  /** The tuple the Python code uses for a state. */
  function Encode(s: State): (v: PyValue)
    ensures v.PyPair? && v.snd.PyStr?
    ensures v.fst.PyPair? <==> s.Cell?
    ensures v.fst == AbsorbSymbol <==> s.Absorb?
  {
    match s
    case Cell(p, tag) => PyPair(PyPair(PyInt(p.r), PyInt(p.c)), PyStr([tag]))
    case Absorb => AbsorbPair
  }

  /** Distinct states are distinct tuples, so the tuple is a faithful stand-in. */
  lemma EncodeInjective(s1: State, s2: State)
    ensures Encode(s1) == Encode(s2) <==> s1 == s2
  {
    if Encode(s1) == Encode(s2) && s1.Cell? && s2.Cell? {
      assert Encode(s1).snd.str[0] == s1.tag;
    }
  }

  /** The pair the Python code uses for the absorbing state. */
  const AbsorbPair: PyValue := PyPair(AbsorbSymbol, AbsorbSymbol)

  /**
    The two items of `a, b = v`: a pair unpacks into its components, a
    string of two characters into two one-character strings; anything else
    raises (None).
   */
  function Unpack2(v: PyValue): Option<(PyValue, PyValue)>
  {
    match v
    case PyPair(a, b) => Some((a, b))
    case PyStr(s) => if |s| == 2 then Some((PyStr([s[0]]), PyStr([s[1]]))) else None
    case PyInt(_) => None
  }

  /** Python's `xs[i]`: a negative index counts from the end, one out of range raises IndexError (None). */
  function PyIndex<T>(xs: seq<T>, i: int): (res: Option<T>)
    ensures res.Some? <==> -|xs| <= i < |xs|
    ensures 0 <= i < |xs| ==> res == Some(xs[i])
    ensures -|xs| <= i < 0 ==> res == Some(xs[|xs| + i])
  {
    if 0 <= i < |xs| then Some(xs[i])
    else if -|xs| <= i < 0 then Some(xs[|xs| + i])
    else None
  }

  /** `v[k]` on a pair or a string; indexing an integer raises TypeError (None). */
  function PyItem(v: PyValue, k: int): Option<PyValue>
  {
    match v
    case PyPair(a, b) => PyIndex([a, b], k)
    case PyStr(s) => if -|s| <= k < |s| then Some(PyStr([PyIndex(s, k).value])) else None
    case PyInt(_) => None
  }

  /** `grid[x][y]`; an index that is not an integer raises TypeError (None). */
  function GridAt(grid: Grid, x: PyValue, y: PyValue): Option<char>
  {
    match (x, y)
    case (PyInt(i), PyInt(j)) =>
      (match PyIndex(grid, i)
       case Some(row) => PyIndex(row, j)
       case None => None)
    case _ => None
  }

  /** `actions(s)` on a Python value: the absorbing pair, else `(r, c), val = s`. */
  function ActionsAsWritten(v: PyValue): Option<seq<Action>>
  {
    if v == AbsorbPair then Some([Bottom])
    else match Unpack2(v)
      case Some((rc, val)) =>
        if Unpack2(rc).None? then None
        else if val == PyStr("H") || val == PyStr("G") then Some([Bottom])
        else Some([Up, Right, Down, Left])
      case None => None
  }

  /** `is_terminal(s)` on a Python value, read the same way as `actions`. */
  function IsTerminalAsWritten(v: PyValue): Option<bool>
  {
    if v == AbsorbPair then Some(true)
    else match Unpack2(v)
      case Some((rc, val)) =>
        if Unpack2(rc).None? then None else Some(val == PyStr("H") || val == PyStr("G"))
      case None => None
  }

  /**
    On the tuples the code builds, `actions` and `is_terminal` read the state
    correctly: they agree with Actions and IsTerminal on every state.
   */
  lemma StatesReadAsWritten(s: State)
    ensures ActionsAsWritten(Encode(s)) == Some(Actions(s))
    ensures IsTerminalAsWritten(Encode(s)) == Some(IsTerminal(s))
  {
  }

  /**
    CustomPolicy's decision as written, after `acts = list(actions(s))`:
    the value is compared with the bare symbol ⊥, unpacked as `r, c`, and
    the cells below and to the right are looked up. None stands for the
    error Python raises. The rule gets past the unpacking only for ⊥ or a
    pair of integers.
   */
  function CustomDecisionAsWritten(grid: Grid, acts: seq<Action>, v: PyValue): (res: Option<Action>)
    requires WellFormed(grid)
    ensures res.Some? ==> v == AbsorbSymbol || (v.PyPair? && v.fst.PyInt? && v.snd.PyInt?)
  {
    if v == AbsorbSymbol then Some(Bottom)
    else match Unpack2(v)
      case Some((PyInt(r), c)) =>
        if r + 1 < |grid| then
          match GridAt(grid, PyInt(r + 1), c)
          case Some(cell) => if cell != 'H' then Some(Down) else RightOrFirst(grid, acts, r, c)
          case None => None
        else RightOrFirst(grid, acts, r, c)
      case _ => None
  }

  /** The second test of the rule and its fallback `acts[0]`. */
  function RightOrFirst(grid: Grid, acts: seq<Action>, r: int, c: PyValue): (res: Option<Action>)
    requires WellFormed(grid)
    ensures res.Some? ==> c.PyInt?
  {
    match c
    case PyInt(j) =>
      if j + 1 < |grid[0]| then
        match GridAt(grid, PyInt(r), PyInt(j + 1))
        case Some(cell) => if cell != 'H' then Some(Right) else PyIndex(acts, 0)
        case None => None
      else PyIndex(acts, 0)
    case _ => None
  }

  /**
    Lines 26-34 alone, given a cell's actions, compute the intended rule on a
    bare coordinate pair. The whole decision never gets there: line 25 runs
    `actions` first, and `actions` cannot unpack a bare pair or the bare ⊥.
   */
  lemma CustomDecisionOnBarePair(grid: Grid, s: State)
    requires WellFormed(grid) && s.Cell? && InBounds(grid, s)
    ensures CustomDecisionAsWritten(grid, Actions(s), PyPair(PyInt(s.pos.r), PyInt(s.pos.c)))
         == Some(CustomDecision(grid, s))
    ensures ActionsAsWritten(PyPair(PyInt(s.pos.r), PyInt(s.pos.c))) == None
    ensures ActionsAsWritten(AbsorbSymbol) == None
  {
  }

  /** CustomPolicy's `_decision` as written: `acts = list(actions(s))`, then lines 26-34. */
  function DecisionAsWritten(grid: Grid, v: PyValue): (res: Option<Action>)
    requires WellFormed(grid)
    ensures ActionsAsWritten(v).None? ==> res.None?
    ensures res.Some? ==> res == CustomDecisionAsWritten(grid, ActionsAsWritten(v).value, v)
  {
    match ActionsAsWritten(v)
    case Some(acts) => CustomDecisionAsWritten(grid, acts, v)
    case None => None
  }

  /**
    As written, `_decision` raises on every Python value whatever: the values
    `actions` accepts are the absorbing pair and ((r, c), tag) shapes, and on
    each of them `r` is not an integer. So no reshaping of the state before
    the call avoids the error.
   */
  lemma DecisionAsWrittenAlwaysRaises(grid: Grid, v: PyValue)
    requires WellFormed(grid)
    ensures DecisionAsWritten(grid, v) == None
  {
  }

  /**
    As written, the custom rule fails on every state the code builds, the
    absorbing one included, both as a whole and in lines 26-34 alone.
   */
  lemma CustomDecisionAsWrittenRaises(grid: Grid, s: State)
    requires WellFormed(grid) && InBounds(grid, s)
    ensures DecisionAsWritten(grid, Encode(s)) == None
    ensures CustomDecisionAsWritten(grid, Actions(s), Encode(s)) == None
  {
  }

  /** A 2x2 lake whose cell below the start is free. */
  const FreeBelow: Grid := [['S', 'F'], ['F', 'G']]

  /** From its start the intended rule goes DOWN, the code as written raises. */
  lemma CustomDecisionAsWrittenOnStart()
    ensures WellFormed(FreeBelow)
    ensures CustomDecision(FreeBelow, Cell(Pos(0, 0), 'S')) == Down
    ensures CustomDecisionAsWritten(FreeBelow, Actions(Cell(Pos(0, 0), 'S')), Encode(Cell(Pos(0, 0), 'S'))) == None
  {
    assert InGrid(FreeBelow, 1, 0) && FreeBelow[1][0] == 'F';
  }

  /**
    The trial loop's classification of an entered terminal state as written:
    `cell = grid[ns[0]][ns[1]] if ns != "⊥" else None`, then goal for G and
    hole for H. None stands for the error Python raises. A goal or a hole is
    recognised only when the value's first item is an integer.
   */
  function TerminalKindAsWritten(grid: Grid, v: PyValue): (res: Option<TerminalKind>)
    ensures res.Some? && res.value != NoneKind ==> PyItem(v, 0).Some? && PyItem(v, 0).value.PyInt?
  {
    if v == AbsorbSymbol then Some(NoneKind)
    else match (PyItem(v, 0), PyItem(v, 1))
      case (Some(x), Some(y)) =>
        (match GridAt(grid, x, y)
         case Some(cell) => Some(if cell == 'G' then GoalKind else if cell == 'H' then HoleKind else NoneKind)
         case None => None)
      case _ => None
  }

  /**
    Lines 38-40 alone, handed a bare coordinate pair, read the cell's kind as
    intended. The loop never gets there with such a value: `is_terminal` at
    line 37 cannot unpack a bare pair or the bare ⊥.
   */
  lemma TerminalKindOnBarePair(grid: Grid, s: State)
    requires WellFormed(grid) && s.Cell? && Consistent(grid, s)
    ensures TerminalKindAsWritten(grid, PyPair(PyInt(s.pos.r), PyInt(s.pos.c))) == Some(KindOf(s))
    ensures IsTerminalAsWritten(PyPair(PyInt(s.pos.r), PyInt(s.pos.c))) == None
    ensures IsTerminalAsWritten(AbsorbSymbol) == None
  {
  }

  /**
    As written, classifying the state a trial enters fails for every state
    the code builds; Trial.KindOf is the intended reading.
   */
  lemma TerminalKindAsWrittenRaises(grid: Grid, ns: State)
    ensures TerminalKindAsWritten(grid, Encode(ns)) == None
  {
  }
}
