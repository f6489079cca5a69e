/**
  The choice of the better policy for one discount factor: the higher mean
  utility wins, and on equal means the lower utility variance; when both
  are equal the random policy is named.
 */
module Report {
  import opened LakeMdp
  import opened Policies
  import opened Evaluation

  datatype Winner = Custom | Random

  /** The comparison of the two summaries as the report makes it. */
  function Best(cust: Summary, rand: Summary): (w: Winner)
    ensures cust.meanUtility > rand.meanUtility ==> w == Custom
    ensures cust.meanUtility < rand.meanUtility ==> w == Random
    ensures cust.meanUtility == rand.meanUtility
      ==> (w == Custom <==> cust.utilityVariance < rand.utilityVariance)
  {
    if cust.meanUtility > rand.meanUtility then Custom
    else if cust.meanUtility < rand.meanUtility then Random
    else if cust.utilityVariance < rand.utilityVariance then Custom
    else Random
  }

  /** a ranks strictly above b: higher mean utility, or the same mean and lower variance. */
  predicate RanksAbove(a: Summary, b: Summary) {
    a.meanUtility > b.meanUtility
    || (a.meanUtility == b.meanUtility && a.utilityVariance < b.utilityVariance)
  }

  /** The custom policy is named exactly when it ranks strictly above the random one. */
  lemma BestIsRanking(cust: Summary, rand: Summary)
    ensures Best(cust, rand) == Custom <==> RanksAbove(cust, rand)
    ensures Best(cust, rand) == Random <==> !RanksAbove(cust, rand)
  {
  }

  /** RanksAbove is a strict order: irreflexive, asymmetric and transitive. */
  lemma RanksAboveIsStrict(a: Summary, b: Summary, c: Summary)
    ensures !RanksAbove(a, a)
    ensures RanksAbove(a, b) ==> !RanksAbove(b, a)
    ensures RanksAbove(a, b) && RanksAbove(b, c) ==> RanksAbove(a, c)
  {
  }

  /** Swapping the roles cannot make both policies win: ties go to the random policy both ways. */
  lemma BestSwapped(cust: Summary, rand: Summary)
    ensures Best(cust, rand) == Custom ==> Best(rand, cust) == Random
    ensures Best(cust, rand) == Random && Best(rand, cust) == Random
      <==> cust.meanUtility == rand.meanUtility && cust.utilityVariance == rand.utilityVariance
  {
  }

  /** Two summaries with the same mean and variance name the random policy. */
  lemma TieGoesToRandom(cust: Summary, rand: Summary)
    requires cust.meanUtility == rand.meanUtility && cust.utilityVariance == rand.utilityVariance
    ensures Best(cust, rand) == Random
  {
  }

  /**
    Both policies evaluated on the same lake with the same seeds, and the
    better one named. With no trials the evaluation itself fails, so n > 0.
   */
  function Compare(grid: Grid, gamma: real, limit: nat, seeds: Seeds, base: int, n: nat): (w: Winner)
    requires WellFormed(grid) && HasStart(grid) && n > 0
    ensures var cust := Evaluate(grid, CustomPolicy, gamma, limit, seeds, base, n).value;
      var rand := Evaluate(grid, RandomPolicy, gamma, limit, seeds, base, n).value;
      w == Custom <==> RanksAbove(cust, rand)
  {
    var rand := Evaluate(grid, RandomPolicy, gamma, limit, seeds, base, n).value;
    var cust := Evaluate(grid, CustomPolicy, gamma, limit, seeds, base, n).value;
    BestIsRanking(cust, rand);
    Best(cust, rand)
  }

  /** The 4x4 lake the report evaluates. */
  const DefaultMap: Grid := [
    ['S', 'F', 'F', 'F'],
    ['F', 'H', 'F', 'H'],
    ['F', 'F', 'F', 'H'],
    ['H', 'F', 'F', 'G']]

  /**
    The default lake is a valid input: rectangular, with its only start in
    the top-left corner, from which CustomPolicy first heads down.
   */
  lemma DefaultMapStart()
    ensures WellFormed(DefaultMap) && HasStart(DefaultMap)
    ensures StartState(DefaultMap) == Cell(Pos(0, 0), 'S')
    ensures CustomDecision(DefaultMap, StartState(DefaultMap)) == Down
  {
    assert IsStartCell(DefaultMap, Pos(0, 0));
    var p := StartState(DefaultMap).pos;
    assert IsStartCell(DefaultMap, p);
  }
}
