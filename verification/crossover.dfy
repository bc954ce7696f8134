/**
 * One-point crossover: each parent's operator list is cut once, and the
 * children exchange tails. The two cut points are the caller's draws
 * (`randint` is inclusive at both ends).
 */
module Crossover {
  import opened Operators
  import opened Candidates

  /**
   * `OnePointCrossover.crossover`: `x[:ix] + y[iy:]` and `y[:iy] + x[ix:]`,
   * each an offspring (next generation) of the parent whose head it keeps.
   */
  function OnePointCrossover(x: GeneticCandidate, y: GeneticCandidate, ix: int, iy: int)
    : (r: (GeneticCandidate, GeneticCandidate))
    requires 0 <= ix <= |x.mutations| && 0 <= iy <= |y.mutations|
    ensures r.0 == Offspring(x, r.0.mutations, true) && r.1 == Offspring(y, r.1.mutations, true)
    ensures |r.0.mutations| == ix + (|y.mutations| - iy)
    ensures |r.1.mutations| == iy + (|x.mutations| - ix)
    ensures forall i :: 0 <= i < ix ==> r.0.mutations[i] == x.mutations[i]
    ensures forall i :: ix <= i < |r.0.mutations| ==> r.0.mutations[i] == y.mutations[iy + i - ix]
    ensures forall i :: 0 <= i < iy ==> r.1.mutations[i] == y.mutations[i]
    ensures forall i :: iy <= i < |r.1.mutations| ==> r.1.mutations[i] == x.mutations[ix + i - iy]
  {
    var headX, tailX := x.mutations[..ix], x.mutations[ix..];
    var headY, tailY := y.mutations[..iy], y.mutations[iy..];
    (Offspring(x, headX + tailY, true), Offspring(y, headY + tailX, true))
  }

  /** No operator is lost or invented: the children hold exactly the parents' operators. */
  lemma CrossoverPreservesOperators(x: GeneticCandidate, y: GeneticCandidate, ix: int, iy: int)
    requires 0 <= ix <= |x.mutations| && 0 <= iy <= |y.mutations|
    ensures var (cx, cy) := OnePointCrossover(x, y, ix, iy);
            && |cx.mutations| + |cy.mutations| == |x.mutations| + |y.mutations|
            && multiset(cx.mutations) + multiset(cy.mutations) == multiset(x.mutations) + multiset(y.mutations)
  {
    var (cx, cy) := OnePointCrossover(x, y, ix, iy);
    assert cx.mutations == x.mutations[..ix] + y.mutations[iy..];
    assert cy.mutations == y.mutations[..iy] + x.mutations[ix..];
    assert x.mutations == x.mutations[..ix] + x.mutations[ix..];
    assert y.mutations == y.mutations[..iy] + y.mutations[iy..];
  }

  /** Cuts (1, 1) on two two-operator parents swap the second operators. */
  lemma CrossoverAtOne(x: GeneticCandidate, y: GeneticCandidate)
    requires |x.mutations| == 2 && |y.mutations| == 2
    ensures OnePointCrossover(x, y, 1, 1).0.mutations == [x.mutations[0], y.mutations[1]]
    ensures OnePointCrossover(x, y, 1, 1).1.mutations == [y.mutations[0], x.mutations[1]]
  {
  }

  /** Cuts (0, |y|): the first child is empty and the second is `y + x`. */
  lemma CrossoverAtEnds(x: GeneticCandidate, y: GeneticCandidate)
    ensures OnePointCrossover(x, y, 0, |y.mutations|).0.mutations == []
    ensures OnePointCrossover(x, y, 0, |y.mutations|).1.mutations == y.mutations + x.mutations
  {
    assert y.mutations[..|y.mutations|] == y.mutations;
  }
}
