/**
 * Search strategies: the evolutionary one composes the four population
 * stages of a genetic repair, the exhaustive one derives every
 * single-edit extension of each candidate.
 */
module Search {
  import opened Util
  import opened Operators
  import opened Candidates
  import opened Location

  /** A population stage; a raise inside it is an `Err`. */
  type Stage = seq<GeneticCandidate> -> Result<seq<GeneticCandidate>>

  datatype EvolutionaryStrategy = EvolutionaryStrategy(viable: Stage, select: Stage, crossover: Stage, mutate: Stage)

  /** `EvolutionaryStrategy.search`: `mutate(crossover(select(viable(population))))`. */
  function Evolve(s: EvolutionaryStrategy, population: seq<GeneticCandidate>): Result<seq<GeneticCandidate>>
  {
    var viable :- s.viable(population);
    var selected :- s.select(viable);
    var crossed :- s.crossover(selected);
    s.mutate(crossed)
  }

  /**
   * The next population stays bounded: when selection keeps at most `k`
   * candidates and crossover and mutation at most double their input (as
   * the genetic repair's stages do), a search yields at most `4k`.
   */
  lemma EvolveBounded(s: EvolutionaryStrategy, population: seq<GeneticCandidate>, k: nat)
    requires forall p :: s.select(p).Ok? ==> |s.select(p).value| <= k
    requires forall p :: s.crossover(p).Ok? ==> |s.crossover(p).value| <= 2 * |p|
    requires forall p :: s.mutate(p).Ok? ==> |s.mutate(p).value| <= 2 * |p|
    ensures Evolve(s, population).Ok? ==> |Evolve(s, population).value| <= 4 * k
  {
    if Evolve(s, population).Ok? {
      var viable := s.viable(population).value;
      var selected := s.select(viable).value;
      var crossed := s.crossover(selected).value;
      assert |crossed| <= 2 * k;
    }
  }

  /**
   * A stage fails only where one of its four steps fails: the search
   * raises exactly what the first raising step raises.
   */
  lemma EvolveRaisesFirst(s: EvolutionaryStrategy, population: seq<GeneticCandidate>)
    ensures s.viable(population).Err? ==> Evolve(s, population) == Err(s.viable(population).error)
    ensures s.viable(population).Ok? && s.select(s.viable(population).value).Err? ==>
      Evolve(s, population) == Err(s.select(s.viable(population).value).error)
    ensures Evolve(s, population).Ok? ==>
      exists crossed :: s.mutate(crossed) == Evolve(s, population)
  {
    if Evolve(s, population).Ok? {
      var crossed := s.crossover(s.select(s.viable(population).value).value).value;
      assert s.mutate(crossed) == Evolve(s, population);
    }
  }

  // -----------------------------------------------------------------------
  // Exhaustive single edits

  /** The draws an operator constructor makes (its selection), one per operator class. */
  predicate ValidOpDraws(draws: seq<OpDraw>, n: nat, choices: seq<int>)
  {
    |draws| >= n && forall k :: 0 <= k < n ==> (choices != [] ==> draws[k].pick < |choices|)
  }

  predicate ValidSuggestionDraws(draws: seq<seq<OpDraw>>, nSuggestions: nat, nClasses: nat, choices: seq<int>)
  {
    |draws| >= nSuggestions && forall j :: 0 <= j < nSuggestions ==> ValidOpDraws(draws[j], nClasses, choices)
  }

  predicate ValidGrid(draws: seq<seq<seq<OpDraw>>>, m: nat, nSuggestions: nat, nClasses: nat, choices: seq<int>)
  {
    |draws| >= m && forall i :: 0 <= i < m ==> ValidSuggestionDraws(draws[i], nSuggestions, nClasses, choices)
  }

  /** A clone one generation on with the single operator `mutation(identifier, choices)` appended. */
  function Extend(c: GeneticCandidate, cls: OperatorClass, identifier: int, choices: seq<int>, draw: OpDraw)
    : Result<seq<GeneticCandidate>>
    requires NeedsSelection(cls) && choices != [] ==> draw.pick < |choices|
  {
    var op :- Build(cls, identifier, choices, draw);
    Ok([Offspring(c, c.mutations + [op], true)])
  }

  /** The innermost loop: one child per operator class, in class order. */
  function ClassChildren(c: GeneticCandidate, identifier: int, classes: seq<OperatorClass>, choices: seq<int>,
                         draws: seq<OpDraw>): Result<seq<GeneticCandidate>>
    requires ValidOpDraws(draws, |classes|, choices)
    decreases |classes|
  {
    if classes == [] then Ok([])
    else
      assert ValidOpDraws(draws[1..], |classes| - 1, choices) by {
        assert forall k :: 0 <= k < |classes| - 1 ==> draws[1..][k] == draws[k + 1];
      }
      Then(Extend(c, classes[0], identifier, choices, draws[0]),
           ClassChildren(c, identifier, classes[1..], choices, draws[1..]))
  }

  /** A suggestion of weight at most 0 contributes nothing. */
  function SuggestionChildren(c: GeneticCandidate, s: WeightedIdentifier, classes: seq<OperatorClass>, choices: seq<int>,
                              draws: seq<OpDraw>): Result<seq<GeneticCandidate>>
    requires ValidOpDraws(draws, |classes|, choices)
  {
    if s.weight > 0.0 then ClassChildren(c, s.identifier, classes, choices, draws) else Ok([])
  }

  /** The middle loop: the children of one candidate, suggestion by suggestion. */
  function CandidateChildren(c: GeneticCandidate, suggestions: seq<WeightedIdentifier>, classes: seq<OperatorClass>,
                             choices: seq<int>, draws: seq<seq<OpDraw>>): Result<seq<GeneticCandidate>>
    requires ValidSuggestionDraws(draws, |suggestions|, |classes|, choices)
    decreases |suggestions|
  {
    if suggestions == [] then Ok([])
    else
      assert ValidSuggestionDraws(draws[1..], |suggestions| - 1, |classes|, choices) by {
        assert forall j :: 0 <= j < |suggestions| - 1 ==> draws[1..][j] == draws[j + 1];
      }
      Then(SuggestionChildren(c, suggestions[0], classes, choices, draws[0]),
           CandidateChildren(c, suggestions[1..], classes, choices, draws[1..]))
  }

  /** The outer loop: the children of every candidate, in population order. */
  function ExhaustiveChildren(population: seq<GeneticCandidate>, suggestions: seq<WeightedIdentifier>,
                              classes: seq<OperatorClass>, choices: seq<int>, draws: seq<seq<seq<OpDraw>>>)
    : Result<seq<GeneticCandidate>>
    requires ValidGrid(draws, |population|, |suggestions|, |classes|, choices)
    decreases |population|
  {
    if population == [] then Ok([])
    else
      assert ValidGrid(draws[1..], |population| - 1, |suggestions|, |classes|, choices) by {
        assert forall i :: 0 <= i < |population| - 1 ==> draws[1..][i] == draws[i + 1];
      }
      Then(CandidateChildren(population[0], suggestions, classes, choices, draws[0]),
           ExhaustiveChildren(population[1..], suggestions, classes, choices, draws[1..]))
  }

  /** The number of suggestions with a positive weight. */
  function PositiveSuggestions(suggestions: seq<WeightedIdentifier>): (n: nat)
    ensures n <= |suggestions|
  {
    if suggestions == [] then 0
    else (if suggestions[0].weight > 0.0 then 1 else 0) + PositiveSuggestions(suggestions[1..])
  }

  /** Some operator class draws a selection statement, which fails when there is none to draw. */
  predicate SomeNeedsSelection(classes: seq<OperatorClass>)
  {
    exists k :: 0 <= k < |classes| && NeedsSelection(classes[k])
  }

  /** `child` is `parent` one generation on with exactly one operator appended. */
  predicate OneEditOf(child: GeneticCandidate, parent: GeneticCandidate)
  {
    && |child.mutations| == |parent.mutations| + 1
    && child.mutations[..|parent.mutations|] == parent.mutations
    && child == Offspring(parent, child.mutations, true)
  }

  lemma {:induction false} ClassChildrenShape(c: GeneticCandidate, identifier: int, classes: seq<OperatorClass>,
                                              choices: seq<int>, draws: seq<OpDraw>)
    requires ValidOpDraws(draws, |classes|, choices)
    ensures var r := ClassChildren(c, identifier, classes, choices, draws);
      && (r.Err? <==> choices == [] && SomeNeedsSelection(classes))
      && (r.Err? ==> r.error == IndexError)
      && (r.Ok? ==> |r.value| == |classes|
                    && forall d :: d in r.value ==>
                         OneEditOf(d, c) && d.mutations[|c.mutations|].identifier == identifier)
    decreases |classes|
  {
    if classes != [] {
      assert ValidOpDraws(draws[1..], |classes| - 1, choices) by {
        assert forall k :: 0 <= k < |classes| - 1 ==> draws[1..][k] == draws[k + 1];
      }
      ClassChildrenShape(c, identifier, classes[1..], choices, draws[1..]);
      assert SomeNeedsSelection(classes) <==> NeedsSelection(classes[0]) || SomeNeedsSelection(classes[1..]) by {
        if SomeNeedsSelection(classes) {
          var k :| 0 <= k < |classes| && NeedsSelection(classes[k]);
          if k > 0 {
            assert classes[1..][k - 1] == classes[k];
          }
        }
        if SomeNeedsSelection(classes[1..]) {
          var k :| 0 <= k < |classes| - 1 && NeedsSelection(classes[1..][k]);
          assert classes[k + 1] == classes[1..][k];
        }
      }
      var e := Extend(c, classes[0], identifier, choices, draws[0]);
      if e.Ok? {
        var op := Build(classes[0], identifier, choices, draws[0]).value;
        var d := Offspring(c, c.mutations + [op], true);
        assert e.value == [d];
        assert d.mutations[..|c.mutations|] == c.mutations;
      }
    }
  }

  lemma {:induction false} CandidateChildrenCount(c: GeneticCandidate, suggestions: seq<WeightedIdentifier>,
                                                  classes: seq<OperatorClass>, choices: seq<int>, draws: seq<seq<OpDraw>>)
    requires ValidSuggestionDraws(draws, |suggestions|, |classes|, choices)
    ensures var r := CandidateChildren(c, suggestions, classes, choices, draws);
      && (r.Err? <==> PositiveSuggestions(suggestions) > 0 && choices == [] && SomeNeedsSelection(classes))
      && (r.Err? ==> r.error == IndexError)
      && (r.Ok? ==> |r.value| == PositiveSuggestions(suggestions) * |classes|)
    decreases |suggestions|
  {
    if suggestions != [] {
      assert ValidSuggestionDraws(draws[1..], |suggestions| - 1, |classes|, choices) by {
        assert forall j :: 0 <= j < |suggestions| - 1 ==> draws[1..][j] == draws[j + 1];
      }
      CandidateChildrenCount(c, suggestions[1..], classes, choices, draws[1..]);
      var s := suggestions[0];
      if s.weight > 0.0 {
        ClassChildrenShape(c, s.identifier, classes, choices, draws[0]);
        var p := PositiveSuggestions(suggestions[1..]);
        assert (1 + p) * |classes| == |classes| + p * |classes|;
      }
    }
  }

  /** The operator `d` adds to `c` sits at a suggestion of positive weight. */
  ghost predicate AtPositiveSuggestion(d: GeneticCandidate, c: GeneticCandidate, suggestions: seq<WeightedIdentifier>)
  {
    |c.mutations| < |d.mutations| &&
    exists j :: 0 <= j < |suggestions| && suggestions[j].weight > 0.0
                && d.mutations[|c.mutations|].identifier == suggestions[j].identifier
  }

  lemma {:induction false} CandidateChildrenEdits(c: GeneticCandidate, suggestions: seq<WeightedIdentifier>,
                                                  classes: seq<OperatorClass>, choices: seq<int>, draws: seq<seq<OpDraw>>)
    requires ValidSuggestionDraws(draws, |suggestions|, |classes|, choices)
    ensures var r := CandidateChildren(c, suggestions, classes, choices, draws);
      r.Ok? ==> forall d :: d in r.value ==> OneEditOf(d, c) && AtPositiveSuggestion(d, c, suggestions)
    decreases |suggestions|
  {
    if suggestions != [] {
      assert ValidSuggestionDraws(draws[1..], |suggestions| - 1, |classes|, choices) by {
        assert forall j :: 0 <= j < |suggestions| - 1 ==> draws[1..][j] == draws[j + 1];
      }
      CandidateChildrenEdits(c, suggestions[1..], classes, choices, draws[1..]);
      var s := suggestions[0];
      var here := SuggestionChildren(c, s, classes, choices, draws[0]);
      var rest := CandidateChildren(c, suggestions[1..], classes, choices, draws[1..]);
      if s.weight > 0.0 {
        ClassChildrenShape(c, s.identifier, classes, choices, draws[0]);
      }
      var r := CandidateChildren(c, suggestions, classes, choices, draws);
      if r.Ok? {
        assert r.value == here.value + rest.value;
        forall d | d in r.value
          ensures OneEditOf(d, c) && AtPositiveSuggestion(d, c, suggestions)
        {
          if d in here.value {
            assert suggestions[0].weight > 0.0;
          } else {
            assert d in rest.value;
            var j :| 0 <= j < |suggestions| - 1 && suggestions[1..][j].weight > 0.0
                     && d.mutations[|c.mutations|].identifier == suggestions[1..][j].identifier;
            assert suggestions[j + 1] == suggestions[1..][j];
          }
        }
      }
    }
  }

  /** `d` is some candidate of the population extended by one operator at a positive suggestion. */
  ghost predicate ChildOf(d: GeneticCandidate, population: seq<GeneticCandidate>, suggestions: seq<WeightedIdentifier>)
  {
    exists p :: p in population && OneEditOf(d, p) && AtPositiveSuggestion(d, p, suggestions)
  }

  lemma ProductStep(m: nat, x: nat)
    requires m > 0
    ensures m * x == x + (m - 1) * x
  {
  }

  /**
   * `_mutate` yields `m·s·k` children, s the number of positive
   * suggestions and k the number of operator classes; each is one of the
   * candidates extended by exactly one operator at a positive suggestion.
   * It raises (IndexError, from the selection draw) exactly when some
   * child would need a selection statement and there is none.
   */
  lemma {:induction false} ExhaustiveChildrenCount(population: seq<GeneticCandidate>, suggestions: seq<WeightedIdentifier>,
                                                   classes: seq<OperatorClass>, choices: seq<int>,
                                                   draws: seq<seq<seq<OpDraw>>>)
    requires ValidGrid(draws, |population|, |suggestions|, |classes|, choices)
    ensures var r := ExhaustiveChildren(population, suggestions, classes, choices, draws);
      && (r.Err? <==> population != [] && PositiveSuggestions(suggestions) > 0 && choices == [] && SomeNeedsSelection(classes))
      && (r.Err? ==> r.error == IndexError)
      && (r.Ok? ==> |r.value| == |population| * (PositiveSuggestions(suggestions) * |classes|))
    decreases |population|
  {
    if population != [] {
      assert ValidGrid(draws[1..], |population| - 1, |suggestions|, |classes|, choices) by {
        assert forall i :: 0 <= i < |population| - 1 ==> draws[1..][i] == draws[i + 1];
      }
      ExhaustiveChildrenCount(population[1..], suggestions, classes, choices, draws[1..]);
      CandidateChildrenCount(population[0], suggestions, classes, choices, draws[0]);
      ProductStep(|population|, PositiveSuggestions(suggestions) * |classes|);
    }
  }

  /** Every child is one of the candidates extended by exactly one operator at a positive suggestion. */
  lemma {:induction false} ExhaustiveChildrenEdits(population: seq<GeneticCandidate>, suggestions: seq<WeightedIdentifier>,
                                                   classes: seq<OperatorClass>, choices: seq<int>,
                                                   draws: seq<seq<seq<OpDraw>>>)
    requires ValidGrid(draws, |population|, |suggestions|, |classes|, choices)
    ensures var r := ExhaustiveChildren(population, suggestions, classes, choices, draws);
      r.Ok? ==> forall d :: d in r.value ==> ChildOf(d, population, suggestions)
    decreases |population|
  {
    if population != [] {
      assert ValidGrid(draws[1..], |population| - 1, |suggestions|, |classes|, choices) by {
        assert forall i :: 0 <= i < |population| - 1 ==> draws[1..][i] == draws[i + 1];
      }
      ExhaustiveChildrenEdits(population[1..], suggestions, classes, choices, draws[1..]);
      CandidateChildrenEdits(population[0], suggestions, classes, choices, draws[0]);
      var here := CandidateChildren(population[0], suggestions, classes, choices, draws[0]);
      var rest := ExhaustiveChildren(population[1..], suggestions, classes, choices, draws[1..]);
      var r := ExhaustiveChildren(population, suggestions, classes, choices, draws);
      if r.Ok? {
        assert r.value == here.value + rest.value;
        forall d | d in r.value
          ensures ChildOf(d, population, suggestions)
        {
          if d in here.value {
            assert population[0] in population;
          } else {
            assert ChildOf(d, population[1..], suggestions);
            var p :| p in population[1..] && OneEditOf(d, p) && AtPositiveSuggestion(d, p, suggestions);
            assert p in population;
          }
        }
      }
    }
  }

  /** The innermost loop of `_mutate`: one child per operator class, appended to `done`. */
  method ExtendByClasses(done: seq<GeneticCandidate>, c: GeneticCandidate, identifier: int, classes: seq<OperatorClass>,
                         choices: seq<int>, draws: seq<OpDraw>)
    returns (r: Result<seq<GeneticCandidate>>)
    requires ValidOpDraws(draws, |classes|, choices)
    ensures r == Prefixed(done, ClassChildren(c, identifier, classes, choices, draws))
  {
    var result := done;
    assert classes[0..] == classes && draws[0..] == draws;
    for k := 0 to |classes|
      invariant ValidOpDraws(draws[k..], |classes| - k, choices)
      invariant Prefixed(done, ClassChildren(c, identifier, classes, choices, draws))
             == Prefixed(result, ClassChildren(c, identifier, classes[k..], choices, draws[k..]))
    {
      assert classes[k..][0] == classes[k] && classes[k..][1..] == classes[k + 1..];
      assert draws[k..][0] == draws[k] && draws[k..][1..] == draws[k + 1..];
      var child := Extend(c, classes[k], identifier, choices, draws[k]);
      ThenAfter(result, child, ClassChildren(c, identifier, classes[k + 1..], choices, draws[k + 1..]));
      if child.Err? {
        return Err(child.error);
      }
      result := result + child.value;
    }
    assert classes[|classes|..] == [];
    AppendNothing(result);
    return Ok(result);
  }

  /** The middle loop of `_mutate`: the children of one candidate, suggestion by suggestion, appended to `done`. */
  method ExtendBySuggestions(done: seq<GeneticCandidate>, c: GeneticCandidate, suggestions: seq<WeightedIdentifier>,
                             classes: seq<OperatorClass>, choices: seq<int>, draws: seq<seq<OpDraw>>)
    returns (r: Result<seq<GeneticCandidate>>)
    requires ValidSuggestionDraws(draws, |suggestions|, |classes|, choices)
    ensures r == Prefixed(done, CandidateChildren(c, suggestions, classes, choices, draws))
  {
    var result := done;
    assert suggestions[0..] == suggestions && draws[0..] == draws;
    for j := 0 to |suggestions|
      invariant ValidSuggestionDraws(draws[j..], |suggestions| - j, |classes|, choices)
      invariant Prefixed(done, CandidateChildren(c, suggestions, classes, choices, draws))
             == Prefixed(result, CandidateChildren(c, suggestions[j..], classes, choices, draws[j..]))
    {
      assert suggestions[j..][0] == suggestions[j] && suggestions[j..][1..] == suggestions[j + 1..];
      assert draws[j..][0] == draws[j] && draws[j..][1..] == draws[j + 1..];
      var location := suggestions[j];
      ghost var here := SuggestionChildren(c, location, classes, choices, draws[j]);
      ThenAfter(result, here, CandidateChildren(c, suggestions[j + 1..], classes, choices, draws[j + 1..]));
      if location.weight > 0.0 {
        var extended := ExtendByClasses(result, c, location.identifier, classes, choices, draws[j]);
        if extended.Err? {
          return extended;
        }
        result := extended.value;
      } else {
        AppendNothing(result);
      }
    }
    assert suggestions[|suggestions|..] == [];
    AppendNothing(result);
    return Ok(result);
  }

  /**
   * `ExhaustiveStrategy._mutate`: the input, followed by one child per
   * (candidate, positive suggestion, operator class), in loop order. The
   * operator classes are what the strategy's `mutations()` returns.
   */
  method ExhaustiveMutate(population: seq<GeneticCandidate>, suggestions: seq<WeightedIdentifier>,
                          classes: seq<OperatorClass>, choices: seq<int>, draws: seq<seq<seq<OpDraw>>>)
    returns (r: Result<seq<GeneticCandidate>>)
    requires ValidGrid(draws, |population|, |suggestions|, |classes|, choices)
    ensures r == Prefixed(population, ExhaustiveChildren(population, suggestions, classes, choices, draws))
  {
    var result := population;
    assert population[0..] == population && draws[0..] == draws;
    for i := 0 to |population|
      invariant ValidGrid(draws[i..], |population| - i, |suggestions|, |classes|, choices)
      invariant Prefixed(population, ExhaustiveChildren(population, suggestions, classes, choices, draws))
             == Prefixed(result, ExhaustiveChildren(population[i..], suggestions, classes, choices, draws[i..]))
    {
      assert population[i..][0] == population[i] && population[i..][1..] == population[i + 1..];
      assert draws[i..][0] == draws[i] && draws[i..][1..] == draws[i + 1..];
      ThenAfter(result, CandidateChildren(population[i], suggestions, classes, choices, draws[i]),
                ExhaustiveChildren(population[i + 1..], suggestions, classes, choices, draws[i + 1..]));
      var extended := ExtendBySuggestions(result, population[i], suggestions, classes, choices, draws[i]);
      if extended.Err? {
        return extended;
      }
      result := extended.value;
    }
    assert population[|population|..] == [];
    AppendNothing(result);
    r := Ok(result);
  }

  /**
   * `_mutate` as written, for one candidate and the operators `ops` built
   * for it: every clone shares a non-empty operator list with its parent,
   * so each append reaches the parent and all of its children. The result
   * is (parent afterwards, children).
   */
  function AliasedChildren(parent: GeneticCandidate, ops: seq<Op>): (r: (GeneticCandidate, seq<GeneticCandidate>))
    ensures |r.1| == |ops|
  {
    if parent.mutations == [] then
      (parent, seq(|ops|, k requires 0 <= k < |ops| => Offspring(parent, [ops[k]], true)))
    else
      var shared := parent.mutations + ops;
      (parent.(mutations := shared), seq(|ops|, _ => Offspring(parent, shared, true)))
  }

  /**
   * As written, a candidate that already carries operators gets children
   * with all the new operators at once instead of one each, and is itself
   * changed.
   */
  lemma AliasedChildrenNotSingleEdits(parent: GeneticCandidate, ops: seq<Op>)
    requires parent.mutations != [] && |ops| >= 2
    ensures !OneEditOf(AliasedChildren(parent, ops).1[0], parent)
    ensures AliasedChildren(parent, ops).0 != parent
  {
    assert |AliasedChildren(parent, ops).1[0].mutations| == |parent.mutations| + |ops|;
    assert |AliasedChildren(parent, ops).0.mutations| == |parent.mutations| + |ops|;
  }

  /** `ExhaustiveStrategy.search`: the supplied `mutate`, or `_mutate` when none was given. */
  method ExhaustiveSearch(mutate: Option<Stage>, population: seq<GeneticCandidate>, suggestions: seq<WeightedIdentifier>,
                          classes: seq<OperatorClass>, choices: seq<int>, draws: seq<seq<seq<OpDraw>>>)
    returns (r: Result<seq<GeneticCandidate>>)
    requires ValidGrid(draws, |population|, |suggestions|, |classes|, choices)
    ensures mutate.Some? ==> r == mutate.value(population)
    ensures mutate.None? ==> r == Prefixed(population, ExhaustiveChildren(population, suggestions, classes, choices, draws))
  {
    if mutate.Some? {
      r := mutate.value(population);
    } else {
      r := ExhaustiveMutate(population, suggestions, classes, choices, draws);
    }
  }
}
