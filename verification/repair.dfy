/**
 * The genetic repair driver: the population steps the evolutionary search
 * is assembled from (fill, viable, select, crossover, mutate), the abort
 * rule, the generation loop and the final filtering of the best
 * candidates.
 *
 * Every random draw is an argument. Evaluating a population is
 * `ScoredAll(population, fit)`: the sequential engine's contract (every
 * candidate receives the oracle's value for its operator list, cached or
 * not).
 */
module Repair {
  import opened Util
  import opened Operators
  import opened Candidates
  import opened Location
  import opened Selection
  import opened Crossover
  import opened Engine
  import opened Minimize

  /** `1 - 1e-8`: a population whose best fitness reaches this holds a repair. */
  const ABORT_THRESHOLD: real := 1.0 - 0.00000001

  /** `max(c.fitness for c in population)`. */
  function MaxFitness(population: seq<GeneticCandidate>): (m: real)
    requires population != []
    ensures forall i :: 0 <= i < |population| ==> population[i].fitness <= m
    ensures exists i :: 0 <= i < |population| && population[i].fitness == m
  {
    if |population| == 1 then population[0].fitness
    else
      var rest := MaxFitness(population[1..]);
      assert forall i :: 1 <= i < |population| ==> population[i] == population[1..][i - 1];
      if population[0].fitness >= rest then population[0].fitness else rest
  }

  /** `abort`: some candidate reaches the threshold; `max` of an empty population raises. */
  function Abort(population: seq<GeneticCandidate>): (r: Result<bool>)
    ensures r.Err? <==> population == []
    ensures r.Err? ==> r.error == ValueError
    ensures r.Ok? ==> (r.value <==> exists i :: 0 <= i < |population| && population[i].fitness >= ABORT_THRESHOLD)
  {
    if population == [] then Err(ValueError)
    else Ok(MaxFitness(population) >= ABORT_THRESHOLD)
  }

  // -----------------------------------------------------------------------
  // Filling

  /** `random.choice(population)` draws, one per missing member. */
  predicate ValidFillPicks(population: seq<GeneticCandidate>, size: int, picks: seq<nat>)
  {
    population != [] ==>
      && |picks| >= size - |population|
      && forall i :: 0 <= i < |picks| ==> picks[i] < |population|
  }

  /** The population after filling: the input, then the drawn members cloned without a new generation. */
  function Filled(population: seq<GeneticCandidate>, size: int, picks: seq<nat>): seq<GeneticCandidate>
    requires population != [] && ValidFillPicks(population, size, picks)
  {
    if size <= |population| then population
    else population + seq(size - |population|, i requires 0 <= i < size - |population| => Clone(population[picks[i]], false))
  }

  /**
   * Filling keeps the input as a prefix, reaches `max(len, size)`, and adds
   * only copies of members: a clone without a new generation is equal to
   * its original in every field.
   */
  lemma FilledShape(population: seq<GeneticCandidate>, size: int, picks: seq<nat>)
    requires population != [] && ValidFillPicks(population, size, picks)
    ensures |Filled(population, size, picks)| == if size <= |population| then |population| else size
    ensures Filled(population, size, picks)[..|population|] == population
    ensures forall c :: c in Filled(population, size, picks) ==> c in population
  {
    var r := Filled(population, size, picks);
    forall c | c in r
      ensures c in population
    {
      var i :| 0 <= i < |r| && r[i] == c;
      if i >= |population| {
        assert c == Clone(population[picks[i - |population|]], false);
      }
    }
  }

  // -----------------------------------------------------------------------
  // Crossover of a population

  /** `random.shuffle` draws a permutation of the positions. */
  predicate IsPermutation(perm: seq<nat>, n: nat)
  {
    |perm| == n && NoDup(perm) && forall i :: 0 <= i < |perm| ==> perm[i] < n
  }

  /** The cut points drawn for each pair (i, m/2 + i) of the shuffled population. */
  predicate ValidCuts(parents: seq<GeneticCandidate>, cuts: seq<(int, int)>)
  {
    && |cuts| >= |parents| / 2
    && forall i {:trigger cuts[i]} :: 0 <= i < |parents| / 2 ==>
         && 0 <= cuts[i].0 <= |parents[i].mutations|
         && 0 <= cuts[i].1 <= |parents[|parents| / 2 + i].mutations|
  }

  /** The two children of pair (i, m/2 + i). */
  function PairChildren(parents: seq<GeneticCandidate>, cuts: seq<(int, int)>, i: nat): (r: seq<GeneticCandidate>)
    requires ValidCuts(parents, cuts) && i < |parents| / 2
    ensures |r| == 2
  {
    var pair := OnePointCrossover(parents[i], parents[|parents| / 2 + i], cuts[i].0, cuts[i].1);
    [pair.0, pair.1]
  }

  /** The children of the first `k` pairs, two per pair, in pair order. */
  function Offsprings(parents: seq<GeneticCandidate>, cuts: seq<(int, int)>, k: nat): (r: seq<GeneticCandidate>)
    requires ValidCuts(parents, cuts) && k <= |parents| / 2
    ensures |r| == 2 * k
  {
    if k == 0 then [] else Offsprings(parents, cuts, k - 1) + PairChildren(parents, cuts, k - 1)
  }

  /** Children `2i` and `2i + 1` are those of pair (i, m/2 + i). */
  predicate PairAt(parents: seq<GeneticCandidate>, cuts: seq<(int, int)>, children: seq<GeneticCandidate>, i: nat)
    requires ValidCuts(parents, cuts) && i < |parents| / 2 && 2 * i + 1 < |children|
  {
    var pair := OnePointCrossover(parents[i], parents[|parents| / 2 + i], cuts[i].0, cuts[i].1);
    children[2 * i] == pair.0 && children[2 * i + 1] == pair.1
  }

  /** Pair `i` of the shuffled population, (i, m/2 + i), produces children `2i` and `2i + 1`. */
  lemma {:induction false} OffspringsPairs(parents: seq<GeneticCandidate>, cuts: seq<(int, int)>, k: nat)
    requires ValidCuts(parents, cuts) && k <= |parents| / 2
    ensures forall i :: 0 <= i < k ==> PairAt(parents, cuts, Offsprings(parents, cuts, k), i)
    decreases k
  {
    if k > 0 {
      OffspringsPairs(parents, cuts, k - 1);
      var r := Offsprings(parents, cuts, k);
      var prev := Offsprings(parents, cuts, k - 1);
      assert r[..2 * (k - 1)] == prev;
      forall i | 0 <= i < k
        ensures PairAt(parents, cuts, r, i)
      {
        if i < k - 1 {
          assert PairAt(parents, cuts, prev, i);
          assert r[2 * i] == prev[2 * i] && r[2 * i + 1] == prev[2 * i + 1];
        }
      }
    }
  }

  /** `c` is the next generation of some candidate of `parents`. */
  ghost predicate BredFrom(c: GeneticCandidate, parents: seq<GeneticCandidate>)
  {
    exists p :: p in parents && c == Offspring(p, c.mutations, true)
  }

  /** Every child is the next generation of a parent in the population. */
  lemma {:induction false} OffspringsFromParents(parents: seq<GeneticCandidate>, cuts: seq<(int, int)>, k: nat)
    requires ValidCuts(parents, cuts) && k <= |parents| / 2
    ensures forall c :: c in Offsprings(parents, cuts, k) ==> BredFrom(c, parents)
    decreases k
  {
    if k > 0 {
      OffspringsFromParents(parents, cuts, k - 1);
      var half := |parents| / 2;
      var pair := OnePointCrossover(parents[k - 1], parents[half + k - 1], cuts[k - 1].0, cuts[k - 1].1);
      assert BredFrom(pair.0, parents) by {
        assert parents[k - 1] in parents;
      }
      assert BredFrom(pair.1, parents) by {
        assert parents[half + k - 1] in parents;
      }
      assert PairChildren(parents, cuts, k - 1) == [pair.0, pair.1];
    }
  }

  lemma MultisetSameSize<T>(a: multiset<T>, b: multiset<T>)
    requires a <= b && |a| == |b|
    ensures a == b
  {
    var d := b - a;
    assert b == a + d;
    assert |d| == 0;
  }

  /** A shuffle is a permutation: the same members, as often as before. */
  lemma ShufflePermutes<T>(s: seq<T>, perm: seq<nat>)
    requires IsPermutation(perm, |s|)
    ensures multiset(Pick(s, perm)) == multiset(s)
  {
    PickWithoutReplacement(s, perm);
    MultisetSameSize(multiset(Pick(s, perm)), multiset(s));
  }

  // -----------------------------------------------------------------------
  // Mutation

  /** A suggestion's draws: two for `should_mutate`, one for the operator class, and the class's own. */
  datatype MutationDraw = MutationDraw(weightDraw: real, rateDraw: real, classDraw: real, op: OpDraw)

  predicate ValidDraws(draws: seq<MutationDraw>, n: nat, choices: seq<int>)
  {
    && |draws| >= n
    && forall i :: 0 <= i < n ==>
         && 0.0 <= draws[i].classDraw < 1.0
         && (choices != [] ==> draws[i].op.pick < |choices|)
  }

  /** `should_mutate(weight)`: `random() < weight and random() < w_mut`, on the two draws. */
  predicate ShouldMutateOn(weight: real, wMut: real, weightDraw: real, rateDraw: real)
  {
    weightDraw < weight && rateDraw < wMut
  }

  predicate ShouldMutate(weight: real, wMut: real, d: MutationDraw)
  {
    ShouldMutateOn(weight, wMut, d.weightDraw, d.rateDraw)
  }

  predicate NonNegative(ws: seq<real>)
  {
    forall i :: 0 <= i < |ws| ==> ws[i] >= 0.0
  }

  /**
   * `random.choices(operators, weights=operator_weights, k=1)[0]`: raises
   * ValueError when the lengths differ or the weights add up to at most
   * 0, IndexError when there is no operator; otherwise a class of positive
   * weight.
   */
  function ChooseClass(operators: seq<OperatorClass>, weights: seq<real>, u: real): (r: Result<OperatorClass>)
    requires 0.0 <= u < 1.0 && NonNegative(weights)
    ensures r.Err? <==> |weights| != |operators| || operators == [] || Sum(weights) <= 0.0
    ensures r.Err? ==> r.error == if |weights| == |operators| && operators == [] then IndexError else ValueError
    ensures r.Ok? ==> exists i :: 0 <= i < |operators| && r.value == operators[i] && weights[i] > 0.0
  {
    if |weights| != |operators| then Err(ValueError)
    else if operators == [] then Err(IndexError)
    else if Sum(weights) <= 0.0 then Err(ValueError)
    else
      var i := PickWeighted(weights, u);
      Ok(operators[i])
  }

  /** The operator one suggestion contributes: none, or one built at its identifier. */
  function SuggestionOps(s: WeightedIdentifier, d: MutationDraw, wMut: real, operators: seq<OperatorClass>,
                         weights: seq<real>, choices: seq<int>): (r: Result<seq<Op>>)
    requires 0.0 <= d.classDraw < 1.0 && (choices != [] ==> d.op.pick < |choices|) && NonNegative(weights)
  {
    if !ShouldMutate(s.weight, wMut, d) then Ok([])
    else
      var cls :- ChooseClass(operators, weights, d.classDraw);
      var op :- Build(cls, s.identifier, choices, d.op);
      Ok([op])
  }

  /** The operators `mutate` appends, suggestion by suggestion; the first raise ends it. */
  function MutationOps(suggestions: seq<WeightedIdentifier>, draws: seq<MutationDraw>, wMut: real,
                       operators: seq<OperatorClass>, weights: seq<real>, choices: seq<int>): Result<seq<Op>>
    requires ValidDraws(draws, |suggestions|, choices) && NonNegative(weights)
    decreases |suggestions|
  {
    if suggestions == [] then Ok([])
    else
      var first :- SuggestionOps(suggestions[0], draws[0], wMut, operators, weights, choices);
      assert ValidDraws(draws[1..], |suggestions| - 1, choices) by {
        forall i | 0 <= i < |suggestions| - 1
          ensures 0.0 <= draws[1..][i].classDraw < 1.0 && (choices != [] ==> draws[1..][i].op.pick < |choices|)
        {
          assert draws[1..][i] == draws[i + 1];
        }
      }
      var rest :- MutationOps(suggestions[1..], draws[1..], wMut, operators, weights, choices);
      Ok(first + rest)
  }

  /** The first suggestion's operators, then those of the rest. */
  lemma MutationOpsUnfold(suggestions: seq<WeightedIdentifier>, draws: seq<MutationDraw>, wMut: real,
                          operators: seq<OperatorClass>, weights: seq<real>, choices: seq<int>)
    requires suggestions != [] && ValidDraws(draws, |suggestions|, choices) && NonNegative(weights)
    ensures ValidDraws(draws[1..], |suggestions| - 1, choices)
    ensures MutationOps(suggestions, draws, wMut, operators, weights, choices)
         == Then(SuggestionOps(suggestions[0], draws[0], wMut, operators, weights, choices),
                 MutationOps(suggestions[1..], draws[1..], wMut, operators, weights, choices))
  {
    forall i | 0 <= i < |suggestions| - 1
      ensures 0.0 <= draws[1..][i].classDraw < 1.0 && (choices != [] ==> draws[1..][i].op.pick < |choices|)
    {
      assert draws[1..][i] == draws[i + 1];
    }
  }

  /** The number of suggestions whose `should_mutate` draw succeeds. */
  function Successes(suggestions: seq<WeightedIdentifier>, draws: seq<MutationDraw>, wMut: real): nat
    requires |draws| >= |suggestions|
  {
    if suggestions == [] then 0
    else (if ShouldMutate(suggestions[0].weight, wMut, draws[0]) then 1 else 0)
         + Successes(suggestions[1..], draws[1..], wMut)
  }

  /** An appended operator sits at a suggestion whose draw succeeded, and has a configured class. */
  predicate Targets(op: Op, suggestions: seq<WeightedIdentifier>, draws: seq<MutationDraw>, wMut: real,
                    operators: seq<OperatorClass>)
    requires |draws| >= |suggestions|
  {
    && (exists j :: 0 <= j < |suggestions| && ShouldMutate(suggestions[j].weight, wMut, draws[j])
                    && op.identifier == suggestions[j].identifier)
    && (exists cls :: cls in operators && ClassOf(op) == Some(cls))
  }

  /**
   * `mutate` adds one operator per successful draw, each at the identifier
   * of a suggestion whose draw succeeded and of a configured class; when
   * no draw succeeds nothing can raise and nothing is added.
   */
  lemma {:induction false} MutationOpsTargets(suggestions: seq<WeightedIdentifier>, draws: seq<MutationDraw>, wMut: real,
                                              operators: seq<OperatorClass>, weights: seq<real>, choices: seq<int>)
    requires ValidDraws(draws, |suggestions|, choices) && NonNegative(weights)
    ensures Successes(suggestions, draws, wMut) == 0 ==>
      MutationOps(suggestions, draws, wMut, operators, weights, choices) == Ok([])
    ensures var r := MutationOps(suggestions, draws, wMut, operators, weights, choices);
      r.Ok? ==>
        && |r.value| == Successes(suggestions, draws, wMut)
        && forall k :: 0 <= k < |r.value| ==> Targets(r.value[k], suggestions, draws, wMut, operators)
    decreases |suggestions|
  {
    if suggestions != [] {
      assert ValidDraws(draws[1..], |suggestions| - 1, choices) by {
        forall i | 0 <= i < |suggestions| - 1
          ensures 0.0 <= draws[1..][i].classDraw < 1.0 && (choices != [] ==> draws[1..][i].op.pick < |choices|)
        {
          assert draws[1..][i] == draws[i + 1];
        }
      }
      MutationOpsTargets(suggestions[1..], draws[1..], wMut, operators, weights, choices);
      var r := MutationOps(suggestions, draws, wMut, operators, weights, choices);
      if r.Ok? {
        var first := SuggestionOps(suggestions[0], draws[0], wMut, operators, weights, choices).value;
        var rest := MutationOps(suggestions[1..], draws[1..], wMut, operators, weights, choices).value;
        assert r.value == first + rest;
        forall k | 0 <= k < |r.value|
          ensures Targets(r.value[k], suggestions, draws, wMut, operators)
        {
          if k < |first| {
            var cls := ChooseClass(operators, weights, draws[0].classDraw).value;
            assert r.value[k] == Build(cls, suggestions[0].identifier, choices, draws[0].op).value;
            assert ShouldMutate(suggestions[0].weight, wMut, draws[0]);
          } else {
            assert r.value[k] == rest[k - |first|];
            assert Targets(rest[k - |first|], suggestions[1..], draws[1..], wMut, operators);
            var j :| 0 <= j < |suggestions| - 1 && ShouldMutate(suggestions[1..][j].weight, wMut, draws[1..][j])
                     && rest[k - |first|].identifier == suggestions[1..][j].identifier;
            assert suggestions[1..][j] == suggestions[j + 1] && draws[1..][j] == draws[j + 1];
          }
        }
      }
    }
  }

  /** One list of draws for each of the first `n` members. */
  predicate DrawsFor(draws: seq<seq<MutationDraw>>, n: nat, m: nat, choices: seq<int>)
  {
    |draws| >= n && forall i :: 0 <= i < n ==> ValidDraws(draws[i], m, choices)
  }

  lemma DrawsForRest(draws: seq<seq<MutationDraw>>, n: nat, m: nat, choices: seq<int>, k: nat)
    requires DrawsFor(draws, n, m, choices) && k <= n
    ensures DrawsFor(draws[k..], n - k, m, choices)
  {
    assert forall i :: 0 <= i < n - k ==> draws[k..][i] == draws[k + i];
  }

  /** The children `mutate_population` appends, one per member; the first raise ends it. */
  function MutateAll(population: seq<GeneticCandidate>, draws: seq<seq<MutationDraw>>, suggestions: seq<WeightedIdentifier>,
                     wMut: real, operators: seq<OperatorClass>, weights: seq<real>, choices: seq<int>)
    : Result<seq<GeneticCandidate>>
    requires DrawsFor(draws, |population|, |suggestions|, choices) && NonNegative(weights)
    decreases |population|
  {
    if population == [] then Ok([])
    else
      var ops :- MutationOps(suggestions, draws[0], wMut, operators, weights, choices);
      var child := Offspring(population[0], population[0].mutations + ops, true);
      DrawsForRest(draws, |population|, |suggestions|, choices, 1);
      var rest :- MutateAll(population[1..], draws[1..], suggestions, wMut, operators, weights, choices);
      Ok([child] + rest)
  }

  /**
   * Each child is the next generation of its parent, with the parent's
   * operators followed by the new ones, and there is one child per parent.
   */
  lemma {:induction false} MutateAllChildren(population: seq<GeneticCandidate>, draws: seq<seq<MutationDraw>>,
                                             suggestions: seq<WeightedIdentifier>, wMut: real,
                                             operators: seq<OperatorClass>, weights: seq<real>, choices: seq<int>)
    requires DrawsFor(draws, |population|, |suggestions|, choices) && NonNegative(weights)
    requires MutateAll(population, draws, suggestions, wMut, operators, weights, choices).Ok?
    ensures var children := MutateAll(population, draws, suggestions, wMut, operators, weights, choices).value;
      && |children| == |population|
      && forall i :: 0 <= i < |population| ==>
           && MutationOps(suggestions, draws[i], wMut, operators, weights, choices).Ok?
           && children[i] == Offspring(population[i], population[i].mutations
                               + MutationOps(suggestions, draws[i], wMut, operators, weights, choices).value, true)
    decreases |population|
  {
    if population != [] {
      DrawsForRest(draws, |population|, |suggestions|, choices, 1);
      MutateAllChildren(population[1..], draws[1..], suggestions, wMut, operators, weights, choices);
      forall i | 1 <= i < |population|
        ensures population[i] == population[1..][i - 1] && draws[i] == draws[1..][i - 1]
      {
      }
    }
  }

  /**
   * The population after `mutate_population` succeeds: the parents
   * unchanged, then child `i` is parent `i` one generation on with its
   * operators followed by the ones drawn for it.
   */
  lemma MutatedPopulationShape(population: seq<GeneticCandidate>, draws: seq<seq<MutationDraw>>,
                               suggestions: seq<WeightedIdentifier>, wMut: real,
                               operators: seq<OperatorClass>, weights: seq<real>, choices: seq<int>)
    requires DrawsFor(draws, |population|, |suggestions|, choices) && NonNegative(weights)
    requires MutateAll(population, draws, suggestions, wMut, operators, weights, choices).Ok?
    ensures var r := Prefixed(population, MutateAll(population, draws, suggestions, wMut, operators, weights, choices));
      && r.Ok? && |r.value| == 2 * |population|
      && r.value[..|population|] == population
      && forall i :: 0 <= i < |population| ==>
           && MutationOps(suggestions, draws[i], wMut, operators, weights, choices).Ok?
           && r.value[|population| + i] == Offspring(population[i], population[i].mutations
             + MutationOps(suggestions, draws[i], wMut, operators, weights, choices).value, true)
  {
    MutateAllChildren(population, draws, suggestions, wMut, operators, weights, choices);
  }

  /**
   * `mutate` as written: `clone` hands the child the parent's own operator
   * list whenever it is non-empty, so the appends reach the parent too.
   * The result is (parent afterwards, child).
   */
  function AliasedMutate(parent: GeneticCandidate, ops: seq<Op>): (r: (GeneticCandidate, GeneticCandidate))
    ensures r.1 == Offspring(parent, parent.mutations + ops, true)
  {
    var child := Offspring(parent, parent.mutations + ops, true);
    if parent.mutations != [] then (parent.(mutations := child.mutations), child) else (parent, child)
  }

  /**
   * As written, mutating a parent that already carries operators changes
   * that parent: it is no longer in the population, and the population
   * holds two candidates with the same operators instead.
   */
  lemma AliasedMutateLosesParent(parent: GeneticCandidate, ops: seq<Op>)
    requires parent.mutations != [] && ops != []
    ensures AliasedMutate(parent, ops).0 != parent
    ensures GeneticEq(AliasedMutate(parent, ops).0, AliasedMutate(parent, ops).1)
  {
    assert |AliasedMutate(parent, ops).0.mutations| > |parent.mutations|;
  }

  // -----------------------------------------------------------------------
  // Suggestions

  /** The statement ids registered at one location, each with the location's weight. */
  function LocationIdentifiers(s: WeightedLocation, lines: Lines): (r: seq<WeightedIdentifier>)
    ensures !(s.file in lines && s.line in lines[s.file]) ==> r == []
    ensures s.file in lines && s.line in lines[s.file] ==>
      |r| == |lines[s.file][s.line]|
      && forall k :: 0 <= k < |r| ==> r[k] == WeightedIdentifier(lines[s.file][s.line][k], s.weight)
  {
    if s.file in lines && s.line in lines[s.file] then
      var ids := lines[s.file][s.line];
      seq(|ids|, k requires 0 <= k < |ids| => WeightedIdentifier(ids[k], s.weight))
    else []
  }

  /**
   * The identifiers `set_suggestions` emits: for each location in order,
   * the statement ids registered at (file, line), with the location's
   * weight; an unregistered location gives nothing.
   */
  function Identifiers(locations: seq<WeightedLocation>, lines: Lines): seq<WeightedIdentifier>
  {
    if locations == [] then []
    else Identifiers(locations[..|locations| - 1], lines) + LocationIdentifiers(locations[|locations| - 1], lines)
  }

  /** An identifier is suggested with weight `w` iff some location of weight `w` registers it. */
  lemma {:induction false} IdentifiersMembership(locations: seq<WeightedLocation>, lines: Lines, id: int, w: real)
    ensures WeightedIdentifier(id, w) in Identifiers(locations, lines) <==>
      exists j :: 0 <= j < |locations| && Registers(locations[j], lines, id, w)
  {
    if locations != [] {
      var init := locations[..|locations| - 1];
      var s := locations[|locations| - 1];
      IdentifiersMembership(init, lines, id, w);
      var here := LocationIdentifiers(s, lines);
      assert WeightedIdentifier(id, w) in here <==> Registers(s, lines, id, w) by {
        if Registers(s, lines, id, w) {
          var k :| 0 <= k < |lines[s.file][s.line]| && lines[s.file][s.line][k] == id;
          assert here[k] == WeightedIdentifier(id, w);
        }
      }
      forall j | 0 <= j < |locations| - 1
        ensures locations[j] == init[j]
      {
      }
    }
  }

  /** The location registers statement `id` and has weight `w`. */
  predicate Registers(s: WeightedLocation, lines: Lines, id: int, w: real)
  {
    s.file in lines && s.line in lines[s.file] && id in lines[s.file][s.line] && w == s.weight
  }

  // -----------------------------------------------------------------------
  // The generation loop

  /** The search step of generation `gen` (viable, select, crossover, mutate with that generation's draws). */
  type Search = (seq<GeneticCandidate>, nat) -> Result<seq<GeneticCandidate>>

  /** One generation: search, then evaluate every candidate. */
  function Generation(population: seq<GeneticCandidate>, search: Search, fit: seq<Op> -> real, gen: nat)
    : Result<seq<GeneticCandidate>>
  {
    var next :- search(population, gen);
    Ok(ScoredAll(next, fit))
  }

  /** `n` generations from `gen` on, whatever their fitness. */
  function Iterate(population: seq<GeneticCandidate>, search: Search, fit: seq<Op> -> real, gen: nat, n: nat)
    : Result<seq<GeneticCandidate>>
    decreases n
  {
    if n == 0 then Ok(population)
    else
      var next :- Generation(population, search, fit, gen);
      Iterate(next, search, fit, gen + 1, n - 1)
  }

  /**
   * Generations `gen`, `gen + 1`, ... below `maxGenerations`, stopping
   * after the first one whose population aborts; the result is the final
   * population and the number of generations run.
   */
  function Evolve(population: seq<GeneticCandidate>, search: Search, fit: seq<Op> -> real, gen: nat, maxGenerations: int)
    : Result<(seq<GeneticCandidate>, nat)>
    decreases maxGenerations - gen
  {
    if gen >= maxGenerations then Ok((population, 0))
    else
      var next :- Generation(population, search, fit, gen);
      var stop :- Abort(next);
      if stop then Ok((next, 1))
      else
        var (last, n) :- Evolve(next, search, fit, gen + 1, maxGenerations);
        Ok((last, n + 1))
  }

  /** Two outcomes of the generation loop that fail alike or end with the same population. */
  ghost predicate SameEnd(a: Result<(seq<GeneticCandidate>, nat)>, b: Result<(seq<GeneticCandidate>, nat)>)
  {
    && (a.Ok? ==> b.Ok? && b.value.0 == a.value.0)
    && (a.Err? ==> b == a)
  }

  /** One turn of the generation loop: its failure, its stop, or the rest of the loop. */
  lemma EvolveUnfold(population: seq<GeneticCandidate>, search: Search, fit: seq<Op> -> real, gen: nat, maxGenerations: int)
    requires gen < maxGenerations
    ensures search(population, gen).Err? ==> Evolve(population, search, fit, gen, maxGenerations) == Err(search(population, gen).error)
    ensures search(population, gen).Ok? ==>
      var next := ScoredAll(search(population, gen).value, fit);
      && (Abort(next).Err? ==> Evolve(population, search, fit, gen, maxGenerations) == Err(ValueError))
      && (Abort(next) == Ok(true) ==> Evolve(population, search, fit, gen, maxGenerations) == Ok((next, 1)))
      && (Abort(next) == Ok(false) ==>
            SameEnd(Evolve(population, search, fit, gen, maxGenerations), Evolve(next, search, fit, gen + 1, maxGenerations)))
  {
  }

  /**
   * The loop stops at the first repaired generation: the result is the
   * population after `n` generations, no earlier generation aborted, and
   * unless the generation budget was used up the last one did.
   */
  lemma {:induction false} EvolveStopsAtFirstRepair(population: seq<GeneticCandidate>, search: Search, fit: seq<Op> -> real,
                                                    gen: nat, maxGenerations: int)
    requires Evolve(population, search, fit, gen, maxGenerations).Ok?
    ensures var (last, n) := Evolve(population, search, fit, gen, maxGenerations).value;
      && (n == 0 || gen + n <= maxGenerations)
      && Iterate(population, search, fit, gen, n) == Ok(last)
      && (gen + n < maxGenerations ==> Abort(last) == Ok(true))
      && forall k :: 0 < k < n ==>
           Iterate(population, search, fit, gen, k).Ok? && Abort(Iterate(population, search, fit, gen, k).value) == Ok(false)
    decreases maxGenerations - gen
  {
    if gen < maxGenerations {
      var next := Generation(population, search, fit, gen).value;
      if Abort(next) == Ok(false) {
        EvolveStopsAtFirstRepair(next, search, fit, gen + 1, maxGenerations);
        var (last, n) := Evolve(population, search, fit, gen, maxGenerations).value;
        forall k | 0 < k < n
          ensures Iterate(population, search, fit, gen, k).Ok?
          ensures Abort(Iterate(population, search, fit, gen, k).value) == Ok(false)
        {
          assert Iterate(population, search, fit, gen, k) == Iterate(next, search, fit, gen + 1, k - 1);
        }
      }
    }
  }

  // -----------------------------------------------------------------------
  // Finalising

  /** The candidates whose fitness equals the population's maximum, in order. */
  function Best(population: seq<GeneticCandidate>): (r: seq<GeneticCandidate>)
    requires population != []
  {
    var top := MaxFitness(population);
    Filter(population, (c: GeneticCandidate) => c.fitness == top)
  }

  /** Some member of `s` equals `c` (same source, same operators). */
  predicate Represented(s: seq<GeneticCandidate>, c: GeneticCandidate)
  {
    exists d :: d in s && GeneticEq(d, c)
  }

  /** `list(set(population))`: one candidate per equality class, the first one met. */
  function Dedup(population: seq<GeneticCandidate>): seq<GeneticCandidate>
    decreases |population|
  {
    if population == [] then []
    else
      var init := Dedup(population[..|population| - 1]);
      var last := population[|population| - 1];
      if Represented(init, last) then init else init + [last]
  }

  /** The last element of a non-empty sequence and what comes before it. */
  lemma SplitLast(population: seq<GeneticCandidate>)
    requires population != []
    ensures population == population[..|population| - 1] + [population[|population| - 1]]
    ensures forall c :: c in population ==> c in population[..|population| - 1] || c == population[|population| - 1]
  {
    var prefix := population[..|population| - 1];
    forall c | c in population
      ensures c in prefix || c == population[|population| - 1]
    {
      var k :| 0 <= k < |population| && population[k] == c;
      if k < |prefix| {
        assert prefix[k] == c;
      }
    }
  }

  /** Deduplication keeps members of the population only. */
  lemma {:induction false} DedupMembers(population: seq<GeneticCandidate>)
    ensures forall c :: c in Dedup(population) ==> c in population
    decreases |population|
  {
    if population != [] {
      SplitLast(population);
      DedupMembers(population[..|population| - 1]);
    }
  }

  /** No two kept candidates are equal. */
  lemma {:induction false} DedupDistinct(population: seq<GeneticCandidate>)
    ensures forall i, j :: 0 <= i < j < |Dedup(population)| ==> !GeneticEq(Dedup(population)[i], Dedup(population)[j])
    decreases |population|
  {
    if population != [] {
      var prefix := population[..|population| - 1];
      var last := population[|population| - 1];
      DedupDistinct(prefix);
      var init := Dedup(prefix);
      if !Represented(init, last) {
        var r := init + [last];
        forall i, j | 0 <= i < j < |r|
          ensures !GeneticEq(r[i], r[j])
        {
          if j == |r| - 1 {
            assert r[i] in init;
          }
        }
      }
    }
  }

  /** Every member of the population has an equal among the kept candidates. */
  lemma {:induction false} DedupCovers(population: seq<GeneticCandidate>)
    ensures forall c :: c in population ==> Represented(Dedup(population), c)
    decreases |population|
  {
    if population != [] {
      var prefix := population[..|population| - 1];
      var last := population[|population| - 1];
      SplitLast(population);
      DedupCovers(prefix);
      var init := Dedup(prefix);
      if !Represented(init, last) {
        var r := init + [last];
        forall c | c in population
          ensures Represented(r, c)
        {
          if c in prefix {
            var d :| d in init && GeneticEq(d, c);
            assert d in r;
          } else {
            GeneticEqEquivalence(last, last, last);
            assert last in r;
          }
        }
      }
    }
  }

  /** Every candidate kept by the final filter has the population's best fitness, and one is kept. */
  lemma BestKeepsMaximum(population: seq<GeneticCandidate>)
    requires population != []
    ensures Best(population) != []
    ensures forall c :: c in Best(population) ==> c in population && c.fitness == MaxFitness(population)
    ensures forall c :: c in Dedup(Best(population)) ==> c.fitness == MaxFitness(population)
  {
    var i :| 0 <= i < |population| && population[i].fitness == MaxFitness(population);
    assert population[i] in Best(population);
    DedupMembers(Best(population));
  }

  /** The `zip`/`extend` loop of `crossover_population` over the shuffled copy. */
  method Breed(shuffled: seq<GeneticCandidate>, cuts: seq<(int, int)>) returns (r: seq<GeneticCandidate>)
    requires ValidCuts(shuffled, cuts)
    ensures r == shuffled + Offsprings(shuffled, cuts, |shuffled| / 2)
  {
    var half := |shuffled| / 2;
    r := shuffled;
    for i := 0 to half
      invariant r == shuffled + Offsprings(shuffled, cuts, i)
    {
      OffspringsNext(shuffled, cuts, i);
      var pair := OnePointCrossover(shuffled[i], shuffled[half + i], cuts[i].0, cuts[i].1);
      r := r + [pair.0, pair.1];
    }
  }

  /** Breeding one more pair appends its two children. */
  lemma OffspringsNext(shuffled: seq<GeneticCandidate>, cuts: seq<(int, int)>, i: nat)
    requires ValidCuts(shuffled, cuts) && i < |shuffled| / 2
    ensures var pair := OnePointCrossover(shuffled[i], shuffled[|shuffled| / 2 + i], cuts[i].0, cuts[i].1);
            shuffled + Offsprings(shuffled, cuts, i + 1) == shuffled + Offsprings(shuffled, cuts, i) + [pair.0, pair.1]
  {
    AppendAssociative(shuffled, Offsprings(shuffled, cuts, i), PairChildren(shuffled, cuts, i));
  }

  /** The loop of `mutate` on the repair's suggestions, rates and operators. */
  method MutateWith(selection: GeneticCandidate, draws: seq<MutationDraw>, suggestions: seq<WeightedIdentifier>, wMut: real,
                    operators: seq<OperatorClass>, weights: seq<real>, choices: seq<int>) returns (r: Result<GeneticCandidate>)
    requires ValidDraws(draws, |suggestions|, choices) && NonNegative(weights)
    ensures var ops := MutationOps(suggestions, draws, wMut, operators, weights, choices);
      && (r.Ok? <==> ops.Ok?)
      && (r.Err? ==> r.error == ops.error)
      && (r.Ok? ==> r.value == Offspring(selection, selection.mutations + ops.value, true))
  {
    var candidate := Clone(selection, true);
    ghost var added: seq<Op> := [];
    assert suggestions[0..] == suggestions && draws[0..] == draws;
    PrefixedNothing(MutationOps(suggestions, draws, wMut, operators, weights, choices));
    for i := 0 to |suggestions|
      invariant candidate == Offspring(selection, selection.mutations + added, true)
      invariant ValidDraws(draws[i..], |suggestions| - i, choices)
      invariant MutationOps(suggestions, draws, wMut, operators, weights, choices)
             == Prefixed(added, MutationOps(suggestions[i..], draws[i..], wMut, operators, weights, choices))
    {
      assert suggestions[i..][0] == suggestions[i] && draws[i..][0] == draws[i];
      assert suggestions[i..][1..] == suggestions[i + 1..] && draws[i..][1..] == draws[i + 1..];
      MutationOpsUnfold(suggestions[i..], draws[i..], wMut, operators, weights, choices);
      var step := SuggestionOps(suggestions[i], draws[i], wMut, operators, weights, choices);
      ThenAfter(added, step, MutationOps(suggestions[i + 1..], draws[i + 1..], wMut, operators, weights, choices));
      if step.Err? {
        return Err(step.error);
      }
      candidate := candidate.(mutations := candidate.mutations + step.value);
      AppendAssociative(selection.mutations, added, step.value);
      added := added + step.value;
    }
    assert suggestions[|suggestions|..] == [];
    assert added + [] == added;
    return Ok(candidate);
  }

  // -----------------------------------------------------------------------
  // The repair object

  /** `operator_weights or [1 / len(operators)] * len(operators)`. */
  function OperatorWeights(operators: seq<OperatorClass>, given: seq<real>): (r: Result<seq<real>>)
    ensures given != [] ==> r == Ok(given)
    ensures given == [] && operators == [] ==> r == Err(ZeroDivisionError)
    ensures given == [] && operators != [] ==> r.Ok? && |r.value| == |operators|
  {
    if given != [] then Ok(given)
    else if operators == [] then Err(ZeroDivisionError)
    else Ok(seq(|operators|, _ => 1.0 / (|operators| as real)))
  }

  lemma {:induction false} SumConstant(k: nat, c: real)
    ensures Sum(seq(k, _ => c)) == (k as real) * c
  {
    if k > 0 {
      SumConstant(k - 1, c);
      var s := seq(k, _ => c);
      assert s[0] == c && s[1..] == seq(k - 1, _ => c);
      assert Sum(s) == c + ((k - 1) as real) * c;
      assert (k as real) * c == c + ((k - 1) as real) * c;
    }
  }

  /** The default weights are a uniform distribution: equal and adding up to 1. */
  lemma DefaultWeightsUniform(operators: seq<OperatorClass>)
    requires operators != []
    ensures var ws := OperatorWeights(operators, []).value;
      && NonNegative(ws)
      && Sum(ws) == 1.0
      && forall i, j :: 0 <= i < |ws| && 0 <= j < |ws| ==> ws[i] == ws[j]
  {
    var n := |operators| as real;
    SumConstant(|operators|, 1.0 / n);
    assert n * (1.0 / n) == 1.0;
  }

  class GeneticRepair {
    const initialCandidate: GeneticCandidate
    const populationSize: int
    const maxGenerations: int
    const wMut: real
    const operators: seq<OperatorClass>
    const operatorWeights: seq<real>
    /** `list(initial_candidate.statements.keys())`. */
    const choices: seq<int>
    var population: seq<GeneticCandidate>
    var suggestions: seq<WeightedIdentifier>

    /**
     * The repair starts from the initial candidate alone and no
     * suggestions. `choices` lists the statement ids in the dictionary's
     * order; the weights are the resolved `operator_weights`.
     */
    constructor(initialCandidate: GeneticCandidate, populationSize: int, maxGenerations: int, wMut: real,
                operators: seq<OperatorClass>, operatorWeights: seq<real>, choices: seq<int>)
      requires NoDup(choices) && (set id | id in choices) == initialCandidate.statements.Keys
      requires NonNegative(operatorWeights)
      ensures this.initialCandidate == initialCandidate && this.populationSize == populationSize
      ensures this.maxGenerations == maxGenerations && this.wMut == wMut
      ensures this.operators == operators && this.operatorWeights == operatorWeights && this.choices == choices
      ensures population == [initialCandidate] && suggestions == []
      ensures Valid()
    {
      this.initialCandidate := initialCandidate;
      this.populationSize := populationSize;
      this.maxGenerations := maxGenerations;
      this.wMut := wMut;
      this.operators := operators;
      this.operatorWeights := operatorWeights;
      this.choices := choices;
      population := [initialCandidate];
      suggestions := [];
    }

    predicate Valid()
    {
      NonNegative(operatorWeights)
    }

    /** `fill_population`: append `clone(change_gen=False)` copies of drawn members up to the population size. */
    method FillPopulation(population: seq<GeneticCandidate>, picks: seq<nat>) returns (r: Result<seq<GeneticCandidate>>)
      requires ValidFillPicks(population, populationSize, picks)
      ensures r.Err? <==> population == [] && populationSize > 0
      ensures r.Err? ==> r.error == IndexError
      ensures r.Ok? && population != [] ==> r.value == Filled(population, populationSize, picks)
      ensures r.Ok? && population == [] ==> r.value == []
    {
      var newPopulation := population;
      var i := 0;
      while |newPopulation| < populationSize
        invariant population == [] ==> i == 0 && newPopulation == population
        invariant i == 0 || |population| + i <= populationSize
        invariant population != [] ==>
          i <= |picks| && newPopulation == population + seq(i, k requires 0 <= k < i => Clone(population[picks[k]], false))
        decreases populationSize - |newPopulation|
      {
        if population == [] {
          return Err(IndexError);
        }
        newPopulation := newPopulation + [Clone(population[picks[i]], false)];
        i := i + 1;
      }
      if population != [] && |population| < populationSize {
        assert |newPopulation| == populationSize;
      }
      return Ok(newPopulation);
    }

    /**
     * `viable`: the candidates of positive fitness, in order; when there
     * are none, the initial candidate filled up to the population size.
     */
    method Viable(population: seq<GeneticCandidate>, picks: seq<nat>) returns (r: seq<GeneticCandidate>)
      requires ValidFillPicks([initialCandidate], populationSize, picks)
      ensures Filter(population, IsViable) != [] ==> r == Filter(population, IsViable)
      ensures Filter(population, IsViable) == [] ==> r == Filled([initialCandidate], populationSize, picks)
      ensures r != []
    {
      r := Filter(population, IsViable);
      if r == [] {
        var filled := FillPopulation([initialCandidate], picks);
        r := filled.value;
        FilledShape([initialCandidate], populationSize, picks);
      }
    }

    /**
     * `select`: the configured selection asked for `population_size // 2`
     * candidates (Python's floor division, which Dafny's `/` by 2 agrees
     * with); a successful selection returns that many, or the whole
     * population when it is smaller.
     */
    method Select(kind: SelectionKind, population: seq<GeneticCandidate>, picks: seq<nat>, rounds: seq<Round>)
      returns (r: Result<seq<GeneticCandidate>>)
      requires 0 <= populationSize / 2 < |population| ==> ValidSample(picks, |population|, populationSize / 2)
      requires (kind.UniversalSelection? && 0 <= populationSize / 2 < |population|
                && Sum(Fitnesses(population)) > EPSILON && NonNegativeFitness(population)
                && PositiveCount(population) >= populationSize / 2)
               ==> PositivePicks(population, picks)
      requires kind.TournamentSelection? && populationSize / 2 >= 0 ==>
               ValidRounds(rounds, |population|, kind.tournamentSize, populationSize / 2)
      ensures kind.RandomSelection? ==> r == RandomSelect(population, populationSize / 2, picks)
      ensures kind.UniversalSelection? ==> r == UniversalSelect(population, populationSize / 2, picks)
      ensures kind.TournamentSelection? && |population| > populationSize / 2 >= 0 ==>
        r == Tournaments(population, rounds, kind.tournamentSize, populationSize / 2)
      ensures r.Ok? && populationSize / 2 >= 0 ==>
        |r.value| == if |population| <= populationSize / 2 then |population| else populationSize / 2
      ensures r.Ok? ==> forall c :: c in r.value ==> c in population
    {
      var size := populationSize / 2;
      match kind
      case RandomSelection =>
        r := RandomSelect(population, size, picks);
        if size >= 0 {
          RandomSelectWithoutReplacement(population, size, picks);
        }
        if r.Ok? && 0 <= size < |population| {
          PickWithoutReplacement(population, picks);
          MembersOfSubMultiset(r.value, population);
        }
      case UniversalSelection =>
        r := UniversalSelect(population, size, picks);
        if r.Ok? && 0 <= size < |population| {
          PickWithoutReplacement(population, picks);
          MembersOfSubMultiset(r.value, population);
        }
      case TournamentSelection(tsize) =>
        r := TournamentSelect(population, size, tsize, rounds);
    }

    /**
     * `crossover_population`: a shuffled copy of the population, followed
     * by the two children of every pair (i, m/2 + i) of it.
     */
    method CrossoverPopulation(population: seq<GeneticCandidate>, perm: seq<nat>, cuts: seq<(int, int)>)
      returns (r: seq<GeneticCandidate>)
      requires IsPermutation(perm, |population|)
      requires ValidCuts(Pick(population, perm), cuts)
      ensures r == Pick(population, perm) + Offsprings(Pick(population, perm), cuts, |population| / 2)
      ensures |r| == |population| + 2 * (|population| / 2)
      ensures multiset(r[..|population|]) == multiset(population)
    {
      var shuffled := Pick(population, perm);
      r := Breed(shuffled, cuts);
      assert r[..|population|] == shuffled;
      ShufflePermutes(population, perm);
    }

    /**
     * `mutate`: a clone one generation on, with one operator appended for
     * every suggestion whose draw succeeds, in suggestion order.
     */
    method Mutate(selection: GeneticCandidate, draws: seq<MutationDraw>) returns (r: Result<GeneticCandidate>)
      requires Valid() && ValidDraws(draws, |suggestions|, choices)
      ensures var ops := MutationOps(suggestions, draws, wMut, operators, operatorWeights, choices);
        && (r.Ok? <==> ops.Ok?)
        && (r.Err? ==> r.error == ops.error)
        && (r.Ok? ==> r.value == Offspring(selection, selection.mutations + ops.value, true))
    {
      r := MutateWith(selection, draws, suggestions, wMut, operators, operatorWeights, choices);
    }

    /** `mutate_population`: the population, followed by one mutated child per member. */
    method MutatePopulation(population: seq<GeneticCandidate>, draws: seq<seq<MutationDraw>>)
      returns (r: Result<seq<GeneticCandidate>>)
      requires Valid() && DrawsFor(draws, |population|, |suggestions|, choices)
      ensures r == Prefixed(population, MutateAll(population, draws, suggestions, wMut, operators, operatorWeights, choices))
    {
      var result := population;
      assert population[0..] == population && draws[0..] == draws;
      for i := 0 to |population|
        invariant DrawsFor(draws[i..], |population| - i, |suggestions|, choices)
        invariant Prefixed(population, MutateAll(population, draws, suggestions, wMut, operators, operatorWeights, choices))
               == Prefixed(result, MutateAll(population[i..], draws[i..], suggestions, wMut, operators, operatorWeights, choices))
      {
        assert population[i..][0] == population[i] && draws[i..][0] == draws[i];
        assert population[i..][1..] == population[i + 1..] && draws[i..][1..] == draws[i + 1..];
        DrawsForRest(draws, |population|, |suggestions|, choices, i + 1);
        var child := Mutate(population[i], draws[i]);
        if child.Err? {
          return Err(child.error);
        }
        PrefixedTwice(result, [child.value], MutateAll(population[i + 1..], draws[i + 1..], suggestions, wMut, operators, operatorWeights, choices));
        result := result + [child.value];
      }
      assert population[|population|..] == [];
      AppendNothing(result);
      return Ok(result);
    }

    /** `set_suggestions`: the statement ids registered at each location, with its weight. */
    method SetSuggestions(locations: seq<WeightedLocation>)
      modifies this
      ensures suggestions == Identifiers(locations, initialCandidate.lines)
      ensures population == old(population)
    {
      var lines := initialCandidate.lines;
      var result: seq<WeightedIdentifier> := [];
      for i := 0 to |locations|
        invariant result == Identifiers(locations[..i], lines)
      {
        assert locations[..i + 1][..i] == locations[..i];
        var s := locations[i];
        ghost var before := result;
        if s.file in lines && s.line in lines[s.file] {
          var ids := lines[s.file][s.line];
          for k := 0 to |ids|
            invariant result == before + LocationIdentifiers(s, lines)[..k]
          {
            assert LocationIdentifiers(s, lines)[..k + 1] == LocationIdentifiers(s, lines)[..k] + [WeightedIdentifier(ids[k], s.weight)];
            result := result + [WeightedIdentifier(ids[k], s.weight)];
          }
          assert LocationIdentifiers(s, lines)[..|ids|] == LocationIdentifiers(s, lines);
        }
        assert result == Identifiers(locations[..i + 1], lines);
      }
      assert locations[..|locations|] == locations;
      suggestions := result;
    }

    /**
     * `repair_loop`: nothing when the population already aborts; otherwise
     * fill and evaluate it, then run generations until one aborts or the
     * budget is used up. The search of generation `gen` is `search(·, gen)`.
     */
    method RepairLoop(search: Search, fit: seq<Op> -> real, fillPicks: seq<nat>) returns (err: Option<Error>)
      requires ValidFillPicks(population, populationSize, fillPicks)
      modifies this
      ensures Abort(old(population)).Err? ==> err == Some(ValueError) && population == old(population)
      ensures Abort(old(population)) == Ok(true) ==> err == None && population == old(population)
      ensures Abort(old(population)) == Ok(false) ==>
        var outcome := Evolve(ScoredAll(Filled(old(population), populationSize, fillPicks), fit), search, fit, 0, maxGenerations);
        && (outcome.Ok? ==> err == None && population == outcome.value.0)
        && (outcome.Err? ==> err == Some(outcome.error))
      ensures suggestions == old(suggestions)
    {
      var stop := Abort(population);
      if stop.Err? {
        return Some(stop.error);
      }
      if stop.value {
        return None;
      }
      var filled := FillPopulation(population, fillPicks);
      population := ScoredAll(filled.value, fit);
      ghost var outcome := Evolve(population, search, fit, 0, maxGenerations);
      var gen: nat := 0;
      while gen < maxGenerations
        invariant SameEnd(outcome, Evolve(population, search, fit, gen, maxGenerations))
        invariant suggestions == old(suggestions)
        decreases maxGenerations - gen
      {
        EvolveUnfold(population, search, fit, gen, maxGenerations);
        var next := search(population, gen);
        if next.Err? {
          return Some(next.error);
        }
        population := ScoredAll(next.value, fit);
        var aborted := Abort(population);
        if aborted.Err? {
          return Some(aborted.error);
        }
        if aborted.value {
          return None;
        }
        gen := gen + 1;
      }
      return None;
    }

    /**
     * `finalize_repair`: keep the candidates of maximal fitness, drop
     * duplicates, and minimise what remains (with the delta-debugging
     * minimiser, or the default one that changes nothing).
     */
    method FinalizeRepair(fit: seq<Op> -> real, deltaDebugging: bool) returns (err: Option<Error>)
      modifies this
      ensures old(population) == [] ==> err == Some(ValueError) && population == old(population)
      ensures old(population) != [] ==>
        var kept := Dedup(Best(old(population)));
        && err == None
        && |population| == |kept|
        && (!deltaDebugging ==> population == kept)
        && (deltaDebugging ==> forall i :: 0 <= i < |population| ==>
              && IsSubsequence(population[i].mutations, kept[i].mutations)
              && population[i].fitness >= kept[i].fitness
              && population[i] == kept[i].(mutations := population[i].mutations, fitness := population[i].fitness))
      ensures suggestions == old(suggestions)
    {
      if population == [] {
        return Some(ValueError);
      }
      var best := Best(population);
      var kept := Dedup(best);
      if deltaDebugging {
        population := MinimizeAll(kept, fit);
      } else {
        population := DefaultMinimize(kept);
      }
      return None;
    }
  }

  lemma MembersOfSubMultiset(a: seq<GeneticCandidate>, b: seq<GeneticCandidate>)
    requires multiset(a) <= multiset(b)
    ensures forall c :: c in a ==> c in b
  {
    forall c | c in a
      ensures c in b
    {
      assert c in multiset(a);
    }
  }

  /** A candidate `viable` keeps: one of positive fitness. */
  predicate IsViable(c: GeneticCandidate)
  {
    c.fitness > 0.0
  }

  /** The selection strategy a repair is configured with. */
  datatype SelectionKind = RandomSelection | UniversalSelection | TournamentSelection(tournamentSize: int)
}
