# fixkit core in Dafny

fixkit repairs Python programs automatically. It localises the fault by
test coverage, then searches for a list of mutation operators (edits
addressed by statement identifier) under which every test passes, and
finally shrinks a repair to the operators it needs. This project models
the core of that pipeline and proves properties of it:

- `Util`: sequence helpers (subsequences, the stable descending sort
  Python's `sorted(..., reverse=True)` performs, prefix bookkeeping).
- `Operators`, `Candidates`, `Location`: mutation operators and the
  statements they read and write, candidates and their clones, weighted
  locations.
- `Metric`, `Engine`: the GenProg fitness and the evaluation engines
  with their fitness cache keyed by the operator tuple.
- `Selection`, `Crossover`, `Minimize`: the selection strategies, one-point
  crossover and the delta-debugging minimiser.
- `Repair`, `Search`, `PyGenProg`, `AE`, `Cardumen`: the genetic repair
  loop, the exhaustive bounded search, and the GenProg, AE and Cardumen
  repairs built on them.
- `Normalization`, `Coverage`, `Statements`, `Scopes`, `Templates`: weight
  normalisation, coverage-based localisation, the statement finder, the
  scope analysis and Cardumen's templates and probabilistic model.

Code that changes objects in place is modelled by classes with `modifies`
clauses (the fitness cache, the engines, the repair objects, the scope
constructor, the probabilistic model, the statement finder); the rest is
functions on values. Randomness is a parameter: every call to `random`
is a draw passed in (an index, a permutation, a real in [0, 1)), so each
contract holds for every outcome of the draws. The test runs are oracles
passed in as functions: the fitness of an operator list, the tests4py
verdicts, the stream of test results AE's sequential evaluation yields,
and the pytest and coverage reports. Floating-point values are reals.

A Python exception is an `Err` of a `Result`, named after the exception
(`KeyError`, `IndexError`, `ValueError`, `ZeroDivisionError`,
`AssertionError`, `LocalizationError`).

In AE's repair strategy, `reversed(...)` is a one-shot iterator, so the
insertions it pairs with are produced only for the first suggestion; the
model follows the code there (`AE.StrategyShape`).

Some conventions of the code that the model keeps: a higher fitness is
better, and 1 means every reference test passed; the fitness is the
weighted GenProg score; the fitness cache is keyed by the ordered tuple of
operators; a crashed or timed-out run scores 0; the localisation weights
lines by the metric it is given, with no tie rule of its own and no error
when no test fails.

## Model

| member | source | states |
|---|---|---|
| Util.SortDesc | src/fixkit/localization/localization.py:95 | `sorted(..., reverse=True)` (here and in AE's test strategy) gives a permutation of its input in non-increasing key order |
| Util.SortDescStable | src/fixkit/localization/localization.py:95 | items with equal keys keep their original relative order, as Python's sort is stable also in reverse |
| Candidates.TreesOf | src/pyrep/candidate.py:38-43 | an iterable of paths becomes a dictionary from each path to None; a dictionary is kept; an absent or empty argument gives an empty dictionary |
| Candidates.NewCandidate | src/pyrep/candidate.py:36-45 | the candidate keeps src, statements, files and lines, and its trees are those of the trees argument |
| Candidates.FromCandidate | src/pyrep/candidate.py:112-125 | the genetic candidate has no operators, generation 0 and fitness 0.0, and shares every structure map of the candidate |
| Candidates.Clone | src/pyrep/candidate.py:127-142 | the clone equals the original except for the generation, which grows by one exactly when `change_gen` is set |
| Candidates.Offspring | src/pyrep/candidate.py:166-177 | the offspring is the clone with the given operator list in place of the original's |
| Candidates.GetItem | src/pyrep/candidate.py:151-157 | integer indexing delegates to the operator list: in range for -len <= i < len, negative indices count from the end, IndexError otherwise |
| Candidates.HashKeys | src/pyrep/candidate.py:186-191 | the hash is computed from the operator list alone, one operator hash per position |
| Candidates.GeneticEqHash | src/pyrep/candidate.py:186-204 | candidates that are equal (same src, equal operator lists) hash equally |
| Candidates.CloneIsEqual | src/pyrep/candidate.py:127-142 | a clone is equal to and hashes like its original; an offspring with the parent's own list and no generation change is the parent |
| Candidates.GeneticEqEquivalence | src/pyrep/candidate.py:193-204 | candidate equality is reflexive, symmetric and transitive |
| Location.Sanitized | src/pyrep/localization/location.py:17-22 | a NaN weight is stored as 0 and any other weight as given |
| Location.NewWeightedLocation | src/pyrep/localization/location.py:61-69 | a weighted location keeps file and line and stores the sanitised weight |
| Location.NewWeightedIdentifier | src/pyrep/localization/location.py:80-87 | a weighted identifier keeps the identifier and stores the sanitised weight |
| Location.Compare | src/pyrep/localization/location.py:24-46 | the comparisons give NotImplemented exactly when the other object has no weight |
| Location.CompareTotal | src/pyrep/localization/location.py:24-46 | on stored weights the four comparisons form a total order: `<` is the converse of `>`, `<=` negates `>`, `>=` negates `<`, and exactly one of less, greater and equal holds |
| Crossover.OnePointCrossover | src/fixkit/genetic/crossover.py:46-54 | for cuts within the inclusive ranges, the children are offspring of their own parent (one generation on), the first is `x[:ix] + y[iy:]` and the second `y[:iy] + x[ix:]`, element by element |
| Crossover.CrossoverPreservesOperators | src/fixkit/genetic/crossover.py:49-54 | the children together have as many operators as the parents, and the same multiset of operators |
| Crossover.CrossoverAtOne | tests/test_genetic.py:199-204 | cuts (1, 1) on two two-operator parents give `x[:1] + y[1:]` and `y[:1] + x[1:]` |
| Crossover.CrossoverAtEnds | tests/test_genetic.py:206-211 | cuts (0, len(y)) give an empty first child and `y + x` as the second |
| Operators.OpEqCharacterized | src/fixkit/genetic/operators.py:35-40 | operators are equal exactly when they are the same operator (class, identifier, selection, side), except that ReplaceOperator and Rename are never equal, not even to themselves; equal operators have equal hash keys (class name, identifier) |
| Operators.OpEqSymmetric | src/fixkit/genetic/operators.py:68-69 | operator equality is symmetric |
| Operators.Current | src/fixkit/genetic/operators.py:214-216 | `mutations.get(id, statements[id])` raises KeyError exactly when the id is no statement (the default is evaluated first), and otherwise gives the dictionary's entry, falling back to the original statement |
| Operators.Mutate | src/fixkit/genetic/operators.py:57-63 | an operator fails exactly when it looks up an unknown statement; otherwise the dictionary gains exactly the keys the operator writes and every other entry is unchanged |
| Operators.InsertAt | src/fixkit/genetic/operators.py:92-103 | an insert fails exactly when the target or the selection is no statement, and otherwise writes only the target |
| Operators.MoveTo | src/fixkit/genetic/operators.py:269-283 | a move fails exactly when the target or the selection is no statement, and otherwise writes only the target and the selection |
| Operators.DeleteWritesPass | src/fixkit/genetic/operators.py:57-63 | Delete never fails and writes Pass at its target |
| Operators.InsertPlacesSelection | src/fixkit/genetic/operators.py:121-128 | InsertBefore writes `Module([sel, cur])`, InsertAfter `Module([cur, sel])`, InsertBoth the one of the two it drew, with `cur` and `sel` the current values |
| Operators.ReplaceAndCopyValues | src/fixkit/genetic/operators.py:489-499 | Replace writes the current value of the selection at the target; Copy writes `Module([cur, cur])` |
| Operators.MoveValues | src/fixkit/genetic/operators.py:329-344 | a move writes Pass at the selection, `Module([other, this])` (before) or `Module([this, other])` (after) at a different target, and Pass when target and selection coincide; `MoveBoth` writes the same module at the target as the other moves |
| Operators.SwapExchanges | src/fixkit/genetic/operators.py:439-471 | Swap reads both entries before writing, so the target gets the selection's current value and the selection the target's |
| Operators.SwapTwice | src/fixkit/genetic/operators.py:439-471 | swapping the same pair twice restores both current values |
| Operators.NoOpOperators | src/fixkit/genetic/operators.py:513-514 | ReplaceOperator and Rename leave the dictionary unchanged |
| Operators.ApplyAllKeys | src/fixkit/genetic/operators.py:586-587 | folding a list of operators fails exactly when some operator looks up an unknown statement, and otherwise adds exactly the keys the operators write |
| Operators.NewMutator | src/fixkit/genetic/operators.py:575-592 | the constructor succeeds exactly when every id read and every id written is a statement (building `mutation_map` looks each written key up); its `identifier_map` is the in-order fold of the operators over an empty dictionary |
| Operators.MutationIndices | src/fixkit/genetic/operators.py:632-637 | `get_mutation_indices` is exactly the set of keys the operators wrote |
| Operators.GenericVisit | src/fixkit/genetic/operators.py:594-622 | the visit returns the tree with every targeted statement replaced by its entry and every other node copied with its children rewritten in order |
| Operators.RewriteUntargeted | src/fixkit/genetic/operators.py:594-622 | a tree with no targeted statement comes back equal to the input |
| Operators.RewriteIds | src/fixkit/genetic/operators.py:594-622 | the rewritten tree holds only statements of the input that were not targeted, and statements of the replacements |
| Operators.Build | src/fixkit/genetic/operators.py:77-84 | `cls(identifier, choices)` gives an operator of that class at the identifier; the selecting classes take a member of `choices` as their selection and raise IndexError on empty choices |
| Metric.DefaultGenProg | src/pyrep/fitness/metric.py:99-117 | the metric keeps the reference sets, with default weights 1 for passing and 10 for failing tests |
| Metric.Score | src/pyrep/fitness/metric.py:119-130 | the score times the weighted number of reference tests is the weighted number of reference tests among those passed; the failing argument plays no part, and a zero divisor raises ZeroDivisionError |
| Metric.ScoreInUnitRange | src/pyrep/fitness/metric.py:127-130 | with non-negative weights and a positive divisor, the score lies in [0, 1] |
| Metric.PerfectScoreIffAllPass | src/pyrep/fitness/metric.py:127-130 | with positive weights, the score is 1 exactly when there is a reference test and every reference test passed |
| Metric.UnchangedProgramScore | src/pyrep/fitness/metric.py:127-130 | a program that passes exactly the originally passing tests scores `w_pos·\|P\| / (w_pos·\|P\| + w_neg·\|F\|)` |
| Metric.MiddleExampleScore | tests/test_fitness.py:17-32 | five passing tests, one failing test and weights 1 and 10 give the unchanged program the score 1/3 |
| Metric.NoReferenceTestsRaises | src/pyrep/fitness/metric.py:127-130 | with no reference tests the divisor is 0 and scoring raises ZeroDivisionError |
| Metric.Run | src/pyrep/fitness/metric.py:58-73 | outcome "passed" puts the node id in the passing set and any other outcome in the failing set; a timeout gives two empty sets |
| Metric.EvaluateFitness | src/pyrep/fitness/metric.py:75-85 | `evaluate_fitness` scores the passing and failing sets of the run |
| Metric.TimeoutScoresZero | src/pyrep/fitness/metric.py:72-73 | a timed-out run scores 0, or raises ZeroDivisionError when there are no reference tests |
| Metric.NumeratorFullIffAllPass | src/pyrep/fitness/metric.py:127-130 | with positive weights, the weighted count of passed reference tests reaches the divisor exactly when every reference test passed |
| Engine.FitnessCache.Lookup | src/fixkit/fitness/engine.py:55-61 | a hit returns the stored fitness and runs nothing; a miss runs the oracle once and stores its value under the key; either way the value is the oracle's fitness for the key and every stored entry stays equal to the oracle's value |
| Engine.Worker.Evaluate | src/fixkit/fitness/engine.py:48-61 | the candidate comes back with the oracle's fitness for `tuple(mutations)` and nothing else changed; the cache gains exactly that key; the oracle runs only when the key was not already cached |
| Engine.SequentialEngine.Evaluate | src/fixkit/fitness/engine.py:93-105 | every listed candidate, in place, gets the oracle's fitness for its key; the cache keys grow by exactly the candidates' keys; the oracle runs once for each distinct key that was not cached before and for no other key |
| Engine.KeyIsOrdered | src/fixkit/fitness/engine.py:55 | the cache key is the ordered tuple: a cache holding `(a, b)` has no entry for `(b, a)` |
| Engine.Classify | src/fixkit/fitness/engine.py:204-216 | the loop puts exactly the PASSING entries into `passing` and exactly the FAILING entries into `failing` |
| Engine.ClassifyPartitions | src/fixkit/fitness/engine.py:211-215 | with distinct test names the two sets are disjoint, a test is in `passing` iff its result is PASSING and in `failing` iff it is FAILING, so any other result lands in neither |
| Engine.FirstComponents | src/fixkit/fitness/engine.py:205-208 | a system-test report contributes, per test and in order, the test and the first component of its result tuple |
| Engine.Fitness4Py | src/fixkit/fitness/engine.py:191-216 | a raised build or a raised test run gives fitness 0; otherwise the fitness is the metric of the classified passing and failing sets, taken from the first components for a system-test report |
| Engine.Run4Py | src/fixkit/fitness/engine.py:191-217 | the miss path runs the oracle once and computes `Fitness4Py`; it raises exactly when `raise_on_failure` is set and the candidate crashes, and then stores nothing; otherwise it stores the value under the key |
| Engine.Tests4PyWorker.Evaluate | src/fixkit/fitness/engine.py:181-217 | the candidate gets `Fitness4Py` of its key (0 on a crash); the call raises exactly when the key was not cached, `raise_on_failure` is set and the candidate crashes; a hit changes nothing in the cache; otherwise the cache gains the key |
| Engine.Tests4PyIterativeEngine.Evaluate | src/fixkit/fitness/engine.py:403-432 | without an error every candidate gets `Fitness4Py` of its key and the cache gains exactly their keys (and no uncached candidate crashed when `raise_on_failure` is set); an error stops at a crashing uncached candidate, which is scored 0 and not cached, with the earlier candidates scored and the later ones untouched |
| Engine.Tests4PyIterativeEngine.EvaluateIteratively | src/fixkit/fitness/engine.py:374-389 | the loop yields exactly the stream `Iterated` describes: one (test, first result) pair per test whose run did not raise, stopping with an error at a raised run under `raise_on_failure` or at an empty report |
| Engine.IteratedUnfold | src/fixkit/fitness/engine.py:381-389 | one test's contribution to the stream: a raised run either ends it with an error or is skipped, an empty report ends it with IndexError, otherwise its pair comes first |
| Engine.IteratedYieldsUnraised | src/fixkit/fitness/engine.py:381-389 | when the stream ends without an error, its test names are exactly the tests whose run did not raise, in order; under `raise_on_failure` no run raised |
| Minimize.MinimizeCandidate | src/fixkit/genetic/minimize.py:76-107 | the result keeps an in-order subsequence of the operators and the other fields, with a fitness no lower than the input's (the oracle's value whenever the list changed); a list of at most one operator comes back unchanged; a result of two or more operators is 1-minimal: dropping any single operator makes the fitness strictly lower |
| Minimize.MinimizeAll | src/fixkit/genetic/minimize.py:49-55 | one result per candidate, in order, each related to its input as `MinimizeCandidate` promises |
| Minimize.DefaultMinimize | src/fixkit/genetic/minimize.py:58-73 | the population comes back unchanged |
| Minimize.ChunkStart | src/fixkit/genetic/minimize.py:86-91 | a chunk boundary never lies past the end of the list |
| Minimize.ChunkBounds | src/fixkit/genetic/minimize.py:86-92 | with `2 <= n <= len`, every chunk is non-empty, ends within the list and is at most `len - n + 1` long, so each accepted trial strictly shortens the list and leaves at least `n - 1` operators |
| Minimize.UnitChunks | src/fixkit/genetic/minimize.py:104-105 | when `n == len` the `k`-th chunk is exactly operator `k`, so a failed pass at that granularity has tried every single-operator removal |
| Selection.RandomSelect | src/fixkit/genetic/selection.py:38-49 | the population itself when it is no larger than the requested size; a negative size raises ValueError; otherwise the sample at the drawn positions |
| Selection.RandomSelectWithoutReplacement | src/fixkit/genetic/selection.py:47-49 | for a non-negative size the result has `min(len, size)` elements and is a sub-multiset of the population: drawn without replacement |
| Selection.PickWithoutReplacement | src/fixkit/genetic/selection.py:49 | distinct positions pick a sub-multiset of the population |
| Selection.PickLastMultiset | src/fixkit/genetic/selection.py:49 | picking the last position among distinct positions contributes that element once and leaves a pick from the shorter list |
| Selection.UniversalSelect | src/fixkit/genetic/selection.py:52-75 | the population itself when it is no larger than the size; a uniform sample when the total fitness is at most EPSILON; otherwise the weighted draw succeeds exactly when the size is non-negative, no fitness is negative and at least `size` candidates have positive fitness, and raises ValueError otherwise |
| Selection.UniversalSelectPositive | src/fixkit/genetic/selection.py:70-75 | a successful weighted draw returns `size` distinct elements of the population, each of positive fitness |
| Selection.WeightedIndex | src/fixkit/genetic/selection.py:104-108 | inverse-transform sampling over non-negative weights returns a position whose weight is positive |
| Selection.UniformWinner | src/fixkit/genetic/selection.py:102 | a uniform choice is a member of the tournament; an empty tournament raises IndexError |
| Selection.WeightedWinner | src/fixkit/genetic/selection.py:104-108 | with a positive total, a weighted choice is a member of the tournament with positive fitness; it raises ValueError exactly when some fitness is negative |
| Selection.TournamentWinner | src/fixkit/genetic/selection.py:97-108 | the winner is a member of the tournament, of positive fitness when the total is above EPSILON; it raises IndexError for an empty tournament and ValueError exactly when the total is above EPSILON and some fitness is negative |
| Selection.RemoveFirst | src/fixkit/genetic/selection.py:110 | removing a winner shortens the pool by one exactly when an equal candidate is in it, and never adds anything |
| Selection.RemoveFirstRemovesFirstEqual | src/fixkit/genetic/selection.py:110 | `remove` drops the first candidate equal to the winner and keeps the rest in order |
| Selection.TournamentRound | src/fixkit/genetic/selection.py:96-110 | a round raises ValueError when the tournament size is negative or exceeds the pool; a successful round's winner is in the pool and the pool shrinks by exactly one element |
| Selection.TournamentsUnfold | src/fixkit/genetic/selection.py:95-110 | the first round decides the first winner and the pool the remaining rounds run on; its error ends the selection |
| Selection.TournamentSelect | src/fixkit/genetic/selection.py:82-111 | the population itself when it is no larger than the size; otherwise the rounds run one after another on a private copy, giving exactly `size` winners, every one a member of the population, or the first round's error |
| Repair.MaxFitness | src/fixkit/repair/repair.py:250 | the maximum is attained by some candidate and bounds every candidate's fitness |
| Repair.Abort | src/fixkit/repair/repair.py:271-276 | `max` of an empty population raises ValueError; otherwise the repair aborts iff some candidate's fitness reaches `1 - 1e-8` |
| Repair.GeneticRepair.constructor | src/fixkit/repair/repair.py:127-129 | the repair starts from the initial candidate alone, with no suggestions and `choices` listing the initial candidate's statement ids |
| Repair.GeneticRepair.FillPopulation | src/fixkit/repair/repair.py:330-337 | filling an empty population raises IndexError when members are missing; otherwise the result is the input followed by unchanged-generation clones of drawn members up to the population size |
| Repair.FilledShape | src/fixkit/repair/repair.py:330-337 | the filled population keeps the input as a prefix, has `max(len, population_size)` members, and holds only members of the input |
| Repair.GeneticRepair.Viable | src/fixkit/repair/repair.py:313-322 | exactly the candidates of positive fitness, in order; when there are none, the initial candidate filled up to the population size; never empty |
| Repair.GeneticRepair.Select | src/fixkit/repair/repair.py:324-328 | the configured selection asked for `population_size // 2`; a success returns that many candidates (or the whole smaller population), all members of the population |
| Repair.GeneticRepair.CrossoverPopulation | src/fixkit/repair/repair.py:339-350 | a shuffled copy of the population followed by the two children of every pair (i, m/2 + i); the length is `m + 2·(m // 2)` and the first `m` members are a permutation of the input |
| Repair.ShufflePermutes | src/fixkit/repair/repair.py:343-344 | a shuffle keeps every member exactly as often as before |
| Repair.Breed | src/fixkit/repair/repair.py:345-349 | the `zip`/`extend` loop appends, pair by pair, the two children of each pair (i, m/2 + i) |
| Repair.OffspringsNext | src/fixkit/repair/repair.py:349 | breeding one more pair appends exactly its two children |
| Repair.OffspringsPairs | src/fixkit/repair/repair.py:345-349 | children `2i` and `2i + 1` are the crossover of pair (i, m/2 + i) |
| Repair.OffspringsFromParents | src/fixkit/repair/repair.py:345-349 | every child is the next generation of a member of the shuffled population |
| Repair.ChooseClass | src/fixkit/repair/repair.py:382-384 | `random.choices` raises ValueError when the weights and operators differ in length or the weights add up to at most 0, IndexError when there is no operator; otherwise it picks an operator class of positive weight |
| Repair.OperatorWeights | src/fixkit/repair/repair.py:164-166 | given weights are kept; otherwise one weight per operator, and no operators raises ZeroDivisionError |
| Repair.DefaultWeightsUniform | src/fixkit/repair/repair.py:164-166 | the default weights are equal, non-negative and add up to 1 |
| Repair.GeneticRepair.Mutate | src/fixkit/repair/repair.py:372-394 | a clone one generation on whose operators are the parent's followed by those the suggestions contribute in order; the first error of an operator choice is returned |
| Repair.MutateWith | src/fixkit/repair/repair.py:378-386 | the loop over the suggestions appends the operators `MutationOps` describes, and fails with its error |
| Repair.MutationOpsTargets | src/fixkit/repair/repair.py:379-385 | one operator is appended per suggestion whose two `should_mutate` draws succeed, each at that suggestion's identifier and of a configured class; with no success nothing is appended and nothing raises |
| Repair.GeneticRepair.MutatePopulation | src/fixkit/repair/repair.py:363-370 | the population followed by one mutated child per member, or the first error |
| Repair.MutateAllChildren | src/fixkit/repair/repair.py:367-370 | one child per member, child `i` being member `i` one generation on with its operators followed by the ones drawn for it |
| Repair.MutatedPopulationShape | src/fixkit/repair/repair.py:363-370 | a successful `mutate_population` doubles the population, keeps the parents unchanged as its first half, and child `i` extends parent `i` |
| Repair.AliasedMutate | src/fixkit/repair/repair.py:378-381 | as written, the child is the parent one generation on with the new operators appended (and the parent's shared list grows with it) |
| Repair.AliasedMutateLosesParent | src/fixkit/repair/repair.py:378-381 | as written, mutating a parent that already has operators changes that parent, which then equals its own child |
| Repair.LocationIdentifiers | src/fixkit/repair/repair.py:295-304 | an unregistered location gives nothing; a registered one gives each statement id at (file, line), in order, with the location's weight |
| Repair.GeneticRepair.SetSuggestions | src/fixkit/repair/repair.py:288-304 | the suggestions become exactly the identifiers of the locations in order; the population is unchanged |
| Repair.IdentifiersMembership | src/fixkit/repair/repair.py:288-304 | an identifier is suggested with weight `w` iff some location of weight `w` registers it at its file and line |
| Repair.GeneticRepair.RepairLoop | src/fixkit/repair/repair.py:225-246 | an empty population raises ValueError; a population that already aborts is left alone; otherwise the filled, evaluated population runs generations until one aborts or `max_generations` are used, ending with that population or the first error |
| Repair.EvolveUnfold | src/fixkit/repair/repair.py:235-240 | one turn of the loop: the search's error, a stop after an aborting generation, or the rest of the loop from the next generation |
| Repair.EvolveStopsAtFirstRepair | src/fixkit/repair/repair.py:235-244 | the loop's result is the population after `n` generations; no earlier generation aborted; and unless the budget ran out, the last one did |
| Repair.GeneticRepair.FinalizeRepair | src/fixkit/repair/repair.py:248-256 | an empty population raises ValueError; otherwise the candidates of maximal fitness, deduplicated, then minimised: unchanged by the default minimiser, a subsequence of no lower fitness per kept candidate under delta debugging |
| Repair.BestKeepsMaximum | src/fixkit/repair/repair.py:250-253 | at least one candidate is kept, and every kept one, before and after deduplication, has the population's maximal fitness |
| Repair.DedupMembers | src/fixkit/repair/repair.py:397-401 | deduplication keeps members of the population only |
| Repair.DedupDistinct | src/fixkit/repair/repair.py:397-401 | no two kept candidates are equal |
| Repair.DedupCovers | src/fixkit/repair/repair.py:397-401 | every member of the population has an equal among the kept candidates |
| Search.EvolveBounded | src/fixkit/search/search.py:30-40 | when selection returns at most `k` candidates and crossover and mutation at most double their input, an evolutionary step returns at most `4k` candidates |
| Search.EvolveRaisesFirst | src/fixkit/search/search.py:30-40 | a raise in `viable` or `select` ends the step with that error, and a successful step is the result of `mutate` on the crossed population |
| Search.ClassChildrenShape | src/fixkit/search/search.py:70-75 | the innermost loop builds one child per operator class, each the candidate one generation on with one operator at the suggestion's identifier; it raises IndexError exactly when there are no statements to choose and some class needs one |
| Search.CandidateChildrenCount | src/fixkit/search/search.py:68-75 | one candidate gets `(#positive-weight suggestions)·(#classes)` children; it raises IndexError exactly when some suggestion has positive weight, there are no statements to choose and some class needs one |
| Search.CandidateChildrenEdits | src/fixkit/search/search.py:68-75 | each child of a candidate is that candidate with exactly one operator appended, at a suggestion of positive weight |
| Search.ExhaustiveChildrenCount | src/fixkit/search/search.py:66-76 | the population gets `\|population\|·(#positive-weight suggestions)·(#classes)` children, and the same error condition holds once the population is non-empty |
| Search.ExhaustiveChildrenEdits | src/fixkit/search/search.py:66-76 | every child is a member of the population extended by exactly one operator at a positive-weight suggestion |
| Search.ExtendByClasses | src/fixkit/search/search.py:70-75 | the innermost loop appends the children `ClassChildren` describes, or stops with its error |
| Search.ExtendBySuggestions | src/fixkit/search/search.py:68-75 | the middle loop appends the children `CandidateChildren` describes, or stops with its error |
| Search.ExhaustiveMutate | src/fixkit/search/search.py:60-76 | `_mutate` returns the population followed by every child, or the first error |
| Search.ExhaustiveSearch | src/fixkit/search/search.py:55-58 | `search` is the given `mutate` when there is one, and `_mutate` otherwise |
| Search.AliasedChildren | src/fixkit/search/search.py:71-75 | as written, one child per new operator; for a parent that already has operators, the parent and every child end up with the parent's list extended by all the new operators |
| Search.AliasedChildrenNotSingleEdits | src/fixkit/search/search.py:71-75 | as written, for a parent with operators and two or more new operators, the first child is not a single edit of its parent and the parent itself is changed |
| PyGenProg.ChooseSuggestion | src/fixkit/repair/pygenprog.py:169-171 | a location is drawn among the suggestions of positive weight; no suggestion raises IndexError and weights adding up to at most 0 raise ValueError |
| PyGenProg.PyGenProg.constructor | src/fixkit/repair/pygenprog.py:56-75 | the repair uses the GenProg operators Delete, InsertBoth and Replace with uniform weights 1/3, starts from the initial candidate, and scores with a GenProg metric holding empty test sets |
| PyGenProg.PyGenProg.Localize | src/fixkit/repair/pygenprog.py:144-154 | the localization is prepared, the metric receives its passing and failing sets, and the suggestions are those the localization gives, ordered by non-increasing weight |
| PyGenProg.PyGenProg.SingleMutate | src/fixkit/repair/pygenprog.py:162-177 | one child, one generation on with exactly one operator appended, at a suggestion of positive weight and of an operator class of positive weight; no suggestion raises IndexError, suggestion weights adding up to at most 0 raise ValueError, and with valid weights and statements to choose it succeeds |
| AE.Odometer | src/fixkit/repair/pyae.py:110-122 | one width of the enumeration over a strategy of `n` operators yields exactly the tuples of `i` positions, each below `n`, every such tuple at least once, the first being all zeros |
| AE.Digits | src/fixkit/repair/pyae.py:112-119 | the state shows, per digit, the item its generator last produced |
| AE.AdvanceDecreases | src/fixkit/repair/pyae.py:115-119 | advancing a digit and stepping down one digit lowers the count of items the generators have still to produce, so the `while` loop ends |
| AE.AdvanceCounters | src/fixkit/repair/pyae.py:116-118 | an advance keeps the generator counters in shape, changes one digit, and lowers that count |
| AE.AdvanceKeepsSwept | src/fixkit/repair/pyae.py:116-119 | after an advance and its yield, everything the odometer has passed has been yielded |
| AE.AdvanceEarlier | src/fixkit/repair/pyae.py:116-119 | after an advance, every tuple earlier at a digit above the new current digit has been yielded |
| AE.AdvanceFirst | src/fixkit/repair/pyae.py:116-119 | after an advance of the lowest digit, every tuple up to the new state has been yielded |
| AE.RestartKeepsSwept | src/fixkit/repair/pyae.py:120-122 | restarting an exhausted generator and moving up one digit yields nothing and loses nothing already yielded |
| AE.InitiallySwept | src/fixkit/repair/pyae.py:111-113 | the first yield, each generator started once, is the all-zeros state |
| AE.AdvanceStep | src/fixkit/repair/pyae.py:116-119 | the loop invariant survives an advance |
| AE.RestartStep | src/fixkit/repair/pyae.py:120-122 | the loop invariant survives a restart |
| AE.Ops | src/fixkit/repair/pyae.py:113 | a state denotes the strategy's operators at its positions, in order |
| AE.CandidateRepairs | src/fixkit/repair/pyae.py:109-122 | every yielded candidate is an offspring of the initial candidate with 1 to k operators of the strategy, and every such list of operators is yielded, in non-decreasing width order; the first is the strategy's first operator alone; an empty strategy with `k >= 1` raises RuntimeError (tests/test_ae.py:45-63) |
| AE.WidthsAscendAppend | src/fixkit/repair/pyae.py:110-122 | the widths run from 1 upwards, so appending the candidates of the next width to those of the smaller widths keeps the number of operators non-decreasing |
| AE.OfWidth | src/fixkit/repair/pyae.py:110-122 | one width yields exactly the offspring with `i` operators of the strategy, the first one repeated first |
| AE.ListIdentifiers | src/fixkit/repair/pyae.py:172-175 | the suggestions' identifiers followed by the choices not among them |
| AE.AppendNewContents | src/fixkit/repair/pyae.py:172-175 | the append loop keeps the suggestions' identifiers as a prefix and adds exactly the missing choices, once each |
| AE.Reverse | src/fixkit/repair/pyae.py:176 | the reversed list holds the element at the mirrored position |
| AE.PairsAt | src/fixkit/repair/pyae.py:179-181 | the inner loop yields an InsertBefore and an InsertAfter at the location for each pending identifier, in order |
| AE.InsertPairsContents | src/fixkit/repair/pyae.py:179-181 | an insert is yielded for a selection iff the selection is pending, in both positions |
| AE.Deletes | src/fixkit/repair/pyae.py:177-178 | one Delete per suggestion, at its identifier |
| AE.RepairStrategy | src/fixkit/repair/pyae.py:171-181 | the generator's output: a Delete per suggestion, and after the first Delete the insert pairs over the reversed identifier list, which later suggestions find exhausted |
| AE.StrategyShape | src/fixkit/repair/pyae.py:171-181 | the strategy is empty iff there is no suggestion; otherwise it has `#suggestions + 2·#identifiers` operators, starts with the first suggestion's Delete, holds every suggestion's Delete and both inserts at the first suggestion for every identifier, and nothing else |
| AE.CountFailures | src/fixkit/repair/pyae.py:184-187 | the counting loop gives every listed test its number of FAILING entries in the model; a failing entry for an unlisted test raises KeyError, and only then |
| AE.FailCountStep | src/fixkit/repair/pyae.py:185-187 | one more model entry adds one to its test's count exactly when it is FAILING |
| AE.Distinct | src/fixkit/repair/pyae.py:184 | the dictionary keys: every test once |
| AE.TestStrategy | src/fixkit/repair/pyae.py:183-190 | the tests once each, ordered by non-increasing failure count, ties in test-list order (a stable sort); KeyError exactly as the counting loop raises it |
| AE.TestStrategyCoversTests | src/fixkit/repair/pyae.py:188-190 | the ordering lists every test exactly once |
| AE.Stream | src/fixkit/repair/pyae.py:131-133 | the evaluation yields the build's result first, then each test's result in the order given |
| AE.FirstNonPassing | src/fixkit/repair/pyae.py:136-138 | everything before the stop passed and the result at the stop did not |
| AE.RecordedStep | src/fixkit/repair/pyae.py:134-135 | each result but the build's adds its (candidate, test, result) entry to the model |
| AE.Evaluate | src/fixkit/repair/pyae.py:130-138 | the candidate passes iff no result is non-PASSING, and the model gains the entries up to and including the first non-PASSING one, the build excluded |
| AE.StreamPasses | src/fixkit/repair/pyae.py:130-139 | whatever order covers the tests, the evaluation passes iff the candidate builds and passes every test |
| AE.Try | src/fixkit/repair/pyae.py:127-139 | one tried candidate passes iff it repairs, and what it records is about that candidate and names listed tests only |
| AE.RecordedNamesTests | src/fixkit/repair/pyae.py:134-135 | recorded entries are about their candidate and name listed tests |
| AE.FirstRepair | src/fixkit/repair/pyae.py:127-142 | the first candidate that repairs, or none when no candidate does |
| AE.FindRepair | src/fixkit/repair/pyae.py:125-142 | the candidate loop, skipping candidates equal to ones already tried, finds exactly the first repairing candidate of the enumeration |
| AE.PyAE.constructor | src/fixkit/repair/pyae.py:41-42 | the repair starts with its `k`, no tests, no suggestions and the initial candidate alone |
| AE.ShorterFail | src/fixkit/repair/pyae.py:127-140 | in an enumeration ordered by width that holds every list of 1 to k strategy operators, no list shorter than the first repair builds and passes every test: the first repair found is a shortest one |
| AE.PyAE.RepairLoop | src/fixkit/repair/pyae.py:124-142 | the population becomes the single first enumerated candidate that builds and passes every test, so no list of fewer strategy operators repairs, or empty when no list of 1 to k strategy operators repairs; an empty strategy with `k >= 1` raises RuntimeError and leaves the population alone |
| AE.SyntacticEquivalent | src/fixkit/repair/pyae.py:196-211 | true iff every file has a tree on both sides and the two dumps agree |
| AE.Collect | src/fixkit/repair/pyae.py:225-234 | the collecting loop gathers exactly the identifiers of the insert operators and exactly the Delete operators |
| AE.AsWrittenAgreesOnlyWithoutInsertions | src/fixkit/repair/pyae.py:237-239 | as written, the insertion sets agree only when neither candidate inserts anything |
| AE.AsWrittenRejectsEqualInsertions | src/fixkit/repair/pyae.py:237-239 | as written, two candidates both inserting at statement 3 are told apart, while the corrected comparison equates them |
| AE.InsertionsAgreeIffEqual | src/fixkit/repair/pyae.py:237-239 | with both differences taken from the original sets, the insertions agree iff the sets are equal |
| AE.DeadCodeEquivalent | src/fixkit/repair/pyae.py:213-246 | true iff the Delete operators agree and the insert identifiers agree (corrected comparison); the file loop never turns the answer to true |
| AE.OrderEquivalent | src/fixkit/repair/pyae.py:248-273 | true iff the insert identifiers agree (corrected comparison) |
| Normalization.Max | src/fixkit/localization/normalization.py:26 | `max` bounds every weight and is one of them |
| Normalization.Min | src/fixkit/localization/normalization.py:27 | `min` is below every weight and is one of them |
| Normalization.Affine | src/fixkit/localization/normalization.py:25-39 | the shift is at most 0 and at most the minimum, the divisor is positive, and every shifted weight is at most the divisor |
| Normalization.NormalizedInUnit | src/fixkit/localization/normalization.py:41-44 | every normalised weight lies in [0, 1] |
| Normalization.NormalizedKeepsOrder | src/fixkit/localization/normalization.py:41-44 | one increasing map for all weights: both the strict and the non-strict order between any two weights are kept |
| Normalization.NormalizedNegativeMinimum | src/fixkit/localization/normalization.py:32-33 | a negative minimum becomes 0 |
| Normalization.NormalizedMaximum | src/fixkit/localization/normalization.py:32-44 | the maximum becomes 1, unless all weights are equal and at most 0 |
| Normalization.NormalizedFlat | src/fixkit/localization/normalization.py:38-39 | equal weights at most 0 all become 0 (the zero divisor is replaced by 1) |
| Normalization.NormalizedZero | src/fixkit/localization/normalization.py:34-35 | with no negative weight the shift is 0, so a zero weight stays 0 |
| Normalization.Normalize | src/fixkit/localization/normalization.py:20-44 | an empty list raises ValueError and changes nothing; otherwise every element, in place, gets the normalised weight and keeps its file and line |
| Normalization.AbsoluteNormalize | src/fixkit/localization/normalization.py:10-17 | an empty list raises ValueError; all-zero weights raise ZeroDivisionError before anything is written; otherwise every element, in place, gets its absolute weight divided by the largest absolute weight |
| Normalization.AbsoluteNormalizedInUnit | src/fixkit/localization/normalization.py:15-17 | every absolutely normalised weight lies in [0, 1] |
| Normalization.AbsoluteNormalizedReachesOne | src/fixkit/localization/normalization.py:15-17 | some weight becomes exactly 1 |
| Coverage.FirstBar | src/fixkit/localization/coverage.py:24 | the position of the first `\|` in a context, or its length when there is none |
| Coverage.ContextTestCharacterized | src/fixkit/localization/coverage.py:118-120 | a context names test `t` exactly when `t` is non-empty, contains no `\|`, and `t\|run` starts the context |
| Coverage.Counts | src/fixkit/localization/coverage.py:116-124 | a line's `po` and `fo` together never exceed its number of contexts |
| Coverage.CountsAreTestCounts | src/fixkit/localization/coverage.py:116-124 | when no test is named twice among a line's contexts, `po` is the number of passing tests that ran the line and `fo` the number of failing, not passing, ones |
| Coverage.CountsBounded | src/fixkit/localization/coverage.py:125 | under the same condition `po <= \|passing\|` and `fo <= \|failing\|`, so `pn` and `fn` are never negative |
| Coverage.CountStep | src/fixkit/localization/coverage.py:121-124 | a test counted for the first time adds one to `po` when it passed, otherwise one to `fo` when it failed |
| Coverage.MatchedStep | src/fixkit/localization/coverage.py:117-120 | the last context adds its test, if it names one, to the tests the earlier contexts named |
| Coverage.SpectrumOf | src/fixkit/localization/coverage.py:116-126 | a line's spectrum is at its file and line, with `po + pn` passing and `fo + fn` failing tests |
| Coverage.FileSpectra | src/fixkit/localization/coverage.py:115-126 | one spectrum per executed line of a file, in order |
| Coverage.AllSpectraStep | src/fixkit/localization/coverage.py:114-126 | the spectra of one more file follow those of the files before it |
| Coverage.AllSpectraCoverLines | src/fixkit/localization/coverage.py:114-126 | exactly one spectrum per executed line: as many spectra as executed lines, each at an executed line of its file, and every executed line has its spectrum |
| Coverage.TestsToRun | src/fixkit/localization/coverage.py:65-66 | pytest runs the passing and failing tests when there are any, else the given tests, else the default test directory; never nothing |
| Coverage.SetOf | src/fixkit/localization/localization.py:50-52 | `set(xs or [])`: the listed tests, or none |
| Coverage.CoverageLocalization.constructor | src/fixkit/localization/localization.py:49-57 | the given test lists become sets (empty when absent), there are no spectra and the localization is not prepared |
| Coverage.CoverageLocalization.RunPreparation | src/fixkit/localization/coverage.py:59-126 | the outcome sets are rebuilt from the report (passed tests passing, every other outcome failing) and one spectrum per executed line is appended |
| Coverage.CoverageLocalization.SpectraOfFiles | src/fixkit/localization/coverage.py:114-126 | the file loop computes the spectra of all files, file after file |
| Coverage.CoverageLocalization.SpectraOfFile | src/fixkit/localization/coverage.py:115-126 | the line loop computes the spectra of one file's executed lines, in order |
| Coverage.CoverageLocalization.CountContexts | src/fixkit/localization/coverage.py:116-124 | the context loop computes the tally `Counts` describes |
| Coverage.CoverageLocalization.Prepare | src/fixkit/localization/localization.py:66-72 | the localization ends prepared; the preparation runs the first time only, and a second call changes nothing |
| Coverage.CoverageLocalization.GetSuggestions | src/fixkit/localization/coverage.py:128-133 | one weighted location per spectrum, in order, at its file and line and weighted by the metric |
| Coverage.CoverageLocalization.GetSortedSuggestions | src/fixkit/localization/localization.py:89-97 | before preparation it raises LocalizationError; afterwards it returns the suggestions sorted by non-increasing weight, a permutation in which equal weights keep their original order |
| Scopes.Scope.Path | src/fixkit/analysis/scope.py:6-7 | the parent chain from this scope up to the root is finite, starts here, follows `parent` links and ends at a scope without parent |
| Scopes.Scope.constructor | src/fixkit/analysis/scope.py:6-10 | a new scope has the given parent and `sub` flag, no definitions and no children |
| Scopes.Scope.GetVariables | src/fixkit/analysis/scope.py:32-37 | the variables include this scope's definitions and are exactly the names some scope of the chain defines |
| Scopes.Scope.ContainsIsGetVariables | src/fixkit/analysis/scope.py:25-37 | `item in scope` holds iff `item` is among `get_variables()`, iff some scope of the chain defines it |
| Scopes.Scope.SetItem | src/fixkit/analysis/scope.py:22-23 | only this scope's definitions change, at `name`; afterwards the scope contains the name and its variables gain exactly that name |
| Scopes.Scope.Acyclic | src/fixkit/analysis/scope.py:6-7 | a scope is not among its parent's ancestors, so writing its definitions leaves theirs alone |
| Scopes.Scope.Enter | src/fixkit/analysis/scope.py:39-42 | a fresh, empty child whose parent is this scope, appended to the children, seeing exactly this scope's variables |
| Scopes.Scope.Exit | src/fixkit/analysis/scope.py:44-49 | the scope to continue in is this scope or one of its ancestors |
| Scopes.Scope.ExitClimbs | src/fixkit/analysis/scope.py:44-49 | the root exits to itself; a plain scope exits to its parent; a sub scope climbs through consecutive sub scopes and stops at the first plain ancestor, or at the root |
| Scopes.Scope.ClimbOneMore | src/fixkit/analysis/scope.py:46-47 | a sub scope below a sub parent stops one position further up than its parent does |
| Scopes.Scope.GetItemAsWrittenAlwaysRaises | src/fixkit/analysis/scope.py:12-20 | as written, `scope[name]` raises KeyError on every chain and every name |
| Scopes.Scope.GetItem | src/fixkit/analysis/scope.py:12-20 | corrected: the lookup succeeds exactly when some scope on the chain defines the name and raises KeyError otherwise; the definitions start with the nearest one and each of them is a binding of the name on the chain |
| Scopes.Scope.SubScopeOwnDefinition | src/fixkit/analysis/scope.py:14-17 | corrected: a sub scope that defines a name no ancestor defines yields its own definition alone, where the parent's KeyError would otherwise end the lookup |
| Scopes.Scope.LiftDefinedAs | src/fixkit/analysis/scope.py:16-17 | what the parent's chain binds, this chain binds too |
| Scopes.Scope.GetItemPlain | src/fixkit/analysis/scope.py:12-20 | corrected, on a chain without sub scopes: the lookup succeeds iff the name is defined, and yields exactly the nearest definition |
| Statements.CollectCharacterized | src/fixkit/stmt.py:96-120 | the walk of a tree collects exactly its nodes that pass `check` |
| Statements.CollectAllCharacterized | src/fixkit/stmt.py:106-120 | the walk of a list of trees collects exactly the nodes within them that pass `check` |
| Statements.PreOrder | src/fixkit/stmt.py:111-120 | a collected node is recorded before everything nested in it, and all that follows lies within its children |
| Statements.Record | src/fixkit/stmt.py:115-119 | after the two "create if missing" steps and the append, the file and line have an entry |
| Statements.StatementsOf | src/fixkit/stmt.py:113 | the statements are keyed by exactly the identifiers handed out |
| Statements.FilesOf | src/fixkit/stmt.py:114 | the files are keyed by exactly the identifiers handed out |
| Statements.LinesListed | src/fixkit/stmt.py:115-119 | every list of the line index is increasing and names only statements of its own file and line |
| Statements.LinesComplete | src/fixkit/stmt.py:115-119 | every statement is listed at its own file and line |
| Statements.SoundListGrows | src/fixkit/stmt.py:119 | appending a new identifier keeps a list sound, and the list at the new statement's file and line stays increasing |
| Statements.ConsecutiveIdentifiers | src/fixkit/stmt.py:112-129 | the identifiers are exactly 0 .. N-1, and identifier `q` is the `q`-th statement found, recorded with its file |
| Statements.Tag | src/fixkit/stmt.py:114 | each collected statement is paired with the file it was found in |
| Statements.SearchedInCharacterized | src/fixkit/stmt.py:78-88 | a directory's parsed files are exactly its `.py` files that no exclude pattern matches |
| Statements.SearchedWalkCharacterized | src/fixkit/stmt.py:69-75 | the walk parses exactly the `.py` files no pattern excludes, in the directories no pattern excludes |
| Statements.StatementFinder.constructor | src/fixkit/stmt.py:24-44 | a finder starts with identifier 0, empty dictionaries, no current file, not searched, and absent excludes as an empty list |
| Statements.StatementFinder.BuildCandidate | src/fixkit/stmt.py:46-60 | before the search it raises SearchError; afterwards it returns the source and the four dictionaries, whose statements and files are keyed by exactly 0 .. identifier-1 |
| Statements.StatementFinder.NextIdentifier | src/fixkit/stmt.py:122-129 | returns the current identifier and moves the counter on by one, changing nothing else |
| Statements.StatementFinder.Register | src/fixkit/stmt.py:112-119 | the node gets the next identifier and is recorded under the current file and its line, keeping the dictionaries the index of what was found |
| Statements.StatementFinder.Visit | src/fixkit/stmt.py:106-120 | visiting a tree records exactly its statements, in pre-order, under the current file |
| Statements.StatementFinder.VisitAll | src/fixkit/stmt.py:120 | the child loop records the statements of the children, one child after the other |
| Statements.StatementFinder.SearchFile | src/fixkit/stmt.py:78-94 | a `.py` file no pattern excludes is stored, becomes the current file and is walked; any other file changes nothing |
| Statements.StatementFinder.SearchFiles | src/fixkit/stmt.py:72-75 | the file loop records the statements and trees of the searchable files, in order |
| Statements.StatementFinder.SearchWalk | src/fixkit/stmt.py:70-75 | the `os.walk` loop records the statements and trees of the searchable files of the directories no pattern excludes |
| Statements.StatementFinder.SearchSource | src/fixkit/stmt.py:62-76 | the search runs once: a single file is searched as "."; a directory is walked; afterwards the finder is searched, and a second call changes nothing |
| Statements.OneFileDirectory | src/fixkit/stmt.py:84-94 | a searchable file contributes its statements and its tree; any other file contributes nothing |
| Statements.FoundInAppend | src/fixkit/stmt.py:72-75 | searching two lists of files one after the other finds the statements of the first, then those of the second |
| Statements.TreesAfterAppend | src/fixkit/stmt.py:92 | storing the trees of two lists of files one after the other is storing the first, then the second |
| Statements.FoundStep | src/fixkit/stmt.py:112-119 | one more statement adds one entry to the statements, one to the files, and its identifier to its line |
| Templates.VarNamesExact | src/fixkit/genetic/templates.py:93-111 | a name is collected from a statement exactly when a `Name` with that id occurs in it, or an `arg` with that name other than `self` |
| Templates.VarNamesAllExact | src/fixkit/genetic/templates.py:93-111 | the same characterisation over a list of children, as `generic_visit` walks them |
| Templates.Enumerate | src/fixkit/genetic/templates.py:27-28 | the template's placeholder order lists every collected name exactly once |
| Templates.NewTemplate | src/fixkit/genetic/templates.py:14-28 | a template keeps its statement and path, its target type is the statement's node type, its variables are the collected names, its placeholder count is their number and its identity mapping has them as keys in one fixed order |
| Templates.PairingMeaning | src/fixkit/genetic/templates.py:68-69 | zipping keys with values maps exactly the keys, and, the keys being distinct, the k-th key to the k-th value |
| Templates.RenameDefined | src/fixkit/genetic/templates.py:33-43 | renaming with a mapping that covers every collected name cannot raise |
| Templates.RenameAllDefined | src/fixkit/genetic/templates.py:33-43 | the same for a list of children, which keeps its length |
| Templates.RenameIdentity | src/fixkit/genetic/templates.py:33-43 | renaming with the template's identity mapping gives back the statement unchanged |
| Templates.RenameAllIdentity | src/fixkit/genetic/templates.py:33-43 | the same for a list of children |
| Templates.RenameAsWrittenAgrees | src/fixkit/genetic/templates.py:41-43 | when the mapping has a `self` key, the transformer as written renames exactly as the corrected one |
| Templates.RenameAllAsWrittenAgrees | src/fixkit/genetic/templates.py:41-43 | the same for a list of children |
| Templates.SelfParameterRaises | src/fixkit/genetic/templates.py:41-43 | a method whose first argument is `self` has a template without `self`, and the transformer as written raises KeyError on it while the corrected one renames it |
| Templates.Prepend | src/fixkit/genetic/templates.py:80 | putting a value in front of every tuple keeps the number of tuples and each tuple's order |
| Templates.SpreadLength | src/fixkit/genetic/templates.py:80 | one step of `product` has as many tuples as values times tails |
| Templates.ProductCount | src/fixkit/genetic/templates.py:80-89 | `product(vars, repeat=n)` has \|vars\| to the power n tuples, and so one instance is built per tuple |
| Templates.SpreadMembers | src/fixkit/genetic/templates.py:80 | a tuple is in one step of `product` exactly when its head is a value and its tail one of the tails |
| Templates.ProductMembers | src/fixkit/genetic/templates.py:80 | a tuple is drawn exactly when it has n items all taken from `vars` |
| Templates.ProductLengths | src/fixkit/genetic/templates.py:80 | every drawn tuple has n items |
| Templates.SpreadDistinct | src/fixkit/genetic/templates.py:80 | one step of `product` over distinct values and distinct tails yields no tuple twice |
| Templates.ProductDistinct | src/fixkit/genetic/templates.py:80 | over distinct variables, `product` yields no tuple twice |
| Templates.PrependExample | src/fixkit/genetic/templates.py:80 | the first step of `product` on small inputs |
| Templates.ProductExample | src/fixkit/genetic/templates.py:74-79 | the docstring's example: three variables and two placeholders give the nine tuples (1,1) to (3,3) in that order |
| Templates.Grouped | src/fixkit/genetic/templates.py:47 | iterating a `FrozenMultiset` yields the tuple's items with equal items grouped together, the same multiset |
| Templates.GroupedSingle | src/fixkit/genetic/templates.py:47 | a one-item tuple is iterated as itself |
| Templates.GroupedABA | src/fixkit/genetic/templates.py:47 | the tuple (a, b, a) is iterated as a, a, b |
| Templates.GroupedAAB | src/fixkit/genetic/templates.py:47 | the tuple (a, a, b) is iterated as itself |
| Templates.PairingExample | src/fixkit/genetic/templates.py:68-69 | zipping x, y, z with a, a, b gives x and y to a, z to b |
| Templates.MappingAsWrittenRegroups | src/fixkit/genetic/templates.py:64-71 | as written, the tuple (a, b, a) maps y to a instead of b, and gives the same mapping as (a, a, b) |
| Templates.CreateMapping | src/fixkit/genetic/templates.py:64-71 | (corrected, see Findings) raises AssertionError exactly when the tuple's length is not the placeholder count; otherwise maps the k-th placeholder to the tuple's k-th item |
| Templates.InstanceMeaning | src/fixkit/genetic/templates.py:84-88 | (corrected mapping, see Findings) an instance keeps its template and its tuple's items, maps every placeholder to the tuple's item at its position, and its tree is the statement renamed so, which cannot raise |
| Templates.NewInstance | src/fixkit/genetic/templates.py:83-88 | one loop step builds the instance of its tuple |
| Templates.ConstructAllCombinations | src/fixkit/genetic/templates.py:73-91 | (corrected mapping, see Findings) one instance per tuple of `product(vars, repeat=count)`, in order, so \|vars\| to the power count instances, the k-th the instance of the k-th tuple |
| Templates.InstanceOfRenaming | src/fixkit/genetic/templates.py:64-71 | the tuple listing a renaming's values in placeholder order is instantiated with that renaming |
| Templates.InstancesCoverRenamings | src/fixkit/genetic/templates.py:73-91 | every renaming of the placeholders to given variables is the mapping of some built instance |
| Templates.SameCombinationWithinNumber | src/fixkit/genetic/templates.py:148-156 | a statement with exactly the multiset's variables also has as many variables as it has items |
| Templates.SameCombinationPositive | src/fixkit/genetic/templates.py:152-153 | the same-combination count is positive exactly when some statement's variables are the multiset's items |
| Templates.ProbabilityMeaning | src/fixkit/genetic/templates.py:134-139 | a stored probability lies in [0, 1] (0.0 where the division raises ZeroDivisionError), and is positive exactly when some statement uses exactly the multiset's variables |
| Templates.CWRSound | src/fixkit/genetic/templates.py:131 | every tuple `combinations_with_replacement(vars, i)` draws has i items, all from `vars` |
| Templates.CWRPrepend | src/fixkit/genetic/templates.py:131 | a drawn tuple extended in front by the first pool element is drawn one size up |
| Templates.CWRComplete | src/fixkit/genetic/templates.py:131 | every multiset of i pool elements is the items of some drawn tuple |
| Templates.CWRItems | src/fixkit/genetic/templates.py:131 | the items of the drawn tuples are exactly the multisets of i pool elements |
| Templates.DrawnByStep | src/fixkit/genetic/templates.py:126-131 | a multiset is drawn by the first n+1 statements exactly when the first n draw it or the next statement's variables fit it |
| Templates.ProbabilisticModel.constructor | src/fixkit/genetic/templates.py:120-123 | the model keeps its statements, and stores a probability for exactly the multisets of one to all of some statement's variables, each its true probability |
| Templates.ProbabilisticModel.CreateModel | src/fixkit/genetic/templates.py:125-139 | adds exactly the multisets some statement draws, each with its probability, and keeps what was stored |
| Templates.ProbabilisticModel.StoreStatement | src/fixkit/genetic/templates.py:126-139 | one statement adds exactly the multisets of one to all of its variables |
| Templates.ProbabilisticModel.StoreSize | src/fixkit/genetic/templates.py:131-139 | one size adds exactly the multisets of that many of the statement's variables |
| Templates.ProbabilisticModel.CheckCombination | src/fixkit/genetic/templates.py:141-158 | counts the statements whose variables are exactly the multiset's items, and those with as many variables as it has items |
| Templates.ScopeConstructor.constructor | src/fixkit/genetic/templates.py:177-179 | an empty scope stack and nothing recorded |
| Templates.ScopeConstructor.Add | src/fixkit/genetic/templates.py:182 | the innermost scope gains the name; every other scope is unchanged |
| Templates.ScopeConstructor.Visit | src/fixkit/genetic/templates.py:181-197 | the stack is restored, the innermost scope gains the names outside nested definitions, the definitions' scopes follow, and every statement met records the stack at the time |
| Templates.ScopeConstructor.GenericVisit | src/fixkit/genetic/templates.py:206-212 | a statement records the current stack, then the children are visited in order with the same effect on the scopes |
| Templates.ScopeConstructor.VisitNext | src/fixkit/genetic/templates.py:212 | one turn of the child loop extends the scopes and the records by that child's visit |
| Templates.ScopeConstructor.VisitHelper | src/fixkit/genetic/templates.py:199-204 | a new scope is pushed and popped, so the stack is restored and the new scope holds the names of the node's children outside nested definitions |
| Templates.ScopeConstructor.Search | src/fixkit/genetic/templates.py:214-215 | the whole tree is visited in a scope of its own, with the effect of `visit_Helper` |
| Templates.ScopesHoldVarNames | src/fixkit/genetic/templates.py:181-188 | the names a visit adds to the scopes, over all of them, are exactly the names `VarNamesCollector` collects |
| Templates.ScopesHoldVarNamesAll | src/fixkit/genetic/templates.py:181-188 | the same over a list of children |
| Templates.RecordKeys | src/fixkit/genetic/templates.py:206-211 | a visit records a list for every statement of the tree and for nothing else |
| Templates.RecordAllKeys | src/fixkit/genetic/templates.py:206-212 | the same over a list of children |
| Templates.RecordExtends | src/fixkit/genetic/templates.py:199-211 | every list a visit records is the entry stack followed only by scopes the visit itself made; inside a definition, the first is the definition's own scope |
| Templates.RecordAllExtends | src/fixkit/genetic/templates.py:206-212 | the same over a list of children |
| Cardumen.SplitPoint | src/fixkit/repair/pycardumen.py:223 | the point after the last `/` of a path: a slash precedes it and none follows it |
| Cardumen.StripSlashes | src/fixkit/repair/pycardumen.py:223 | removing the trailing slashes gives a prefix that does not end in `/`, and only slashes were removed |
| Cardumen.Dirname | src/fixkit/repair/pycardumen.py:223 | `os.path.dirname` is a prefix of the path, and empty for a path without a slash |
| Cardumen.DirnameOfJoin | src/fixkit/repair/pycardumen.py:223 | the directory of a file joined to a directory is that directory |
| Cardumen.FilterTemplatePoolMeaning | src/fixkit/repair/pycardumen.py:202-226 | the filtered pool keeps exactly the templates of the statement's node type (with `code_type_mode`) and of its file ("local") or directory ("folder"), all of them for any other location, in the pool's order |
| Cardumen.LocalWithinFolder | src/fixkit/repair/pycardumen.py:217-224 | the templates of the statement's file are among those of its directory, in the same order |
| Cardumen.TemplatePool | src/fixkit/repair/pycardumen.py:85-89 | one template per statement, in order, with the statement's file as its path; KeyError exactly when some statement has no file |
| Cardumen.AppendTemplate | src/fixkit/repair/pycardumen.py:89 | one loop step appends the template of the next statement |
| Cardumen.CountShared | src/fixkit/repair/pycardumen.py:246-251 | the count is the number of template variables the statement uses, whatever the visiting order |
| Cardumen.WeightMeaning | src/fixkit/repair/pycardumen.py:252 | a template's weight lies in [0, 1], is 0 exactly when it shares no variable with the statement and 1 exactly when the statement uses all of its variables |
| Cardumen.Weights | src/fixkit/repair/pycardumen.py:242-252 | one weight per template |
| Cardumen.WeightsStep | src/fixkit/repair/pycardumen.py:252 | one loop step appends the next template's weight |
| Cardumen.TemplateWeights | src/fixkit/repair/pycardumen.py:237-252 | ZeroDivisionError exactly when some template has no variable; otherwise the templates' weights in order |
| Cardumen.SumZero | src/fixkit/repair/pycardumen.py:254 | non-negative weights add up to 0 exactly when every one is 0, the case `random.choices` rejects |
| Cardumen.SelectingTemplate | src/fixkit/repair/pycardumen.py:228-254 | ZeroDivisionError for a template without variables, IndexError for an empty pool, ValueError when no template shares a variable with the statement; otherwise a template of the pool that shares one, never one of weight 0 |
| Cardumen.ScopeVars | src/fixkit/repair/pycardumen.py:266-270 | the names in scope are exactly those some scope of the statement's list holds |
| Cardumen.InstanceOfList | src/fixkit/repair/pycardumen.py:272-273 | an instance of the list fills the template with a tuple of placeholder-count variables in scope |
| Cardumen.ProductInstances | src/fixkit/repair/pycardumen.py:272-273 | the instances built over an enumeration of the names in scope are one per tuple of those names, each tuple once |
| Cardumen.InstanceTemplate | src/fixkit/repair/pycardumen.py:256-275 | (corrected mapping, see Findings) KeyError exactly when the statement has no scope list; otherwise one instance per tuple of the names in its scopes |
| Cardumen.InstanceWeights | src/fixkit/repair/pycardumen.py:284-287 | one probability per instance |
| Cardumen.LookUpProbabilities | src/fixkit/repair/pycardumen.py:283-287 | KeyError exactly when the model has no probability for some instance's items; otherwise each instance's probability, in order |
| Cardumen.SelectingTemplateInstance | src/fixkit/repair/pycardumen.py:277-293 | KeyError for an unknown multiset, IndexError for no instance, ValueError when every probability is 0; otherwise an instance of the list whose variables some statement of the program uses exactly |
| Cardumen.SearchedKeys | src/fixkit/repair/pycardumen.py:184-187 | after searching every tree, every statement of the trees has a scope list and nothing else has |
| Cardumen.SearchedInRange | src/fixkit/repair/pycardumen.py:184-187 | every recorded scope list names scopes that were made |
| Cardumen.SearchedNames | src/fixkit/repair/pycardumen.py:184-187 | the scopes hold exactly the names used below the roots of the trees |
| Cardumen.SearchTrees | src/fixkit/repair/pycardumen.py:184-187 | a fresh constructor that has searched each tree in turn, with an empty stack |
| Cardumen.PickedStep | src/fixkit/repair/pycardumen.py:182-183 | one more suggestion adds its identifier exactly when its draw passes `should_mutate` |
| Cardumen.PickedMeaning | src/fixkit/repair/pycardumen.py:182-183 | the picked identifiers are those of exactly the suggestions whose draws pass |
| Cardumen.PyCardumen.constructor | src/fixkit/repair/pycardumen.py:66-99 | a template per statement in order, the scope lists of the program's trees, and a model over the statements that knows exactly the multisets they draw |
| Cardumen.PyCardumen.MutateAt | src/fixkit/repair/pycardumen.py:184-199 | KeyError when the statement or its file is unknown; otherwise, unless a selection raises, a `ReplaceCardumen` at the statement whose instance is of a same-file template sharing a variable with it, over names in scope, with a positive probability |
| Cardumen.PyCardumen.LocalTemplate | src/fixkit/repair/pycardumen.py:189-191 | a template of the statement's own file that shares a variable with it |
| Cardumen.PyCardumen.AdmissibleOpsAppend | src/fixkit/repair/pycardumen.py:197-199 | appending an admissible replacement keeps the operators in step with the picked statements |
| Cardumen.PyCardumen.Mutate | src/fixkit/repair/pycardumen.py:175-200 | one clone a generation on, its mutations the parent's followed by one admissible `ReplaceCardumen` per picked suggestion in order; the clone itself when nothing is picked; the first raise ends it |

## Left out

- Process and file I/O: running pytest, tests4py, coverage and the repaired program, reading and writing files, `ast.parse` and `ast.unparse`; their results are parameters.
- Concurrency: `ParallelEngine` and the worker threads; each worker's evaluation is modelled as a sequential call.
- Floating-point rounding: floats are reals, and `EPSILON`, whose definition is not part of this model, is a small positive constant.
- Minimize.MinimizeCandidate: the chunk bounds are the exact `floor(k·len/n)`, where the source accumulates floating-point starts that can round differently.
- The iteration order of Python sets and dicts is left open where the source iterates them (`set` of scope names, `dict` of statements); the model fixes one order or states the result for every order.
- The state an object is left in after an exception propagates is not stated; methods return `Err` and the caller stops.
- `ReplaceCardumen`: pycardumen.py:15 imports it from `fixkit.genetic.operators`, which does not define it, so as written the import raises ImportError; the model gives the operator its template instance and applies no edit.
- `evaluate_sequentially`, called at pyae.py:131, is defined nowhere in the repository, so as written AE's repair loop raises AttributeError; the model takes the stream of test results it would yield as a parameter.
- AE's `localize` and `prepare_repair`, and the repairs' `prepare_repair` (repair.py:205-222), are not modelled beyond the fields the repair loops read; the forwarding defects of the constructors are listed below.
- `os.walk` and `fnmatch` are parameters of the statement finder: the walk is a list of directories and files, the exclusion a predicate.
- Scopes.Scope: scope objects are positions in a list of scopes, with a depth that orders them; definitions carry identifiers.
- `fixkit/analysis/dataflow.py` is not part of this model.
- `deepcopy` of syntax trees is not modelled: trees are values.
- Templates.ProbabilisticModel.CreateModel: the `not in` test compares a `Combination` with the stored multisets and always holds; storing the same probability again is left implicit.
- PyCardumen's `localize` is the same as PyGenProg's and is not modelled twice.
- Templates.RenameDefined: an argument's annotation is not renamed by `TemplateTransformer`, and annotations are not modelled.
- Syntax trees that are `None` are not modelled.
- The statements and trees of a candidate are those of the initial program: no operator edits them in the model.
- The `scope_stmt` PyCardumen computes in its constructor is stored but unused by `mutate`, which recomputes it.
- Cardumen.PyCardumen.Mutate: does not state which draw makes a selection raise, only that the first raise ends the mutation.
- Candidates: `__len__`, `__iter__` and slicing of a candidate delegate to its operator list and are not modelled separately; equality of base candidates has no lemma.
- Minimize.MinimizeCandidate: as written, minimize.py:94 passes one candidate to the engine's `evaluate`, which iterates its argument (engine.py:98); iterating a candidate yields its operators (candidate.py:159-164), which have no `mutations` attribute, so delta debugging a candidate of two or more operators raises AttributeError. The model evaluates the candidate itself with one oracle call.
- PyGenProg.PyGenProg.constructor: as written, `PyGenProg` passes `src=` and `excludes=` to `GeneticRepair.__init__` (repair.py:84-104), which takes an `initial_candidate` instead, so construction raises TypeError; the model builds the repair from the fields both use.
- Coverage.CoverageLocalization.constructor: as written, coverage.py:55 passes eight positional arguments (including `timeout`) to `Localization.__init__` (localization.py:29-38), which takes seven, so construction raises TypeError; the model sets the fields the code evidently intends.
- AE.PyAE.constructor: as written, `AbstractAE.__init__` (pyae.py:43-62) passes `src=` and `excludes=` to `GeneticRepair.__init__` (repair.py:84-104), which takes an `initial_candidate` and no `src` or `excludes`, so construction raises TypeError; the model builds the repair from the fields its repair loop reads.
- Cardumen.PyCardumen.constructor: as written, `super().__init__` (pycardumen.py:67-83) receives `src=` and `excludes=`, which `GeneticRepair.__init__` does not take, and `self.statement_finder` (pycardumen.py:87, 93) is never assigned, so construction raises TypeError; the model takes the statements, files and trees as parameters.
- Cardumen.PyCardumen.MutateAt: reads the model's own `files` map where pycardumen.py:189 reads the never-assigned `self.statement_finder.files`, which as written raises AttributeError.
- Cardumen.InstanceTemplate: instances are built with the corrected positional mapping (`Templates.Instance`), not with `Templates.CreateMappingAsWritten`, so the admissible operators of `Cardumen.PyCardumen.MutateAt` and `Cardumen.PyCardumen.Mutate` inherit the correction of the templates.py:64-71 finding.
- Cardumen.PyCardumen.Mutate: as written, `clone` shares the parent's operator list (pycardumen.py:181, 197; candidate.py:133-141), so the parent gains the appended `ReplaceCardumen` operators; the model keeps the parent unchanged, as in the repair.py:378-381 finding.
- Candidates.GeneticEq: compares operators structurally. In Python, `ReplaceOperator.__eq__` and `Rename.__eq__` return False (operators.py:519-520, 566-567), so two candidates holding distinct such objects are unequal and their cache keys differ, while the model equates them; this carries over to Selection.RemoveFirst, Repair.Dedup, the final deduplication of a repair and Engine.FitnessCache.Lookup.
- Repair.GeneticRepair.Viable: refills with the initial candidate as constructed; in the source, `prepare_repair` has already set that candidate's fitness in place (repair.py:218-220), so the refill carries that fitness rather than 0.

## Findings

| source | as written | input that shows it | evidently intended | confidence | as-written member | corrected member |
|---|---|---|---|---|---|---|
| src/fixkit/repair/repair.py:378-381 | `clone` hands the parent's own `mutations` list to the child (src/pyrep/candidate.py:133-141), and `mutate` appends to it, so the parent gains the child's operators | a parent with one operator and a suggestion whose draws pass `should_mutate`: afterwards parent and child hold the same two operators | the child's list is a copy: the parent keeps its operators and the child has them followed by the new ones | high; not executed | Repair.AliasedMutateLosesParent | Repair.GeneticRepair.Mutate |
| src/fixkit/search/search.py:71-75 | every child of a parent shares the parent's list, so each child ends with all the operators appended for all children | a parent with one operator, one positive suggestion and two operator classes: the first child holds three operators, not two | each child is its parent plus one operator | high; not executed | Search.AliasedChildrenNotSingleEdits | Search.CandidateChildrenEdits |
| src/fixkit/analysis/scope.py:12-20 | after collecting the definitions, `__getitem__` falls through to `raise KeyError` instead of returning them | any name defined in the scope itself: the lookup raises KeyError | return the collected definitions, and raise KeyError only when no scope on the chain defines the name | high; not executed | Scopes.Scope.GetItemAsWrittenAlwaysRaises | Scopes.Scope.GetItem |
| src/fixkit/repair/pyae.py:237-239 | `insertions_2` is reduced by the already reduced `insertions_1`, so the final test `I1 - I2 == I2` holds only when neither candidate inserts | two candidates that both insert at statement 3 and delete nothing are judged not equivalent | compare the insertion sets themselves (both differences empty) | high; not executed | AE.AsWrittenRejectsEqualInsertions | AE.InsertionsAgreeIffEqual |
| src/fixkit/repair/pyae.py:264-266 | the same reduction in `order_equivalent` | the same two candidates are judged not equivalent | the same comparison of the insertion sets | high; not executed | AE.AsWrittenAgreesOnlyWithoutInsertions | AE.OrderEquivalent |
| src/fixkit/genetic/templates.py:41-43 | `visit_arg` looks up every argument in the mapping, but the collector leaves `self` out of it (templates.py:104-106) | a template made from a method with a `self` parameter whose body never reads `self`: instantiating it raises KeyError | keep `self` (and any unmapped argument) unchanged | medium; not executed | Templates.SelfParameterRaises | Templates.RenameDefined |
| src/fixkit/genetic/templates.py:64-71 | `create_Mapping` zips the placeholders with the items of a `FrozenMultiset`, which iterates equal items together, so a tuple's order is lost | placeholders x, y, z and the tuple (a, b, a): y maps to a, and the tuple (a, a, b) gives the same mapping, so the renaming x→a, y→b, z→a is never built | map the k-th placeholder to the tuple's k-th item, so every renaming over the variables is an instance | medium; not executed | Templates.MappingAsWrittenRegroups | Templates.InstancesCoverRenamings |
