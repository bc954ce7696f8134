/**
 * GenProg on top of the genetic repair: the operators are Delete,
 * InsertBoth and Replace with uniform weights, the fitness is the GenProg
 * weighted test score whose reference tests are taken from the
 * localisation, and the single-mutation variant appends exactly one
 * operator per child.
 */
module PyGenProg {
  import opened Util
  import opened Operators
  import opened Candidates
  import opened Location
  import opened Selection
  import opened Metric
  import opened Coverage
  import opened Repair
  import opened Search

  /** The operator classes GenProg repairs with. */
  const GENPROG_OPERATORS: seq<OperatorClass> := [DeleteClass, InsertBothClass, ReplaceClass]

  function SuggestionWeights(suggestions: seq<WeightedIdentifier>): (r: seq<real>)
    ensures |r| == |suggestions| && forall i :: 0 <= i < |r| ==> r[i] == suggestions[i].weight
  {
    seq(|suggestions|, i requires 0 <= i < |suggestions| => suggestions[i].weight)
  }

  /**
   * `random.choices(suggestions, weights=[s.weight ...], k=1)[0]`:
   * IndexError when there is no suggestion, ValueError when the weights
   * add up to at most 0, otherwise a suggestion of positive weight.
   */
  function ChooseSuggestion(suggestions: seq<WeightedIdentifier>, u: real): (r: Result<WeightedIdentifier>)
    requires 0.0 <= u < 1.0 && NonNegative(SuggestionWeights(suggestions))
    ensures r.Err? <==> suggestions == [] || Sum(SuggestionWeights(suggestions)) <= 0.0
    ensures r.Err? ==> r.error == if suggestions == [] then IndexError else ValueError
    ensures r.Ok? ==> exists i :: 0 <= i < |suggestions| && r.value == suggestions[i] && suggestions[i].weight > 0.0
  {
    if suggestions == [] then Err(IndexError)
    else if Sum(SuggestionWeights(suggestions)) <= 0.0 then Err(ValueError)
    else
      var i := PickWeighted(SuggestionWeights(suggestions), u);
      Ok(suggestions[i])
  }

  /** The draws of one single mutation: the location, the operator class, and the class's own. */
  datatype SingleDraw = SingleDraw(location: real, cls: real, op: OpDraw)

  class PyGenProg {
    const repair: GeneticRepair
    const localization: CoverageLocalization
    /** The GenProg fitness the evaluation engine scores with. */
    var metric: GenProgFitness

    /**
     * A genetic repair over GenProg's three operators with default
     * (uniform) weights, and a GenProg fitness with no reference tests
     * yet.
     */
    constructor(initialCandidate: GeneticCandidate, populationSize: int, maxGenerations: int, wMut: real,
                choices: seq<int>, localization: CoverageLocalization, wPos: real, wNeg: real)
      requires NoDup(choices) && (set id | id in choices) == initialCandidate.statements.Keys
      ensures fresh(repair) && this.localization == localization
      ensures repair.operators == GENPROG_OPERATORS && repair.operatorWeights == [1.0 / 3.0, 1.0 / 3.0, 1.0 / 3.0]
      ensures repair.initialCandidate == initialCandidate && repair.populationSize == populationSize
      ensures repair.maxGenerations == maxGenerations && repair.wMut == wMut && repair.choices == choices
      ensures repair.population == [initialCandidate] && repair.suggestions == [] && repair.Valid()
      ensures metric == GenProgFitness({}, {}, wPos, wNeg)
    {
      var weights := OperatorWeights(GENPROG_OPERATORS, []);
      assert weights.value == [1.0 / 3.0, 1.0 / 3.0, 1.0 / 3.0];
      repair := new GeneticRepair(initialCandidate, populationSize, maxGenerations, wMut,
                                  GENPROG_OPERATORS, weights.value, choices);
      this.localization := localization;
      metric := GenProgFitness({}, {}, wPos, wNeg);
    }

    /**
     * `localize`: prepare the localisation (once), take its sorted
     * suggestions, and hand its passing and failing tests to the fitness
     * as the reference tests.
     */
    method Localize(report: seq<TestRecord>, files: seq<FileCoverage>) returns (r: seq<WeightedLocation>)
      modifies this, localization
      ensures localization.prepared
      ensures metric == old(metric).(passing := localization.passing, failing := localization.failing)
      ensures !old(localization.prepared) ==> metric.passing == PassedIds(report) && metric.failing == NotPassedIds(report)
      ensures old(localization.prepared) ==> metric.passing == old(localization.passing) && metric.failing == old(localization.failing)
      ensures multiset(r) == multiset(localization.GetSuggestions()) && NonIncreasing(r, ByWeight)
    {
      localization.Prepare(report, files);
      var sorted := localization.GetSortedSuggestions();
      r := sorted.value;
      metric := metric.(passing := localization.passing, failing := localization.failing);
    }

    /**
     * The single-mutation `mutate`: one child, a clone one generation on
     * with one operator appended, built at a drawn suggestion of positive
     * weight from a drawn class of positive weight. Raises when there is no
     * suggestion (IndexError), when the suggestion weights add up to at
     * most 0, when the class cannot be drawn, and when the class needs a
     * statement but there is none to choose.
     */
    function SingleMutate(selection: GeneticCandidate, draw: SingleDraw): (r: Result<seq<GeneticCandidate>>)
      reads repair
      requires repair.Valid() && 0.0 <= draw.location < 1.0 && 0.0 <= draw.cls < 1.0
      requires repair.choices != [] ==> draw.op.pick < |repair.choices|
      requires NonNegative(SuggestionWeights(repair.suggestions))
      ensures repair.suggestions == [] ==> r == Err(IndexError)
      ensures repair.suggestions != [] && Sum(SuggestionWeights(repair.suggestions)) <= 0.0 ==> r == Err(ValueError)
      ensures (&& repair.suggestions != [] && Sum(SuggestionWeights(repair.suggestions)) > 0.0
               && |repair.operatorWeights| == |repair.operators| && repair.operators != []
               && Sum(repair.operatorWeights) > 0.0 && repair.choices != []) ==> r.Ok?
      ensures r.Ok? ==> |r.value| == 1 && OneEditOf(r.value[0], selection)
      ensures r.Ok? ==> var op := r.value[0].mutations[|selection.mutations|];
        && (exists i :: 0 <= i < |repair.suggestions| && repair.suggestions[i].weight > 0.0
                       && op.identifier == repair.suggestions[i].identifier)
        && (exists j :: 0 <= j < |repair.operators| && j < |repair.operatorWeights| && repair.operatorWeights[j] > 0.0
                       && ClassOf(op) == Some(repair.operators[j]))
    {
      var location :- ChooseSuggestion(repair.suggestions, draw.location);
      var cls :- ChooseClass(repair.operators, repair.operatorWeights, draw.cls);
      var op :- Build(cls, location.identifier, repair.choices, draw.op);
      var child := Offspring(selection, selection.mutations + [op], true);
      assert child.mutations[..|selection.mutations|] == selection.mutations;
      Ok([child])
    }
  }
}
