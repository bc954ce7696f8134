/**
 * Fitness evaluation with a cache. The `pre_calculated` dictionary maps
 * the ordered tuple of a candidate's operators to the fitness computed for
 * it; a hit copies the stored value, a miss transforms the program, runs
 * the tests and stores the score.
 *
 * Transforming the program and running its tests are outside the model:
 * the plain engine sees them as one oracle `fit` from operator list to
 * fitness, the Tests4Py engines as a build oracle, a test-run oracle and
 * the metric's `fitness(passing, failing)`.
 */
module Engine {
  import opened Util
  import opened Operators
  import opened Candidates

  /** The `pre_calculated` dictionary shared by an engine and its workers. */
  class FitnessCache {
    var preCalculated: map<seq<Op>, real>
    /** The keys for which the program was transformed and the oracle run, in order. */
    ghost var runs: seq<seq<Op>>

    constructor()
      ensures preCalculated == map[] && runs == []
    {
      preCalculated := map[];
      runs := [];
    }

    /** Every stored fitness is the one the oracle gives for its key. */
    ghost predicate SoundFor(value: seq<Op> -> real)
      reads this
    {
      forall k :: k in preCalculated ==> preCalculated[k] == value(k)
    }

    /**
     * The hit/miss step of `Worker.evaluate` and `Engine.evaluate`: a hit
     * returns the stored value and runs nothing, a miss runs the oracle
     * once and stores its value. Either way the caller gets `fit(key)`.
     */
    method Lookup(key: seq<Op>, fit: seq<Op> -> real) returns (v: real)
      requires SoundFor(fit)
      modifies this
      ensures SoundFor(fit)
      ensures v == fit(key)
      ensures key in old(preCalculated) ==> preCalculated == old(preCalculated) && runs == old(runs)
      ensures key !in old(preCalculated) ==> preCalculated == old(preCalculated)[key := v] && runs == old(runs) + [key]
    {
      if key in preCalculated {
        v := preCalculated[key];
      } else {
        v := fit(key);
        preCalculated := preCalculated[key := v];
        runs := runs + [key];
      }
    }
  }

  /** The cache keys of a list of candidates. */
  ghost function KeysOf(cs: seq<GeneticCandidate>): set<seq<Op>>
  {
    set i | 0 <= i < |cs| :: cs[i].mutations
  }

  /** `c` with the fitness the oracle gives its operator list. */
  function Scored(c: GeneticCandidate, value: seq<Op> -> real): (d: GeneticCandidate)
    ensures d.fitness == value(c.mutations)
    ensures d == c.(fitness := d.fitness)
  {
    c.(fitness := value(c.mutations))
  }

  /** A `Worker`, reduced to its view of the shared cache. */
  class Worker {
    const cache: FitnessCache

    constructor(cache: FitnessCache)
      ensures this.cache == cache
    {
      this.cache := cache;
    }

    /** `Worker.evaluate`: the candidate gets the oracle's fitness for its key, computed at most once. */
    method Evaluate(c: GeneticCandidate, fit: seq<Op> -> real) returns (d: GeneticCandidate)
      requires cache.SoundFor(fit)
      modifies cache
      ensures cache.SoundFor(fit)
      ensures d == Scored(c, fit)
      ensures cache.preCalculated.Keys == old(cache.preCalculated.Keys) + {c.mutations}
      ensures c.mutations in old(cache.preCalculated) ==> cache.runs == old(cache.runs)
      ensures c.mutations !in old(cache.preCalculated) ==> cache.runs == old(cache.runs) + [c.mutations]
    {
      var v := cache.Lookup(c.mutations, fit);
      d := c.(fitness := v);
    }
  }

  /** The sequential `Engine` with its own fitness oracle and cache. */
  class SequentialEngine {
    const fit: seq<Op> -> real
    const cache: FitnessCache

    ghost predicate Valid()
      reads this, cache
    {
      cache.SoundFor(fit)
    }

    constructor(fit: seq<Op> -> real)
      ensures Valid() && this.fit == fit
      ensures fresh(cache) && cache.preCalculated == map[] && cache.runs == []
    {
      this.fit := fit;
      cache := new FitnessCache();
    }

    /**
     * `Engine.evaluate`: every listed candidate gets the oracle's fitness
     * for its key; the cache gains exactly the listed keys, and the oracle
     * runs once for each listed key that was not cached, and for no other.
     */
    method Evaluate(cands: array<GeneticCandidate>)
      requires Valid()
      modifies cache, cands
      ensures Valid()
      ensures cands[..] == ScoredAll(old(cands[..]), fit)
      ensures cache.preCalculated.Keys == old(cache.preCalculated.Keys) + KeysOf(old(cands[..]))
      ensures |old(cache.runs)| <= |cache.runs| && cache.runs[..|old(cache.runs)|] == old(cache.runs)
      ensures FreshRuns(cache.runs[|old(cache.runs)|..], KeysOf(old(cands[..])), old(cache.preCalculated.Keys))
    {
      ghost var input := cands[..];
      ghost var before := cache.preCalculated.Keys;
      ghost var runs0 := cache.runs;
      ghost var newRuns: seq<seq<Op>> := [];
      var i := 0;
      while i < cands.Length
        invariant 0 <= i <= cands.Length
        invariant Progress(cands, input, i, before, runs0, newRuns)
      {
        newRuns := Step(cands, i, input, before, runs0, newRuns);
        i := i + 1;
      }
      assert input[..i] == input;
      assert cache.runs[|runs0|..] == newRuns;
    }

    /** The loop invariant of `Evaluate` after the first `i` candidates. */
    ghost predicate Progress(cands: array<GeneticCandidate>, input: seq<GeneticCandidate>, i: nat,
                             before: set<seq<Op>>, runs0: seq<seq<Op>>, newRuns: seq<seq<Op>>)
      reads this, cache, cands
    {
      && i <= |input| == cands.Length
      && cache.SoundFor(fit)
      && cands[..] == ScoredAll(input[..i], fit) + input[i..]
      && cache.preCalculated.Keys == before + KeysOf(input[..i])
      && cache.runs == runs0 + newRuns
      && FreshRuns(newRuns, KeysOf(input[..i]), before)
    }

    /** One iteration of `Evaluate`: candidate `i` is looked up and scored. */
    method Step(cands: array<GeneticCandidate>, i: nat, ghost input: seq<GeneticCandidate>, ghost before: set<seq<Op>>,
                ghost runs0: seq<seq<Op>>, ghost newRuns: seq<seq<Op>>) returns (ghost next: seq<seq<Op>>)
      requires i < cands.Length && Progress(cands, input, i, before, runs0, newRuns)
      modifies cache, cands
      ensures Progress(cands, input, i + 1, before, runs0, next)
    {
      var c := cands[i];
      assert c == input[i];
      ghost var pre := cache.preCalculated.Keys;
      var v := cache.Lookup(c.mutations, fit);
      cands[i] := c.(fitness := v);
      ScoredAllSnoc(input, i, fit);
      KeysOfSnoc(input, i);
      next := if c.mutations in pre then newRuns else newRuns + [c.mutations];
      FreshRunsStep(newRuns, next, KeysOf(input[..i]), before, c.mutations);
    }
  }

  /**
   * `runs` lists, once each, exactly the keys of `keys` that were not
   * cached beforehand.
   */
  ghost predicate FreshRuns(runs: seq<seq<Op>>, keys: set<seq<Op>>, cached: set<seq<Op>>)
  {
    NoDup(runs) && forall k :: k in runs <==> k in keys && k !in cached
  }

  lemma FreshRunsStep(runs: seq<seq<Op>>, next: seq<seq<Op>>, keys: set<seq<Op>>, cached: set<seq<Op>>, key: seq<Op>)
    requires FreshRuns(runs, keys, cached)
    requires key in cached + keys ==> next == runs
    requires key !in cached + keys ==> next == runs + [key]
    ensures FreshRuns(next, keys + {key}, cached)
  {
  }

  /** Every candidate of `cs`, with the oracle's fitness for its key. */
  function ScoredAll(cs: seq<GeneticCandidate>, value: seq<Op> -> real): (r: seq<GeneticCandidate>)
    ensures |r| == |cs|
    ensures forall i :: 0 <= i < |cs| ==> r[i] == Scored(cs[i], value)
  {
    seq(|cs|, i requires 0 <= i < |cs| => Scored(cs[i], value))
  }

  lemma ScoredAllSnoc(cs: seq<GeneticCandidate>, i: nat, value: seq<Op> -> real)
    requires i < |cs|
    ensures ScoredAll(cs[..i + 1], value) + cs[i + 1..]
         == (ScoredAll(cs[..i], value) + cs[i..])[i := Scored(cs[i], value)]
  {
  }

  lemma KeysOfSnoc(cs: seq<GeneticCandidate>, i: nat)
    requires i < |cs|
    ensures KeysOf(cs[..i + 1]) == KeysOf(cs[..i]) + {cs[i].mutations}
  {
    assert cs[..i + 1] == cs[..i] + [cs[i]];
  }

  /** The key is the ordered operator tuple: a cached list does not answer for its reordering. */
  lemma KeyIsOrdered(cache: map<seq<Op>, real>, a: Op, b: Op)
    requires a != b && cache.Keys == {[a, b]}
    ensures [b, a] !in cache
  {
    assert [b, a][0] != [a, b][0];
  }

  // -----------------------------------------------------------------------
  // Tests4Py engines

  datatype TestResult = PASSING | FAILING | UNDEFINED

  /**
   * A test-run report: the run raised, a list of (test, result) pairs, or
   * a system-test report whose result for each test is a tuple of a result
   * and a message.
   */
  datatype TestReport =
    | RunRaised
    | Results(results: seq<(string, TestResult)>)
    | SystemResults(system: seq<(string, (TestResult, string))>)

  /** The reports of a unit-test run, which `t4p.test` returns. */
  type UnitTestReport = r: TestReport | !r.SystemResults? witness RunRaised

  /** The tests that have a PASSING entry. */
  function PassingOf(rs: seq<(string, TestResult)>): set<string>
  {
    set i | 0 <= i < |rs| && rs[i].1 == PASSING :: rs[i].0
  }

  /** The tests that have a FAILING entry. */
  function FailingOf(rs: seq<(string, TestResult)>): set<string>
  {
    set i | 0 <= i < |rs| && rs[i].1 == FAILING :: rs[i].0
  }

  /**
   * The classification loop: PASSING entries go to `passing`, FAILING
   * entries to `failing`, any other result to neither.
   */
  method Classify(rs: seq<(string, TestResult)>) returns (passing: set<string>, failing: set<string>)
    ensures passing == PassingOf(rs) && failing == FailingOf(rs)
  {
    passing, failing := {}, {};
    var i := 0;
    while i < |rs|
      invariant 0 <= i <= |rs|
      invariant passing == PassingOf(rs[..i]) && failing == FailingOf(rs[..i])
    {
      assert rs[..i + 1][..i] == rs[..i];
      var (test, result) := rs[i];
      if result == PASSING {
        passing := passing + {test};
      } else if result == FAILING {
        failing := failing + {test};
      }
      i := i + 1;
    }
    assert rs[..i] == rs;
  }

  /**
   * With one entry per test, every test with a PASSING or FAILING result
   * lands in exactly one of the two sets, and the others in neither.
   */
  lemma ClassifyPartitions(rs: seq<(string, TestResult)>)
    requires forall i, j :: 0 <= i < j < |rs| ==> rs[i].0 != rs[j].0
    ensures PassingOf(rs) * FailingOf(rs) == {}
    ensures forall i :: 0 <= i < |rs| ==>
      (rs[i].0 in PassingOf(rs) <==> rs[i].1 == PASSING) &&
      (rs[i].0 in FailingOf(rs) <==> rs[i].1 == FAILING)
  {
    forall i, j | 0 <= i < |rs| && 0 <= j < |rs| && rs[i].0 == rs[j].0
      ensures i == j
    {
      if i < j || j < i {
        assert false;
      }
    }
  }

  /** A system-test report contributes the first component of each result tuple. */
  function FirstComponents(system: seq<(string, (TestResult, string))>): (rs: seq<(string, TestResult)>)
    ensures |rs| == |system|
    ensures forall i :: 0 <= i < |rs| ==> rs[i] == (system[i].0, system[i].1.0)
  {
    seq(|system|, i requires 0 <= i < |system| => (system[i].0, system[i].1.0))
  }

  /** The oracles of a Tests4Py engine: whether building raises, and the report of a test run. */
  datatype Tests4Py = Tests4Py(buildRaises: seq<Op> -> bool, runTests: seq<Op> -> TestReport)

  /** The transformed program either builds and runs, or one of the two raises. */
  predicate Crashes(o: Tests4Py, key: seq<Op>)
  {
    o.buildRaises(key) || o.runTests(key).RunRaised?
  }

  /**
   * The fitness the Tests4Py workers assign on a miss: 0 when the build or
   * the test run raises, otherwise the metric applied to the classified
   * results.
   */
  function Fitness4Py(o: Tests4Py, score: (set<string>, set<string>) -> real, key: seq<Op>): (v: real)
    ensures Crashes(o, key) ==> v == 0.0
    ensures o.runTests(key).Results? && !Crashes(o, key)
      ==> v == score(PassingOf(o.runTests(key).results), FailingOf(o.runTests(key).results))
    ensures o.runTests(key).SystemResults? && !Crashes(o, key)
      ==> var rs := FirstComponents(o.runTests(key).system); v == score(PassingOf(rs), FailingOf(rs))
  {
    if o.buildRaises(key) then 0.0
    else match o.runTests(key)
      case RunRaised => 0.0
      case Results(rs) => score(PassingOf(rs), FailingOf(rs))
      case SystemResults(system) =>
        var rs := FirstComponents(system);
        score(PassingOf(rs), FailingOf(rs))
  }

  function Value4Py(o: Tests4Py, score: (set<string>, set<string>) -> real): seq<Op> -> real
  {
    k => Fitness4Py(o, score, k)
  }

  /**
   * The miss path of the Tests4Py workers, with the classification done
   * by the loop. A crash scores 0; it is stored, unless `raise_on_failure`
   * is set, in which case nothing is stored and the error is returned.
   */
  method Run4Py(cache: FitnessCache, key: seq<Op>, o: Tests4Py, score: (set<string>, set<string>) -> real, raiseOnFailure: bool)
    returns (v: real, err: Option<Error>)
    requires key !in cache.preCalculated && cache.SoundFor(Value4Py(o, score))
    modifies cache
    ensures cache.SoundFor(Value4Py(o, score))
    ensures v == Fitness4Py(o, score, key)
    ensures err.Some? <==> raiseOnFailure && Crashes(o, key)
    ensures err.Some? ==> err == Some(Raised) && cache.preCalculated == old(cache.preCalculated)
    ensures err.None? ==> cache.preCalculated == old(cache.preCalculated)[key := v]
    ensures cache.runs == old(cache.runs) + [key]
  {
    cache.runs := cache.runs + [key];
    if o.buildRaises(key) {
      v := 0.0;
      if raiseOnFailure {
        return v, Some(Raised);
      }
    } else {
      var report := o.runTests(key);
      if report.RunRaised? {
        v := 0.0;
        if raiseOnFailure {
          return v, Some(Raised);
        }
      } else {
        var rs := if report.SystemResults? then FirstComponents(report.system) else report.results;
        var passing, failing := Classify(rs);
        v := score(passing, failing);
      }
    }
    err := None;
    cache.preCalculated := cache.preCalculated[key := v];
  }

  /** `Tests4PyWorker`, reduced to its oracles, its flag and the shared cache. */
  class Tests4PyWorker {
    const cache: FitnessCache
    const oracle: Tests4Py
    const raiseOnFailure: bool

    constructor(cache: FitnessCache, oracle: Tests4Py, raiseOnFailure: bool)
      ensures this.cache == cache && this.oracle == oracle && this.raiseOnFailure == raiseOnFailure
    {
      this.cache := cache;
      this.oracle := oracle;
      this.raiseOnFailure := raiseOnFailure;
    }

    /**
     * `Tests4PyWorker.evaluate`: a hit copies the stored value; a miss
     * scores the candidate (0 on a crash) and stores the score, except
     * that a crash under `raise_on_failure` stores nothing and raises.
     */
    method Evaluate(c: GeneticCandidate, score: (set<string>, set<string>) -> real)
      returns (d: GeneticCandidate, err: Option<Error>)
      requires cache.SoundFor(Value4Py(oracle, score))
      modifies cache
      ensures cache.SoundFor(Value4Py(oracle, score))
      ensures d == c.(fitness := Fitness4Py(oracle, score, c.mutations))
      ensures err.Some? <==> c.mutations !in old(cache.preCalculated) && raiseOnFailure && Crashes(oracle, c.mutations)
      ensures err.Some? ==> cache.preCalculated == old(cache.preCalculated)
      ensures err.None? ==> cache.preCalculated.Keys == old(cache.preCalculated.Keys) + {c.mutations}
      ensures c.mutations in old(cache.preCalculated) ==> cache.preCalculated == old(cache.preCalculated)
    {
      var key := c.mutations;
      var v: real;
      if key in cache.preCalculated {
        v := cache.preCalculated[key];
        err := None;
      } else {
        v, err := Run4Py(cache, key, oracle, score, raiseOnFailure);
      }
      d := c.(fitness := v);
    }
  }

  /** `Tests4PyIterativeTestsEngine`, reduced to its oracles, its flag and its cache. */
  class Tests4PyIterativeEngine {
    const cache: FitnessCache
    const oracle: Tests4Py
    const score: (set<string>, set<string>) -> real
    /** The report of running one named test on the transformed program. */
    const runSingle: (seq<Op>, string) -> UnitTestReport
    const raiseOnFailure: bool

    ghost predicate Valid()
      reads this, cache
    {
      cache.SoundFor(Value4Py(oracle, score))
    }

    constructor(oracle: Tests4Py, score: (set<string>, set<string>) -> real,
                runSingle: (seq<Op>, string) -> UnitTestReport, raiseOnFailure: bool)
      ensures Valid() && fresh(cache) && cache.preCalculated == map[]
      ensures this.oracle == oracle && this.score == score
      ensures this.runSingle == runSingle && this.raiseOnFailure == raiseOnFailure
    {
      this.cache := new FitnessCache();
      this.oracle := oracle;
      this.score := score;
      this.runSingle := runSingle;
      this.raiseOnFailure := raiseOnFailure;
    }

    /**
     * `evaluate`: the hit/miss/build/test/score sequence for each
     * candidate in turn. Without an error every candidate is scored; an
     * error stops the loop at candidate `stop`, which is scored 0 and
     * not cached, and leaves the later candidates untouched.
     */
    method Evaluate(cands: array<GeneticCandidate>) returns (err: Option<Error>, ghost stop: nat)
      requires Valid()
      modifies cache, cands
      ensures Valid()
      ensures err.None? ==> cands[..] == ScoredAll(old(cands[..]), Value4Py(oracle, score))
      ensures err.None? ==> cache.preCalculated.Keys == old(cache.preCalculated.Keys) + KeysOf(old(cands[..]))
      ensures err.None? && raiseOnFailure ==>
        forall i :: 0 <= i < cands.Length && old(cands[i]).mutations !in old(cache.preCalculated)
          ==> !Crashes(oracle, old(cands[i]).mutations)
      ensures err.Some? ==> err == Some(Raised) && raiseOnFailure && stop < cands.Length
      ensures err.Some? ==> Crashes(oracle, old(cands[stop]).mutations) && old(cands[stop]).mutations !in cache.preCalculated
      ensures err.Some? ==> cands[..] == ScoredAll(old(cands[..stop]), Value4Py(oracle, score))
                                         + [old(cands[stop]).(fitness := 0.0)] + old(cands[stop + 1..])
      ensures err.Some? ==> cache.preCalculated.Keys == old(cache.preCalculated.Keys) + KeysOf(old(cands[..stop]))
    {
      ghost var input := cands[..];
      ghost var before := cache.preCalculated.Keys;
      stop := 0;
      var i := 0;
      while i < cands.Length
        invariant 0 <= i <= cands.Length
        invariant Progress(cands, input, i, before)
      {
        err := Step(cands, i, input, before);
        if err.Some? {
          assert input[..i] == old(cands[..i]) && input[i + 1..] == old(cands[i + 1..]);
          return err, i;
        }
        i := i + 1;
      }
      assert input[..i] == input;
      err := None;
    }

    /** The loop invariant of `Evaluate` after the first `i` candidates. */
    ghost predicate Progress(cands: array<GeneticCandidate>, input: seq<GeneticCandidate>, i: nat, before: set<seq<Op>>)
      reads this, cache, cands
    {
      && i <= |input| == cands.Length
      && Valid()
      && cands[..] == ScoredAll(input[..i], Value4Py(oracle, score)) + input[i..]
      && cache.preCalculated.Keys == before + KeysOf(input[..i])
      && (raiseOnFailure ==>
            forall j :: 0 <= j < i && input[j].mutations !in before ==> !Crashes(oracle, input[j].mutations))
    }

    /** One iteration of `Evaluate`: candidate `i` is looked up, or built, run and scored. */
    method Step(cands: array<GeneticCandidate>, i: nat, ghost input: seq<GeneticCandidate>, ghost before: set<seq<Op>>)
      returns (err: Option<Error>)
      requires i < cands.Length && Progress(cands, input, i, before)
      modifies cache, cands
      ensures err.None? ==> Progress(cands, input, i + 1, before)
      ensures err.Some? ==> err == Some(Raised) && raiseOnFailure && Valid()
      ensures err.Some? ==> Crashes(oracle, input[i].mutations) && input[i].mutations !in cache.preCalculated
      ensures err.Some? ==> cands[..] == ScoredAll(input[..i], Value4Py(oracle, score))
                                         + [input[i].(fitness := 0.0)] + input[i + 1..]
      ensures err.Some? ==> cache.preCalculated.Keys == before + KeysOf(input[..i])
    {
      var c := cands[i];
      assert c == input[i];
      KeysOfSnoc(input, i);
      ScoredAllSnoc(input, i, Value4Py(oracle, score));
      if c.mutations in cache.preCalculated {
        cands[i] := c.(fitness := cache.preCalculated[c.mutations]);
        err := None;
      } else {
        var v;
        v, err := Run4Py(cache, c.mutations, oracle, score, raiseOnFailure);
        cands[i] := c.(fitness := v);
      }
    }

    /**
     * `evaluate_iteratively`: runs the tests one at a time and yields one
     * (test, result) pair per test, taking the first entry of each
     * report; a raised report is skipped, or ends the stream with an
     * error under `raise_on_failure`, and an empty report raises.
     */
    method EvaluateIteratively(c: GeneticCandidate, tests: seq<string>)
      returns (yielded: seq<(string, TestResult)>, err: Option<Error>)
      ensures (yielded, err) == Iterated(runSingle, c.mutations, tests, raiseOnFailure)
    {
      yielded, err := [], None;
      ghost var whole := Iterated(runSingle, c.mutations, tests, raiseOnFailure);
      var i := 0;
      assert tests[0..] == tests && [] + whole.0 == whole.0;
      while i < |tests|
        invariant 0 <= i <= |tests|
        invariant var rest := Iterated(runSingle, c.mutations, tests[i..], raiseOnFailure);
                  whole == (yielded + rest.0, rest.1)
      {
        IteratedUnfold(runSingle, c.mutations, tests, i, raiseOnFailure);
        ghost var rest := Iterated(runSingle, c.mutations, tests[i + 1..], raiseOnFailure);
        var report := runSingle(c.mutations, tests[i]);
        if report.RunRaised? {
          if raiseOnFailure {
            assert yielded + [] == yielded;
            return yielded, Some(Raised);
          }
        } else if |report.results| == 0 {
          assert yielded + [] == yielded;
          return yielded, Some(IndexError);
        } else {
          var item := (tests[i], report.results[0].1);
          assert yielded + ([item] + rest.0) == (yielded + [item]) + rest.0;
          yielded := yielded + [item];
        }
        i := i + 1;
      }
      assert tests[i..] == [] && yielded + [] == yielded;
    }
  }

  /** One step of the stream: what the test at position `i` contributes. */
  lemma IteratedUnfold(runSingle: (seq<Op>, string) -> UnitTestReport, key: seq<Op>, tests: seq<string>, i: nat,
                       raiseOnFailure: bool)
    requires i < |tests|
    ensures var r := runSingle(key, tests[i]);
            var here := Iterated(runSingle, key, tests[i..], raiseOnFailure);
            var rest := Iterated(runSingle, key, tests[i + 1..], raiseOnFailure);
            && (r.RunRaised? && raiseOnFailure ==> here == ([], Some(Raised)))
            && (r.RunRaised? && !raiseOnFailure ==> here == rest)
            && (!r.RunRaised? && |r.results| == 0 ==> here == ([], Some(IndexError)))
            && (!r.RunRaised? && |r.results| > 0 ==> here == ([(tests[i], r.results[0].1)] + rest.0, rest.1))
  {
    assert tests[i..][0] == tests[i] && tests[i..][1..] == tests[i + 1..];
  }

  /** The stream `evaluate_iteratively` produces, and the error that ends it, if any. */
  function Iterated(runSingle: (seq<Op>, string) -> UnitTestReport, key: seq<Op>, tests: seq<string>, raiseOnFailure: bool)
    : (seq<(string, TestResult)>, Option<Error>)
  {
    if tests == [] then ([], None)
    else
      var report := runSingle(key, tests[0]);
      if report.RunRaised? then
        if raiseOnFailure then ([], Some(Raised))
        else Iterated(runSingle, key, tests[1..], raiseOnFailure)
      else if |report.results| == 0 then ([], Some(IndexError))
      else
        var rest := Iterated(runSingle, key, tests[1..], raiseOnFailure);
        ([(tests[0], report.results[0].1)] + rest.0, rest.1)
  }

  function TestNames(ps: seq<(string, TestResult)>): (r: seq<string>)
    ensures |r| == |ps|
    ensures forall i :: 0 <= i < |r| ==> r[i] == ps[i].0
  {
    seq(|ps|, i requires 0 <= i < |ps| => ps[i].0)
  }

  /**
   * A stream that ends without error names, in order, exactly the tests
   * whose report did not raise, once each; under `raise_on_failure` no
   * report raised at all.
   */
  lemma {:induction false} IteratedYieldsUnraised(runSingle: (seq<Op>, string) -> UnitTestReport, key: seq<Op>,
                                                  tests: seq<string>, raiseOnFailure: bool)
    requires Iterated(runSingle, key, tests, raiseOnFailure).1 == None
    ensures TestNames(Iterated(runSingle, key, tests, raiseOnFailure).0)
         == Filter(tests, t => !runSingle(key, t).RunRaised?)
    ensures raiseOnFailure ==> forall t :: t in tests ==> !runSingle(key, t).RunRaised?
  {
    if tests != [] {
      IteratedYieldsUnraised(runSingle, key, tests[1..], raiseOnFailure);
      var rest := Iterated(runSingle, key, tests[1..], raiseOnFailure);
      if !runSingle(key, tests[0]).RunRaised? {
        assert TestNames([(tests[0], runSingle(key, tests[0]).results[0].1)] + rest.0)
            == [tests[0]] + TestNames(rest.0);
      }
      if raiseOnFailure {
        forall t | t in tests
          ensures !runSingle(key, t).RunRaised?
        {
          if t != tests[0] {
            assert t in tests[1..];
          }
        }
      }
    }
  }
}
