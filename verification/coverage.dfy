/**
 * Coverage-based fault localisation: classify the test outcomes, count
 * for every executed line how many passing and failing tests ran it (a
 * spectrum), and weight each line by a suspiciousness metric of its
 * spectrum. The localisation is prepared once; its sorted suggestions
 * are refused before that.
 *
 * The pytest report and the coverage data are parameters (they are read
 * from files written by a subprocess); the metric is a parameter too.
 */
module Coverage {
  import opened Util
  import opened Location
  import opened Metric

  /** The contexts recorded for one executed line. */
  datatype LineCoverage = LineCoverage(line: int, contexts: seq<string>)

  /** The executed lines of one file, in the order the coverage data lists them. */
  datatype FileCoverage = FileCoverage(file: string, executed: seq<LineCoverage>)

  /** `Spectrum(file, line, po, pn, fo, fn)`: passed/failed tests that ran the line (o) or not (n). */
  datatype Spectrum = Spectrum(file: string, line: int, po: int, pn: int, fo: int, fn: int)

  // -----------------------------------------------------------------------
  // Contexts

  /** The position of the first `|`, or the length when there is none. */
  function FirstBar(s: string): (r: nat)
    ensures r <= |s|
    ensures r < |s| ==> s[r] == '|'
    ensures forall k :: 0 <= k < r ==> s[k] != '|'
  {
    if s == [] || s[0] == '|' then 0 else 1 + FirstBar(s[1..])
  }

  /**
   * `CONTEXT_PATTERN.match(context)` with the pattern `[^|]+\|run`: the
   * test name is the non-empty text before the first `|`, provided `run`
   * follows that bar.
   */
  function ContextTest(ctx: string): Option<string>
  {
    var i := FirstBar(ctx);
    if 0 < i && i + 4 <= |ctx| && ctx[i..i + 4] == "|run" then Some(ctx[..i]) else None
  }

  /** A context names test `t` exactly when `t` is non-empty, has no bar, and `t|run` starts the context. */
  lemma ContextTestCharacterized(ctx: string, t: string)
    ensures ContextTest(ctx) == Some(t) <==>
      && t != []
      && (forall k :: 0 <= k < |t| ==> t[k] != '|')
      && t + "|run" <= ctx
  {
    var i := FirstBar(ctx);
    if t != [] && (forall k :: 0 <= k < |t| ==> t[k] != '|') && t + "|run" <= ctx {
      assert forall k :: 0 <= k < |t| ==> ctx[k] == (t + "|run")[k] == t[k];
      assert ctx[|t|] == (t + "|run")[|t|] == '|';
      assert i == |t|;
      assert ctx[i..i + 4] == (t + "|run")[|t|..|t| + 4] == "|run";
      assert ctx[..i] == t;
    }
    if ContextTest(ctx) == Some(t) {
      assert t + "|run" == ctx[..i] + ctx[i..i + 4] == ctx[..i + 4];
    }
  }

  // -----------------------------------------------------------------------
  // Spectra

  /**
   * `(po, fo)` after the contexts: a matching context counts for `po`
   * when its test passed, otherwise for `fo` when it failed.
   */
  function Counts(contexts: seq<string>, passing: set<string>, failing: set<string>): (r: (nat, nat))
    ensures r.0 + r.1 <= |contexts|
    decreases |contexts|
  {
    if contexts == [] then (0, 0)
    else
      var (po, fo) := Counts(contexts[..|contexts| - 1], passing, failing);
      match ContextTest(contexts[|contexts| - 1])
      case Some(t) =>
        if t in passing then (po + 1, fo) else if t in failing then (po, fo + 1) else (po, fo)
      case None => (po, fo)
  }

  /** The spectrum of one executed line; `pn` and `fn` are the remaining tests of each kind. */
  function SpectrumOf(file: string, l: LineCoverage, passing: set<string>, failing: set<string>): (s: Spectrum)
    ensures s.file == file && s.line == l.line
    ensures s.po + s.pn == |passing| && s.fo + s.fn == |failing|
  {
    var (po, fo) := Counts(l.contexts, passing, failing);
    Spectrum(file, l.line, po, |passing| - po, fo, |failing| - fo)
  }

  function FileSpectra(f: FileCoverage, passing: set<string>, failing: set<string>): (r: seq<Spectrum>)
    ensures |r| == |f.executed|
    ensures forall j :: 0 <= j < |r| ==> r[j] == SpectrumOf(f.file, f.executed[j], passing, failing)
  {
    seq(|f.executed|, j requires 0 <= j < |f.executed| => SpectrumOf(f.file, f.executed[j], passing, failing))
  }

  /** One spectrum per (file, executed line), files and lines in the coverage data's order. */
  function AllSpectra(files: seq<FileCoverage>, passing: set<string>, failing: set<string>): seq<Spectrum>
    decreases |files|
  {
    if files == [] then []
    else AllSpectra(files[..|files| - 1], passing, failing) + FileSpectra(files[|files| - 1], passing, failing)
  }

  lemma AllSpectraStep(files: seq<FileCoverage>, i: nat, passing: set<string>, failing: set<string>)
    requires i < |files|
    ensures AllSpectra(files[..i + 1], passing, failing) == AllSpectra(files[..i], passing, failing) + FileSpectra(files[i], passing, failing)
  {
    assert files[..i + 1][..i] == files[..i];
  }

  /** The number of executed lines over all files. */
  function ExecutedLines(files: seq<FileCoverage>): nat
    decreases |files|
  {
    if files == [] then 0 else ExecutedLines(files[..|files| - 1]) + |files[|files| - 1].executed|
  }

  /**
   * Exactly one spectrum per executed line: as many as there are
   * executed lines, each at an executed line of its file, and every
   * executed line has its spectrum.
   */
  lemma {:induction false} AllSpectraCoverLines(files: seq<FileCoverage>, passing: set<string>, failing: set<string>)
    ensures |AllSpectra(files, passing, failing)| == ExecutedLines(files)
    ensures forall s :: s in AllSpectra(files, passing, failing) ==>
      exists i, j :: 0 <= i < |files| && 0 <= j < |files[i].executed|
                     && s == SpectrumOf(files[i].file, files[i].executed[j], passing, failing)
    ensures forall i, j :: 0 <= i < |files| && 0 <= j < |files[i].executed| ==>
      SpectrumOf(files[i].file, files[i].executed[j], passing, failing) in AllSpectra(files, passing, failing)
    decreases |files|
  {
    if files != [] {
      var init := files[..|files| - 1];
      var last := files[|files| - 1];
      AllSpectraCoverLines(init, passing, failing);
      var r := AllSpectra(files, passing, failing);
      var here := FileSpectra(last, passing, failing);
      assert r == AllSpectra(init, passing, failing) + here;
      forall s | s in r
        ensures exists i, j :: 0 <= i < |files| && 0 <= j < |files[i].executed|
                               && s == SpectrumOf(files[i].file, files[i].executed[j], passing, failing)
      {
        if s in here {
          var j :| 0 <= j < |here| && here[j] == s;
          assert files[|files| - 1] == last;
        } else {
          var i, j :| 0 <= i < |init| && 0 <= j < |init[i].executed|
                      && s == SpectrumOf(init[i].file, init[i].executed[j], passing, failing);
          assert files[i] == init[i];
        }
      }
      forall i, j | 0 <= i < |files| && 0 <= j < |files[i].executed|
        ensures SpectrumOf(files[i].file, files[i].executed[j], passing, failing) in r
      {
        if i == |files| - 1 {
          assert here[j] == SpectrumOf(files[i].file, files[i].executed[j], passing, failing);
        } else {
          assert files[i] == init[i];
        }
      }
    }
  }

  /** The tests named by the matching contexts, in order. */
  function MatchedTests(contexts: seq<string>): seq<string>
    decreases |contexts|
  {
    if contexts == [] then []
    else
      var init := MatchedTests(contexts[..|contexts| - 1]);
      match ContextTest(contexts[|contexts| - 1])
      case Some(t) => init + [t]
      case None => init
  }

  /** Adding a test not yet counted adds one to the count of its kind. */
  lemma CountStep(sb: set<string>, t: string, passing: set<string>, failing: set<string>)
    requires t !in sb
    ensures |(sb + {t}) * passing| == |sb * passing| + (if t in passing then 1 else 0)
    ensures |(sb + {t}) * failing - passing| == |sb * failing - passing| + (if t !in passing && t in failing then 1 else 0)
  {
    var sn := sb + {t};
    if t in passing {
      assert sn * passing == sb * passing + {t};
      assert sn * failing - passing == sb * failing - passing;
    } else if t in failing {
      assert sn * passing == sb * passing;
      assert sn * failing - passing == (sb * failing - passing) + {t};
    } else {
      assert sn * passing == sb * passing;
      assert sn * failing - passing == sb * failing - passing;
    }
  }

  /** The last context adds its test, not named before, to the matched tests of the others. */
  lemma MatchedStep(contexts: seq<string>)
    requires contexts != [] && NoDup(MatchedTests(contexts))
    ensures NoDup(MatchedTests(contexts[..|contexts| - 1]))
    ensures ContextTest(contexts[|contexts| - 1]).None? ==>
      MatchedTests(contexts) == MatchedTests(contexts[..|contexts| - 1])
    ensures ContextTest(contexts[|contexts| - 1]).Some? ==>
      && MatchedTests(contexts) == MatchedTests(contexts[..|contexts| - 1]) + [ContextTest(contexts[|contexts| - 1]).value]
      && ContextTest(contexts[|contexts| - 1]).value !in MatchedTests(contexts[..|contexts| - 1])
  {
    var before := MatchedTests(contexts[..|contexts| - 1]);
    var now := MatchedTests(contexts);
    var test := ContextTest(contexts[|contexts| - 1]);
    assert now == if test.Some? then before + [test.value] else before;
    forall i, j | 0 <= i < j < |before|
      ensures before[i] != before[j]
    {
      assert before[i] == now[i] && before[j] == now[j];
    }
    if test.Some? {
      forall i | 0 <= i < |before|
        ensures before[i] != test.value
      {
        assert before[i] == now[i] && test.value == now[|before|];
      }
    }
  }

  lemma TestSetAppend(s: seq<string>, x: string)
    ensures (set t | t in s + [x]) == (set t | t in s) + {x}
  {
  }

  /**
   * When no test is named twice in a line's contexts, `po` is the number
   * of passing tests that ran the line and `fo` the number of failing,
   * not passing, ones; so `pn` and `fn` are never negative.
   */
  lemma {:induction false} CountsAreTestCounts(contexts: seq<string>, passing: set<string>, failing: set<string>)
    requires NoDup(MatchedTests(contexts))
    ensures Counts(contexts, passing, failing).0 == |(set t | t in MatchedTests(contexts)) * passing|
    ensures Counts(contexts, passing, failing).1 == |(set t | t in MatchedTests(contexts)) * failing - passing|
    decreases |contexts|
  {
    if contexts != [] {
      var init := contexts[..|contexts| - 1];
      MatchedStep(contexts);
      CountsAreTestCounts(init, passing, failing);
      var before := MatchedTests(init);
      var sb := set t | t in before;
      var test := ContextTest(contexts[|contexts| - 1]);
      if test.Some? {
        TestSetAppend(before, test.value);
        CountStep(sb, test.value, passing, failing);
      }
    }
  }

  lemma CountsBounded(contexts: seq<string>, passing: set<string>, failing: set<string>)
    requires NoDup(MatchedTests(contexts))
    ensures Counts(contexts, passing, failing).0 <= |passing|
    ensures Counts(contexts, passing, failing).1 <= |failing|
  {
    CountsAreTestCounts(contexts, passing, failing);
    var s := set t | t in MatchedTests(contexts);
    SubsetCard(s * passing, passing);
    SubsetCard(s * failing - passing, failing);
  }

  // -----------------------------------------------------------------------
  // The localisation object

  /** `passing | failing`, else `tests`, else the default test directory: what pytest is asked to run. */
  function TestsToRun(passing: set<string>, failing: set<string>, tests: set<string>): (r: set<string>)
    ensures r != {}
    ensures passing + failing != {} ==> r == passing + failing
    ensures passing + failing == {} && tests != {} ==> r == tests
  {
    if passing + failing != {} then passing + failing
    else if tests != {} then tests
    else {"tests"}
  }

  /** The elements of an optional list, as a set (`set(xs or [])`). */
  function SetOf(xs: Option<seq<string>>): (r: set<string>)
    ensures xs.None? ==> r == {}
    ensures xs.Some? ==> forall t :: t in r <==> t in xs.value
  {
    if xs.None? then {} else set t | t in xs.value
  }

  class CoverageLocalization {
    var failing: set<string>
    var passing: set<string>
    var tests: set<string>
    var prepared: bool
    var spectra: seq<Spectrum>
    /** The suspiciousness metric, applied to a spectrum. */
    const metric: Spectrum -> Float

    /** The given tests as sets (empty when absent), no spectra yet, not prepared. */
    constructor(failing: Option<seq<string>>, passing: Option<seq<string>>, tests: Option<seq<string>>, metric: Spectrum -> Float)
      ensures this.failing == SetOf(failing) && this.passing == SetOf(passing) && this.tests == SetOf(tests)
      ensures !prepared && spectra == [] && this.metric == metric
    {
      this.failing := SetOf(failing);
      this.passing := SetOf(passing);
      this.tests := SetOf(tests);
      this.prepared := false;
      this.spectra := [];
      this.metric := metric;
    }

    /**
     * `run_preparation`: reset and refill the outcome sets from the
     * report, then append one spectrum per executed line.
     */
    method RunPreparation(report: seq<TestRecord>, files: seq<FileCoverage>)
      modifies this
      ensures passing == PassedIds(report) && failing == NotPassedIds(report)
      ensures spectra == old(spectra) + AllSpectra(files, passing, failing)
      ensures prepared == old(prepared) && tests == old(tests)
    {
      var p, f := Run(Some(report));
      var acc := SpectraOfFiles(files, p, f);
      passing, failing, spectra := p, f, spectra + acc;
    }

    /** The spectra of all files, file after file. */
    static method SpectraOfFiles(files: seq<FileCoverage>, passing: set<string>, failing: set<string>) returns (r: seq<Spectrum>)
      ensures r == AllSpectra(files, passing, failing)
    {
      r := [];
      for i := 0 to |files|
        invariant r == AllSpectra(files[..i], passing, failing)
      {
        var here := SpectraOfFile(files[i], passing, failing);
        AllSpectraStep(files, i, passing, failing);
        r := r + here;
      }
      assert files[..|files|] == files;
    }

    /** The spectra of one file's executed lines, in order. */
    static method SpectraOfFile(file: FileCoverage, passing: set<string>, failing: set<string>) returns (r: seq<Spectrum>)
      ensures r == FileSpectra(file, passing, failing)
    {
      r := [];
      var lines := file.executed;
      for j := 0 to |lines|
        invariant r == FileSpectra(file, passing, failing)[..j]
      {
        var po, fo := CountContexts(lines[j].contexts, passing, failing);
        var pn, fn := |passing| - po, |failing| - fo;
        r := r + [Spectrum(file.file, lines[j].line, po, pn, fo, fn)];
      }
    }

    /** The tally of one line's contexts against the outcome sets. */
    static method CountContexts(contexts: seq<string>, passing: set<string>, failing: set<string>) returns (po: nat, fo: nat)
      ensures (po, fo) == Counts(contexts, passing, failing)
    {
      po, fo := 0, 0;
      for k := 0 to |contexts|
        invariant (po, fo) == Counts(contexts[..k], passing, failing)
      {
        assert contexts[..k + 1][..k] == contexts[..k];
        var m := ContextTest(contexts[k]);
        if m.Some? {
          var test := m.value;
          if test in passing {
            po := po + 1;
          } else if test in failing {
            fo := fo + 1;
          }
        }
      }
      assert contexts[..|contexts|] == contexts;
    }

    /** `prepare`: run the preparation the first time only. */
    method Prepare(report: seq<TestRecord>, files: seq<FileCoverage>)
      modifies this
      ensures prepared
      ensures old(prepared) ==> passing == old(passing) && failing == old(failing) && spectra == old(spectra)
      ensures !old(prepared) ==>
        && passing == PassedIds(report) && failing == NotPassedIds(report)
        && spectra == old(spectra) + AllSpectra(files, passing, failing)
      ensures tests == old(tests)
    {
      if !prepared {
        RunPreparation(report, files);
        prepared := true;
      }
    }

    /** `get_suggestions`: one weighted location per spectrum, in order, weighted by the metric. */
    function GetSuggestions(): (r: seq<WeightedLocation>)
      reads this
      ensures |r| == |spectra|
      ensures forall i :: 0 <= i < |r| ==>
        r[i] == NewWeightedLocation(spectra[i].file, spectra[i].line, metric(spectra[i]))
    {
      seq(|spectra|, i requires 0 <= i < |spectra| reads this => NewWeightedLocation(spectra[i].file, spectra[i].line, metric(spectra[i])))
    }

    /**
     * `get_sorted_suggestions`: refused with a LocalizationError until
     * prepared; then the suggestions sorted by descending weight, equal
     * weights in their original order.
     */
    method GetSortedSuggestions() returns (r: Result<seq<WeightedLocation>>)
      ensures !prepared ==> r == Err(LocalizationError)
      ensures prepared ==> (r.Ok?
        && multiset(r.value) == multiset(GetSuggestions())
        && NonIncreasing(r.value, ByWeight)
        && forall v :: WithKey(r.value, ByWeight, v) == WithKey(GetSuggestions(), ByWeight, v))
    {
      if !prepared {
        return Err(LocalizationError);
      }
      var sorted := SortDesc(GetSuggestions(), ByWeight);
      forall v
        ensures WithKey(sorted, ByWeight, v) == WithKey(GetSuggestions(), ByWeight, v)
      {
        SortDescStable(GetSuggestions(), ByWeight, v);
      }
      return Ok(sorted);
    }
  }

  /** The key the Weighted comparisons order by. */
  function ByWeight(w: WeightedLocation): real
  {
    w.weight
  }
}
