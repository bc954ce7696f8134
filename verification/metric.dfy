/**
 * The GenProg fitness metric: a weighted share of the originally passing
 * and originally failing tests that a candidate passes, and the
 * classification of a test run's outcomes into passing and failing sets.
 */
module Metric {
  import opened Util

  /** `GenProgFitness(passing, failing, w_pos_t, w_neg_t)`: the reference test sets and their weights. */
  datatype GenProgFitness = GenProgFitness(
    passing: set<string>,
    failing: set<string>,
    wPos: real,
    wNeg: real)

  /** The constructor's defaults: weight 1 for passing tests, 10 for failing ones. */
  function DefaultGenProg(passing: set<string>, failing: set<string>): (f: GenProgFitness)
    ensures f.passing == passing && f.failing == failing
    ensures f.wPos == 1.0 && f.wNeg == 10.0
  {
    GenProgFitness(passing, failing, 1.0, 10.0)
  }

  /** `w1·n1 + w2·n2`: a weighted count of tests of two kinds. */
  function Weighted(w1: real, n1: nat, w2: real, n2: nat): real
  {
    w1 * (n1 as real) + w2 * (n2 as real)
  }

  /** The weighted number of reference tests. */
  function Denominator(f: GenProgFitness): real
  {
    Weighted(f.wPos, |f.passing|, f.wNeg, |f.failing|)
  }

  /** The weighted number of reference tests among `passed`. */
  function Numerator(f: GenProgFitness, passed: set<string>): real
  {
    Weighted(f.wPos, |passed * f.passing|, f.wNeg, |passed * f.failing|)
  }

  /**
   * `fitness(passing, failing)`: the weighted number of reference tests
   * in `passed`, divided by the weighted number of reference tests; the
   * second argument plays no part, and a zero divisor raises.
   */
  function Score(f: GenProgFitness, passed: set<string>, failed: set<string>): (r: Result<real>)
    ensures r.Err? <==> Denominator(f) == 0.0
    ensures r.Err? ==> r.error == ZeroDivisionError
    ensures r.Ok? ==> r.value * Denominator(f) == Numerator(f, passed)
  {
    var den := Denominator(f);
    if den == 0.0 then Err(ZeroDivisionError)
    else Ok(Numerator(f, passed) / den)
  }

  lemma {:induction false} SubsetCard<T>(a: set<T>, b: set<T>)
    requires a <= b
    ensures |a| <= |b|
    decreases b
  {
    if b != {} {
      var x :| x in b;
      SubsetCard(a - {x}, b - {x});
    }
  }

  /** A proper subset is strictly smaller. */
  lemma StrictSubsetCard<T>(a: set<T>, b: set<T>)
    requires a <= b && a != b
    ensures |a| < |b|
  {
    var x :| x in b && x !in a;
    SubsetCard(a, b - {x});
  }

  lemma MulLe(w: real, a: real, b: real)
    requires w >= 0.0 && a <= b
    ensures w * a <= w * b
  {
    assert w * b - w * a == w * (b - a);
  }

  lemma MulLt(w: real, a: real, b: real)
    requires w > 0.0 && a < b
    ensures w * a < w * b
  {
    assert w * b - w * a == w * (b - a);
  }

  lemma SumBelow(x: real, y: real, u: real, v: real)
    requires x < y && u <= v
    ensures x + u < y + v && u + x < v + y
  {
  }

  lemma DivUnit(n: real, d: real)
    requires d > 0.0 && 0.0 <= n <= d
    ensures 0.0 <= n / d <= 1.0
    ensures n / d == 1.0 <==> n == d
  {
  }

  /** Two non-negative weights applied to counts below their bounds. */
  lemma WeightedSumBounds(w1: real, a: nat, n: nat, w2: real, b: nat, m: nat)
    requires w1 >= 0.0 && w2 >= 0.0 && a <= n && b <= m
    ensures 0.0 <= Weighted(w1, a, w2, b) <= Weighted(w1, n, w2, m)
  {
    MulLe(w1, a as real, n as real);
    MulLe(w2, b as real, m as real);
    MulLe(w1, 0.0, a as real);
    MulLe(w2, 0.0, b as real);
  }

  /** With positive weights, one count strictly below its bound keeps the sum strictly below. */
  lemma WeightedSumStrict(w1: real, a: nat, n: nat, w2: real, b: nat, m: nat)
    requires w1 > 0.0 && w2 > 0.0 && a <= n && b <= m && (a < n || b < m)
    ensures Weighted(w1, a, w2, b) < Weighted(w1, n, w2, m)
  {
    var ar, nr, br, mr := a as real, n as real, b as real, m as real;
    MulLe(w1, ar, nr);
    MulLe(w2, br, mr);
    if a < n {
      MulLt(w1, ar, nr);
      SumBelow(w1 * ar, w1 * nr, w2 * br, w2 * mr);
    } else {
      MulLt(w2, br, mr);
      SumBelow(w2 * br, w2 * mr, w1 * ar, w1 * nr);
    }
  }

  /** Each weighted count is bounded by the weighted size of its reference set. */
  lemma NumeratorBounds(f: GenProgFitness, passed: set<string>)
    requires f.wPos >= 0.0 && f.wNeg >= 0.0
    ensures 0.0 <= Numerator(f, passed) <= Denominator(f)
  {
    SubsetCard(passed * f.passing, f.passing);
    SubsetCard(passed * f.failing, f.failing);
    WeightedSumBounds(f.wPos, |passed * f.passing|, |f.passing|, f.wNeg, |passed * f.failing|, |f.failing|);
  }

  /** With non-negative weights and a positive divisor the score lies in [0, 1]. */
  lemma ScoreInUnitRange(f: GenProgFitness, passed: set<string>, failed: set<string>)
    requires f.wPos >= 0.0 && f.wNeg >= 0.0 && Denominator(f) > 0.0
    ensures Score(f, passed, failed).Ok?
    ensures 0.0 <= Score(f, passed, failed).value <= 1.0
  {
    NumeratorBounds(f, passed);
    DivUnit(Numerator(f, passed), Denominator(f));
  }

  lemma AllReferencePassed(pass: set<string>, fail: set<string>, passed: set<string>)
    ensures pass + fail <= passed <==> passed * pass == pass && passed * fail == fail
  {
  }

  /** With positive weights the numerator reaches the divisor iff every reference test passed. */
  lemma NumeratorFullIffAllPass(f: GenProgFitness, passed: set<string>)
    requires f.wPos > 0.0 && f.wNeg > 0.0
    ensures Numerator(f, passed) == Denominator(f) <==> f.passing + f.failing <= passed
  {
    var p, q := passed * f.passing, passed * f.failing;
    SubsetCard(p, f.passing);
    SubsetCard(q, f.failing);
    AllReferencePassed(f.passing, f.failing, passed);
    if p == f.passing && q == f.failing {
      assert |p| == |f.passing| && |q| == |f.failing|;
    } else {
      if p != f.passing {
        StrictSubsetCard(p, f.passing);
      } else {
        StrictSubsetCard(q, f.failing);
      }
      WeightedSumStrict(f.wPos, |p|, |f.passing|, f.wNeg, |q|, |f.failing|);
    }
  }

  /** With positive weights the divisor is positive as soon as there is a reference test. */
  lemma DenominatorPositive(f: GenProgFitness)
    requires f.wPos > 0.0 && f.wNeg > 0.0 && f.passing + f.failing != {}
    ensures Denominator(f) > 0.0
  {
    var n, m := |f.passing| as real, |f.failing| as real;
    assert Denominator(f) == f.wPos * n + f.wNeg * m;
    if f.passing != {} {
      MulLt(f.wPos, 0.0, n);
      MulLe(f.wNeg, 0.0, m);
      SumBelow(f.wPos * 0.0, f.wPos * n, f.wNeg * 0.0, f.wNeg * m);
    } else {
      assert f.failing != {};
      MulLe(f.wPos, 0.0, n);
      MulLt(f.wNeg, 0.0, m);
      SumBelow(f.wNeg * 0.0, f.wNeg * m, f.wPos * 0.0, f.wPos * n);
    }
  }

  /** With positive weights a candidate scores exactly 1 iff it passes every reference test. */
  lemma PerfectScoreIffAllPass(f: GenProgFitness, passed: set<string>, failed: set<string>)
    requires f.wPos > 0.0 && f.wNeg > 0.0
    ensures Score(f, passed, failed) == Ok(1.0)
        <==> f.passing + f.failing != {} && f.passing + f.failing <= passed
  {
    if f.passing + f.failing == {} {
      assert f.passing == {} && f.failing == {};
      assert Denominator(f) == 0.0;
    } else {
      DenominatorPositive(f);
      NumeratorBounds(f, passed);
      NumeratorFullIffAllPass(f, passed);
      DivUnit(Numerator(f, passed), Denominator(f));
      assert Score(f, passed, failed) == Ok(Numerator(f, passed) / Denominator(f));
    }
  }

  /**
   * The unchanged program passes exactly the originally passing tests, so
   * it scores `w_pos·|P| / (w_pos·|P| + w_neg·|F|)` when P and F are disjoint.
   */
  lemma UnchangedProgramScore(f: GenProgFitness)
    requires f.passing * f.failing == {} && Denominator(f) != 0.0
    ensures Score(f, f.passing, f.failing)
         == Ok(f.wPos * (|f.passing| as real) / Denominator(f))
  {
    assert f.passing * f.passing == f.passing;
    assert |f.passing * f.failing| == 0;
    assert Numerator(f, f.passing) == f.wPos * (|f.passing| as real);
  }

  /** Five passing tests, one failing test, weights 1 and 10: the unchanged program scores 1/3. */
  lemma MiddleExampleScore(p: set<string>, fl: set<string>)
    requires |p| == 5 && |fl| == 1 && p * fl == {}
    ensures Score(DefaultGenProg(p, fl), p, fl) == Ok(1.0 / 3.0)
  {
    UnchangedProgramScore(DefaultGenProg(p, fl));
  }

  /** No reference tests at all: the divisor is zero and scoring raises. */
  lemma NoReferenceTestsRaises(f: GenProgFitness, passed: set<string>, failed: set<string>)
    requires f.passing == {} && f.failing == {}
    ensures Score(f, passed, failed) == Err(ZeroDivisionError)
  {
  }

  // -----------------------------------------------------------------------
  // Running the tests

  /** One entry of the JSON report: a test node id and its outcome string. */
  datatype TestRecord = TestRecord(nodeid: string, outcome: string)

  ghost function PassedIds(records: seq<TestRecord>): set<string>
  {
    set i | 0 <= i < |records| && records[i].outcome == "passed" :: records[i].nodeid
  }

  ghost function NotPassedIds(records: seq<TestRecord>): set<string>
  {
    set i | 0 <= i < |records| && records[i].outcome != "passed" :: records[i].nodeid
  }

  /**
   * `run`: `report` is the parsed report, or None when the test run timed
   * out. Outcome "passed" puts the node id in the first set, every other
   * outcome in the second; a timeout gives two empty sets.
   */
  method Run(report: Option<seq<TestRecord>>) returns (passing: set<string>, failing: set<string>)
    ensures report.None? ==> passing == {} && failing == {}
    ensures report.Some? ==> passing == PassedIds(report.value) && failing == NotPassedIds(report.value)
  {
    passing, failing := {}, {};
    if report.Some? {
      var records := report.value;
      var i := 0;
      while i < |records|
        invariant 0 <= i <= |records|
        invariant passing == PassedIds(records[..i])
        invariant failing == NotPassedIds(records[..i])
      {
        assert records[..i + 1][..i] == records[..i];
        if records[i].outcome == "passed" {
          passing := passing + {records[i].nodeid};
        } else {
          failing := failing + {records[i].nodeid};
        }
        i := i + 1;
      }
      assert records[..i] == records;
    }
  }

  /** `evaluate_fitness`: run, then score what passed. */
  method EvaluateFitness(f: GenProgFitness, report: Option<seq<TestRecord>>) returns (r: Result<real>)
    ensures report.Some? ==> r == Score(f, PassedIds(report.value), NotPassedIds(report.value))
    ensures report.None? ==> r == Score(f, {}, {})
  {
    var passing, failing := Run(report);
    r := Score(f, passing, failing);
  }

  /** A timed-out run passes nothing and so scores 0 (or raises when there are no reference tests). */
  lemma TimeoutScoresZero(f: GenProgFitness)
    ensures Denominator(f) != 0.0 ==> Score(f, {}, {}) == Ok(0.0)
    ensures Denominator(f) == 0.0 ==> Score(f, {}, {}) == Err(ZeroDivisionError)
  {
    var none: set<string> := {};
    assert none * f.passing == {} && none * f.failing == {};
    assert Numerator(f, none) == 0.0;
  }
}
