/**
 * Adaptive enumeration (AE): candidates are enumerated deterministically,
 * shortest first, as every sequence of up to `k` operators drawn from a
 * repair strategy; each one not equivalent to an earlier one is tested,
 * test by test in order of how often the test failed so far, until one
 * passes every test.
 *
 * The strategy's generator is modelled by the sequence of operators it
 * yields, and a generator object by the number of items it has produced.
 */
module AE {
  import opened Util
  import opened Operators
  import opened Candidates
  import opened Location
  import opened Engine

  // -----------------------------------------------------------------------
  // The odometer of `candidate_repairs`

  /** A sequence of `i` positions into a strategy of `n` operators. */
  predicate Tuple(t: seq<nat>, i: nat, n: nat)
  {
    |t| == i && forall j :: 0 <= j < i ==> t[j] < n
  }

  /**
   * What a digit shows: the last item its generator produced, or, right
   * after the generator was restarted, the last item of the strategy,
   * which the state still holds.
   */
  function Shown(c: nat, n: nat): nat
    requires 0 < n
  {
    if c >= 1 then c - 1 else n - 1
  }

  function Digits(c: seq<nat>, n: nat): (x: seq<nat>)
    requires 0 < n
    ensures |x| == |c| && forall j :: 0 <= j < |c| ==> x[j] == Shown(c[j], n)
  {
    seq(|c|, j requires 0 <= j < |c| => Shown(c[j], n))
  }

  /** `t` and `x` agree above digit `j` and `t` is lower at `j`. */
  predicate Earlier(t: seq<nat>, x: seq<nat>, j: nat)
    requires |t| == |x| && j < |t|
  {
    t[j + 1..] == x[j + 1..] && t[j] < x[j]
  }

  /**
   * What has been yielded when the odometer is at digit `current` with
   * generator counters `c`: every tuple that is earlier at a digit above
   * `current`; every tuple up to the state at `current` once that digit
   * has produced something since its restart; the state itself otherwise;
   * and everything once all digits are exhausted.
   */
  ghost predicate Swept(r: seq<seq<nat>>, c: seq<nat>, current: nat, n: nat)
    requires 0 < n && current <= |c|
  {
    var i, x := |c|, Digits(c, n);
    && (forall t :: Tuple(t, i, n) && (exists j :: current < j < i && Earlier(t, x, j)) ==> t in r)
    && (current < i && c[current] >= 1 ==>
          forall t :: Tuple(t, i, n) && t[current + 1..] == x[current + 1..] && t[current] <= x[current] ==> t in r)
    && (current < i && c[current] == 0 ==> x in r)
    && (current == i ==> forall t :: Tuple(t, i, n) ==> t in r)
  }

  /** Generators below `current` are fresh, those above have produced something. */
  predicate Counters(c: seq<nat>, current: nat, n: nat)
  {
    && current <= |c|
    && (forall j :: 0 <= j < |c| ==> c[j] <= n)
    && (forall j :: 0 <= j < current ==> c[j] == 0)
    && (forall j :: current < j < |c| ==> c[j] >= 1)
  }

  function Pow(b: nat, e: nat): (p: nat)
    requires b >= 1
    ensures p >= 1
  {
    if e == 0 then 1 else b * Pow(b, e - 1)
  }

  /** The items the generators from digit `lo` up have still to produce, as a number in base n + 1. */
  function Potential(c: seq<nat>, lo: nat, n: nat): nat
    requires forall j :: 0 <= j < |c| ==> c[j] <= n
    decreases |c| - lo
  {
    if lo >= |c| then 0 else (n - c[lo]) * Pow(n + 1, lo) + Potential(c, lo + 1, n)
  }

  lemma {:induction false} PotentialUpdate(c: seq<nat>, lo: nat, m: nat, v: nat, n: nat)
    requires forall j :: 0 <= j < |c| ==> c[j] <= n
    requires lo <= m < |c| && v <= n
    ensures Potential(c[m := v], lo, n) + (n - c[m]) * Pow(n + 1, m) == Potential(c, lo, n) + (n - v) * Pow(n + 1, m)
    decreases |c| - lo
  {
    if lo < m {
      PotentialUpdate(c, lo + 1, m, v, n);
    } else {
      PotentialAbove(c, lo + 1, m, v, n);
    }
  }

  lemma {:induction false} PotentialAbove(c: seq<nat>, lo: nat, m: nat, v: nat, n: nat)
    requires forall j :: 0 <= j < |c| ==> c[j] <= n
    requires m < lo && m < |c| && v <= n
    ensures Potential(c[m := v], lo, n) == Potential(c, lo, n)
    decreases |c| - lo
  {
    if lo < |c| {
      PotentialAbove(c, lo + 1, m, v, n);
    }
  }

  /** Advancing digit m and moving down one digit costs a unit of the digit below. */
  lemma AdvanceDecreases(c: seq<nat>, m: nat, n: nat)
    requires forall j :: 0 <= j < |c| ==> c[j] <= n
    requires 0 < m < |c| && c[m] < n && c[m - 1] == 0
    ensures Potential(c[m := c[m] + 1], m - 1, n) < Potential(c, m, n)
  {
    var c' := c[m := c[m] + 1];
    PotentialUpdate(c, m, m, c[m] + 1, n);
    var p := Pow(n + 1, m - 1);
    var q := Pow(n + 1, m);
    assert q == (n + 1) * p;
    assert Potential(c', m, n) + q == Potential(c, m, n) by {
      assert (n - c[m]) * q == (n - (c[m] + 1)) * q + q;
    }
    assert Potential(c', m - 1, n) == n * p + Potential(c', m, n);
    assert n * p < q;
  }

  /** An advance keeps the counters in shape, changes one digit, and lowers the potential. */
  lemma AdvanceCounters(c: seq<nat>, current: nat, n: nat)
    requires 0 < n && current < |c| && Counters(c, current, n) && c[current] < n
    ensures var c' := c[current := c[current] + 1];
            var current' := if current == 0 then 0 else current - 1;
            && Counters(c', current', n)
            && Digits(c', n) == Digits(c, n)[current := c[current]]
            && Potential(c', current', n) < Potential(c, current, n)
  {
    if current > 0 {
      AdvanceDecreases(c, current, n);
    } else {
      PotentialUpdate(c, 0, 0, c[0] + 1, n);
    }
  }

  lemma AdvanceKeepsSwept(r: seq<seq<nat>>, c: seq<nat>, current: nat, n: nat)
    requires 0 < n && current < |c| && Counters(c, current, n) && c[current] < n
    requires Swept(r, c, current, n)
    ensures var c' := c[current := c[current] + 1];
            var current' := if current == 0 then 0 else current - 1;
            Swept(r + [Digits(c', n)], c', current', n)
  {
    var c' := c[current := c[current] + 1];
    var current' := if current == 0 then 0 else current - 1;
    AdvanceEarlier(r, c, current, n);
    if current == 0 {
      AdvanceFirst(r, c, n);
    } else {
      assert c'[current'] == 0;
    }
  }

  /** After an advance, every tuple earlier at a digit above the new current one has been yielded. */
  lemma AdvanceEarlier(r: seq<seq<nat>>, c: seq<nat>, current: nat, n: nat)
    requires 0 < n && current < |c| && Counters(c, current, n) && c[current] < n
    requires Swept(r, c, current, n)
    ensures var c' := c[current := c[current] + 1];
            var x' := Digits(c', n);
            var current' := if current == 0 then 0 else current - 1;
            forall t :: Tuple(t, |c|, n) && (exists j :: current' < j < |c| && Earlier(t, x', j)) ==> t in r + [x']
  {
    var i, x := |c|, Digits(c, n);
    var c' := c[current := c[current] + 1];
    var x' := Digits(c', n);
    var current' := if current == 0 then 0 else current - 1;
    var r' := r + [x'];
    assert forall j :: 0 <= j < i && j != current ==> x'[j] == x[j];
    forall t | Tuple(t, i, n) && (exists j :: current' < j < i && Earlier(t, x', j))
      ensures t in r'
    {
      var j :| current' < j < i && Earlier(t, x', j);
      if j > current {
        assert t[j + 1..] == x'[j + 1..] == x[j + 1..];
        assert Earlier(t, x, j);
      } else if j == current {
        assert c[current] >= 1;
        assert t[current + 1..] == x'[current + 1..] == x[current + 1..];
      }
    }
  }

  /** After an advance of the lowest digit, every tuple up to the new state has been yielded. */
  lemma AdvanceFirst(r: seq<seq<nat>>, c: seq<nat>, n: nat)
    requires 0 < n && 0 < |c| && Counters(c, 0, n) && c[0] < n
    requires Swept(r, c, 0, n)
    ensures var c' := c[0 := c[0] + 1];
            var x' := Digits(c', n);
            forall t :: Tuple(t, |c|, n) && t[1..] == x'[1..] && t[0] <= x'[0] ==> t in r + [x']
  {
    var x := Digits(c, n);
    var c' := c[0 := c[0] + 1];
    var x' := Digits(c', n);
    var r' := r + [x'];
    assert forall j :: 1 <= j < |c| ==> x'[j] == x[j];
    forall t | Tuple(t, |c|, n) && t[1..] == x'[1..] && t[0] <= x'[0]
      ensures t in r'
    {
      if t[0] == x'[0] {
        assert t == [t[0]] + t[1..] == [x'[0]] + x'[1..] == x';
      } else {
        assert c[0] >= 1;
        assert t[1..] == x[1..];
      }
    }
  }

  lemma RestartKeepsSwept(r: seq<seq<nat>>, c: seq<nat>, current: nat, n: nat)
    requires 0 < n && current < |c| && Counters(c, current, n) && c[current] == n
    requires Swept(r, c, current, n)
    ensures var c' := c[current := 0];
            && Counters(c', current + 1, n)
            && Swept(r, c', current + 1, n)
            && Potential(c', current + 1, n) == Potential(c, current, n)
  {
    var i, x := |c|, Digits(c, n);
    var c' := c[current := 0];
    var x' := Digits(c', n);
    assert x' == x;
    PotentialAbove(c, current + 1, current, 0, n);
    if current + 1 < i {
      forall t | Tuple(t, i, n) && t[current + 2..] == x[current + 2..] && t[current + 1] <= x[current + 1]
        ensures t in r
      {
        if t[current + 1] < x[current + 1] {
          assert Earlier(t, x, current + 1);
        } else {
          assert t[current + 1..] == [t[current + 1]] + t[current + 2..] == [x[current + 1]] + x[current + 2..] == x[current + 1..];
        }
      }
    } else {
      forall t | Tuple(t, i, n)
        ensures t in r
      {
        assert t[current + 1..] == [] == x[current + 1..];
      }
    }
  }

  lemma InitiallySwept(i: nat, n: nat)
    requires 0 < n && 0 < i
    ensures var c: seq<nat> := seq(i, _ => 1);
            && Counters(c, 0, n) && Digits(c, n) == seq(i, _ => 0)
            && Swept([seq(i, _ => 0)], c, 0, n)
  {
    var c: seq<nat> := seq(i, _ => 1);
    var state: seq<nat> := seq(i, _ => 0);
    assert Digits(c, n) == state;
    forall t | Tuple(t, i, n) && t[1..] == state[1..] && t[0] <= state[0]
      ensures t in [state]
    {
      assert t == [t[0]] + t[1..] == state;
    }
  }

  /**
   * The states one width of `candidate_repairs` yields, as positions into
   * a strategy of `n` operators: `i` generators, each started once; then
   * the lowest generator is advanced, an exhausted one is restarted and
   * the next one up advanced, and after every advance the odometer moves
   * down one digit. Every tuple of `i` positions is yielded, the first
   * being all zeros.
   */
  method Odometer(n: nat, i: nat) returns (r: seq<seq<nat>>)
    requires 0 < n && 0 < i
    ensures r != [] && r[0] == seq(i, _ => 0)
    ensures forall t :: t in r ==> Tuple(t, i, n)
    ensures forall t :: Tuple(t, i, n) ==> t in r
  {
    var c: seq<nat> := seq(i, _ => 1);
    var state: seq<nat> := seq(i, _ => 0);
    InitiallySwept(i, n);
    r := [state];
    var current: nat := 0;
    while current < i
      invariant OdometerAt(r, c, current, n, i) && state == Digits(c, n)
      decreases Potential(c, current, n), i - current
    {
      if c[current] < n {
        AdvanceStep(r, c, current, n, i);
        state := state[current := c[current]];
        c := c[current := c[current] + 1];
        current := if current == 0 then 0 else current - 1;
        r := r + [state];
      } else {
        RestartStep(r, c, current, n, i);
        c := c[current := 0];
        current := current + 1;
      }
    }
  }

  /** The invariant of the odometer loop: counters in shape, and what has been yielded so far. */
  ghost predicate OdometerAt(r: seq<seq<nat>>, c: seq<nat>, current: nat, n: nat, i: nat)
    requires 0 < n
  {
    && Counters(c, current, n) && |c| == i
    && r != [] && r[0] == seq(i, _ => 0)
    && (forall t :: t in r ==> Tuple(t, i, n))
    && Swept(r, c, current, n)
  }

  lemma AdvanceStep(r: seq<seq<nat>>, c: seq<nat>, current: nat, n: nat, i: nat)
    requires 0 < n && current < i && OdometerAt(r, c, current, n, i) && c[current] < n
    ensures var c' := c[current := c[current] + 1];
            var current' := if current == 0 then 0 else current - 1;
            && Digits(c', n) == Digits(c, n)[current := c[current]]
            && OdometerAt(r + [Digits(c', n)], c', current', n, i)
            && Potential(c', current', n) < Potential(c, current, n)
  {
    AdvanceCounters(c, current, n);
    AdvanceKeepsSwept(r, c, current, n);
    var c' := c[current := c[current] + 1];
    assert Tuple(Digits(c', n), i, n);
    assert (r + [Digits(c', n)])[0] == r[0];
  }

  lemma RestartStep(r: seq<seq<nat>>, c: seq<nat>, current: nat, n: nat, i: nat)
    requires 0 < n && current < i && OdometerAt(r, c, current, n, i) && c[current] == n
    ensures var c' := c[current := 0];
            && Digits(c', n) == Digits(c, n)
            && OdometerAt(r, c', current + 1, n, i)
            && Potential(c', current + 1, n) == Potential(c, current, n)
  {
    RestartKeepsSwept(r, c, current, n);
    assert Digits(c[current := 0], n) == Digits(c, n);
  }

  // -----------------------------------------------------------------------
  // `candidate_repairs`

  /** The operators a state shows. */
  function Ops(strategy: seq<Op>, t: seq<nat>): (r: seq<Op>)
    requires forall j :: 0 <= j < |t| ==> t[j] < |strategy|
    ensures |r| == |t| && forall j :: 0 <= j < |t| ==> r[j] == strategy[t[j]]
  {
    seq(|t|, j requires 0 <= j < |t| => strategy[t[j]])
  }

  function IndexOf(s: seq<Op>, x: Op): (i: nat)
    requires x in s
    ensures i < |s| && s[i] == x
  {
    if s[0] == x then 0 else 1 + IndexOf(s[1..], x)
  }

  /** A candidate of the enumeration: an offspring of the initial candidate with 1 to k operators of the strategy. */
  predicate Enumerated(c: GeneticCandidate, initial: GeneticCandidate, strategy: seq<Op>, k: int)
  {
    && c == Offspring(initial, c.mutations, true)
    && 1 <= |c.mutations| <= k
    && forall j :: 0 <= j < |c.mutations| ==> c.mutations[j] in strategy
  }

  /**
   * `candidate_repairs`: for every width from 1 to k, the odometer's
   * states as offspring of the initial candidate. Every sequence of 1 to
   * k operators of the strategy is among them, and nothing else is; the
   * first is the strategy's first operator alone. A strategy that yields
   * nothing makes the first `next` raise, which the generator turns into
   * a RuntimeError.
   */
  method CandidateRepairs(initial: GeneticCandidate, strategy: seq<Op>, k: int) returns (r: Result<seq<GeneticCandidate>>)
    ensures r.Err? <==> k >= 1 && strategy == []
    ensures r.Err? ==> r.error == RuntimeError
    ensures r.Ok? ==> forall c :: c in r.value ==> Enumerated(c, initial, strategy, k)
    ensures r.Ok? ==> forall w :: 1 <= |w| <= k && (forall j :: 0 <= j < |w| ==> w[j] in strategy)
                                 ==> Offspring(initial, w, true) in r.value
    ensures r.Ok? && k >= 1 ==> r.value != [] && r.value[0] == Offspring(initial, [strategy[0]], true)
    ensures r.Ok? ==> forall p, q :: 0 <= p < q < |r.value| ==> |r.value[p].mutations| <= |r.value[q].mutations|
  {
    if k < 1 {
      return Ok([]);
    }
    if strategy == [] {
      return Err(RuntimeError);
    }
    var result: seq<GeneticCandidate> := [];
    for i := 1 to k + 1
      invariant forall c :: c in result ==> Enumerated(c, initial, strategy, i - 1)
      invariant forall w :: 1 <= |w| < i && (forall j :: 0 <= j < |w| ==> w[j] in strategy)
                            ==> Offspring(initial, w, true) in result
      invariant i == 1 ==> result == []
      invariant i > 1 ==> result != [] && result[0] == Offspring(initial, [strategy[0]], true)
      invariant WidthsAscend(result, i)
    {
      var width := OfWidth(initial, strategy, i);
      if i == 1 {
        assert seq(1, _ => strategy[0]) == [strategy[0]];
      }
      WidthsAscendAppend(result, width, i);
      result := result + width;
    }
    return Ok(result);
  }

  /** The candidates come in non-decreasing number of operators, all fewer than `i`. */
  predicate WidthsAscend(cs: seq<GeneticCandidate>, i: nat)
  {
    && (forall p :: 0 <= p < |cs| ==> |cs[p].mutations| < i)
    && (forall p, q :: 0 <= p < q < |cs| ==> |cs[p].mutations| <= |cs[q].mutations|)
  }

  /** Appending the candidates of width `i` keeps the widths in order. */
  lemma WidthsAscendAppend(cs: seq<GeneticCandidate>, width: seq<GeneticCandidate>, i: nat)
    requires WidthsAscend(cs, i)
    requires forall q :: 0 <= q < |width| ==> |width[q].mutations| == i
    ensures WidthsAscend(cs + width, i + 1)
  {
    var r := cs + width;
    forall p, q | 0 <= p < q < |r|
      ensures |r[p].mutations| <= |r[q].mutations|
    {
      if q < |cs| {
        assert r[p] == cs[p] && r[q] == cs[q];
      } else if p < |cs| {
        assert r[p] == cs[p] && r[q] == width[q - |cs|];
      } else {
        assert r[p] == width[p - |cs|] && r[q] == width[q - |cs|];
      }
    }
  }

  /** The offspring of one width: every sequence of exactly i operators of the strategy, the first one repeated first. */
  method OfWidth(initial: GeneticCandidate, strategy: seq<Op>, i: nat) returns (width: seq<GeneticCandidate>)
    requires strategy != [] && 0 < i
    ensures forall c :: c in width ==> Enumerated(c, initial, strategy, i)
    ensures forall w :: |w| == i && (forall j :: 0 <= j < |w| ==> w[j] in strategy) ==> Offspring(initial, w, true) in width
    ensures width != [] && width[0] == Offspring(initial, seq(i, _ => strategy[0]), true)
    ensures forall q :: 0 <= q < |width| ==> |width[q].mutations| == i
  {
    var states := Odometer(|strategy|, i);
    assert forall q :: 0 <= q < |states| ==> Tuple(states[q], i, |strategy|);
    width := seq(|states|, q requires 0 <= q < |states| => Offspring(initial, Ops(strategy, states[q]), true));
    forall w | |w| == i && (forall j :: 0 <= j < |w| ==> w[j] in strategy)
      ensures Offspring(initial, w, true) in width
    {
      var t := seq(i, j requires 0 <= j < i => IndexOf(strategy, w[j]));
      assert Tuple(t, i, |strategy|);
      var q :| 0 <= q < |states| && states[q] == t;
      assert Ops(strategy, t) == w;
      assert width[q] == Offspring(initial, w, true);
    }
    forall c | c in width
      ensures Enumerated(c, initial, strategy, i)
    {
      var q :| 0 <= q < |states| && width[q] == c;
      assert c.mutations == Ops(strategy, states[q]);
    }
    assert Ops(strategy, states[0]) == seq(i, _ => strategy[0]);
  }

  // -----------------------------------------------------------------------
  // `repair_strategy`

  /** The suggestions' identifiers, in order. */
  function Identifiers(suggestions: seq<WeightedIdentifier>): (r: seq<int>)
    ensures |r| == |suggestions| && forall i :: 0 <= i < |r| ==> r[i] == suggestions[i].identifier
  {
    seq(|suggestions|, i requires 0 <= i < |suggestions| => suggestions[i].identifier)
  }

  /** `listed`, followed by each of `choices` not listed yet, as the append loop builds it. */
  function AppendNew(listed: seq<int>, choices: seq<int>): seq<int>
    decreases |choices|
  {
    if choices == [] then listed
    else if choices[0] in listed then AppendNew(listed, choices[1..])
    else AppendNew(listed + [choices[0]], choices[1..])
  }

  /** The loop keeps the listed identifiers as a prefix and adds exactly the missing choices, once each. */
  lemma {:induction false} AppendNewContents(listed: seq<int>, choices: seq<int>)
    ensures listed <= AppendNew(listed, choices)
    ensures forall x :: x in AppendNew(listed, choices) <==> x in listed || x in choices
    ensures NoDup(listed) ==> NoDup(AppendNew(listed, choices))
    decreases |choices|
  {
    if choices != [] {
      var next := if choices[0] in listed then listed else listed + [choices[0]];
      AppendNewContents(next, choices[1..]);
      assert forall x :: x in choices <==> x == choices[0] || x in choices[1..];
      if NoDup(listed) && choices[0] !in listed {
        assert NoDup(next) by {
          forall i, j | 0 <= i < j < |next|
            ensures next[i] != next[j]
          {
            if j == |listed| {
              assert next[i] == listed[i];
            }
          }
        }
      }
    }
  }

  function Reverse(s: seq<int>): (r: seq<int>)
    ensures |r| == |s| && forall i :: 0 <= i < |s| ==> r[i] == s[|s| - 1 - i]
  {
    seq(|s|, i requires 0 <= i < |s| => s[|s| - 1 - i])
  }

  /** An InsertBefore and an InsertAfter at `identifier` for every selection, in order. */
  function InsertPairs(identifier: int, selections: seq<int>): (r: seq<Op>)
    ensures |r| == 2 * |selections|
    decreases |selections|
  {
    if selections == [] then []
    else
      var last := selections[|selections| - 1];
      InsertPairs(identifier, selections[..|selections| - 1]) + [InsertBefore(identifier, last), InsertAfter(identifier, last)]
  }

  /** A Delete per suggestion. */
  function Deletes(suggestions: seq<WeightedIdentifier>): (r: seq<Op>)
    ensures |r| == |suggestions| && forall i :: 0 <= i < |r| ==> r[i] == Delete(suggestions[i].identifier)
  {
    seq(|suggestions|, i requires 0 <= i < |suggestions| => Delete(suggestions[i].identifier))
  }

  /**
   * What the generator yields: a Delete per suggestion; after the first
   * suggestion's Delete, the insert pairs over the reversed identifiers.
   * The reversed list is a one-shot iterator, so the later suggestions
   * find it exhausted.
   */
  function StrategyOps(suggestions: seq<WeightedIdentifier>, reversed: seq<int>): seq<Op>
  {
    if suggestions == [] then []
    else [Delete(suggestions[0].identifier)] + InsertPairs(suggestions[0].identifier, reversed) + Deletes(suggestions[1..])
  }

  /**
   * PyAE's `repair_strategy`: the suggestions' identifiers followed by the
   * choices not among them, reversed; then the yields of the loop over
   * the suggestions, which consumes the reversed iterator at the first.
   */
  method RepairStrategy(suggestions: seq<WeightedIdentifier>, choices: seq<int>) returns (s: seq<Op>)
    ensures s == StrategyOps(suggestions, Reverse(AppendNew(Identifiers(suggestions), choices)))
  {
    var listed := ListIdentifiers(suggestions, choices);
    ghost var reversed := Reverse(listed);
    var pending := Reverse(listed);
    s := [];
    for q := 0 to |suggestions|
      invariant q == 0 ==> s == [] && pending == reversed
      invariant q > 0 ==> s == StrategyOps(suggestions[..q], reversed) && pending == []
    {
      var identifier := suggestions[q].identifier;
      var pairs := PairsAt(identifier, pending);
      if q > 0 {
        assert suggestions[..q + 1][1..] == suggestions[..q][1..] + [suggestions[q]];
        assert InsertPairs(identifier, []) == [];
      }
      s := s + [Delete(identifier)] + pairs;
      pending := [];
    }
    assert suggestions[..|suggestions|] == suggestions;
  }

  /** The suggestions' identifiers followed by the choices not among them, in order. */
  method ListIdentifiers(suggestions: seq<WeightedIdentifier>, choices: seq<int>) returns (listed: seq<int>)
    ensures listed == AppendNew(Identifiers(suggestions), choices)
  {
    listed := Identifiers(suggestions);
    assert choices[0..] == choices;
    for q := 0 to |choices|
      invariant AppendNew(Identifiers(suggestions), choices) == AppendNew(listed, choices[q..])
    {
      assert choices[q..][0] == choices[q] && choices[q..][1..] == choices[q + 1..];
      if choices[q] !in listed {
        listed := listed + [choices[q]];
      }
    }
    assert choices[|choices|..] == [];
  }

  /** The InsertBefore and InsertAfter pairs at `identifier`, one pair per pending identifier. */
  method PairsAt(identifier: int, pending: seq<int>) returns (pairs: seq<Op>)
    ensures pairs == InsertPairs(identifier, pending)
  {
    pairs := [];
    for p := 0 to |pending|
      invariant pairs == InsertPairs(identifier, pending[..p])
    {
      assert pending[..p + 1][..p] == pending[..p];
      pairs := pairs + [InsertBefore(identifier, pending[p]), InsertAfter(identifier, pending[p])];
    }
    assert pending[..|pending|] == pending;
  }

  /**
   * The shape of the strategy: one Delete per suggestion, the first one
   * first; an InsertBefore and an InsertAfter at the first suggestion for
   * each identifier among the suggestions and the choices; nothing else.
   */
  lemma StrategyShape(suggestions: seq<WeightedIdentifier>, choices: seq<int>)
    ensures var listed := AppendNew(Identifiers(suggestions), choices);
            var s := StrategyOps(suggestions, Reverse(listed));
            && (suggestions == [] <==> s == [])
            && |s| == (if suggestions == [] then 0 else |suggestions| + 2 * |listed|)
            && (suggestions != [] ==> s[0] == Delete(suggestions[0].identifier))
            && (forall i :: 0 <= i < |suggestions| ==> Delete(suggestions[i].identifier) in s)
            && (suggestions != [] ==> forall x :: (x in choices || x in Identifiers(suggestions)) ==>
                  InsertBefore(suggestions[0].identifier, x) in s && InsertAfter(suggestions[0].identifier, x) in s)
            && (forall op :: op in s ==>
                  || (op.Delete? && op.identifier in Identifiers(suggestions))
                  || (suggestions != [] && (op.InsertBefore? || op.InsertAfter?)
                      && op.identifier == suggestions[0].identifier
                      && (op.selection in choices || op.selection in Identifiers(suggestions))))
  {
    var listed := AppendNew(Identifiers(suggestions), choices);
    AppendNewContents(Identifiers(suggestions), choices);
    if suggestions != [] {
      var id := suggestions[0].identifier;
      var rev := Reverse(listed);
      InsertPairsContents(id, rev);
      var s := StrategyOps(suggestions, rev);
      var ds := Deletes(suggestions[1..]);
      assert s == [Delete(id)] + InsertPairs(id, rev) + ds;
      forall i | 0 <= i < |suggestions|
        ensures Delete(suggestions[i].identifier) in s
      {
        if i > 0 {
          assert ds[i - 1] == Delete(suggestions[i].identifier);
        }
      }
      forall x | x in choices || x in Identifiers(suggestions)
        ensures InsertBefore(id, x) in s && InsertAfter(id, x) in s
      {
        var k :| 0 <= k < |listed| && listed[k] == x;
        assert rev[|listed| - 1 - k] == x;
      }
      forall op | op in s
        ensures || (op.Delete? && op.identifier in Identifiers(suggestions))
                || ((op.InsertBefore? || op.InsertAfter?) && op.identifier == id
                    && (op.selection in choices || op.selection in Identifiers(suggestions)))
      {
        if op in ds {
          var i :| 0 <= i < |ds| && ds[i] == op;
          assert Identifiers(suggestions)[i + 1] == op.identifier;
        } else if op != Delete(id) {
          assert op in InsertPairs(id, rev);
          var k :| 0 <= k < |rev| && (op == InsertBefore(id, rev[k]) || op == InsertAfter(id, rev[k]));
          assert rev[k] in listed;
        } else {
          assert Identifiers(suggestions)[0] == id;
        }
      }
    }
  }

  lemma {:induction false} InsertPairsContents(identifier: int, selections: seq<int>)
    ensures forall x :: x in selections ==>
      InsertBefore(identifier, x) in InsertPairs(identifier, selections) && InsertAfter(identifier, x) in InsertPairs(identifier, selections)
    ensures forall op :: op in InsertPairs(identifier, selections) ==>
      exists k :: 0 <= k < |selections| && (op == InsertBefore(identifier, selections[k]) || op == InsertAfter(identifier, selections[k]))
    decreases |selections|
  {
    if selections != [] {
      var init := selections[..|selections| - 1];
      InsertPairsContents(identifier, init);
      forall op | op in InsertPairs(identifier, selections)
        ensures exists k :: 0 <= k < |selections| && (op == InsertBefore(identifier, selections[k]) || op == InsertAfter(identifier, selections[k]))
      {
        if op in InsertPairs(identifier, init) {
          var k :| 0 <= k < |init| && (op == InsertBefore(identifier, init[k]) || op == InsertAfter(identifier, init[k]));
          assert selections[k] == init[k];
        }
      }
      forall x | x in selections
        ensures InsertBefore(identifier, x) in InsertPairs(identifier, selections) && InsertAfter(identifier, x) in InsertPairs(identifier, selections)
      {
        if x != selections[|selections| - 1] {
          var k :| 0 <= k < |selections| && selections[k] == x;
          assert init[k] == x;
        }
      }
    }
  }

  // -----------------------------------------------------------------------
  // `test_strategy`

  /** What the repair loop learns: a candidate's operators, a test, its result. */
  type Entry = (seq<Op>, string, TestResult)

  /** How many recorded failures a test has. */
  function FailCount(model: set<Entry>, test: string): nat
  {
    |set e | e in model && e.1 == test && e.2 == FAILING|
  }

  /** The sort key of `test_strategy`. */
  function FailKey(model: set<Entry>): string -> real
  {
    t => FailCount(model, t) as real
  }

  lemma FailCountStep(done: set<Entry>, e: Entry, test: string)
    requires e !in done
    ensures FailCount(done + {e}, test) == FailCount(done, test) + (if e.1 == test && e.2 == FAILING then 1 else 0)
  {
    var before := set x | x in done && x.1 == test && x.2 == FAILING;
    var after := set x | x in done + {e} && x.1 == test && x.2 == FAILING;
    if e.1 == test && e.2 == FAILING {
      assert after == before + {e};
    } else {
      assert after == before;
    }
  }

  /** The keys of `{test: 0 for test in tests}`, in insertion order: each test at its first occurrence. */
  function Distinct(tests: seq<string>): (r: seq<string>)
    ensures NoDup(r)
    ensures forall t :: t in r <==> t in tests
    decreases |tests|
  {
    if tests == [] then []
    else
      var rest := Distinct(tests[..|tests| - 1]);
      var last := tests[|tests| - 1];
      assert forall t :: t in tests <==> t in tests[..|tests| - 1] || t == last;
      if last in rest then rest else rest + [last]
  }

  /**
   * The counting loop of `test_strategy`: one more failure for a test per
   * FAILING entry of the model, in whatever order the set yields them; a
   * failing test that is not among the tests raises KeyError.
   */
  method CountFailures(tests: seq<string>, model: set<Entry>) returns (r: Result<map<string, nat>>)
    ensures r.Err? <==> exists e :: e in model && e.2 == FAILING && e.1 !in tests
    ensures r.Err? ==> r.error == KeyError
    ensures r.Ok? ==> r.value.Keys == (set t | t in tests) && forall t :: t in r.value ==> r.value[t] == FailCount(model, t)
  {
    var counts := map t | t in tests :: 0;
    var rest := model;
    while rest != {}
      invariant rest <= model
      invariant counts.Keys == set t | t in tests
      invariant forall t :: t in counts ==> counts[t] == FailCount(model - rest, t)
      invariant forall e :: e in model - rest && e.2 == FAILING ==> e.1 in tests
      decreases rest
    {
      var e :| e in rest;
      if e.2 == FAILING && e.1 !in counts {
        return Err(KeyError);
      }
      forall t | t in counts
        ensures FailCount(model - (rest - {e}), t) == FailCount(model - rest, t) + (if e.1 == t && e.2 == FAILING then 1 else 0)
      {
        FailCountStep(model - rest, e, t);
        assert model - (rest - {e}) == (model - rest) + {e};
      }
      if e.2 == FAILING {
        counts := counts[e.1 := counts[e.1] + 1];
      }
      rest := rest - {e};
    }
    assert model - rest == model;
    return Ok(counts);
  }

  /**
   * PyAE's `test_strategy`: the tests, once each, ordered by how often
   * the model saw them fail, most first; ties keep their order in the
   * test list (Python's sort is stable).
   */
  method TestStrategy(tests: seq<string>, model: set<Entry>) returns (r: Result<seq<string>>)
    ensures r.Err? <==> exists e :: e in model && e.2 == FAILING && e.1 !in tests
    ensures r.Err? ==> r.error == KeyError
    ensures r.Ok? ==> multiset(r.value) == multiset(Distinct(tests)) && NonIncreasing(r.value, FailKey(model))
    ensures r.Ok? ==> forall v :: WithKey(r.value, FailKey(model), v) == WithKey(Distinct(tests), FailKey(model), v)
  {
    var counts := CountFailures(tests, model);
    if counts.Err? {
      return Err(counts.error);
    }
    var sorted := SortDesc(Distinct(tests), FailKey(model));
    forall v
      ensures WithKey(sorted, FailKey(model), v) == WithKey(Distinct(tests), FailKey(model), v)
    {
      SortDescStable(Distinct(tests), FailKey(model), v);
    }
    return Ok(sorted);
  }

  /** The strategy orders every test exactly once. */
  lemma TestStrategyCoversTests(tests: seq<string>, order: seq<string>)
    requires multiset(order) == multiset(Distinct(tests))
    ensures forall t :: t in order <==> t in tests
    ensures NoDup(order)
  {
    assert forall t :: t in order <==> t in multiset(order);
    forall i, j | 0 <= i < j < |order|
      ensures order[i] != order[j]
    {
      if order[i] == order[j] {
        assert multiset(order)[order[i]] >= 2 by {
          var x := order[i];
          assert order == order[..i] + [x] + order[i + 1..j] + [x] + order[j + 1..];
        }
        DistinctOnce(Distinct(tests), order[i]);
      }
    }
  }

  lemma {:induction false} DistinctOnce(s: seq<string>, x: string)
    requires NoDup(s)
    ensures multiset(s)[x] <= 1
    decreases |s|
  {
    if s != [] {
      DistinctOnce(s[1..], x);
      assert s == [s[0]] + s[1..];
      if s[0] == x {
        assert x !in s[1..];
      }
    }
  }

  // -----------------------------------------------------------------------
  // `repair_loop`

  /**
   * `evaluate_sequentially(candidate, tests)`: the build's result, then
   * each test's result in the order given. The build and the tests are
   * oracles here.
   */
  function Stream(m: seq<Op>, order: seq<string>, build: seq<Op> -> TestResult, verdict: (seq<Op>, string) -> TestResult): (r: seq<(string, TestResult)>)
    ensures |r| == |order| + 1 && r[0] == ("build", build(m))
    ensures forall q :: 0 <= q < |order| ==> r[q + 1] == (order[q], verdict(m, order[q]))
  {
    [("build", build(m))] + seq(|order|, q requires 0 <= q < |order| => (order[q], verdict(m, order[q])))
  }

  /** The candidate builds and passes every test. */
  predicate Repairs(m: seq<Op>, tests: seq<string>, build: seq<Op> -> TestResult, verdict: (seq<Op>, string) -> TestResult)
  {
    build(m) == PASSING && forall t :: t in tests ==> verdict(m, t) == PASSING
  }

  /** Where the evaluation stops: the first result that is not PASSING, or the end. */
  function FirstNonPassing(stream: seq<(string, TestResult)>): (k: nat)
    ensures k <= |stream|
    ensures forall q :: 0 <= q < k ==> stream[q].1 == PASSING
    ensures k < |stream| ==> stream[k].1 != PASSING
  {
    if stream == [] || stream[0].1 != PASSING then 0
    else
      var k := FirstNonPassing(stream[1..]);
      assert forall q :: 1 <= q < k + 1 ==> stream[q] == stream[1..][q - 1];
      1 + k
  }

  /** The entries recorded from the first n results: all but the build's. */
  function Recorded(m: seq<Op>, stream: seq<(string, TestResult)>, n: nat): set<Entry>
    requires n <= |stream|
  {
    set q | 0 <= q < n && stream[q].0 != "build" :: (m, stream[q].0, stream[q].1)
  }

  lemma RecordedStep(m: seq<Op>, stream: seq<(string, TestResult)>, n: nat)
    requires n < |stream|
    ensures Recorded(m, stream, n + 1) == Recorded(m, stream, n) + (if stream[n].0 != "build" then {(m, stream[n].0, stream[n].1)} else {})
  {
    var entry := (m, stream[n].0, stream[n].1);
    var after := Recorded(m, stream, n + 1);
    forall e | e in after
      ensures e in Recorded(m, stream, n) + (if stream[n].0 != "build" then {entry} else {})
    {
      var q :| 0 <= q < n + 1 && stream[q].0 != "build" && e == (m, stream[q].0, stream[q].1);
      if q < n {
        assert e in Recorded(m, stream, n);
      }
    }
  }

  /**
   * The inner loop of `repair_loop`: walks the results, records every
   * one but the build's, and stops after the first that is not PASSING.
   */
  method Evaluate(m: seq<Op>, stream: seq<(string, TestResult)>) returns (passing: bool, recorded: set<Entry>)
    ensures passing <==> FirstNonPassing(stream) == |stream|
    ensures recorded == Recorded(m, stream, if passing then |stream| else FirstNonPassing(stream) + 1)
  {
    recorded := {};
    for q := 0 to |stream|
      invariant forall p :: 0 <= p < q ==> stream[p].1 == PASSING
      invariant recorded == Recorded(m, stream, q)
    {
      RecordedStep(m, stream, q);
      var (test, result) := stream[q];
      if test != "build" {
        recorded := recorded + {(m, test, result)};
      }
      if result != PASSING {
        return false, recorded;
      }
    }
    return true, recorded;
  }

  /** The evaluation passes exactly when the candidate repairs, whatever order covers the tests. */
  lemma StreamPasses(m: seq<Op>, order: seq<string>, tests: seq<string>,
                     build: seq<Op> -> TestResult, verdict: (seq<Op>, string) -> TestResult)
    requires forall t :: t in order <==> t in tests
    ensures FirstNonPassing(Stream(m, order, build, verdict)) == |order| + 1 <==> Repairs(m, tests, build, verdict)
  {
    var stream := Stream(m, order, build, verdict);
    if Repairs(m, tests, build, verdict) {
      forall q | 0 <= q < |stream|
        ensures stream[q].1 == PASSING
      {
        if q > 0 {
          assert stream[q] == (order[q - 1], verdict(m, order[q - 1]));
        }
      }
    }
  }

  /** The first candidate that repairs, if any. */
  function FirstRepair(candidates: seq<GeneticCandidate>, tests: seq<string>,
                       build: seq<Op> -> TestResult, verdict: (seq<Op>, string) -> TestResult): (r: Option<GeneticCandidate>)
    ensures r.None? <==> forall i :: 0 <= i < |candidates| ==> !Repairs(candidates[i].mutations, tests, build, verdict)
    ensures r.Some? ==> exists i :: (&& 0 <= i < |candidates| && candidates[i] == r.value
                                     && Repairs(candidates[i].mutations, tests, build, verdict)
                                     && forall j :: 0 <= j < i ==> !Repairs(candidates[j].mutations, tests, build, verdict))
  {
    if candidates == [] then None
    else if Repairs(candidates[0].mutations, tests, build, verdict) then Some(candidates[0])
    else
      var r := FirstRepair(candidates[1..], tests, build, verdict);
      assert forall i :: 1 <= i < |candidates| ==> candidates[i] == candidates[1..][i - 1];
      if r.Some? then
        var i :| (&& 0 <= i < |candidates[1..]| && candidates[1..][i] == r.value
                  && Repairs(candidates[1..][i].mutations, tests, build, verdict)
                  && forall j :: 0 <= j < i ==> !Repairs(candidates[1..][j].mutations, tests, build, verdict));
        assert forall j :: 0 <= j < i + 1 ==> !Repairs(candidates[j].mutations, tests, build, verdict) by {
          forall j | 0 <= j < i + 1
            ensures !Repairs(candidates[j].mutations, tests, build, verdict)
          {
            if j > 0 {
              assert candidates[j] == candidates[1..][j - 1];
            }
          }
        }
        r
      else r
  }

  /**
   * One evaluated candidate of `repair_loop`: the tests ordered by the
   * model, the results walked until the first that is not PASSING. It
   * passes exactly when the candidate repairs, and what it records names
   * listed tests only.
   */
  method Try(candidate: GeneticCandidate, tests: seq<string>, model: set<Entry>,
             build: seq<Op> -> TestResult, verdict: (seq<Op>, string) -> TestResult)
    returns (passing: bool, recorded: set<Entry>)
    requires forall e :: e in model ==> e.1 in tests
    ensures passing <==> Repairs(candidate.mutations, tests, build, verdict)
    ensures forall e :: e in recorded ==> e.0 == candidate.mutations && e.1 in tests
  {
    var order := TestStrategy(tests, model);
    var stream := Stream(candidate.mutations, order.value, build, verdict);
    TestStrategyCoversTests(tests, order.value);
    StreamPasses(candidate.mutations, order.value, tests, build, verdict);
    passing, recorded := Evaluate(candidate.mutations, stream);
    RecordedNamesTests(candidate.mutations, order.value, tests, build, verdict,
                       if passing then |stream| else FirstNonPassing(stream) + 1);
  }

  /** What a stream records is about its candidate and names tests from the order. */
  lemma RecordedNamesTests(m: seq<Op>, order: seq<string>, tests: seq<string>,
                           build: seq<Op> -> TestResult, verdict: (seq<Op>, string) -> TestResult, n: nat)
    requires n <= |order| + 1 && forall t :: t in order ==> t in tests
    ensures forall e :: e in Recorded(m, Stream(m, order, build, verdict), n) ==> e.0 == m && e.1 in tests
  {
    var stream := Stream(m, order, build, verdict);
    forall e | e in Recorded(m, stream, n)
      ensures e.0 == m && e.1 in tests
    {
      var q :| 0 <= q < n && stream[q].0 != "build" && e == (m, stream[q].0, stream[q].1);
      assert q > 0 && stream[q].0 == order[q - 1];
    }
  }

  /**
   * The candidate loop of `repair_loop`: a candidate equal to one already
   * tried is skipped; every other one is evaluated with the tests ordered
   * by the current model, and its results are added to the model. The
   * search ends at the first candidate that builds and passes every test,
   * which is the first repair of the whole enumeration; the model never
   * names a test outside the test list, so ordering never raises.
   */
  method FindRepair(candidates: seq<GeneticCandidate>, tests: seq<string>,
                    build: seq<Op> -> TestResult, verdict: (seq<Op>, string) -> TestResult)
    returns (found: Option<GeneticCandidate>)
    ensures found == FirstRepair(candidates, tests, build, verdict)
  {
    var model: set<Entry> := {};
    var tried: seq<GeneticCandidate> := [];
    for i := 0 to |candidates|
      invariant forall e :: e in model ==> e.1 in tests
      invariant forall c :: c in tried ==> !Repairs(c.mutations, tests, build, verdict)
      invariant forall j :: 0 <= j < i ==> !Repairs(candidates[j].mutations, tests, build, verdict)
    {
      var candidate := candidates[i];
      if !(exists j :: 0 <= j < |tried| && GeneticEq(candidate, tried[j])) {
        tried := tried + [candidate];
        var passing, recorded := Try(candidate, tests, model, build, verdict);
        model := model + recorded;
        if passing {
          return Some(candidate);
        }
      } else {
        var j :| 0 <= j < |tried| && GeneticEq(candidate, tried[j]);
        assert tried[j].mutations == candidate.mutations;
      }
    }
    return None;
  }

  // -----------------------------------------------------------------------
  // The equivalence checks

  /**
   * `syntactic_equivalent`: every file has a tree on both sides and the
   * two dumps agree. The trees are represented by their dumps; the file
   * set is walked in some order, which the answer does not depend on.
   */
  method SyntacticEquivalent(files: seq<string>, dumps1: map<string, string>, dumps2: map<string, string>) returns (r: bool)
    ensures r <==> forall f :: f in files ==> f in dumps1 && f in dumps2 && dumps1[f] == dumps2[f]
  {
    for q := 0 to |files|
      invariant forall p :: 0 <= p < q ==> files[p] in dumps1 && files[p] in dumps2 && dumps1[files[p]] == dumps2[files[p]]
    {
      var f := files[q];
      if f !in dumps1 || f !in dumps2 || dumps1[f] != dumps2[f] {
        return false;
      }
    }
    return true;
  }

  /** The statements the insert operators of a list insert at. */
  function InsertedAt(ops: seq<Op>): set<int>
  {
    set q | 0 <= q < |ops| && IsInsert(ops[q]) :: ops[q].identifier
  }

  /** The Delete operators of a list. */
  function Deletions(ops: seq<Op>): set<Op>
  {
    set q | 0 <= q < |ops| && ops[q].Delete? :: ops[q]
  }

  /** The collecting loop of `dead_code_equivalent`: insert identifiers and Delete operators. */
  method Collect(ops: seq<Op>) returns (insertions: set<int>, deletions: set<Op>)
    ensures insertions == InsertedAt(ops) && deletions == Deletions(ops)
    ensures forall op :: op in deletions ==> op.Delete? && op in ops
    ensures forall x :: x in insertions <==> exists op :: op in ops && IsInsert(op) && op.identifier == x
  {
    insertions, deletions := {}, {};
    for q := 0 to |ops|
      invariant insertions == set p | 0 <= p < q && IsInsert(ops[p]) :: ops[p].identifier
      invariant deletions == set p | 0 <= p < q && ops[p].Delete? :: ops[p]
    {
      if IsInsert(ops[q]) {
        insertions := insertions + {ops[q].identifier};
      } else if ops[q].Delete? {
        deletions := deletions + {ops[q]};
      }
    }
    forall x | x in insertions
      ensures exists op :: op in ops && IsInsert(op) && op.identifier == x
    {
      var p :| 0 <= p < |ops| && IsInsert(ops[p]) && ops[p].identifier == x;
      assert ops[p] in ops;
    }
    forall x | exists op :: op in ops && IsInsert(op) && op.identifier == x
      ensures x in insertions
    {
      var op :| op in ops && IsInsert(op) && op.identifier == x;
      var p :| 0 <= p < |ops| && ops[p] == op;
    }
  }

  /**
   * The insertion comparison as written: the second difference is taken
   * against the already reduced first set, so it is the second set
   * itself.
   */
  function InsertionsAgreeAsWritten(insertions1: set<int>, insertions2: set<int>): bool
  {
    var reduced1 := insertions1 - insertions2;
    var reduced2 := insertions2 - reduced1;
    reduced1 == reduced2
  }

  /** As written, the comparison holds only when neither candidate inserts anything. */
  lemma AsWrittenAgreesOnlyWithoutInsertions(insertions1: set<int>, insertions2: set<int>)
    ensures InsertionsAgreeAsWritten(insertions1, insertions2) <==> insertions1 == {} && insertions2 == {}
  {
    var reduced1 := insertions1 - insertions2;
    assert insertions2 - reduced1 == insertions2;
    if reduced1 == insertions2 {
      assert reduced1 !! insertions2;
      assert insertions1 - insertions2 == insertions1;
    }
  }

  /** Two candidates inserting at the same statement are told apart as written. */
  lemma AsWrittenRejectsEqualInsertions()
    ensures !InsertionsAgreeAsWritten({3}, {3})
    ensures InsertionsAgree({3}, {3})
  {
    var s: set<int> := {3};
    assert s - s == {};
    assert 3 in s - (s - s);
  }

  /** The comparison with both differences taken from the original sets. */
  function InsertionsAgree(insertions1: set<int>, insertions2: set<int>): bool
  {
    insertions1 - insertions2 == insertions2 - insertions1
  }

  /** Both differences agree exactly when the two sets are equal. */
  lemma InsertionsAgreeIffEqual(insertions1: set<int>, insertions2: set<int>)
    ensures InsertionsAgree(insertions1, insertions2) <==> insertions1 == insertions2
  {
    if InsertionsAgree(insertions1, insertions2) {
      assert insertions1 <= insertions2;
    }
  }

  /**
   * `dead_code_equivalent`: the Delete operators must agree and the insert
   * identifiers must agree (the corrected comparison); otherwise the
   * answer is False, whatever the file loop finds.
   */
  method DeadCodeEquivalent(files: seq<string>, c1: GeneticCandidate, c2: GeneticCandidate,
                            dumps1: map<string, string>, dumps2: map<string, string>) returns (r: bool)
    ensures r <==> Deletions(c1.mutations) == Deletions(c2.mutations) && InsertedAt(c1.mutations) == InsertedAt(c2.mutations)
  {
    var insertions1, deletions1 := Collect(c1.mutations);
    var insertions2, deletions2 := Collect(c2.mutations);
    if deletions1 != deletions2 {
      return false;
    }
    InsertionsAgreeIffEqual(insertions1, insertions2);
    if InsertionsAgree(insertions1, insertions2) {
      return true;
    }
    for q := 0 to |files| {
      if files[q] !in dumps1 || files[q] !in dumps2 {
        return false;
      }
    }
    return false;
  }

  /** `order_equivalent`: the insert identifiers agree (the corrected comparison); otherwise False. */
  method OrderEquivalent(files: seq<string>, c1: GeneticCandidate, c2: GeneticCandidate,
                         dumps1: map<string, string>, dumps2: map<string, string>) returns (r: bool)
    ensures r <==> InsertedAt(c1.mutations) == InsertedAt(c2.mutations)
  {
    var insertions1, _ := Collect(c1.mutations);
    var insertions2, _ := Collect(c2.mutations);
    InsertionsAgreeIffEqual(insertions1, insertions2);
    if InsertionsAgree(insertions1, insertions2) {
      return true;
    }
    for q := 0 to |files| {
      if files[q] !in dumps1 || files[q] !in dumps2 {
        return false;
      }
    }
    return false;
  }

  // -----------------------------------------------------------------------
  // The repair object

  /** A sequence of 1 to k operators of the strategy. */
  predicate Within(w: seq<Op>, strategy: seq<Op>, k: int)
  {
    1 <= |w| <= k && forall j :: 0 <= j < |w| ==> w[j] in strategy
  }

  /**
   * In an enumeration ordered by width that holds every sequence of the
   * strategy, no sequence shorter than the first repair repairs: the first
   * repair is a shortest one.
   */
  lemma ShorterFail(candidates: seq<GeneticCandidate>, initial: GeneticCandidate, strategy: seq<Op>, k: int,
                    tests: seq<string>, build: seq<Op> -> TestResult, verdict: (seq<Op>, string) -> TestResult)
    requires forall p, q :: 0 <= p < q < |candidates| ==> |candidates[p].mutations| <= |candidates[q].mutations|
    requires forall w :: Within(w, strategy, k) ==> Offspring(initial, w, true) in candidates
    requires FirstRepair(candidates, tests, build, verdict).Some?
    ensures var first := FirstRepair(candidates, tests, build, verdict).value;
            forall w :: Within(w, strategy, k) && |w| < |first.mutations| ==> !Repairs(w, tests, build, verdict)
  {
    var first := FirstRepair(candidates, tests, build, verdict).value;
    var i :| (&& 0 <= i < |candidates| && candidates[i] == first
              && Repairs(candidates[i].mutations, tests, build, verdict)
              && forall j :: 0 <= j < i ==> !Repairs(candidates[j].mutations, tests, build, verdict));
    forall w | Within(w, strategy, k) && |w| < |first.mutations|
      ensures !Repairs(w, tests, build, verdict)
    {
      var q :| 0 <= q < |candidates| && candidates[q] == Offspring(initial, w, true);
      assert candidates[q].mutations == w;
      assert q < i;
    }
  }

  /** The state of a PyAE repair that `repair_loop` reads and writes. */
  class PyAE {
    const initialCandidate: GeneticCandidate
    /** The largest number of operators a candidate combines. */
    const k: int
    const choices: seq<int>
    var suggestions: seq<WeightedIdentifier>
    /** The failing tests, then the passing ones, as `localize` lists them. */
    var tests: seq<string>
    var population: seq<GeneticCandidate>

    constructor(initialCandidate: GeneticCandidate, k: int, choices: seq<int>)
      ensures this.initialCandidate == initialCandidate && this.k == k && this.choices == choices
      ensures suggestions == [] && tests == [] && population == [initialCandidate]
    {
      this.initialCandidate := initialCandidate;
      this.k := k;
      this.choices := choices;
      suggestions := [];
      tests := [];
      population := [initialCandidate];
    }

    /**
     * `repair_loop`: the population becomes the first candidate of the
     * enumeration that builds and passes every test, or nothing when no
     * combination of at most k operators of the strategy does. With
     * nothing to yield and k at least 1 the enumeration raises
     * RuntimeError and the population is left as it was.
     */
    method RepairLoop(build: seq<Op> -> TestResult, verdict: (seq<Op>, string) -> TestResult) returns (err: Option<Error>)
      modifies this
      ensures suggestions == old(suggestions) && tests == old(tests)
      ensures var strategy := StrategyOps(suggestions, Reverse(AppendNew(Identifiers(suggestions), choices)));
        && (err.Some? <==> k >= 1 && strategy == [])
        && (err.Some? ==> err.value == RuntimeError && population == old(population))
        && (err.None? && population == [] ==> forall w :: Within(w, strategy, k) ==> !Repairs(w, tests, build, verdict))
        && (err.None? && population != [] ==>
              |population| == 1 && Enumerated(population[0], initialCandidate, strategy, k)
              && Repairs(population[0].mutations, tests, build, verdict)
              && forall w :: Within(w, strategy, k) && |w| < |population[0].mutations| ==> !Repairs(w, tests, build, verdict))
    {
      var strategy := RepairStrategy(suggestions, choices);
      var candidates := CandidateRepairs(initialCandidate, strategy, k);
      if candidates.Err? {
        return Some(candidates.error);
      }
      var found := FindRepair(candidates.value, tests, build, verdict);
      if found.Some? {
        population := [found.value];
        ShorterFail(candidates.value, initialCandidate, strategy, k, tests, build, verdict);
      } else {
        population := [];
        forall w | Within(w, strategy, k)
          ensures !Repairs(w, tests, build, verdict)
        {
          var q :| 0 <= q < |candidates.value| && candidates.value[q] == Offspring(initialCandidate, w, true);
          assert candidates.value[q].mutations == w;
        }
      }
      return None;
    }
  }
}
