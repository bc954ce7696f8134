/**
 * Minimisers: the identity, and the delta-debugging minimiser that drops
 * chunks of a candidate's operator list for as long as the fitness does
 * not fall.
 *
 * Evaluating a trial candidate is the fitness oracle `fit`. Chunk bounds
 * are the exact `floor(k·len/n)`, where the source accumulates floating
 * point `start` values.
 */
module Minimize {
  import opened Util
  import opened Operators
  import opened Candidates

  /** Where the `k`-th of `n` chunks of a list of length `len` starts. */
  function ChunkStart(k: nat, len: nat, n: nat): (r: nat)
    requires n > 0
    ensures k <= n ==> r <= len
  {
    if k <= n then QuotientBelow(k * len, n, len); k * len / n
    else k * len / n
  }

  /** `s` without its `k`-th of `n` chunks. */
  function WithoutChunk(s: seq<Op>, k: nat, n: nat): seq<Op>
    requires k < n <= |s| && 2 <= n
  {
    ChunkBounds(k, |s|, n);
    s[..ChunkStart(k, |s|, n)] + s[ChunkStart(k + 1, |s|, n)..]
  }

  /** Removing any single operator makes the fitness strictly lower. */
  ghost predicate OneMinimal(s: seq<Op>, fitness: real, fit: seq<Op> -> real)
  {
    forall k :: 0 <= k < |s| ==> fit(s[..k] + s[k + 1..]) < fitness
  }

  /**
   * `DDMutationMinimizer.minimize_candidate`. The result keeps a
   * subsequence of the operators, in order, and a fitness no lower than
   * the input's; a list of at most one operator comes back unchanged; and
   * a result of two or more operators is 1-minimal.
   */
  method MinimizeCandidate(c: GeneticCandidate, fit: seq<Op> -> real) returns (r: GeneticCandidate)
    ensures IsSubsequence(r.mutations, c.mutations)
    ensures r.fitness >= c.fitness
    ensures r == c.(mutations := r.mutations, fitness := r.fitness)
    ensures r.mutations != c.mutations ==> r.fitness == fit(r.mutations)
    ensures |c.mutations| <= 1 ==> r == c
    ensures |r.mutations| >= 2 ==> OneMinimal(r.mutations, r.fitness, fit)
  {
    var n := 2;
    r := c;
    SubsequenceRefl(c.mutations);
    while |r.mutations| > 1
      invariant IsSubsequence(r.mutations, c.mutations)
      invariant r.fitness >= c.fitness
      invariant r == c.(mutations := r.mutations, fitness := r.fitness)
      invariant r.mutations != c.mutations ==> r.fitness == fit(r.mutations)
      invariant |c.mutations| <= 1 ==> r == c
      invariant 2 <= n && (|r.mutations| >= 2 ==> n <= |r.mutations|)
      decreases |r.mutations|, |r.mutations| - n
    {
      var len := |r.mutations|;
      var k := 0;
      var reduced := false;
      while k < n
        invariant 0 <= k <= n
        invariant forall j :: 0 <= j < k ==> fit(WithoutChunk(r.mutations, j, n)) < r.fitness
      {
        var subset := WithoutChunk(r.mutations, k, n);
        var f := fit(subset);
        if f >= r.fitness {
          ChunkBounds(k, len, n);
          RemoveSliceIsSubsequence(r.mutations, ChunkStart(k, len, n), ChunkStart(k + 1, len, n));
          SubsequenceTrans(subset, r.mutations, c.mutations);
          SubsequenceLength(c.mutations, c.mutations);
          r := Offspring(r, subset, false).(fitness := f);
          n := if n - 1 > 2 then n - 1 else 2;
          reduced := true;
          break;
        }
        k := k + 1;
      }
      if !reduced {
        if n == len {
          forall j | 0 <= j < len
            ensures fit(r.mutations[..j] + r.mutations[j + 1..]) < r.fitness
          {
            UnitChunks(j, len);
            UnitChunks(j + 1, len);
            assert WithoutChunk(r.mutations, j, n) == r.mutations[..j] + r.mutations[j + 1..];
          }
          break;
        }
        n := if 2 * n < len then 2 * n else len;
      }
    }
  }

  /** `MutationMinimizer.minimize`: each candidate minimised in turn, same length and order. */
  method MinimizeAll(population: seq<GeneticCandidate>, fit: seq<Op> -> real) returns (r: seq<GeneticCandidate>)
    ensures |r| == |population|
    ensures forall i :: 0 <= i < |r| ==>
      && IsSubsequence(r[i].mutations, population[i].mutations)
      && r[i].fitness >= population[i].fitness
      && r[i] == population[i].(mutations := r[i].mutations, fitness := r[i].fitness)
      && (|r[i].mutations| >= 2 ==> OneMinimal(r[i].mutations, r[i].fitness, fit))
  {
    r := [];
    for i := 0 to |population|
      invariant |r| == i
      invariant forall j :: 0 <= j < i ==>
        && IsSubsequence(r[j].mutations, population[j].mutations)
        && r[j].fitness >= population[j].fitness
        && r[j] == population[j].(mutations := r[j].mutations, fitness := r[j].fitness)
        && (|r[j].mutations| >= 2 ==> OneMinimal(r[j].mutations, r[j].fitness, fit))
    {
      var m := MinimizeCandidate(population[i], fit);
      r := r + [m];
    }
  }

  /** `DefaultMutationMinimizer`: the population and each candidate come back unchanged. */
  function DefaultMinimize(population: seq<GeneticCandidate>): (r: seq<GeneticCandidate>)
    ensures r == population
  {
    population
  }

  // -----------------------------------------------------------------------
  // Chunk arithmetic


  lemma MulLeftMono(n: int, x: int, y: int)
    requires n >= 0 && x <= y
    ensures n * x <= n * y
  {
    assert n * y - n * x == n * (y - x);
  }

  lemma DivMod(x: nat, n: nat)
    requires n > 0
    ensures n * (x / n) <= x < n * (x / n) + n
  {
  }

  /** Division by a positive number is monotone. */
  lemma DivLe(x: nat, y: nat, n: nat)
    requires n > 0 && x <= y
    ensures x / n <= y / n
  {
    DivMod(x, n);
    DivMod(y, n);
    if x / n > y / n {
      MulLeftMono(n, y / n + 1, x / n);
      assert false;
    }
  }

  /** A multiple of `n` added to the dividend adds its factor to the quotient. */
  lemma DivAddMultiple(q: nat, x: nat, n: nat)
    requires n > 0
    ensures (n * q + x) / n == q + x / n
  {
    DivMod(x, n);
    var y := n * q + x;
    DivMod(y, n);
    var r := x - n * (x / n);
    assert y == n * (q + x / n) + r;
    if y / n < q + x / n {
      MulLeftMono(n, y / n + 1, q + x / n);
      assert false;
    } else if y / n > q + x / n {
      MulLeftMono(n, q + x / n + 1, y / n);
      assert false;
    }
  }

  lemma DivSelfMultiple(q: nat, n: nat)
    requires n > 0
    ensures (n * q) / n == q
  {
    DivAddMultiple(q, 0, n);
  }

  /** A quotient below `m` once multiplied back stays below `m`. */
  lemma QuotientBelow(x: nat, n: nat, m: nat)
    requires n > 0 && x <= n * m
    ensures x / n <= m
  {
    DivLe(x, n * m, n);
    DivSelfMultiple(m, n);
  }

  lemma RoundUpBound(len: nat, n: nat)
    requires 2 <= n <= len
    ensures (len + n - 1) / n <= len - n + 1
  {
    if len == n {
      DivAddMultiple(1, n - 1, n);
    } else {
      MulLeftMono(n - 1, n + 1, len);
      assert (n - 1) * (n + 1) == n * n - 1;
      assert n * (len - n + 1) == n * len - n * n + n;
      assert (n - 1) * len == n * len - len;
      QuotientBelow(len + n - 1, n, len - n + 1);
    }
  }

  lemma ChunkBounds(k: nat, len: nat, n: nat)
    requires 2 <= n <= len && k < n
    ensures ChunkStart(k, len, n) < ChunkStart(k + 1, len, n) <= len
    ensures ChunkStart(k + 1, len, n) - ChunkStart(k, len, n) <= len - n + 1
  {
    var a := k * len;
    var b := (k + 1) * len;
    assert b == a + len;
    var qa := a / n;
    DivMod(a, n);
    var ra := a - n * qa;
    assert b == n * qa + (ra + len);
    DivAddMultiple(qa, ra + len, n);
    assert b / n == qa + (ra + len) / n;
    DivLe(n, ra + len, n);
    DivSelfMultiple(1, n);
    MulLeftMono(len, k + 1, n);
    assert b <= n * len;
    QuotientBelow(b, n, len);
    DivLe(ra + len, len + n - 1, n);
    RoundUpBound(len, n);
  }

  lemma UnitChunks(k: nat, len: nat)
    requires 0 < len
    ensures ChunkStart(k, len, len) == k
  {
    assert k * len == len * k;
    DivSelfMultiple(k, len);
  }
}
