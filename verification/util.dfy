/**
 * Shared vocabulary of the model: the Python exceptions the modelled code
 * raises, an Option/Result pair to return them, order-preserving
 * subsequences, and the stable descending sort that Python's
 * `sorted(..., reverse=True)` performs.
 */
module Util {

  /** The exceptions that escape the modelled operations. */
  datatype Error =
    | KeyError
    | IndexError
    | ValueError
    | ZeroDivisionError
    | RuntimeError
    | SearchError
    | LocalizationError
    | AssertionError
    | Raised          // an exception raised by the build or by the test runner

  datatype Option<T> = None | Some(value: T)

  datatype Result<T> = Ok(value: T) | Err(error: Error)
  {
    predicate IsFailure() { Err? }

    function PropagateFailure<U>(): Result<U>
      requires Err?
    {
      Err(error)
    }

    function Extract(): T
      requires Ok?
    {
      value
    }
  }

  /** No element occurs twice. */
  predicate NoDup<T(==)>(s: seq<T>)
  {
    forall i, j :: 0 <= i < j < |s| ==> s[i] != s[j]
  }

  // ---------------------------------------------------------------------
  // Subsequences

  /** `idx` lists, in increasing order, the positions of `b` that form `a`. */
  ghost predicate IsEmbedding<T>(idx: seq<nat>, a: seq<T>, b: seq<T>)
  {
    && |idx| == |a|
    && (forall i :: 0 <= i < |idx| ==> idx[i] < |b| && a[i] == b[idx[i]])
    && (forall i, j :: 0 <= i < j < |idx| ==> idx[i] < idx[j])
  }

  /** `a` is obtained from `b` by deleting elements, keeping the order. */
  ghost predicate IsSubsequence<T>(a: seq<T>, b: seq<T>)
  {
    exists idx: seq<nat> :: IsEmbedding(idx, a, b)
  }

  function Range(lo: nat, hi: nat): (r: seq<nat>)
    requires lo <= hi
    ensures |r| == hi - lo
    ensures forall i :: 0 <= i < |r| ==> r[i] == lo + i
    decreases hi - lo
  {
    if lo == hi then [] else [lo] + Range(lo + 1, hi)
  }

  lemma SubsequenceRefl<T>(a: seq<T>)
    ensures IsSubsequence(a, a)
  {
    assert IsEmbedding(Range(0, |a|), a, a);
  }

  /** Removing the slice `[lo, hi)` keeps an order-preserving subsequence. */
  lemma RemoveSliceIsSubsequence<T>(s: seq<T>, lo: nat, hi: nat)
    requires lo <= hi <= |s|
    ensures IsSubsequence(s[..lo] + s[hi..], s)
  {
    var idx := Range(0, lo) + Range(hi, |s|);
    var a := s[..lo] + s[hi..];
    forall i | 0 <= i < |idx|
      ensures idx[i] < |s| && a[i] == s[idx[i]]
    {
      if i < lo {
        assert idx[i] == i;
      } else {
        assert idx[i] == hi + (i - lo);
      }
    }
    assert IsEmbedding(idx, a, s);
  }

  lemma SubsequenceTrans<T>(a: seq<T>, b: seq<T>, c: seq<T>)
    requires IsSubsequence(a, b) && IsSubsequence(b, c)
    ensures IsSubsequence(a, c)
  {
    var i1: seq<nat> :| IsEmbedding(i1, a, b);
    var i2: seq<nat> :| IsEmbedding(i2, b, c);
    var idx := seq(|i1|, k requires 0 <= k < |i1| => i2[i1[k]]);
    assert IsEmbedding(idx, a, c);
  }

  lemma SubsequenceLength<T>(a: seq<T>, b: seq<T>)
    requires IsSubsequence(a, b)
    ensures |a| <= |b|
  {
    var idx: seq<nat> :| IsEmbedding(idx, a, b);
    EmbeddingBound(idx, |b|);
  }

  /** A strictly increasing list of positions below `n` has at most `n` entries. */
  lemma {:induction false} EmbeddingBound(idx: seq<nat>, n: nat)
    requires forall i :: 0 <= i < |idx| ==> idx[i] < n
    requires forall i, j :: 0 <= i < j < |idx| ==> idx[i] < idx[j]
    ensures |idx| <= n
    decreases n
  {
    if |idx| > 0 {
      var last := idx[|idx| - 1];
      var init := idx[..|idx| - 1];
      forall i | 0 <= i < |init|
        ensures init[i] < last
      {
        assert idx[i] < idx[|idx| - 1];
      }
      EmbeddingBound(init, last);
    }
  }

  // ---------------------------------------------------------------------
  // Filtering

  function Filter<T(!new)>(s: seq<T>, p: T -> bool): (r: seq<T>)
    ensures |r| <= |s|
    ensures forall x :: x in r <==> x in s && p(x)
  {
    if s == [] then []
    else if p(s[0]) then [s[0]] + Filter(s[1..], p)
    else Filter(s[1..], p)
  }

  function Shift(idx: seq<nat>): (r: seq<nat>)
    ensures |r| == |idx|
    ensures forall k :: 0 <= k < |idx| ==> r[k] == idx[k] + 1
  {
    seq(|idx|, k requires 0 <= k < |idx| => idx[k] + 1)
  }

  lemma EmbedCons<T>(idx: seq<nat>, a: seq<T>, b: seq<T>, x: T)
    requires IsEmbedding(idx, a, b)
    ensures IsEmbedding([0] + Shift(idx), [x] + a, [x] + b)
  {
    var r, a', b' := [0] + Shift(idx), [x] + a, [x] + b;
    forall i | 0 <= i < |r|
      ensures r[i] < |b'| && a'[i] == b'[r[i]]
    {
      if i > 0 {
        assert a'[i] == a[i - 1] && r[i] == idx[i - 1] + 1;
      }
    }
  }

  lemma EmbedSkip<T>(idx: seq<nat>, a: seq<T>, b: seq<T>, x: T)
    requires IsEmbedding(idx, a, b)
    ensures IsEmbedding(Shift(idx), a, [x] + b)
  {
    var r, b' := Shift(idx), [x] + b;
    forall i | 0 <= i < |r|
      ensures r[i] < |b'| && a[i] == b'[r[i]]
    {
      assert b'[idx[i] + 1] == b[idx[i]];
    }
  }

  lemma {:induction false} FilterIsSubsequence<T(!new)>(s: seq<T>, p: T -> bool)
    ensures IsSubsequence(Filter(s, p), s)
  {
    if s == [] {
      assert IsEmbedding([], [], s);
    } else {
      var f := Filter(s[1..], p);
      FilterIsSubsequence(s[1..], p);
      var idx: seq<nat> :| IsEmbedding(idx, f, s[1..]);
      assert s == [s[0]] + s[1..];
      if p(s[0]) {
        EmbedCons(idx, f, s[1..], s[0]);
      } else {
        EmbedSkip(idx, f, s[1..], s[0]);
      }
    }
  }

  /** Filtering by a stronger predicate keeps a subsequence of the weaker filter. */
  lemma {:induction false} FilterMonotone<T(!new)>(s: seq<T>, p: T -> bool, q: T -> bool)
    requires forall x :: p(x) ==> q(x)
    ensures IsSubsequence(Filter(s, p), Filter(s, q))
  {
    if s == [] {
      assert IsEmbedding([], [], Filter(s, q));
    } else {
      var fp, fq := Filter(s[1..], p), Filter(s[1..], q);
      FilterMonotone(s[1..], p, q);
      var idx: seq<nat> :| IsEmbedding(idx, fp, fq);
      if p(s[0]) {
        EmbedCons(idx, fp, fq, s[0]);
      } else if q(s[0]) {
        EmbedSkip(idx, fp, fq, s[0]);
      }
    }
  }

  // ---------------------------------------------------------------------
  // Stable descending sort (`sorted(xs, key=..., reverse=True)`)

  predicate NonIncreasing<T>(s: seq<T>, key: T -> real)
  {
    forall i, j :: 0 <= i < j < |s| ==> key(s[i]) >= key(s[j])
  }

  /** Places `x` in front of the first element whose key does not exceed its own. */
  function InsertDesc<T>(x: T, t: seq<T>, key: T -> real): seq<T>
  {
    if t == [] || key(t[0]) <= key(x) then [x] + t
    else [t[0]] + InsertDesc(x, t[1..], key)
  }

  lemma {:induction false} InsertDescElements<T>(x: T, t: seq<T>, key: T -> real)
    ensures multiset(InsertDesc(x, t, key)) == multiset(t) + multiset{x}
  {
    if t != [] && key(t[0]) > key(x) {
      InsertDescElements(x, t[1..], key);
      assert t == [t[0]] + t[1..];
    }
  }

  /** Inserting an element no greater than a bound keeps every key under the bound. */
  lemma {:induction false} InsertDescBounded<T>(x: T, t: seq<T>, key: T -> real, b: real)
    requires key(x) <= b && forall i :: 0 <= i < |t| ==> key(t[i]) <= b
    ensures forall i :: 0 <= i < |InsertDesc(x, t, key)| ==> key(InsertDesc(x, t, key)[i]) <= b
  {
    if t != [] && key(t[0]) > key(x) {
      InsertDescBounded(x, t[1..], key, b);
      var r := InsertDesc(x, t, key);
      assert forall i :: 1 <= i < |r| ==> r[i] == InsertDesc(x, t[1..], key)[i - 1];
    }
  }

  lemma {:induction false} InsertDescSorted<T>(x: T, t: seq<T>, key: T -> real)
    requires NonIncreasing(t, key)
    ensures NonIncreasing(InsertDesc(x, t, key), key)
  {
    if t != [] && key(t[0]) > key(x) {
      var rest := InsertDesc(x, t[1..], key);
      InsertDescSorted(x, t[1..], key);
      InsertDescBounded(x, t[1..], key, key(t[0]));
      var r := [t[0]] + rest;
      forall i, j | 0 <= i < j < |r|
        ensures key(r[i]) >= key(r[j])
      {
        assert r[j] == rest[j - 1];
        if i > 0 {
          assert r[i] == rest[i - 1];
        }
      }
    }
  }

  function SortDesc<T>(s: seq<T>, key: T -> real): (r: seq<T>)
    ensures NonIncreasing(r, key)
    ensures multiset(r) == multiset(s)
  {
    if s == [] then []
    else
      var rest := SortDesc(s[1..], key);
      InsertDescSorted(s[0], rest, key);
      InsertDescElements(s[0], rest, key);
      assert s == [s[0]] + s[1..];
      InsertDesc(s[0], rest, key)
  }

  /** The elements of `s` whose key is `v`, in their order in `s`. */
  function WithKey<T>(s: seq<T>, key: T -> real, v: real): seq<T>
  {
    if s == [] then []
    else if key(s[0]) == v then [s[0]] + WithKey(s[1..], key, v)
    else WithKey(s[1..], key, v)
  }

  lemma {:induction false} InsertDescStable<T>(x: T, t: seq<T>, key: T -> real, v: real)
    ensures WithKey(InsertDesc(x, t, key), key, v)
         == (if key(x) == v then [x] else []) + WithKey(t, key, v)
  {
    if t == [] || key(t[0]) <= key(x) {
      assert ([x] + t)[1..] == t;
    } else {
      InsertDescStable(x, t[1..], key, v);
      var r := InsertDesc(x, t, key);
      assert r[0] == t[0] && r[1..] == InsertDesc(x, t[1..], key);
    }
  }

  /** Stability: elements with equal keys keep their original relative order. */
  lemma {:induction false} SortDescStable<T>(s: seq<T>, key: T -> real, v: real)
    ensures WithKey(SortDesc(s, key), key, v) == WithKey(s, key, v)
  {
    if s != [] {
      SortDescStable(s[1..], key, v);
      InsertDescStable(s[0], SortDesc(s[1..], key), key, v);
      assert s == [s[0]] + s[1..];
    }
  }

  // ---------------------------------------------------------------------
  // Concatenation facts the solver does not find unaided in larger proofs

  lemma AppendNothing<T>(a: seq<T>)
    ensures a + [] == a
  {
  }

  lemma AppendAssociative<T>(a: seq<T>, b: seq<T>, c: seq<T>)
    ensures (a + b) + c == a + (b + c)
  {
  }

  // ---------------------------------------------------------------------
  // Loops that build a list and may raise

  /** What a loop has built so far, in front of the outcome of its remaining iterations. */
  function Prefixed<T>(done: seq<T>, r: Result<seq<T>>): Result<seq<T>>
  {
    if r.Ok? then Ok(done + r.value) else r
  }

  lemma PrefixedTwice<T>(a: seq<T>, b: seq<T>, r: Result<seq<T>>)
    ensures Prefixed(a, Prefixed(b, r)) == Prefixed(a + b, r)
  {
    if r.Ok? {
      assert a + (b + r.value) == (a + b) + r.value;
    }
  }

  lemma PrefixedNothing<T>(r: Result<seq<T>>)
    ensures Prefixed([], r) == r
  {
    if r.Ok? {
      assert [] + r.value == r.value;
    }
  }

  /** The outcome of one stage of a loop followed by the outcome of the rest: the first raise wins. */
  function Then<T>(first: Result<seq<T>>, rest: Result<seq<T>>): Result<seq<T>>
  {
    if first.Err? then first else Prefixed(first.value, rest)
  }

  lemma ThenAssociative<T>(a: Result<seq<T>>, b: Result<seq<T>>, c: Result<seq<T>>)
    ensures Then(Then(a, b), c) == Then(a, Then(b, c))
  {
    if a.Ok? && b.Ok? && c.Ok? {
      assert (a.value + b.value) + c.value == a.value + (b.value + c.value);
    }
  }

  lemma ThenStep<T>(done: seq<T>, x: seq<T>, rest: Result<seq<T>>)
    ensures Prefixed(done, Then(Ok(x), rest)) == Prefixed(done + x, rest)
  {
    PrefixedTwice(done, x, rest);
  }

  /** Running one stage after `done`: its raise ends the loop, otherwise its list joins `done`. */
  lemma ThenAfter<T>(done: seq<T>, first: Result<seq<T>>, rest: Result<seq<T>>)
    ensures first.Err? ==> Prefixed(done, Then(first, rest)) == first
    ensures first.Ok? ==> Prefixed(done, Then(first, rest)) == Prefixed(done + first.value, rest)
  {
    if first.Ok? {
      PrefixedTwice(done, first.value, rest);
    }
  }

  lemma ThenNothing<T>(rest: Result<seq<T>>)
    ensures Then(Ok([]), rest) == rest
  {
    PrefixedNothing(rest);
  }
}
