/**
 * Weight normalisation of localisation results: every weight is
 * overwritten in place by the same affine map (`normalize`) or by its
 * absolute value scaled by the largest one (`absolute_normalize`).
 */
module Normalization {
  import opened Util
  import opened Location

  function Weights(ws: seq<WeightedLocation>): (r: seq<real>)
    ensures |r| == |ws| && forall i :: 0 <= i < |ws| ==> r[i] == ws[i].weight
  {
    seq(|ws|, i requires 0 <= i < |ws| => ws[i].weight)
  }

  /** `max` of a non-empty list. */
  function Max(xs: seq<real>): (m: real)
    requires xs != []
    ensures forall i :: 0 <= i < |xs| ==> xs[i] <= m
    ensures exists i :: 0 <= i < |xs| && xs[i] == m
  {
    if |xs| == 1 then xs[0]
    else
      var rest := Max(xs[1..]);
      assert forall i :: 1 <= i < |xs| ==> xs[i] == xs[1..][i - 1];
      if xs[0] >= rest then xs[0] else rest
  }

  /** `min` of a non-empty list. */
  function Min(xs: seq<real>): (m: real)
    requires xs != []
    ensures forall i :: 0 <= i < |xs| ==> m <= xs[i]
    ensures exists i :: 0 <= i < |xs| && xs[i] == m
  {
    if |xs| == 1 then xs[0]
    else
      var rest := Min(xs[1..]);
      assert forall i :: 1 <= i < |xs| ==> xs[i] == xs[1..][i - 1];
      if xs[0] <= rest then xs[0] else rest
  }

  /**
   * The shift and the divisor `normalize` settles on: a negative minimum
   * is subtracted and widens the divisor, a non-negative one is replaced
   * by 0; a zero divisor becomes 1.
   */
  function Affine(xs: seq<real>): (r: (real, real))
    requires xs != []
    ensures r.1 > 0.0
    ensures r.0 <= 0.0 && r.0 <= Min(xs)
    ensures forall i :: 0 <= i < |xs| ==> xs[i] - r.0 <= r.1
  {
    var hi, lo := Max(xs), Min(xs);
    var (minimum, maximum) := if lo < 0.0 then (lo, hi - lo) else (0.0, hi);
    (minimum, if maximum == 0.0 then 1.0 else maximum)
  }

  /** The weight `normalize` writes for `x`. */
  function NormalizedWeight(x: real, shift: (real, real)): real
    requires shift.1 > 0.0
  {
    (x - shift.0) / shift.1
  }

  lemma DivideUnit(a: real, b: real)
    requires 0.0 <= a <= b && b > 0.0
    ensures 0.0 <= a / b <= 1.0
  {
    DivideMonotone(0.0, a, b);
    DivideMonotone(a, b, b);
    assert b / b == 1.0;
  }

  lemma SelfDivide(x: real)
    requires x != 0.0
    ensures x / x == 1.0
  {
  }

  lemma DivideMonotone(a: real, b: real, d: real)
    requires d > 0.0
    ensures a <= b <==> a / d <= b / d
    ensures a < b <==> a / d < b / d
  {
    assert a / d * d == a && b / d * d == b;
    if a / d <= b / d {
      assert a / d * d <= b / d * d;
    }
    if a / d < b / d {
      assert a / d * d < b / d * d;
    }
  }

  /** Every normalised weight lies in [0, 1]. */
  lemma NormalizedInUnit(xs: seq<real>, i: nat)
    requires i < |xs|
    ensures 0.0 <= NormalizedWeight(xs[i], Affine(xs)) <= 1.0
  {
    var (m, d) := Affine(xs);
    DivideUnit(xs[i] - m, d);
  }

  /** One increasing map for all weights: their order is kept, strictly and not. */
  lemma NormalizedKeepsOrder(xs: seq<real>, i: nat, j: nat)
    requires i < |xs| && j < |xs|
    ensures xs[i] <= xs[j] <==> NormalizedWeight(xs[i], Affine(xs)) <= NormalizedWeight(xs[j], Affine(xs))
    ensures xs[i] < xs[j] <==> NormalizedWeight(xs[i], Affine(xs)) < NormalizedWeight(xs[j], Affine(xs))
  {
    var (m, d) := Affine(xs);
    DivideMonotone(xs[i] - m, xs[j] - m, d);
  }

  /** A negative minimum becomes 0. */
  lemma NormalizedNegativeMinimum(xs: seq<real>)
    requires xs != [] && Min(xs) < 0.0
    ensures NormalizedWeight(Min(xs), Affine(xs)) == 0.0
  {
    var (m, d) := Affine(xs);
    assert m == Min(xs);
    assert NormalizedWeight(Min(xs), (m, d)) == 0.0 / d;
  }

  /** The maximum becomes 1, unless all weights are equal and at most 0. */
  lemma NormalizedMaximum(xs: seq<real>)
    requires xs != [] && (Max(xs) > 0.0 || Min(xs) < Max(xs))
    ensures NormalizedWeight(Max(xs), Affine(xs)) == 1.0
  {
    var hi, lo := Max(xs), Min(xs);
    var (m, d) := Affine(xs);
    if lo < 0.0 {
      assert d == hi - lo && m == lo;
      SelfDivide(hi - lo);
    } else {
      assert d == hi && m == 0.0;
      SelfDivide(hi);
    }
  }

  /** Equal weights at most 0 all become 0. */
  lemma NormalizedFlat(xs: seq<real>, i: nat)
    requires i < |xs| && Max(xs) <= 0.0 && Min(xs) == Max(xs)
    ensures NormalizedWeight(xs[i], Affine(xs)) == 0.0
  {
    var (m, d) := Affine(xs);
    assert xs[i] == Min(xs);
    assert d == 1.0;
    if Min(xs) < 0.0 {
      assert m == xs[i];
    } else {
      assert m == 0.0 && xs[i] == 0.0;
    }
  }

  /** With no negative weight, a zero weight stays 0. */
  lemma NormalizedZero(xs: seq<real>, i: nat)
    requires i < |xs| && Min(xs) >= 0.0 && xs[i] == 0.0
    ensures NormalizedWeight(xs[i], Affine(xs)) == 0.0
  {
    var (m, d) := Affine(xs);
    assert m == 0.0;
    assert NormalizedWeight(xs[i], (m, d)) == 0.0 / d;
  }

  /**
   * `normalize`: raises ValueError on an empty list; otherwise writes the
   * normalised weight into every element, leaving files, lines, length
   * and order as they were.
   */
  method Normalize(ws: array<WeightedLocation>) returns (err: Option<Error>)
    modifies ws
    ensures ws.Length == 0 ==> err == Some(ValueError) && ws[..] == old(ws[..])
    ensures ws.Length > 0 ==>
      && err == None
      && forall i :: 0 <= i < ws.Length ==>
           ws[i] == old(ws[i]).(weight := NormalizedWeight(old(ws[i]).weight, Affine(Weights(old(ws[..])))))
  {
    if ws.Length == 0 {
      return Some(ValueError);
    }
    ghost var before := ws[..];
    var shift := Affine(Weights(ws[..]));
    for i := 0 to ws.Length
      invariant forall k :: 0 <= k < i ==> ws[k] == before[k].(weight := NormalizedWeight(before[k].weight, shift))
      invariant forall k :: i <= k < ws.Length ==> ws[k] == before[k]
    {
      ws[i] := ws[i].(weight := NormalizedWeight(ws[i].weight, shift));
    }
    return None;
  }

  /** `abs`. */
  function Abs(x: real): real
  {
    if x < 0.0 then -x else x
  }

  /**
   * `absolute_normalize`: raises ValueError on an empty list and
   * ZeroDivisionError (before writing anything) when every weight is 0;
   * otherwise writes `|w| / max |w|` into every element.
   */
  method AbsoluteNormalize(ws: array<WeightedLocation>) returns (err: Option<Error>)
    modifies ws
    ensures ws.Length == 0 ==> err == Some(ValueError) && ws[..] == old(ws[..])
    ensures ws.Length > 0 && Max(AbsWeights(old(ws[..]))) == 0.0 ==> err == Some(ZeroDivisionError) && ws[..] == old(ws[..])
    ensures ws.Length > 0 && Max(AbsWeights(old(ws[..]))) != 0.0 ==>
      && err == None
      && forall i :: 0 <= i < ws.Length ==>
           ws[i] == old(ws[i]).(weight := Abs(old(ws[i]).weight) / Max(AbsWeights(old(ws[..]))))
  {
    if ws.Length == 0 {
      return Some(ValueError);
    }
    ghost var before := ws[..];
    var maximum := Max(AbsWeights(ws[..]));
    if maximum == 0.0 {
      return Some(ZeroDivisionError);
    }
    for i := 0 to ws.Length
      invariant forall k :: 0 <= k < i ==> ws[k] == before[k].(weight := Abs(before[k].weight) / maximum)
      invariant forall k :: i <= k < ws.Length ==> ws[k] == before[k]
    {
      ws[i] := ws[i].(weight := Abs(ws[i].weight) / maximum);
    }
    return None;
  }

  function AbsWeights(ws: seq<WeightedLocation>): (r: seq<real>)
    ensures |r| == |ws| && forall i :: 0 <= i < |ws| ==> r[i] == Abs(ws[i].weight) && r[i] >= 0.0
  {
    seq(|ws|, i requires 0 <= i < |ws| => Abs(ws[i].weight))
  }

  /** Absolute normalisation lands in [0, 1] and the largest magnitude becomes 1. */
  lemma AbsoluteNormalizedInUnit(ws: seq<WeightedLocation>, i: nat)
    requires i < |ws| && Max(AbsWeights(ws)) != 0.0
    ensures 0.0 <= Abs(ws[i].weight) / Max(AbsWeights(ws)) <= 1.0
  {
    var xs := AbsWeights(ws);
    var m := Max(xs);
    assert xs[i] <= m;
    DivideUnit(xs[i], m);
  }

  lemma AbsoluteNormalizedReachesOne(ws: seq<WeightedLocation>)
    requires ws != [] && Max(AbsWeights(ws)) != 0.0
    ensures exists j :: 0 <= j < |ws| && Abs(ws[j].weight) / Max(AbsWeights(ws)) == 1.0
  {
    var xs := AbsWeights(ws);
    var m := Max(xs);
    var j :| 0 <= j < |xs| && xs[j] == m;
    SelfDivide(m);
    assert Abs(ws[j].weight) == m;
  }
}
