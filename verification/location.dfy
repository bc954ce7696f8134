/**
 * Weighted locations and statement identifiers: a suspiciousness weight
 * attached to a (file, line) pair or to a statement id.
 *
 * A Python float is either a number or NaN here; the constructor stores
 * NaN as 0, so a stored weight is always a number and the comparisons
 * between weighted objects are total.
 */
module Location {
  import opened Util

  /** A Python float argument: a finite number, or NaN. */
  datatype Float = Finite(value: real) | NaN

  /** `0 if math.isnan(weight) else weight`. */
  function Sanitized(w: Float): (r: real)
    ensures w.NaN? ==> r == 0.0
    ensures w.Finite? ==> r == w.value
  {
    match w
    case NaN => 0.0
    case Finite(v) => v
  }

  datatype WeightedLocation = WeightedLocation(file: string, line: int, weight: real)

  datatype WeightedIdentifier = WeightedIdentifier(identifier: int, weight: real)

  /** `WeightedLocation(file, line, weight)`: the location and the sanitised weight. */
  function NewWeightedLocation(file: string, line: int, weight: Float): (r: WeightedLocation)
    ensures r.file == file && r.line == line
    ensures r.weight == if weight.NaN? then 0.0 else weight.value
  {
    WeightedLocation(file, line, Sanitized(weight))
  }

  /** `WeightedIdentifier(identifier, weight)`: the identifier and the sanitised weight. */
  function NewWeightedIdentifier(identifier: int, weight: Float): (r: WeightedIdentifier)
    ensures r.identifier == identifier
    ensures r.weight == if weight.NaN? then 0.0 else weight.value
  {
    WeightedIdentifier(identifier, Sanitized(weight))
  }

  /** The right-hand operand of a comparison: an object with a weight, or one without. */
  datatype Other = HasWeight(weight: real) | NoWeight

  datatype Comparison = Less | LessEq | Greater | GreaterEq

  /**
   * `__lt__`, `__le__`, `__gt__`, `__ge__`: compare the two weights, and
   * give NotImplemented (None) against an object without a weight.
   */
  function Compare(weight: real, other: Other, comp: Comparison): (r: Option<bool>)
    ensures r.None? <==> other.NoWeight?
  {
    match other
    case NoWeight => None
    case HasWeight(w) =>
      match comp
      case Less => Some(weight < w)
      case LessEq => Some(weight <= w)
      case Greater => Some(weight > w)
      case GreaterEq => Some(weight >= w)
  }

  /**
   * Since a stored weight is never NaN, the four comparisons behave as a
   * total order: `a < b` iff `b > a`, `a <= b` iff not `a > b`, and
   * exactly one of `a < b`, `a > b` and equal weights holds.
   */
  lemma CompareTotal(a: real, b: real)
    ensures Compare(a, HasWeight(b), Less) == Compare(b, HasWeight(a), Greater)
    ensures Compare(a, HasWeight(b), LessEq) == Some(!Compare(a, HasWeight(b), Greater).value)
    ensures Compare(a, HasWeight(b), GreaterEq) == Some(!Compare(a, HasWeight(b), Less).value)
    ensures Compare(a, HasWeight(b), Less).value || Compare(a, HasWeight(b), Greater).value || a == b
    ensures !(Compare(a, HasWeight(b), Less).value && Compare(a, HasWeight(b), Greater).value)
  {
  }
}
