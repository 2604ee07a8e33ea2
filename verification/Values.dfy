/**
  The double-precision numbers the store keeps, as a totally ordered type.

  The order is the one the analytical engine sorts and aggregates by: every
  finite number between the two infinities, and not-a-number above everything
  and equal to itself. Signed zeros and payload bits are not distinguished.
 */
module Values {

  datatype Value = NegativeInfinity | Finite(x: real) | PositiveInfinity | NotANumber {

    predicate IsFinite() {
      Finite?
    }

    function Rank(): int {
      match this
      case NegativeInfinity => 0
      case Finite(_) => 1
      case PositiveInfinity => 2
      case NotANumber => 3
    }
  }

  predicate Less(a: Value, b: Value) {
    if a.Finite? && b.Finite? then a.x < b.x else a.Rank() < b.Rank()
  }

  predicate AtMost(a: Value, b: Value) {
    !Less(b, a)
  }

  /** Finite numbers by size between the infinities, and not-a-number above all. */
  lemma AtMostMeans(a: Value, b: Value)
    ensures AtMost(a, b) <==>
              || b.NotANumber? || a.NegativeInfinity?
              || (b.PositiveInfinity? && !a.NotANumber?)
              || (a.Finite? && b.Finite? && a.x <= b.x)
    ensures Less(a, b) <==> AtMost(a, b) && a != b
  {
  }

  datatype Option<+T> = None | Some(value: T)

  datatype Result<+T, +E> = Ok(value: T) | Err(error: E)
}
