/** Values shared by every module: optional values, instants and finite counting. */
module Basics {

  datatype Option<+T> = None | Some(value: T) {
    predicate IsFailure() {
      None?
    }

    function PropagateFailure<U>(): Option<U>
      requires None?
    {
      None
    }

    function Extract(): T
      requires Some?
    {
      value
    }
  }

  /** Microseconds since 0001-01-01 00:00 UTC, so that the zero time is 0. */
  type Instant = int

  /** Whole seconds, minutes and days as microseconds. */
  function Seconds(n: int): int {
    n * 1_000_000
  }

  function Minutes(n: int): int {
    n * 60_000_000
  }

  function Midnight(date: int): int {
    date * 86_400_000_000
  }

  /** The calendar day, counted from 0001-01-01, of a clock reading. */
  function DateOf(reading: int): int {
    reading / 86_400_000_000
  }

  function Min(a: int, b: int): int {
    if a < b then a else b
  }

  function Max(a: int, b: int): int {
    if a > b then a else b
  }

  /** Dividing by a positive spacing leaves whole spacings that still fit. */
  lemma WholeSpacings(length: int, spacing: int)
    requires length >= 0 && spacing > 0
    ensures length / spacing >= 0
    ensures (length / spacing) * spacing <= length
  {
    assert length == (length / spacing) * spacing + length % spacing;
  }

  lemma ScaleOrder(a: int, b: int, spacing: int)
    requires a <= b && spacing >= 0
    ensures a * spacing <= b * spacing
  {
  }

  lemma {:induction false} SubsetSize<T>(a: set<T>, b: set<T>)
    requires a <= b
    ensures |a| <= |b|
    decreases a
  {
    if a != {} {
      var x :| x in a;
      SubsetSize(a - {x}, b - {x});
    }
  }
}
