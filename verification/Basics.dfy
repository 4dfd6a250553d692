// What several modules share.

module Basics {

  datatype Option<+T> = None | Some(value: T)

  type Byte = b: int | 0 <= b < 256

  lemma NothingMore<T>(a: seq<T>)
    ensures a + [] == a
  {
  }

  /** A sequence ends with its last element, whatever is before it. */
  lemma LastApart<T>(a: seq<T>, b: seq<T>)
    requires b != []
    ensures b[..|b|-1] + [b[|b|-1]] == b && a + b[..|b|-1] + [b[|b|-1]] == a + b
  {
  }

  lemma Regroup<T>(a: seq<T>, b: seq<T>, c: seq<T>)
    ensures a + b + c == a + (b + c)
  {
  }
}
