/** Shared wrappers and the representation of instants. */
module Common {

  /** An instant, in whole microseconds since 0001-01-01 00:00 (Python's
      `datetime.min`, which is a Monday). A duration is a difference of two
      instants, in the same unit. Python datetimes are naive here, so no time
      zone is carried. */
  type Time = int

  /** A value that may be absent: Python's `None`. */
  datatype Option<+T> = None | Some(value: T)

  /** The outcome of a step that returns a value or raises an error whose
      message is `error`. */
  datatype Result<+R> = Success(value: R) | Failure(error: string)

  /** The outcome of a validator that either returns normally or raises. */
  datatype Outcome = Pass | Fail(error: string)

  /** Position of the first element of `xs` whose key is `k`: what a
      query's `.first()` or a primary-key `.get()` finds when rows are read
      in table order. */
  function FirstIndex<T, K(==)>(xs: seq<T>, key: T -> K, k: K): (r: Option<nat>)
    ensures r.None? <==> forall i :: 0 <= i < |xs| ==> key(xs[i]) != k
    ensures r.Some? ==> r.value < |xs| && key(xs[r.value]) == k
    ensures r.Some? ==> forall i :: 0 <= i < r.value ==> key(xs[i]) != k
  {
    if |xs| == 0 then None
    else if key(xs[0]) == k then Some(0)
    else match FirstIndex(xs[1..], key, k)
      case None => None
      case Some(i) => Some(i + 1)
  }

  function Max(a: int, b: int): (m: int)
    ensures m >= a && m >= b
    ensures m == a || m == b
  {
    if a >= b then a else b
  }
}
