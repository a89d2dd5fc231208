/** Option for JavaScript's `undefined`, and the outcome of code that may throw. */
module Wrappers {

  /** `None` stands for JavaScript's `undefined` (a missing key or element). */
  datatype Option<+T> = None | Some(value: T)

  /**
   * The outcome of an operation that either returns a value or throws.
   * The only exception the modelled code can raise is a `TypeError`
   * (property access on `null`, `in` on a primitive, iterating a
   * non-iterable, calling `trim` on a non-string).
   */
  datatype Result<+T> = Ok(value: T) | TypeError

  /** Runs `a`, then `b`, and concatenates their outputs; the first throw wins. */
  function Concat<T>(a: Result<seq<T>>, b: Result<seq<T>>): (r: Result<seq<T>>)
    ensures r.Ok? <==> a.Ok? && b.Ok?
    ensures r.Ok? ==> r.value == a.value + b.value
  {
    match a
    case TypeError => TypeError
    case Ok(x) =>
      match b
      case TypeError => TypeError
      case Ok(y) => Ok(x + y)
  }

  lemma ConcatAssoc<T>(a: Result<seq<T>>, b: Result<seq<T>>, c: Result<seq<T>>)
    ensures Concat(Concat(a, b), c) == Concat(a, Concat(b, c))
  {
    if a.Ok? && b.Ok? && c.Ok? {
      assert (a.value + b.value) + c.value == a.value + (b.value + c.value);
    }
  }
}
