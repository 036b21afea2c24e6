/** Stock result types and small arithmetic helpers shared by every module. */
module Wrappers {

  datatype Option<+T> = None | Some(value: T)

  datatype Result<+T, +E> = Ok(value: T) | Err(error: E)

  /** SQL's GREATEST and JavaScript's Math.max on two values. */
  function Max(a: int, b: int): int { if a >= b then a else b }

  /** SQL's LEAST and JavaScript's Math.min on two values. */
  function Min(a: int, b: int): int { if a <= b then a else b }

  /** SQL's two-argument COALESCE on a nullable value. */
  function Coalesce<T>(a: Option<T>, b: Option<T>): Option<T> { if a.Some? then a else b }

  lemma {:induction false} SubsetSize<T>(a: set<T>, b: set<T>)
    requires a <= b
    ensures |a| <= |b| && (|a| == |b| <==> a == b)
  {
    assert b == a + (b - a);
  }
}
