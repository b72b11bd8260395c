/**
 * Shared vocabulary of the model: optional values, results, the 64-bit
 * integer range of C#'s `long`, and the connection ids the system fixes.
 */
module Common {

  /** A value that may be absent, standing for a C# reference that may be null. */
  datatype Option<+T> = None | Some(value: T) {
    function GetOr(default: T): T {
      match this
      case Some(v) => v
      case None => default
    }
  }

  /** The outcome of an operation that may throw: the value, or the error it raised. */
  datatype Result<+T, +E> = Ok(value: T) | Err(error: E) {
    predicate IsFailure() {
      Err?
    }

    function PropagateFailure<U>(): Result<U, E>
      requires Err?
    {
      Err(error)
    }

    function Extract(): T
      requires Ok?
    {
      value
    }
  }

  const Int64Min: int := -0x8000_0000_0000_0000
  const Int64Max: int := 0x7FFF_FFFF_FFFF_FFFF

  /** C#'s `long`. */
  type int64 = x: int | -0x8000_0000_0000_0000 <= x <= 0x7FFF_FFFF_FFFF_FFFF

  /** Config id of the main database, which is also the default tenant's id. */
  const MainConfigId: string := "1300000000001"

  /** Config id of the optional log database. */
  const LogConfigId: string := "1300000000002"

  /** `StatusEnum` codes. */
  const StatusEnable: int := 1
  const StatusDisable: int := 2

  /**
   * The elements of `xs` that satisfy `p`, in their original order
   * (LINQ's `Where` followed by `ToList`).
   */
  function Filter<T(!new)>(xs: seq<T>, p: T -> bool): (r: seq<T>)
    ensures |r| <= |xs|
    ensures forall x :: x in r <==> x in xs && p(x)
    ensures forall i | 0 <= i < |r| :: p(r[i])
  {
    if |xs| == 0 then []
    else (if p(xs[0]) then [xs[0]] else []) + Filter(xs[1..], p)
  }

  /**
   * Position of the first element of `xs` satisfying `p` (what LINQ's
   * `First(p)` returns), or `None` when there is none (where `First` throws).
   */
  function FirstIndex<T>(xs: seq<T>, p: T -> bool): (r: Option<nat>)
    ensures r.Some? ==> r.value < |xs| && p(xs[r.value])
    ensures r.Some? ==> forall j | 0 <= j < r.value :: !p(xs[j])
    ensures r.None? <==> forall j | 0 <= j < |xs| :: !p(xs[j])
  {
    if |xs| == 0 then None
    else if p(xs[0]) then Some(0)
    else match FirstIndex(xs[1..], p)
      case None => None
      case Some(k) => Some(k + 1)
  }
}
