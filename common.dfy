/** Shared vocabulary: the Python exceptions the modelled code raises, a
    result type standing for "returns a value or raises", and a few
    helpers for Python's integer and float-to-int semantics. */
module Common {

  /** The exception classes raised by the modelled code. */
  datatype Exception =
    | ValueError
    | KeyError
    | IndexError
    | ZeroDivisionError
    | OverflowError
    | NotImplementedError
    | AttributeError
    | TypeError

  datatype Option<+T> = None | Some(value: T) {
    /** The value, or `default` for None (a keyword argument's default). */
    function GetOr(default: T): T
    {
      if Some? then value else default
    }
  }

  /** A Python call either returns a value or raises an exception. */
  datatype Result<+T> = Ok(value: T) | Raise(error: Exception) {
    predicate IsFailure() { Raise? }

    function PropagateFailure<U>(): Result<U>
      requires Raise?
    {
      Raise(error)
    }

    function Extract(): T
      requires Ok?
    {
      value
    }
  }

  /** Python's `a // b` on integers: floor division. */
  function FloorDiv(a: int, b: int): (q: int)
    requires b != 0
    ensures b > 0 ==> q * b <= a < q * b + b
    ensures b < 0 ==> q * b >= a > q * b + b
  {
    if b > 0 then a / b
    else if a % b == 0 then a / b
    else a / b - 1
  }

  /** `int(x)` on a float: truncation toward zero. */
  function Trunc(x: real): (n: int)
    ensures x >= 0.0 ==> n as real <= x < n as real + 1.0
    ensures x < 0.0 ==> n as real - 1.0 < x <= n as real
  {
    if x >= 0.0 then x.Floor else -((-x).Floor)
  }

  /** `math.ceil(x)` / `np.ceil(x)`: the least integer not below x. */
  function Ceil(x: real): (n: int)
    ensures x <= n as real < x + 1.0
  {
    -((-x).Floor)
  }

  /** The product of the entries of a shape tuple (the number of elements). */
  function Product(shape: seq<nat>): nat
  {
    if shape == [] then 1 else shape[0] * Product(shape[1..])
  }
}
