/** NumPy data types and the upper ends of scikit-image's `dtype_range`
    table, which both intensity-rescaling functions look `dtype_out` up in.
    Complex types are absent from the table. */
module DtypeRange {
  import opened Common

  datatype DType =
    | Bool
    | UInt8 | UInt16 | UInt32 | UInt64
    | Int8 | Int16 | Int32 | Int64
    | Float16 | Float32 | Float64
    | Complex64 | Complex128

  /** `dtype_range[dtype][-1]`, or None where the lookup raises KeyError. */
  function DtypeMax(t: DType): Option<real>
  {
    match t
    case Bool => Some(1.0)
    case UInt8 => Some(255.0)
    case UInt16 => Some(65535.0)
    case UInt32 => Some(4294967295.0)
    case UInt64 => Some(18446744073709551615.0)
    case Int8 => Some(127.0)
    case Int16 => Some(32767.0)
    case Int32 => Some(2147483647.0)
    case Int64 => Some(9223372036854775807.0)
    case Float16 => Some(1.0)
    case Float32 => Some(1.0)
    case Float64 => Some(1.0)
    case Complex64 => None
    case Complex128 => None
  }

  /** The default output range `(0, dtype max)`, or KeyError. */
  function DefaultOutRange(t: DType): (r: Result<(real, real)>)
    ensures r.Raise? <==> t in {Complex64, Complex128}
    ensures r.Raise? ==> r.error == KeyError
    ensures r.Ok? ==> r.value.0 == 0.0 && r.value.1 >= 1.0
  {
    match DtypeMax(t)
    case None => Raise(KeyError)
    case Some(m) => Ok((0.0, m))
  }

  /** `np.dtype(t).itemsize`: bytes per element. */
  function ItemSize(t: DType): (n: nat)
    ensures n in {1, 2, 4, 8, 16}
  {
    match t
    case Bool => 1
    case UInt8 => 1
    case UInt16 => 2
    case UInt32 => 4
    case UInt64 => 8
    case Int8 => 1
    case Int16 => 2
    case Int32 => 4
    case Int64 => 8
    case Float16 => 2
    case Float32 => 4
    case Float64 => 8
    case Complex64 => 8
    case Complex128 => 16
  }
}
