/** Nullable scalar values and column vectors of src/types/scalar.rs. */
module Scalar {
  import opened Wrappers
  import opened DataTypes

  /** Rust's `i32`. */
  type I32 = x: int | -0x8000_0000 <= x < 0x8000_0000

  /** Rust's `f64`, kept as its 64-bit pattern: no floating-point arithmetic
      is modelled, values are only carried around. */
  type F64 = bv64

  /** A missing payload is SQL NULL. */
  datatype ScalarValue =
    | Int32(i: Option<I32>)
    | String(s: Option<string>)
    | Bool(b: Option<bool>)
    | Float64(f: Option<F64>)

  /** The type named by a value's tag. The Rust code never checks it against a field's type. */
  function TypeOf(v: ScalarValue): (t: DataType)
    ensures v.Int32? <==> t == DataType.Int32
    ensures v.String? <==> t == DataType.String
    ensures v.Bool? <==> t == DataType.Bool
  {
    match v
    case Int32(_) => DataType.Int32
    case String(_) => DataType.String
    case Bool(_) => DataType.Bool
    case Float64(_) => DataType.Float64
  }

  /** True of a value whose payload is missing. */
  predicate IsNullValue(v: ScalarValue)
  {
    match v
    case Int32(x) => x.None?
    case String(x) => x.None?
    case Bool(x) => x.None?
    case Float64(x) => x.None?
  }

  datatype ColumnVector = ColumnVector(values: seq<ScalarValue>)
}
