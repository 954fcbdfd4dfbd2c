/** The primitive column types of src/types/datatypes.rs. */
module DataTypes {

  /** Declaration order matters: the derived `Ord` compares variants by it. */
  datatype DataType = Int32 | String | Bool | Float64

  /** Position of the variant in the declaration. */
  function Rank(t: DataType): nat
  {
    match t
    case Int32 => 0
    case String => 1
    case Bool => 2
    case Float64 => 3
  }

  /** The derived `Ord::cmp`: negative, zero or positive. */
  function Compare(a: DataType, b: DataType): (r: int)
    ensures r == 0 <==> a == b
    ensures r < 0 <==> Rank(a) < Rank(b)
    ensures r > 0 <==> Rank(b) < Rank(a)
    ensures -1 <= r <= 1
  {
    if Rank(a) < Rank(b) then -1 else if Rank(a) == Rank(b) then 0 else 1
  }

  predicate Less(a: DataType, b: DataType) { Compare(a, b) < 0 }

  /** `Less` is a strict total order whose chain is Int32 < String < Bool < Float64. */
  lemma LessIsStrictTotalOrder()
    ensures forall a: DataType :: !Less(a, a)
    ensures forall a: DataType, b: DataType :: a != b ==> Less(a, b) != Less(b, a)
    ensures forall a: DataType, b: DataType, c: DataType :: Less(a, b) && Less(b, c) ==> Less(a, c)
    ensures Less(Int32, String) && Less(String, Bool) && Less(Bool, Float64)
  {
  }
}
