/** JSON values as the protocol represents them: an object is an ordered map, a number keeps its form. */
module Json {
  import opened Binary64

  datatype Number = Signed(value: int) | Unsigned(magnitude: nat) | Float(fraction: Float64)

  datatype Json =
    | Null
    | Bool(flag: bool)
    | Num(number: Number)
    | Str(text: string)
    | Arr(items: seq<Json>)
    | Obj(fields: map<string, Json>)

  /** The number as the validator compares it: integers are rounded to binary floating point first. */
  function AsReal(number: Number): real {
    match number
    case Signed(n) => Rounded(n) as real
    case Unsigned(n) => Rounded(n) as real
    case Float(x) => Value(x)
  }
}
