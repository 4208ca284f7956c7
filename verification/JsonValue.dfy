/** JSON values and the integer conversions applied to them. */
module JsonValue {

  datatype Json =
    | Null
    | Bool(b: bool)
    | Int(i: int)
    | Number(r: real)
    | String(s: string)
    | Array(items: seq<Json>)
    | Object(fields: map<string, Json>)

  const EMPTY_OBJECT := Object(map[])

  const MIN_INT32 := -0x8000_0000
  const MAX_INT32 := 0x7FFF_FFFF

  predicate InInt32(n: int) {
    MIN_INT32 <= n <= MAX_INT32
  }

  /** static_cast<int> of a 64-bit integer: the value modulo 2^32, taken in the signed 32-bit range. */
  function ToInt32(n: int): (r: int)
    ensures InInt32(r)
    ensures (n - r) % 0x1_0000_0000 == 0
    ensures InInt32(n) ==> r == n
  {
    var m := n % 0x1_0000_0000;
    if m <= MAX_INT32 then m else m - 0x1_0000_0000
  }

  predicate Has(v: Json, field: string) {
    v.Object? && field in v.fields
  }
}
