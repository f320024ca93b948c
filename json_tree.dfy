/**
 * The parsed JSON tree the emitter walks, as the org.json library hands it over.
 * Each alternative stands for one Java class that `obj.get(key)` can return:
 * JSONObject, JSONArray, Integer, Long, Double, String and Boolean are the classes
 * the emitter tests with `instanceof`; `Null` is the JSONObject.NULL sentinel and
 * `Other` any further class (BigInteger, BigDecimal, ...) that matches no test.
 */
module JsonTree {
  newtype int32 = x: int | -0x8000_0000 <= x < 0x8000_0000
  newtype int64 = x: int | -0x8000_0000_0000_0000 <= x < 0x8000_0000_0000_0000

  datatype Json =
    | Null
    | Bool(b: bool)
    | Int32(i: int32)
    | Int64(l: int64)
    | Dbl                   // a java.lang.Double; its value plays no part
    | Str(s: string)
    | Arr(elems: seq<Json>)
    | Obj(obj: JsonObject)
    | Other

  /** A JSONObject: its members in the order `obj.keys()` yields them. */
  datatype JsonObject = JsonObject(members: seq<Member>)

  datatype Member = Member(key: string, value: Json)

  /** True when some `instanceof` branch of the emitter's top-level chain matches `v`. */
  predicate Recognized(v: Json) {
    !(v.Null? || v.Other?)
  }
}
