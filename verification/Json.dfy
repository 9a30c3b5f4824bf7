/** JSON values as Qt presents them, and the lenient readers. */
module Json {

  type Object = map<string, Json>

  datatype Json =
    | Undefined
    | Null
    | Bool(b: bool)
    | Num(n: real)
    | Str(s: string)
    | Arr(items: seq<Json>)
    | Obj(fields: Object)

  function Upper(c: char): char {
    if 'a' <= c <= 'z' then (c as int - 32) as char else c
  }

  /** The key with its first letter in upper case. */
  function Pascal(key: string): string {
    if key == "" then "" else [Upper(key[0])] + key[1..]
  }

  function Get(o: Object, key: string): Json {
    if key in o then o[key] else Undefined
  }

  /** valueOf / rawValueOf: camelCase first, else PascalCase. */
  function ValueOf(o: Object, key: string): Json {
    if key in o then o[key] else Get(o, Pascal(key))
  }

  function AsString(j: Json): string {
    if j.Str? then j.s else ""
  }

  function AsBool(j: Json): bool {
    j.Bool? && j.b
  }

  /** toInt(0): a whole number in the range of int. */
  function AsInt(j: Json): int {
    if j.Num? && j.n == j.n.Floor as real && -0x8000_0000 <= j.n.Floor < 0x8000_0000 then j.n.Floor else 0
  }

  function AsArray(j: Json): seq<Json> {
    if j.Arr? then j.items else []
  }

  function AsObject(j: Json): Object {
    if j.Obj? then j.fields else map[]
  }

  /** encStringOf. */
  function TextOf(o: Object, key: string): string {
    AsString(ValueOf(o, key))
  }
}
