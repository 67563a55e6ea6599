/**
 * JSON values as `serde_json::Value` holds them. The workspace does not enable
 * `preserve_order`, so an object is a list of entries in key order; `Get` finds
 * the entry of a key.
 */
module Json {
  import opened Options

  const I64_MIN := -0x8000_0000_0000_0000
  const I64_MAX := 0x7fff_ffff_ffff_ffff

  datatype Number = Int(i: int) | Float(r: real)

  datatype Entry = Entry(key: string, value: Value)

  datatype Value =
    | Null
    | Bool(b: bool)
    | Num(n: Number)
    | Str(s: string)
    | Arr(items: seq<Value>)
    | Obj(entries: seq<Entry>)

  /** `serde_json::Value::get` with a string key: only objects have members. */
  function Get(v: Value, key: string): Option<Value> {
    if v.Obj? then Find(v.entries, key) else None
  }

  function Find(entries: seq<Entry>, key: string): Option<Value> {
    if entries == [] then None
    else if entries[0].key == key then Some(entries[0].value)
    else Find(entries[1..], key)
  }

  /** `Value::as_i64`: an integer that fits 64 bits. */
  function AsI64(v: Value): Option<int> {
    if v.Num? && v.n.Int? && I64_MIN <= v.n.i <= I64_MAX then Some(v.n.i) else None
  }
}
