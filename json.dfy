/**
 * Decoded JSON values as the Python scripts see them after `r.json()` or
 * `json.load`, with Python's notion of truthiness and the `dict.get` /
 * item-assignment operations the scripts use. Python's `None` is `Null`.
 */
module Json {
  datatype Json =
    | Null
    | Bool(b: bool)
    | Num(n: int)
    | Str(s: string)
    | Arr(items: seq<Json>)
    | Obj(fields: map<string, Json>)

  /** Python's `bool(x)`: None, False, 0, "", [] and {} are false. */
  predicate Truthy(j: Json) {
    match j
    case Null => false
    case Bool(b) => b
    case Num(n) => n != 0
    case Str(s) => s != ""
    case Arr(items) => items != []
    case Obj(fields) => fields != map[]
  }

  /** `x or y`: x when it is truthy, otherwise y. */
  function Or(x: Json, y: Json): (r: Json)
    ensures Truthy(r) <==> Truthy(x) || Truthy(y)
    ensures Truthy(x) ==> r == x
  {
    if Truthy(x) then x else y
  }

  /**
   * `d.get(key)`: the field when it is there, otherwise None. A value that
   * is not an object has no fields.
   */
  function Get(j: Json, key: string): (r: Json)
    ensures j.Obj? && key in j.fields ==> r == j.fields[key]
    ensures !(j.Obj? && key in j.fields) ==> r == Null
  {
    if j.Obj? && key in j.fields then j.fields[key] else Null
  }

  /** `d[key] = v` on an object; any other value is left as it is. */
  function Put(j: Json, key: string, v: Json): (r: Json)
    ensures j.Obj? ==> r.Obj? && r.fields.Keys == j.fields.Keys + {key}
    ensures !j.Obj? ==> r == j
  {
    if j.Obj? then Obj(j.fields[key := v]) else j
  }

  /** After `d[key] = v`, `d.get(key)` is v and every other field is unchanged. */
  lemma PutGet(j: Json, key: string, v: Json, other: string)
    requires j.Obj?
    ensures Get(Put(j, key, v), key) == v
    ensures other != key ==> Get(Put(j, key, v), other) == Get(j, other)
  {
  }

  /** A dict with a field in it is truthy. */
  lemma PutTruthy(j: Json, key: string, v: Json)
    requires j.Obj?
    ensures Truthy(Put(j, key, v))
  {
    assert key in Put(j, key, v).fields;
  }
}
