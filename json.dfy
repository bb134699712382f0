/**
 * `serde_json::Value` and what a JSON-valued table holds under a key.
 * Numbers are the integers an `i64`/`u64` field carries; the serializer's
 * byte syntax is abstracted into `Blob`.
 */
module Json {
  import opened Wrappers
  import opened Numeric

  datatype Json =
    | JNull
    | JBool(b: bool)
    | JNum(n: int)
    | JStr(s: string)
    | JArr(items: seq<Json>)
    | JObj(fields: map<string, Json>)

  /**
   * The bytes stored under a key of a JSON table: either what
   * `serde_json::to_vec` produced for a document, or bytes that
   * `serde_json::from_slice` rejects (`Junk([])` is the empty value).
   */
  datatype Blob = Doc(doc: Json) | Junk(bytes: seq<byte>)

  /** `bytes.is_empty()`. */
  predicate IsEmpty(b: Blob)
  {
    b == Junk([])
  }

  /** `serde_json::from_slice::<Value>`: partial, and the inverse of storing `Doc(d)`. */
  function Decode(b: Blob): (r: Option<Json>)
    ensures r.Some? <==> b.Doc?
    ensures b.Doc? ==> r == Some(b.doc)
    ensures IsEmpty(b) ==> r.None?
  {
    match b
    case Doc(d) => Some(d)
    case Junk(_) => None
  }

  /** `Value::get(key)`: a field of an object; every other value has none. */
  function Get(j: Json, key: string): (r: Option<Json>)
    ensures r.Some? <==> j.JObj? && key in j.fields
  {
    if j.JObj? && key in j.fields then Some(j.fields[key]) else None
  }

  /** `.get(key).and_then(Value::as_str)`. */
  function GetStr(j: Json, key: string): (r: Option<string>)
    ensures r.Some? <==> Get(j, key).Some? && Get(j, key).value.JStr?
  {
    match Get(j, key)
    case Some(JStr(s)) => Some(s)
    case _ => None
  }

  /** `.get(key).and_then(Value::as_i64)`: an integer that fits in i64. */
  function GetI64(j: Json, key: string): (r: Option<i64>)
    ensures r.Some? ==> Get(j, key) == Some(JNum(r.value))
    ensures r.None? ==> forall n: i64 :: Get(j, key) != Some(JNum(n))
  {
    match Get(j, key)
    case Some(JNum(n)) => if I64_MIN <= n < I64_LIMIT then Some(n) else None
    case _ => None
  }

  /** `as_object_mut().map(|o| o.insert(key, v))`: sets a field of an object; other values are left as they are. */
  function Insert(j: Json, key: string, v: Json): (r: Json)
    ensures j.JObj? ==> r.JObj? && Get(r, key) == Some(v)
    ensures j.JObj? ==> forall k :: k != key ==> Get(r, k) == Get(j, k)
    ensures !j.JObj? ==> r == j
  {
    if j.JObj? then JObj(j.fields[key := v]) else j
  }

  /** `json!({k1: v1, k2: v2})`. */
  function Obj2(k1: string, v1: Json, k2: string, v2: Json): (r: Json)
    requires k1 != k2
    ensures Get(r, k1) == Some(v1) && Get(r, k2) == Some(v2)
  {
    JObj(map[k1 := v1, k2 := v2])
  }
}
