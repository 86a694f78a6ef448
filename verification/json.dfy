/**
  The JSON value model: a closed tagged variant with the seven kinds a
  QJsonValue can report, including the `Undefined` kind returned for a
  missing array element or object key.
*/
module Json {

  /** The type tag of a JSON value (QJsonValue::Type). */
  datatype Tag = NullTag | BoolTag | NumberTag | StringTag | ArrayTag | ObjectTag | UndefinedTag

  datatype Json =
    | JNull
    | JBool(b: bool)
    | JNumber(n: real)
    | JString(s: string)
    | JArray(elems: seq<Json>)
    | JObject(fields: map<string, Json>)
    | JUndefined

  function TagOf(v: Json): Tag {
    match v
    case JNull => NullTag
    case JBool(_) => BoolTag
    case JNumber(_) => NumberTag
    case JString(_) => StringTag
    case JArray(_) => ArrayTag
    case JObject(_) => ObjectTag
    case JUndefined => UndefinedTag
  }

  /** QJsonArray::at: the element at `i`, or Undefined when `i` is out of bounds. */
  function ArrayAt(a: seq<Json>, i: int): Json {
    if 0 <= i < |a| then a[i] else JUndefined
  }

  /** QJsonObject::value: the value under `key`, or Undefined when the key is absent. */
  function Lookup(o: map<string, Json>, key: string): Json {
    if key in o then o[key] else JUndefined
  }

  /** QJsonValue::toArray: the elements of an array, or the empty array for any other kind. */
  function AsArray(v: Json): seq<Json> {
    if v.JArray? then v.elems else []
  }

  /** QJsonValue::toObject: the members of an object, or the empty object for any other kind. */
  function AsObject(v: Json): map<string, Json> {
    if v.JObject? then v.fields else map[]
  }
}
