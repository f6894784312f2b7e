/**
  The JSON values the VM record format uses, at the level of an already
  parsed document (QJsonDocument / QJsonObject / QJsonValue).
*/
module Json {
  import opened Keys

  /** A JSON value: a string, a boolean, or anything else (number, null, array, object). */
  datatype JsonValue = JString(str: string) | JBool(flag: bool) | JOther

  /** A JSON object, keyed by the key names (see Keys.KeyName). */
  type JsonObject = map<Key, JsonValue>

  /** What parsing a metadata file yields: a syntax error, a valid non-object document, or an object. */
  datatype JsonDoc = Malformed | NotAnObject | Object(root: JsonObject)

  /** QJsonValue::toString(): the string itself, and "" for a value of any other type. */
  function AsString(v: JsonValue): (s: string)
    ensures v.JString? ==> s == v.str
    ensures !v.JString? ==> s == ""
  {
    match v
    case JString(s) => s
    case _ => ""
  }

  /** QJsonValue::toBool(): the boolean itself, and false for a value of any other type. */
  function AsBool(v: JsonValue): (b: bool)
    ensures v.JBool? ==> b == v.flag
    ensures !v.JBool? ==> !b
  {
    match v
    case JBool(b) => b
    case _ => false
  }
}
