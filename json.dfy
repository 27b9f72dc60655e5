/**
 * JSON values as the Qt classes QJsonValue/QJsonObject present them: an
 * object is a map from key to value, and a lookup of a missing key yields
 * the Undefined value. Numbers are whole numbers here; the client only
 * stores timestamps, counts and sizes in them.
 */
module Json {

  datatype Json =
    | Undefined
    | Null
    | Bool(b: bool)
    | Number(n: int)
    | Str(s: string)
    | Array(items: seq<Json>)
    | Object(fields: map<string, Json>)

  type JsonObject = map<string, Json>

  /** QJsonValue::Type */
  datatype Kind = UndefinedKind | NullKind | BoolKind | DoubleKind | StringKind | ArrayKind | ObjectKind

  function KindOf(v: Json): Kind {
    match v
    case Undefined => UndefinedKind
    case Null => NullKind
    case Bool(_) => BoolKind
    case Number(_) => DoubleKind
    case Str(_) => StringKind
    case Array(_) => ArrayKind
    case Object(_) => ObjectKind
  }

  /** `o[k]` on a const QJsonObject: Undefined when the key is missing. */
  function Get(o: JsonObject, k: string): Json {
    if k in o then o[k] else Undefined
  }

  /** QJsonValue::toString(): the string, or "" for any other kind. */
  function AsString(v: Json): string {
    if v.Str? then v.s else ""
  }

  /** QJsonValue::toObject(): the object, or the empty object. */
  function AsObject(v: Json): JsonObject {
    if v.Object? then v.fields else map[]
  }

  /** QJsonValue::toArray(): the array, or the empty array. */
  function AsArray(v: Json): seq<Json> {
    if v.Array? then v.items else []
  }

  /** QJsonValue::toDouble(): the number, or 0 for any other kind. */
  function AsNumber(v: Json): int {
    if v.Number? then v.n else 0
  }

  function GetString(o: JsonObject, k: string): string {
    AsString(Get(o, k))
  }

  function GetObject(o: JsonObject, k: string): JsonObject {
    AsObject(Get(o, k))
  }
}
