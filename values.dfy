/** Values shared by the services and the frontend: optional values,
    results, and the JSON values that a decoded token's claims hold. */
module Values {

  datatype Option<+T> = None | Some(value: T)

  datatype Result<+T, +E> = Ok(value: T) | Err(error: E)

  /** A decoded JSON value, as Go's encoding/json produces it for an
      `interface{}` target: strings, numbers, booleans, null, arrays and
      objects. Numbers are whole seconds here (see README, "Left out"). */
  datatype JsonValue =
    | JString(str: string)
    | JNumber(num: int)
    | JBool(flag: bool)
    | JNull
    | JArray(items: seq<JsonValue>)
    | JObject(fields: map<string, JsonValue>)

  /** A token's claim set: claim name to decoded JSON value. */
  type Claims = map<string, JsonValue>

  /** A UUID, kept as its canonical text (the form it takes in JSON). */
  datatype Uuid = Uuid(text: string)
}
