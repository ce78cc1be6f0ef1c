/** The JSON values the token refresh reads, and the dictionaries sent as bodies and query strings. */
module Json {

  /** A parsed JSON value: an object, a string, or any other value (number, list, boolean, null). */
  datatype J = JObj(fields: map<string, J>) | JStr(str: string) | JOther

  /** A request body or set of query parameters (a `Dict[str, Any]`). */
  type Payload = map<string, J>
}
