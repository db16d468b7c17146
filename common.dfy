/**
 * Values shared by every sample: nullable references, exceptions as results,
 * and the JSON elements the samples persist.
 */
module Common {

  /** A .NET reference or nullable value that may be null. */
  datatype Option<+T> = None | Some(value: T) {
    function GetOr(default: T): T {
      match this
      case Some(v) => v
      case None => default
    }
  }

  /** The .NET exceptions the samples throw or translate. */
  datatype Exception =
    | ArgumentNull(paramName: string, detail: Option<string>)
    | Argument(message: string, parameter: Option<string>)
    | InvalidOperation(message: string, inner: Option<Exception>)
    | KeyNotFound(key: string)
    | JsonFormat(message: string)
    | RequestFailed(message: string)

  /** Either the value an operation returns or the exception it throws. */
  datatype Result<+T> = Ok(value: T) | Err(error: Exception) {
    predicate IsFailure() { Err? }
    function PropagateFailure<U>(): Result<U> requires Err? { Err(error) }
    function Extract(): T requires Ok? { value }
  }

  /**
   * A System.Text.Json.JsonElement. `JUndefined` is the value kind of a
   * default JsonElement, which is what a brand-new agent thread hands to its
   * chat message store.
   */
  datatype Json =
    | JUndefined
    | JNull
    | JBool(b: bool)
    | JNumber(n: int)
    | JString(s: string)
    | JArray(items: seq<Json>)
    | JObject(members: seq<(string, Json)>)
}
