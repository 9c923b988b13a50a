/** Values shared by every part of the model: an optional value (the source's
    `null`/`undefined`) and a browser `File` as the client code sees it. */
module Base {

  datatype Option<+T> = None | Some(value: T) {
    function GetOr(default: T): T {
      match this
      case Some(v) => v
      case None => default
    }
  }

  /** A selected file: its name, its MIME type (`File.type`) and its size in bytes. */
  datatype File = File(name: string, mime: string, size: nat)

  /** A value caught by a `catch`: an `Error` object with its message, or
      anything else. */
  datatype Thrown = ErrorObject(message: string) | NonError

  /** `err instanceof Error ? err.message : fallback`. */
  function MessageOr(t: Thrown, fallback: string): (m: string)
    ensures t.ErrorObject? ==> m == t.message
    ensures t.NonError? ==> m == fallback
  {
    match t
    case ErrorObject(msg) => msg
    case NonError => fallback
  }

  /** JavaScript truthiness of an optional string: absent and "" are both falsy. */
  predicate Truthy(s: Option<string>) {
    s.Some? && s.value != ""
  }
}
