/** Failure-carrying values shared by every module of the storefront model:
    a JavaScript value that may be absent, an operation that may throw, and
    a step that either passes or fails with a message. */
module Common {

  datatype Option<+T> = None | Some(value: T) {
    function GetOr(default: T): T {
      match this
      case Some(v) => v
      case None => default
    }
  }

  /** The outcome of a call that returns a value or throws an Error with a message. */
  datatype Result<+T> = Success(value: T) | Failure(error: string)

  /** The outcome of a call whose only interest is whether it threw. */
  datatype Outcome = Pass | Fail(error: string)

  /** `m[key] || fallback` on a table of texts (the environment, request
      headers): an absent or empty value gives the fallback. */
  function ValueOr(m: map<string, string>, key: string, fallback: string): (v: string)
    ensures v == fallback <==> key !in m || m[key] == "" || m[key] == fallback
    ensures v != fallback ==> key in m && v == m[key]
  {
    if key in m && m[key] != "" then m[key] else fallback
  }
}
