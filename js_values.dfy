/**
 * Values of the browser runtime that the dashboards and forms depend on:
 * JavaScript `null`, truthiness, `a || b` defaults, HTTP replies as seen
 * through `fetch`, and the toast notifications a handler emits.
 */
module JsValues {

  /** A value that may be JavaScript `null` or `undefined`. */
  datatype Option<+T> = None | Some(value: T) {

    /** `x ?? d` */
    function GetOr(d: T): T {
      if Some? then value else d
    }
  }

  /** JavaScript truthiness of a possibly-missing string: `null` and `""` are falsy. */
  predicate Truthy(s: Option<string>) {
    s.Some? && s.value != ""
  }

  /** JavaScript truthiness of a possibly-missing numeric id: `null` and `0` are falsy. */
  predicate TruthyId(x: Option<int>) {
    x.Some? && x.value != 0
  }

  /** `s || d` for a possibly-missing string. */
  function OrElse(s: Option<string>, d: string): string {
    if Truthy(s) then s.value else d
  }

  /** `localStorage.getItem(key)`: the stored string, or `null`. */
  function GetItem(storage: map<string, string>, key: string): Option<string> {
    if key in storage then Some(storage[key]) else None
  }

  /**
   * A toast shown by react-toastify, reduced to its kind and text. The
   * session-expired notice is kept apart: it is the one error toast whose
   * closing clears the session and navigates to the login page.
   */
  datatype Toast =
    | SuccessToast(text: string)
    | ErrorToast(text: string)
    | InfoToast(text: string)
    | SessionExpiredToast

  /** The number of session-expired notices in a log of toasts. */
  function ExpiryNotices(log: seq<Toast>): nat {
    if log == [] then 0
    else ExpiryNotices(log[..|log| - 1]) + (if log[|log| - 1] == SessionExpiredToast then 1 else 0)
  }

  /** What a submit handler does before any request: ask for a login, refuse, or send. */
  datatype Submission<+P> = NeedsLogin | Refused(message: string) | Sent(payload: P)

  /**
   * The outcome of `await fetch(...)` followed by `await res.json()`:
   * either a response with its HTTP status and decoded body, or an
   * exception (network failure, or a body that is not JSON).
   */
  datatype Reply<+B> = Response(status: int, body: B) | Thrown

  /** `res.ok`: a status in the 2xx range. */
  predicate IsOk(status: int) {
    200 <= status <= 299
  }

  /** The two statuses every handler treats as an expired session. */
  predicate IsAuthFailure(status: int) {
    status == 401 || status == 403
  }

  /** The body of a reply that carries at most an error message. */
  datatype ErrorBody = ErrorBody(error: Option<string>)
}
