/**
 * The error values of the SDK: the `SSOError` record built by `createSSOError`
 * (src/utils/index.ts) and the conversion `convertToSSOError` that every catch
 * block of the client applies to whatever was thrown (src/core/SSOClient.ts).
 */
module Errors {
  import opened Wrappers

  /**
   * The `code` property of an error: the string codes of the SDK, or the legacy
   * numeric code a `DOMException` carries (20, `ABORT_ERR`, for an `AbortError`).
   */
  datatype Code = Text(text: string) | Legacy(number: nat)

  /** `DOMException.ABORT_ERR`, the legacy code of an aborted `fetch`. */
  const AbortErrCode: nat := 20

  /**
   * An `Error` carrying a `code` (src/types/index.ts); `createSSOError` fills
   * exactly these four fields. The free-form `details` is not modelled.
   */
  datatype SSOError = SSOError(message: string, code: Code, status: Option<int>, retryable: bool)

  /** `createSSOError(message, code)` with the defaults for `status` and `retryable`. */
  function NewError(message: string, code: string): (e: SSOError)
    ensures e.message == message && e.code == Text(code)
    ensures e.status == None && !e.retryable
  {
    SSOError(message, Text(code), None, false)
  }

  /**
   * A value that reached a `catch` block.
   *  - Coded: an `Error` that has a `code` property (every error the SDK throws itself);
   *  - ErrorObj: an `Error` without `code` (a `TypeError` from `fetch`, a `SyntaxError`
   *    from `response.json()`, `new Error(msg)`);
   *  - DomException: a `DOMException`, an `Error` whose `code` is its legacy number; an
   *    aborted `fetch` (the timeout of `fetchWithRetry`) rejects with one named
   *    "AbortError" and numbered `AbortErrCode`;
   *  - Primitive: a thrown non-object, seen through its `toString()`; the empty text also
   *    stands for a thrown `null` or `undefined`.
   */
  datatype Thrown =
    | Coded(err: SSOError)
    | ErrorObj(name: string, message: string)
    | DomException(name: string, message: string, legacyCode: nat)
    | Primitive(text: string)

  /** The fallback message "unknown error" of `convertToSSOError`. */
  const UnknownErrorMessage := "未知错误"

  /** `Error.prototype.toString`: the name, the message, or both joined by ": ". */
  function ErrorObjectText(name: string, message: string): string
  {
    if message == "" then name
    else if name == "" then message
    else name + ": " + message
  }

  /** `error instanceof Error` as seen by a catch block. */
  predicate IsErrorInstance(t: Thrown)
  {
    t.Coded? || t.ErrorObj? || t.DomException?
  }

  /** The rejection of a `fetch` whose `AbortController` fired. */
  predicate IsTimeoutAbort(t: Thrown)
  {
    t.DomException? && t.name == "AbortError" && t.legacyCode == AbortErrCode
  }

  /** `error.message` of a thrown `Error`. */
  function ErrorMessage(t: Thrown): string
    requires IsErrorInstance(t)
  {
    if t.Coded? then t.err.message else t.message
  }

  /**
   * `convertToSSOError(error, defaultCode)`: an error that already has a `code` is
   * passed through unchanged (a `DOMException` keeps its message and numeric code,
   * its missing `status` and `retryable` reading as absent and false); anything
   * else becomes a new error with `defaultCode` and the first non-empty of its
   * message, its `toString()` and "unknown error".
   */
  function ConvertToSSOError(t: Thrown, defaultCode: string): (e: SSOError)
    ensures t.Coded? ==> e == t.err
    ensures t.DomException? ==> e == SSOError(t.message, Legacy(t.legacyCode), None, false)
    ensures t.ErrorObj? || t.Primitive? ==> e.code == Text(defaultCode) && e.status == None && !e.retryable
    ensures t.ErrorObj? || t.Primitive? ==> e.message != ""
    ensures t.ErrorObj? && t.message != "" ==> e.message == t.message
    ensures t.Primitive? && t.text != "" ==> e.message == t.text
  {
    match t
    case Coded(err) => err
    case DomException(_, message, legacyCode) => SSOError(message, Legacy(legacyCode), None, false)
    case ErrorObj(name, message) =>
      var text := if message != "" then message else ErrorObjectText(name, message);
      NewError(if text != "" then text else UnknownErrorMessage, defaultCode)
    case Primitive(text) =>
      NewError(if text != "" then text else UnknownErrorMessage, defaultCode)
  }

  /** A timed-out request keeps the abort's numeric code whatever default the caller names. */
  lemma TimeoutKeepsAbortCode(t: Thrown, defaultCode: string)
    requires IsTimeoutAbort(t)
    ensures ConvertToSSOError(t, defaultCode).code == Legacy(AbortErrCode)
    ensures ConvertToSSOError(t, defaultCode).code != Text(defaultCode)
  {
  }
}
