/**
 * Exceptions seen by the data layer, the `ApiException` hierarchy and the
 * classification of one into the other (`toApiException` and
 * `handleHttpException` in data/remote/utils/Extensions.kt).
 */
module Errors {
  import opened Wrappers

  /**
   * The exceptions the data layer distinguishes. Kotlin's subclassing is
   * flattened: `SocketTimeoutException` and `UnknownHostException` are
   * `IOException`s, and `IoException` stands for every other `IOException`.
   * For an `HttpException`, `errorBody` is the raw error body (None when the
   * response or its body is absent) and `errorField` the outcome of parsing it
   * as JSON and reading `optString("error")`: None when parsing throws,
   * Some("") when the field is missing.
   */
  datatype Exception =
    | HttpException(code: int, message: string, errorBody: Option<string>, errorField: Option<string>)
    | SocketTimeoutException(localizedMessage: Option<string>)
    | UnknownHostException(localizedMessage: Option<string>)
    | IoException(localizedMessage: Option<string>)
    | OtherException(localizedMessage: Option<string>)
  {
    /** `is IOException` in the source. */
    predicate IsIOException() {
      SocketTimeoutException? || UnknownHostException? || IoException?
    }
  }

  /** A call that either returns a value or throws. */
  datatype Outcome<+T> = Ok(value: T) | Threw(exception: Exception)

  /** The sealed `ApiException` hierarchy; every variant keeps its cause. */
  datatype ApiException =
    | NotFoundException(message: string, cause: Exception)
    | TimeoutException(message: string, cause: Exception)
    | ClientException(code: int, message: string, cause: Exception)
    | ServerException(code: int, message: string, cause: Exception)
    | NetworkException(message: string, cause: Exception)
    | UnknownException(message: string, cause: Exception)

  const TIMEOUT_MESSAGE := "Request timed out. Please try again."
  const NO_INTERNET_MESSAGE := "No internet connection. Please check your network."
  const NETWORK_PREFIX := "Network error: "
  const CHECK_CONNECTION := "Check your connection"
  const UNKNOWN_MESSAGE := "Unknown error occurred"

  /** Whitespace as `isBlank` sees it, restricted to the ASCII separators. */
  predicate IsWhitespace(c: char) {
    c == ' ' || c == '\t' || c == '\n' || c == '\r' || c == '\U{000B}' || c == '\U{000C}'
    || c == '\U{001C}' || c == '\U{001D}' || c == '\U{001E}' || c == '\U{001F}'
  }

  /**
   * `isNullOrBlank` on a nullable string: null and "" are blank, a blank
   * string holds whitespace only, and a string that is not blank has a
   * character that is not whitespace.
   */
  predicate IsNullOrBlank(s: Option<string>): (b: bool)
    ensures s.None? || s.value == [] ==> b
    ensures b && s.Some? ==> forall c :: c in s.value ==> IsWhitespace(c)
    ensures !b ==> s.Some? && exists i :: 0 <= i < |s.value| && !IsWhitespace(s.value[i])
  {
    s.None? || forall i :: 0 <= i < |s.value| ==> IsWhitespace(s.value[i])
  }

  /**
   * The readable message of an HTTP failure: the body's non-empty `"error"`
   * field when the body is present, not blank and parses; otherwise the
   * exception's own message.
   */
  function ReadableMessage(e: Exception): (m: string)
    requires e.HttpException?
    ensures m == e.message || (e.errorField.Some? && m == e.errorField.value)
    ensures m != e.message ==> !IsNullOrBlank(e.errorBody) && e.errorField == Some(m) && m != ""
    ensures !IsNullOrBlank(e.errorBody) && e.errorField.Some? && e.errorField.value != "" ==>
      m == e.errorField.value
  {
    if !IsNullOrBlank(e.errorBody) then
      match e.errorField
      case Some(field) => if field != "" then field else e.message
      case None => e.message
    else
      e.message
  }

  /** `handleHttpException`: 404 and 408 first, then the 4xx and 5xx ranges. */
  function HandleHttpException(e: Exception): (r: ApiException)
    requires e.HttpException?
    ensures r.cause == e && r.message == ReadableMessage(e)
    ensures r.NotFoundException? <==> e.code == 404
    ensures r.TimeoutException? <==> e.code == 408
    ensures r.ClientException? <==> 400 <= e.code <= 499 && e.code != 404 && e.code != 408
    ensures r.ServerException? <==> 500 <= e.code <= 599
    ensures r.NetworkException? <==> !(400 <= e.code <= 599)
    ensures r.UnknownException? ==> false
    ensures (r.ClientException? || r.ServerException?) ==> r.code == e.code
  {
    var msg := ReadableMessage(e);
    if e.code == 404 then NotFoundException(msg, e)
    else if e.code == 408 then TimeoutException(msg, e)
    else if 400 <= e.code <= 499 then ClientException(e.code, msg, e)
    else if 500 <= e.code <= 599 then ServerException(e.code, msg, e)
    else NetworkException(msg, e)
  }

  /** `Exception.toApiException`: the first matching case wins, HTTP first. */
  function ToApiException(e: Exception): (r: ApiException)
    ensures r.cause == e
    ensures e.HttpException? ==> r == HandleHttpException(e)
    ensures e.SocketTimeoutException? ==> r == TimeoutException(TIMEOUT_MESSAGE, e)
    ensures e.UnknownHostException? ==> r == NetworkException(NO_INTERNET_MESSAGE, e)
    ensures e.IoException? ==>
      r == NetworkException(NETWORK_PREFIX + e.localizedMessage.GetOr(CHECK_CONNECTION), e)
    ensures e.OtherException? ==> r == UnknownException(e.localizedMessage.GetOr(UNKNOWN_MESSAGE), e)
  {
    match e
    case HttpException(_, _, _, _) => HandleHttpException(e)
    case SocketTimeoutException(_) => TimeoutException(TIMEOUT_MESSAGE, e)
    case UnknownHostException(_) => NetworkException(NO_INTERNET_MESSAGE, e)
    case IoException(m) => NetworkException(NETWORK_PREFIX + m.GetOr(CHECK_CONNECTION), e)
    case OtherException(m) => UnknownException(m.GetOr(UNKNOWN_MESSAGE), e)
  }

  /** Every I/O failure other than a socket timeout is reported as a network problem. */
  lemma IOExceptionsAreNetworkOrTimeout(e: Exception)
    requires e.IsIOException()
    ensures ToApiException(e).NetworkException? || ToApiException(e).TimeoutException?
    ensures ToApiException(e).TimeoutException? <==> e.SocketTimeoutException?
  {
  }

  /** Only an HTTP 404 becomes `NotFoundException`. */
  lemma NotFoundOnlyFrom404(e: Exception)
    ensures ToApiException(e).NotFoundException? <==> e.HttpException? && e.code == 404
  {
  }

  /** A timeout is either a socket timeout or HTTP 408. */
  lemma TimeoutSources(e: Exception)
    ensures ToApiException(e).TimeoutException? <==>
      e.SocketTimeoutException? || (e.HttpException? && e.code == 408)
  {
  }
}
