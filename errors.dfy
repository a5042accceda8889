/**
 * Go error values as the dispatcher sees them (error.go).
 *
 * A Go `error` is reduced to the text its `Error()` method returns.  The
 * status-carrying `NewError` of error.go wraps another error together with an
 * HTTP status code; it is the only kind of error that has a `Status()`.
 */
module Errors {
  import opened Wrappers
  import Http

  datatype GoError =
    | Errorf(message: string)
    | NewError(err: GoError, status: int)
  {
    /** `Error()`: a NewError reports the message of the error it wraps, unchanged. */
    function Error(): string
    {
      match this
      case Errorf(m) => m
      case NewError(e, _) => e.Error()
    }

    /** `Status()` of the `Error` interface; plain errors do not implement it. */
    function Status(): (s: Option<int>)
      ensures s.Some? <==> NewError?
    {
      match this
      case Errorf(_) => None
      case NewError(_, code) => Some(code)
    }
  }

  /** ErrorInternal: status 500 (section 15.6.1 of RFC 9110), message of err. */
  function ErrorInternal(err: GoError): (e: GoError)
    ensures e.Error() == err.Error()
    ensures e.Status() == Some(Http.StatusInternalServerError)
  {
    NewError(err, Http.StatusInternalServerError)
  }

  /** ErrorBadGateway: status 502 (section 15.6.3 of RFC 9110), message of err. */
  function ErrorBadGateway(err: GoError): (e: GoError)
    ensures e.Error() == err.Error()
    ensures e.Status() == Some(Http.StatusBadGateway)
  {
    NewError(err, Http.StatusBadGateway)
  }

  /** ErrorUnavailable: status 503 (section 15.6.4 of RFC 9110), message of err. */
  function ErrorUnavailable(err: GoError): (e: GoError)
    ensures e.Error() == err.Error()
    ensures e.Status() == Some(Http.StatusServiceUnavailable)
  {
    NewError(err, Http.StatusServiceUnavailable)
  }

  /** ErrorTimeout: status 504 (section 15.6.5 of RFC 9110), message of err. */
  function ErrorTimeout(err: GoError): (e: GoError)
    ensures e.Error() == err.Error()
    ensures e.Status() == Some(Http.StatusGatewayTimeout)
  {
    NewError(err, Http.StatusGatewayTimeout)
  }

  /**
   * However deeply error.go's constructors are nested, `Error()` still reports
   * the innermost plain message.
   */
  lemma {:induction false} NestedErrorMessage(e: GoError)
    ensures e.Error() == Innermost(e).message
  {
    match e
    case Errorf(_) =>
    case NewError(inner, _) => NestedErrorMessage(inner);
  }

  /** The plain error at the bottom of a chain of NewError wrappers. */
  function Innermost(e: GoError): (r: GoError)
    ensures r.Errorf?
  {
    match e
    case Errorf(_) => e
    case NewError(inner, _) => Innermost(inner)
  }

  /**
   * Wrapping any nest of errors in one of error.go's constructors reports the
   * innermost plain message and the outermost constructor's code.
   */
  lemma WrappedNest(e: GoError)
    ensures ErrorInternal(e).Error() == Innermost(e).message && ErrorInternal(e).Status() == Some(Http.StatusInternalServerError)
    ensures ErrorBadGateway(e).Error() == Innermost(e).message && ErrorBadGateway(e).Status() == Some(Http.StatusBadGateway)
    ensures ErrorUnavailable(e).Error() == Innermost(e).message && ErrorUnavailable(e).Status() == Some(Http.StatusServiceUnavailable)
    ensures ErrorTimeout(e).Error() == Innermost(e).message && ErrorTimeout(e).Status() == Some(Http.StatusGatewayTimeout)
  {
    NestedErrorMessage(e);
  }
}
