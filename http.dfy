/**
 * The parts of net/http the dispatchers touch, as plain values.
 *
 * A request is an abstract record: its two negotiation headers, the path
 * captures of the router, the decoded query string and the request-scoped
 * context values.  A reply records what the handler wrote back.
 */
module Http {

  // Status codes, with the RFC 9110 section that defines each.
  const StatusOK := 200                    // 15.3.1
  const StatusNoContent := 204             // 15.3.5
  const StatusBadRequest := 400            // 15.5.1
  const StatusNotAcceptable := 406         // 15.5.7
  const StatusInternalServerError := 500   // 15.6.1
  const StatusBadGateway := 502            // 15.6.3
  const StatusServiceUnavailable := 503    // 15.6.4
  const StatusGatewayTimeout := 504        // 15.6.5

  const MimeJson := "application/json"
  const MimeHtml := "text/html"
  const MimeForm := "application/x-www-form-urlencoded"

  /** A value stored in the request context, by its dynamic Go type. */
  datatype CtxValue = CtxInt(i: int) | CtxString(s: string) | CtxOther(id: nat)

  type Context = map<string, CtxValue>

  datatype Request = Request(
    contentType: string,                // r.Header.Get("Content-Type"), "" when absent
    accept: string,                     // r.Header.Get("Accept"), "" when absent
    pathValues: map<string, string>,    // router captures (r.PathValue, chi.URLParam)
    query: map<string, seq<string>>,    // r.URL.Query()
    context: Context)                   // r.Context().Value
  {
    /** r.PathValue(name): the capture, or "" when the route has none of that name. */
    function PathValue(name: string): string
    {
      if name in pathValues then pathValues[name] else ""
    }

    /** r.URL.Query().Get(name): the first value of the parameter, or "". */
    function QueryGet(name: string): string
    {
      if name in query && |query[name]| > 0 then query[name][0] else ""
    }
  }

  /** What the handler did with the http.ResponseWriter. */
  datatype Reply<T> =
    | Error(status: int, message: string)   // http.Error(w, message, status)
    | Written(via: string, payload: T)      // a writer/marshaler registered under `via` wrote payload
    | NoContent                             // w.WriteHeader(204)
    | Empty                                 // returned without writing anything
    | Aborted                               // the handler panicked: no response is sent

  /** The status line the client receives. */
  function StatusOf<T>(r: Reply<T>): int
  {
    match r
    case Error(s, _) => s
    case Written(_, _) => StatusOK
    case NoContent => StatusNoContent
    case Empty => StatusOK
    case Aborted => 0   // no status line at all
  }
}
