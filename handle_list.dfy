/**
 * handle/handle.go: the earlier dispatcher.  Body and params are always
 * decoded, and the response goes to the first writer of the argument list
 * whose Accept() equals the negotiated type; with none, 406 (section 15.5.7
 * of RFC 9110).
 */
module HandleList {
  import opened Wrappers
  import opened Errors
  import Http
  import DecodeRequest
  import Handle

  /** A Writer argument by its Accept() value. */
  datatype Writer = Writer(id: nat, accept: string)

  /** The position of the first writer for accept, or -1. */
  function FirstMatch(writers: seq<Writer>, accept: string): (i: int)
    ensures -1 <= i < |writers|
    ensures i >= 0 ==> writers[i].accept == accept && forall j :: 0 <= j < i ==> writers[j].accept != accept
    ensures i == -1 <==> forall j :: 0 <= j < |writers| ==> writers[j].accept != accept
  {
    if writers == [] then -1
    else if writers[0].accept == accept then 0
    else
      var k := FirstMatch(writers[1..], accept);
      if k == -1 then -1 else k + 1
  }

  /** What one request yields, stage by stage. */
  function Outcome<T, S>(
    ptype: DecodeRequest.ParamsType, writers: seq<Writer>, req: Http.Request,
    decodeBody: Http.Request -> Result<T, string>,
    process: (Http.Context, T, DecodeRequest.Params) -> Result<S, GoError>,
    write: (Writer, Http.Request, S) -> Option<GoError>): Http.Reply<S>
  {
    match decodeBody(req)
    case Err(msg) => Http.Error(Http.StatusBadRequest, "error decoding request body: " + msg)
    case Ok(body) =>
      var params := if ptype.InterfaceType? then DecodeRequest.NilInterface
        else DecodeRequest.StructValue(DecodeRequest.Decoded(ptype.fields, req));
      match process(req.context, body, params)
      case Err(e) => Http.Error(Http.StatusInternalServerError, e.Error())
      case Ok(resp) =>
        var i := FirstMatch(writers, Handle.WriterKey(req));
        if i == -1 then Http.Error(Http.StatusNotAcceptable, "No writer found for Accept header")
        else
          match write(writers[i], req, resp)
          case Some(e) => Http.Error(Http.StatusInternalServerError, e.Error())
          case None => Http.Written(writers[i].accept, resp)
  }

  /** The request closure of Handle. */
  method Serve<T, S>(
    ptype: DecodeRequest.ParamsType, writers: seq<Writer>, req: Http.Request,
    decodeBody: Http.Request -> Result<T, string>,
    process: (Http.Context, T, DecodeRequest.Params) -> Result<S, GoError>,
    write: (Writer, Http.Request, S) -> Option<GoError>) returns (reply: Http.Reply<S>)
    ensures reply == Outcome(ptype, writers, req, decodeBody, process, write)
  {
    var decoded := decodeBody(req);
    if decoded.Err? {
      return Http.Error(Http.StatusBadRequest, "error decoding request body: " + decoded.error);
    }
    var body := decoded.value;
    // DecodeRequestParams never fails, so its 400 branch is not reachable.
    var params, _ := DecodeRequest.DecodeRequestParams(ptype, req);
    var result := process(req.context, body, params);
    if result.Err? {
      return Http.Error(Http.StatusInternalServerError, result.error.Error());
    }
    var resp := result.value;
    var accept := req.accept;
    if accept == "" || accept == "*/*" {
      accept := Http.MimeJson;
    }
    var k := 0;
    while k < |writers|
      invariant 0 <= k <= |writers|
      invariant forall j :: 0 <= j < k ==> writers[j].accept != accept
    {
      if writers[k].accept == accept {
        var werr := write(writers[k], req, resp);
        if werr.Some? {
          return Http.Error(Http.StatusInternalServerError, werr.value.Error());
        }
        return Http.Written(writers[k].accept, resp);
      }
      k := k + 1;
    }
    return Http.Error(Http.StatusNotAcceptable, "No writer found for Accept header");
  }

  /** A body decode error gives 400 and the process function is not invoked. */
  lemma DecodeErrorIs400<T, S>(
    ptype: DecodeRequest.ParamsType, writers: seq<Writer>, req: Http.Request,
    decodeBody: Http.Request -> Result<T, string>,
    process: (Http.Context, T, DecodeRequest.Params) -> Result<S, GoError>,
    other: (Http.Context, T, DecodeRequest.Params) -> Result<S, GoError>,
    write: (Writer, Http.Request, S) -> Option<GoError>)
    requires decodeBody(req).Err?
    ensures Http.StatusOf(Outcome(ptype, writers, req, decodeBody, process, write)) == Http.StatusBadRequest
    ensures Outcome(ptype, writers, req, decodeBody, process, write)
      == Outcome(ptype, writers, req, decodeBody, other, write)
  {
  }

  /**
   * Only the first writer for the negotiated type is ever called: two write
   * functions that agree on it give the same reply, whatever they do with
   * later duplicates.  Without one, including for an empty list, the reply is
   * 406.
   */
  lemma FirstWriterWins<T, S(!new)>(
    ptype: DecodeRequest.ParamsType, writers: seq<Writer>, req: Http.Request,
    decodeBody: Http.Request -> Result<T, string>,
    process: (Http.Context, T, DecodeRequest.Params) -> Result<S, GoError>,
    write: (Writer, Http.Request, S) -> Option<GoError>,
    write2: (Writer, Http.Request, S) -> Option<GoError>,
    i: nat)
    requires i < |writers| && writers[i].accept == Handle.WriterKey(req)
    requires forall j :: 0 <= j < i ==> writers[j].accept != Handle.WriterKey(req)
    requires forall v :: write(writers[i], req, v) == write2(writers[i], req, v)
    ensures Outcome(ptype, writers, req, decodeBody, process, write)
      == Outcome(ptype, writers, req, decodeBody, process, write2)
  {
    assert FirstMatch(writers, Handle.WriterKey(req)) == i;
    if decodeBody(req).Ok? {
      var params := if ptype.InterfaceType? then DecodeRequest.NilInterface
        else DecodeRequest.StructValue(DecodeRequest.Decoded(ptype.fields, req));
      var result := process(req.context, decodeBody(req).value, params);
      if result.Ok? {
        assert write(writers[i], req, result.value) == write2(writers[i], req, result.value);
      }
    }
  }

  /**
   * No writer for the negotiated type, an empty list included, gives 406 once
   * processing succeeded.
   */
  lemma NoWriterIs406<T(!new), S>(
    ptype: DecodeRequest.ParamsType, writers: seq<Writer>, req: Http.Request,
    decodeBody: Http.Request -> Result<T, string>,
    process: (Http.Context, T, DecodeRequest.Params) -> Result<S, GoError>,
    write: (Writer, Http.Request, S) -> Option<GoError>)
    requires forall j :: 0 <= j < |writers| ==> writers[j].accept != Handle.WriterKey(req)
    requires decodeBody(req).Ok?
    requires forall t, p :: process(req.context, t, p).Ok?
    ensures Outcome(ptype, writers, req, decodeBody, process, write)
      == Http.Error(Http.StatusNotAcceptable, "No writer found for Accept header")
  {
    assert FirstMatch(writers, Handle.WriterKey(req)) == -1;
    var params := if ptype.InterfaceType? then DecodeRequest.NilInterface
      else DecodeRequest.StructValue(DecodeRequest.Decoded(ptype.fields, req));
    assert process(req.context, decodeBody(req).value, params).Ok?;
  }

  /** A process error gives 500 with its message once the body decoded. */
  lemma ProcessErrorIs500<T(!new), S>(
    ptype: DecodeRequest.ParamsType, writers: seq<Writer>, req: Http.Request,
    decodeBody: Http.Request -> Result<T, string>,
    process: (Http.Context, T, DecodeRequest.Params) -> Result<S, GoError>,
    write: (Writer, Http.Request, S) -> Option<GoError>,
    e: GoError)
    requires decodeBody(req).Ok?
    requires forall t, p :: process(req.context, t, p) == Err(e)
    ensures Outcome(ptype, writers, req, decodeBody, process, write)
      == Http.Error(Http.StatusInternalServerError, e.Error())
  {
    var params := if ptype.InterfaceType? then DecodeRequest.NilInterface
      else DecodeRequest.StructValue(DecodeRequest.Decoded(ptype.fields, req));
    assert process(req.context, decodeBody(req).value, params) == Err(e);
  }

  /**
   * Once processing succeeded, the first writer for the negotiated type
   * decides the reply: its error gives 500 with the message, its success the
   * response written under its Accept() value.
   */
  lemma WriterErrorIs500<T(!new), S>(
    ptype: DecodeRequest.ParamsType, writers: seq<Writer>, req: Http.Request,
    decodeBody: Http.Request -> Result<T, string>,
    process: (Http.Context, T, DecodeRequest.Params) -> Result<S, GoError>,
    write: (Writer, Http.Request, S) -> Option<GoError>,
    resp: S, i: nat)
    requires decodeBody(req).Ok?
    requires forall t, p :: process(req.context, t, p) == Ok(resp)
    requires i < |writers| && writers[i].accept == Handle.WriterKey(req)
    requires forall j :: 0 <= j < i ==> writers[j].accept != Handle.WriterKey(req)
    ensures write(writers[i], req, resp).Some? ==>
      Outcome(ptype, writers, req, decodeBody, process, write)
        == Http.Error(Http.StatusInternalServerError, write(writers[i], req, resp).value.Error())
    ensures write(writers[i], req, resp).None? ==>
      Outcome(ptype, writers, req, decodeBody, process, write) == Http.Written(writers[i].accept, resp)
  {
    assert FirstMatch(writers, Handle.WriterKey(req)) == i;
    var params := if ptype.InterfaceType? then DecodeRequest.NilInterface
      else DecodeRequest.StructValue(DecodeRequest.Decoded(ptype.fields, req));
    assert process(req.context, decodeBody(req).value, params) == Ok(resp);
  }

  /** Every request ends in 200, 400, 406 or 500; 204 is never sent. */
  lemma OutcomeStatuses<T, S>(
    ptype: DecodeRequest.ParamsType, writers: seq<Writer>, req: Http.Request,
    decodeBody: Http.Request -> Result<T, string>,
    process: (Http.Context, T, DecodeRequest.Params) -> Result<S, GoError>,
    write: (Writer, Http.Request, S) -> Option<GoError>)
    ensures Http.StatusOf(Outcome(ptype, writers, req, decodeBody, process, write)) in
      {Http.StatusOK, Http.StatusBadRequest, Http.StatusNotAcceptable, Http.StatusInternalServerError}
  {
  }
}
