/**
 * handle/decode_request.go: the earliest binder, which builds a fresh params
 * value from its zero value and consults only the `path` and `query` tags.
 */
module DecodeRequest {
  import opened Wrappers
  import opened Errors
  import opened ParamsBinding
  import Http

  /** The type argument P: an interface type (whose zero value has no dynamic type) or a struct. */
  datatype ParamsType = InterfaceType | StructType(fields: seq<Field>)

  /** The params value returned: the nil interface, or a struct's field contents. */
  datatype Params = NilInterface | StructValue(values: seq<Value>)

  /** What DecodeRequestParams binds: each field as the shared binder would with no ctx tag, from zero. */
  function Decoded(fields: seq<Field>, req: Http.Request): (r: seq<Value>)
    ensures |r| == |fields|
  {
    BindAll(seq(|fields|, j requires 0 <= j < |fields| => WithoutCtx(fields[j])), req, Zeros(fields))
  }

  /**
   * DecodeRequestParams: a nil-typed P gives the zero value and no error; a
   * struct starts from its zero value and each field is set in place from its
   * path capture, then from its first query value.  The error is always nil.
   */
  method DecodeRequestParams(t: ParamsType, req: Http.Request) returns (params: Params, err: Option<GoError>)
    ensures err.None?
    ensures t.InterfaceType? ==> params == NilInterface
    ensures t.StructType? ==> params == StructValue(Decoded(t.fields, req))
  {
    if t.InterfaceType? {
      return NilInterface, None;
    }
    var fields := t.fields;
    var values := new Value[|fields|](j requires 0 <= j < |fields| => Zero(fields[j]));
    var i := 0;
    while i < |fields|
      invariant 0 <= i <= |fields|
      invariant forall j :: 0 <= j < i ==> values[j] == BindField(WithoutCtx(fields[j]), req, Zero(fields[j]))
      invariant forall j :: i <= j < |fields| ==> values[j] == Zero(fields[j])
    {
      var v := DecodeField(fields[i], req, values[i]);
      values[i] := v;
      i := i + 1;
    }
    DecodedIs(fields, req, values[..]);
    return StructValue(values[..]), None;
  }

  lemma DecodedIs(fields: seq<Field>, req: Http.Request, values: seq<Value>)
    requires |values| == |fields|
    requires forall j :: 0 <= j < |fields| ==> values[j] == BindField(WithoutCtx(fields[j]), req, Zero(fields[j]))
    ensures values == Decoded(fields, req)
  {
  }

  /** One field of DecodeRequestParams's loop: its path stage, then its query stage. */
  method DecodeField(field: Field, req: Http.Request, zero: Value) returns (v: Value)
    ensures v == BindField(WithoutCtx(field), req, zero)
  {
    v := zero;
    if field.path != "" {
      var pathValue := req.PathValue(field.path);
      match field.kind
      case IntKind => v := IntValue(GoText.Atoi(pathValue));
      case StringKind => v := StringValue(pathValue);
      case OtherKind =>
    }
    if field.query != "" {
      var queryValue := req.QueryGet(field.query);
      match field.kind
      case IntKind => v := IntValue(GoText.Atoi(queryValue));
      case StringKind => v := StringValue(queryValue);
      case OtherKind =>
    }
  }

  /**
   * The ctx tag is ignored, untagged fields and fields of other kinds stay at
   * their zero value, and a field with path and query tags ends with the
   * query-derived value.
   */
  lemma DecodedFields(fields: seq<Field>, req: Http.Request, i: nat)
    requires i < |fields|
    ensures fields[i].path == "" && fields[i].query == "" ==> Decoded(fields, req)[i] == Zero(fields[i])
    ensures fields[i].kind == OtherKind ==> Decoded(fields, req)[i] == Zero(fields[i])
    ensures fields[i].query != "" && fields[i].kind == IntKind ==>
      Decoded(fields, req)[i] == IntValue(GoText.Atoi(req.QueryGet(fields[i].query)))
    ensures fields[i].query != "" && fields[i].kind == StringKind ==>
      Decoded(fields, req)[i] == StringValue(req.QueryGet(fields[i].query))
    ensures fields[i].path != "" && fields[i].query == "" && fields[i].kind == IntKind ==>
      Decoded(fields, req)[i] == IntValue(GoText.Atoi(req.PathValue(fields[i].path)))
    ensures fields[i].path != "" && fields[i].query == "" && fields[i].kind == StringKind ==>
      Decoded(fields, req)[i] == StringValue(req.PathValue(fields[i].path))
    ensures Decoded(fields, req)[i] == Decoded(fields, req.(context := map[]))[i]
  {
    var g := seq(|fields|, j requires 0 <= j < |fields| => WithoutCtx(fields[j]));
    assert g[i] == WithoutCtx(fields[i]);
    assert Decoded(fields, req)[i] == BindField(g[i], req, Zero(fields[i]));
    assert Decoded(fields, req.(context := map[]))[i] == BindField(g[i], req.(context := map[]), Zero(fields[i]));
  }
}
