/**
 * The tag-driven parameter binder shared by the three copies in the
 * repository, as a specification on values.
 *
 * Reflection over a params struct is replaced by a descriptor per field: its
 * kind and the values of its `path`, `query` and `ctx` struct tags ("" when
 * the tag is absent).  The struct's contents are a sequence of field values.
 * A field is bound in three stages, in this order: from the path capture, from
 * the first query value, from the context value.
 */
module ParamsBinding {
  import opened Wrappers
  import opened GoText
  import Http

  datatype Kind = IntKind | StringKind | OtherKind

  datatype Field = Field(kind: Kind, path: string, query: string, ctx: string)

  /** The contents of one field; OtherValue stands for any value of another kind. */
  datatype Value = IntValue(i: int) | StringValue(s: string) | OtherValue(id: nat)

  /** The zero value of a field of the given kind. */
  function Zero(f: Field): (v: Value)
    ensures f.kind == IntKind ==> v == IntValue(0)
    ensures f.kind == StringKind ==> v == StringValue("")
  {
    match f.kind
    case IntKind => IntValue(0)
    case StringKind => StringValue("")
    case OtherKind => OtherValue(0)
  }

  /** A raw string set into a field: Atoi with its error discarded, the text itself, or no change. */
  function Coerce(kind: Kind, raw: string, prior: Value): Value
  {
    match kind
    case IntKind => IntValue(Atoi(raw))
    case StringKind => StringValue(raw)
    case OtherKind => prior
  }

  /** A context value set into a field: only when its dynamic type is int (resp. string). */
  function FromContext(kind: Kind, v: Option<Http.CtxValue>, prior: Value): Value
  {
    match (kind, v)
    case (IntKind, Some(CtxInt(n))) => IntValue(n)
    case (StringKind, Some(CtxString(s))) => StringValue(s)
    case _ => prior
  }

  function PathStage(f: Field, req: Http.Request, prior: Value): Value
  {
    if f.path != "" then Coerce(f.kind, req.PathValue(f.path), prior) else prior
  }

  function QueryStage(f: Field, req: Http.Request, prior: Value): Value
  {
    if f.query != "" then Coerce(f.kind, req.QueryGet(f.query), prior) else prior
  }

  function CtxStage(f: Field, req: Http.Request, prior: Value): Value
  {
    if f.ctx != "" then
      FromContext(f.kind, if f.ctx in req.context then Some(req.context[f.ctx]) else None, prior)
    else prior
  }

  /** One field bound from the request, starting from its prior contents. */
  function BindField(f: Field, req: Http.Request, prior: Value): Value
  {
    CtxStage(f, req, QueryStage(f, req, PathStage(f, req, prior)))
  }

  /** One field bound in place, stage by stage, from its current contents. */
  method SetField(field: Field, req: Http.Request, prior: Value) returns (v: Value)
    ensures v == BindField(field, req, prior)
  {
    v := prior;
    if field.path != "" {
      var pathValue := req.PathValue(field.path);
      match field.kind
      case IntKind => v := IntValue(Atoi(pathValue));
      case StringKind => v := StringValue(pathValue);
      case OtherKind =>
    }
    if field.query != "" {
      var queryValue := req.QueryGet(field.query);
      match field.kind
      case IntKind => v := IntValue(Atoi(queryValue));
      case StringKind => v := StringValue(queryValue);
      case OtherKind =>
    }
    if field.ctx != "" {
      var ctxValue := if field.ctx in req.context then Some(req.context[field.ctx]) else None;
      match field.kind
      case IntKind =>
        if ctxValue.Some? && ctxValue.value.CtxInt? {
          v := IntValue(ctxValue.value.i);
        }
      case StringKind =>
        if ctxValue.Some? && ctxValue.value.CtxString? {
          v := StringValue(ctxValue.value.s);
        }
      case OtherKind =>
    }
  }

  /** The fields visited in declaration order, field i set in place. */
  method SetFields(fields: seq<Field>, req: Http.Request, values: array<Value>)
    requires values.Length == |fields|
    modifies values
    ensures values[..] == BindAll(fields, req, old(values[..]))
  {
    ghost var prior := values[..];
    var i := 0;
    while i < |fields|
      invariant 0 <= i <= |fields|
      invariant forall j :: 0 <= j < i ==> values[j] == BindField(fields[j], req, prior[j])
      invariant forall j :: i <= j < |fields| ==> values[j] == prior[j]
    {
      var v := SetField(fields[i], req, values[i]);
      values[i] := v;
      i := i + 1;
    }
    assert values[..] == BindAll(fields, req, prior);
  }

  /** Every field bound, each from its own prior contents only. */
  function BindAll(fields: seq<Field>, req: Http.Request, prior: seq<Value>): (r: seq<Value>)
    requires |prior| == |fields|
    ensures |r| == |fields|
    ensures forall i :: 0 <= i < |fields| ==> r[i] == BindField(fields[i], req, prior[i])
  {
    seq(|fields|, i requires 0 <= i < |fields| => BindField(fields[i], req, prior[i]))
  }

  /** The zero contents of a struct. */
  function Zeros(fields: seq<Field>): (r: seq<Value>)
    ensures |r| == |fields| && forall i :: 0 <= i < |fields| ==> r[i] == Zero(fields[i])
  {
    seq(|fields|, i requires 0 <= i < |fields| => Zero(fields[i]))
  }

  /** A field's descriptor with its ctx tag dropped. */
  function WithoutCtx(f: Field): (g: Field)
    ensures g.kind == f.kind && g.path == f.path && g.query == f.query && g.ctx == ""
  {
    f.(ctx := "")
  }

  // ------------------------------------------------------------------ properties of one field

  /**
   * A path-tagged field with no other tag is always overwritten, even when the
   * route has no such capture: an int field gets Atoi of the capture (0 for
   * an absent or malformed one), a string field the capture itself.
   */
  lemma PathOverwrites(f: Field, req: Http.Request, prior: Value)
    requires f.path != "" && f.query == "" && f.ctx == ""
    ensures f.kind == IntKind ==> BindField(f, req, prior) == IntValue(Atoi(req.PathValue(f.path)))
    ensures f.kind == StringKind ==> BindField(f, req, prior) == StringValue(req.PathValue(f.path))
    ensures f.kind == IntKind && f.path !in req.pathValues ==> BindField(f, req, prior) == IntValue(0)
    ensures f.kind == IntKind && !IsDecimal(req.PathValue(f.path)) ==> BindField(f, req, prior) == IntValue(0)
  {
    AtoiExamples();
  }

  /**
   * The query stage runs after the path stage: a field with both tags ends
   * with the query-derived value, and an absent query parameter resets it to
   * 0 or "".
   */
  lemma QueryAfterPath(f: Field, req: Http.Request, prior: Value)
    requires f.query != "" && f.ctx == ""
    ensures f.kind == IntKind ==> BindField(f, req, prior) == IntValue(Atoi(req.QueryGet(f.query)))
    ensures f.kind == StringKind ==> BindField(f, req, prior) == StringValue(req.QueryGet(f.query))
    ensures f.query !in req.query && f.kind != OtherKind ==> BindField(f, req, prior) == Zero(f)
  {
    AtoiExamples();
  }

  /**
   * The ctx stage assigns only on a dynamic type match (int for an int field,
   * string for a string field); otherwise the field keeps what the earlier
   * stages left.
   */
  lemma CtxOnlyOnMatch(f: Field, req: Http.Request, prior: Value)
    requires f.ctx != ""
    ensures f.kind == IntKind && f.ctx in req.context && req.context[f.ctx].CtxInt? ==>
      BindField(f, req, prior) == IntValue(req.context[f.ctx].i)
    ensures f.kind == StringKind && f.ctx in req.context && req.context[f.ctx].CtxString? ==>
      BindField(f, req, prior) == StringValue(req.context[f.ctx].s)
    ensures (f.ctx !in req.context
             || (f.kind == IntKind && !req.context[f.ctx].CtxInt?)
             || (f.kind == StringKind && !req.context[f.ctx].CtxString?)) ==>
      BindField(f, req, prior) == QueryStage(f, req, PathStage(f, req, prior))
  {
  }

  /** Fields of other kinds, and fields without any tag, are never modified. */
  lemma Untouched(f: Field, req: Http.Request, prior: Value)
    requires f.kind == OtherKind || (f.path == "" && f.query == "" && f.ctx == "")
    ensures BindField(f, req, prior) == prior
  {
  }

  /** Binding a field twice is binding it once: its stages do not read the field. */
  lemma BindFieldIdempotent(f: Field, req: Http.Request, prior: Value)
    ensures BindField(f, req, BindField(f, req, prior)) == BindField(f, req, prior)
  {
  }
}
