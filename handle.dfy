/**
 * The option registry, the builder and the per-request dispatcher of handle.go.
 *
 * Options are values of unknown dynamic type; the builder classifies each one
 * by the methods it has (Go's structural interfaces), files writers under
 * their Accept() key and body readers under their ContentType() key, keeps
 * one params reader, and validates the result against which of Body, Params
 * and Response are the Nil marker.  The dispatcher runs a fixed sequence of
 * stages and ends in one HTTP reply.  Codecs and the business function are
 * parameters: what they compute is not known, only that they may fail.
 */
module Handle {
  import opened Wrappers
  import opened Errors
  import Http

  // ------------------------------------------------------------------ values

  /** A Go value that is either the Nil marker struct or something else. */
  datatype Boxed<T> = Nil | Data(value: T)

  /** notNil: false exactly for the Nil marker. */
  function NotNil<T>(x: Boxed<T>): bool
  {
    !x.Nil?
  }

  lemma NotNilExamples()
    ensures NotNil(Data(1))
    ensures !NotNil<int>(Nil)
  {
  }

  /**
   * An option value, known only by its identity, its Go type name (for %T)
   * and the methods its type has: Accept() and Write make a Writer,
   * ContentType() and Reader make a BodyReader, Reader alone a ParamsReader.
   */
  datatype Capability = Capability(
    id: nat,
    typeName: string,
    accept: Option<string>,        // the value Accept() returns, if the type has it
    canWrite: bool,
    contentType: Option<string>,   // the value ContentType() returns, if the type has it
    canRead: bool)

  /** An element of the variadic option list: a nested []Options or a single value. */
  datatype Opt = OptList(items: seq<Opt>) | Single(cap: Capability)

  predicate IsWriter(c: Capability) { c.accept.Some? && c.canWrite }
  predicate IsBodyReader(c: Capability) { c.contentType.Some? && c.canRead }
  predicate IsParamsReader(c: Capability) { c.canRead }

  /** Where the type switch of newStruct files a capability, if anywhere (cases tried in source order). */
  datatype Slot = WriterSlot(key: string) | BodyReaderSlot(key: string) | ParamsSlot

  function SlotOf(c: Capability): (s: Option<Slot>)
    ensures s == Some(ParamsSlot) ==> IsParamsReader(c) && !IsBodyReader(c) && !IsWriter(c)
    ensures s.None? <==> !IsWriter(c) && !IsBodyReader(c) && !IsParamsReader(c)
  {
    if IsWriter(c) then Some(WriterSlot(c.accept.value))
    else if IsBodyReader(c) then Some(BodyReaderSlot(c.contentType.value))
    else if IsParamsReader(c) then Some(ParamsSlot)
    else None
  }

  // ------------------------------------------------------------------ the processing order

  function Size(o: Opt): nat
  {
    match o
    case OptList(items) => 1 + SizeSeq(items)
    case Single(_) => 1
  }

  function SizeSeq(q: seq<Opt>): nat
  {
    if q == [] then 0 else Size(q[0]) + SizeSeq(q[1..])
  }

  lemma {:induction false} SizeSeqAppend(a: seq<Opt>, b: seq<Opt>)
    ensures SizeSeq(a + b) == SizeSeq(a) + SizeSeq(b)
  {
    if a == [] {
      assert a + b == b;
    } else {
      assert (a + b)[1..] == a[1..] + b;
      SizeSeqAppend(a[1..], b);
    }
  }

  lemma SizeSeqCons(q: seq<Opt>)
    requires q != []
    ensures SizeSeq(q) == Size(q[0]) + SizeSeq(q[1..]) && Size(q[0]) >= 1
  {
  }

  /**
   * The single capabilities in the order newStruct's loop meets them: a nested
   * list is appended to the end of the queue and met after everything already
   * queued.
   */
  function Flatten(queue: seq<Opt>): seq<Capability>
    decreases SizeSeq(queue)
  {
    if queue == [] then []
    else
      SizeSeqCons(queue);
      match queue[0]
      case Single(c) => [c] + Flatten(queue[1..])
      case OptList(items) =>
        SizeSeqAppend(queue[1..], items);
        Flatten(queue[1..] + items)
  }

  /** The capabilities written directly in q, in order. */
  function Tops(q: seq<Opt>): seq<Capability>
  {
    if q == [] then []
    else match q[0]
      case Single(c) => [c] + Tops(q[1..])
      case OptList(_) => Tops(q[1..])
  }

  /** The contents of the nested lists of q, concatenated in order. */
  function Children(q: seq<Opt>): seq<Opt>
  {
    if q == [] then []
    else match q[0]
      case Single(_) => Children(q[1..])
      case OptList(items) => items + Children(q[1..])
  }

  lemma {:induction false} FlattenDefers(a: seq<Opt>, b: seq<Opt>)
    ensures Flatten(a + b) == Tops(a) + Flatten(b + Children(a))
  {
    if a == [] {
      assert a + b == b && b + Children(a) == b;
    } else {
      assert (a + b)[0] == a[0] && (a + b)[1..] == a[1..] + b;
      match a[0]
      case Single(c) =>
        FlattenDefers(a[1..], b);
      case OptList(items) =>
        FlattenDefers(a[1..], b + items);
        assert a[1..] + b + items == a[1..] + (b + items);
        assert b + items + Children(a[1..]) == b + Children(a);
    }
  }

  /**
   * Options are processed level by level: all capabilities given directly come
   * first, in order, then everything inside the nested lists, recursively.
   */
  lemma FlattenBreadthFirst(q: seq<Opt>)
    ensures Flatten(q) == Tops(q) + Flatten(Children(q))
  {
    FlattenDefers(q, []);
    assert q + [] == q;
    assert [] + Children(q) == Children(q);
  }

  /** A list without nested lists is processed exactly in the order given. */
  lemma {:induction false} FlattenFlat(q: seq<Opt>)
    requires forall i :: 0 <= i < |q| ==> q[i].Single?
    ensures Flatten(q) == Tops(q)
    ensures |Tops(q)| == |q| && forall i :: 0 <= i < |q| ==> Tops(q)[i] == q[i].cap
  {
    if q != [] {
      FlattenFlat(q[1..]);
    }
  }

  // ------------------------------------------------------------------ registration

  datatype Registry = Registry(
    writers: map<string, Capability>,
    bodyReaders: map<string, Capability>,
    paramsReader: Option<Capability>)

  const EmptyRegistry := Registry(map[], map[], None)

  /** One case of the type switch. */
  function Register(reg: Registry, c: Capability): Result<Registry, GoError>
  {
    match SlotOf(c)
    case Some(WriterSlot(k)) => Ok(reg.(writers := reg.writers[k := c]))
    case Some(BodyReaderSlot(k)) => Ok(reg.(bodyReaders := reg.bodyReaders[k := c]))
    case Some(ParamsSlot) => Ok(reg.(paramsReader := Some(c)))
    case None => Err(Errorf("unknown option type " + c.typeName))
  }

  /** All capabilities registered in order; the first that fits no case stops the loop. */
  function RegisterAll(reg: Registry, caps: seq<Capability>): Result<Registry, GoError>
    decreases caps
  {
    if caps == [] then Ok(reg)
    else
      match Register(reg, caps[0])
      case Err(e) => Err(e)
      case Ok(r) => RegisterAll(r, caps[1..])
  }

  lemma {:induction false} RegisterAllAppend(reg: Registry, a: seq<Capability>, b: seq<Capability>)
    ensures RegisterAll(reg, a + b) ==
      match RegisterAll(reg, a)
      case Err(e) => Err(e)
      case Ok(r) => RegisterAll(r, b)
    decreases a
  {
    if a == [] {
      assert a + b == b;
    } else {
      assert (a + b)[0] == a[0] && (a + b)[1..] == a[1..] + b;
      match Register(reg, a[0])
      case Err(_) =>
      case Ok(r) => RegisterAllAppend(r, a[1..], b);
    }
  }

  /** What a registry holds in a slot. */
  function Holder(reg: Registry, s: Slot): Option<Capability>
  {
    match s
    case WriterSlot(k) => if k in reg.writers then Some(reg.writers[k]) else None
    case BodyReaderSlot(k) => if k in reg.bodyReaders then Some(reg.bodyReaders[k]) else None
    case ParamsSlot => reg.paramsReader
  }

  /** Reference definition: the last capability of caps filed in slot s, else dflt. */
  function LastIn(caps: seq<Capability>, s: Slot, dflt: Option<Capability>): Option<Capability>
  {
    if caps == [] then dflt
    else if SlotOf(caps[|caps| - 1]) == Some(s) then Some(caps[|caps| - 1])
    else LastIn(caps[..|caps| - 1], s, dflt)
  }

  lemma {:induction false} LastInCons(c: Capability, rest: seq<Capability>, s: Slot, dflt: Option<Capability>)
    ensures LastIn([c] + rest, s, dflt) == LastIn(rest, s, if SlotOf(c) == Some(s) then Some(c) else dflt)
  {
    if rest != [] {
      var all := [c] + rest;
      assert all[|all| - 1] == rest[|rest| - 1];
      assert all[..|all| - 1] == [c] + rest[..|rest| - 1];
      LastInCons(c, rest[..|rest| - 1], s, dflt);
    }
  }

  /**
   * Registration keeps, in every slot, the last capability filed there: a
   * later writer for the same Accept key, a later body reader for the same
   * content type, a later params reader replaces the earlier one.
   */
  lemma {:induction false} RegisterAllKeepsLast(reg: Registry, caps: seq<Capability>, s: Slot)
    requires RegisterAll(reg, caps).Ok?
    ensures Holder(RegisterAll(reg, caps).value, s) == LastIn(caps, s, Holder(reg, s))
    decreases caps
  {
    if caps != [] {
      var r := Register(reg, caps[0]).value;
      assert Holder(r, s) == if SlotOf(caps[0]) == Some(s) then Some(caps[0]) else Holder(reg, s);
      RegisterAllKeepsLast(r, caps[1..], s);
      LastInCons(caps[0], caps[1..], s, Holder(reg, s));
      assert [caps[0]] + caps[1..] == caps;
    }
  }

  /** What LastIn returns was filed in that slot, or is the default. */
  lemma {:induction false} LastInFiled(caps: seq<Capability>, s: Slot, dflt: Option<Capability>)
    ensures LastIn(caps, s, dflt) == dflt || (LastIn(caps, s, dflt).Some? && SlotOf(LastIn(caps, s, dflt).value) == Some(s))
  {
    if caps != [] && SlotOf(caps[|caps| - 1]) != Some(s) {
      LastInFiled(caps[..|caps| - 1], s, dflt);
    }
  }

  /** A body reader (or a writer) is never taken as the params reader. */
  lemma ParamsReaderIsNoBodyReader(caps: seq<Capability>)
    requires RegisterAll(EmptyRegistry, caps).Ok?
    requires RegisterAll(EmptyRegistry, caps).value.paramsReader.Some?
    ensures !IsBodyReader(RegisterAll(EmptyRegistry, caps).value.paramsReader.value)
    ensures !IsWriter(RegisterAll(EmptyRegistry, caps).value.paramsReader.value)
  {
    RegisterAllKeepsLast(EmptyRegistry, caps, ParamsSlot);
    LastInFiled(caps, ParamsSlot, None);
  }

  /**
   * Registration fails exactly when some capability fits none of the cases,
   * and the error names the type of the first such one.
   */
  lemma {:induction false} RegisterAllFails(reg: Registry, caps: seq<Capability>)
    ensures RegisterAll(reg, caps).Err? <==> exists i :: 0 <= i < |caps| && SlotOf(caps[i]).None?
    ensures RegisterAll(reg, caps).Err? ==>
      exists i :: 0 <= i < |caps| && SlotOf(caps[i]).None?
        && (forall j :: 0 <= j < i ==> SlotOf(caps[j]).Some?)
        && RegisterAll(reg, caps).error == Errorf("unknown option type " + caps[i].typeName)
    decreases caps
  {
    if caps != [] {
      match Register(reg, caps[0])
      case Err(_) =>
        assert SlotOf(caps[0]).None?;
      case Ok(r) =>
        RegisterAllFails(r, caps[1..]);
        assert forall i :: 1 <= i < |caps| ==> caps[i] == caps[1..][i - 1];
        if RegisterAll(reg, caps).Err? {
          var i :| 0 <= i < |caps[1..]| && SlotOf(caps[1..][i]).None?
            && (forall j :: 0 <= j < i ==> SlotOf(caps[1..][j]).Some?)
            && RegisterAll(r, caps[1..]).error == Errorf("unknown option type " + caps[1..][i].typeName);
          assert forall j :: 0 <= j < i + 1 ==> SlotOf(caps[j]).Some? by {
            forall j | 0 <= j < i + 1 ensures SlotOf(caps[j]).Some? {
              if j > 0 { assert caps[j] == caps[1..][j - 1]; }
            }
          }
        } else {
          forall i | 0 <= i < |caps| ensures SlotOf(caps[i]).Some? {
            if i > 0 { assert caps[i] == caps[1..][i - 1]; }
          }
        }
    }
  }

  // ------------------------------------------------------------------ validation

  /** Which of the three type parameters is the Nil marker. */
  datatype Declared = Declared(bodyIsNil: bool, paramsIsNil: bool, responseIsNil: bool)

  /** The three checks of newStruct, in source order; the first failure is reported. */
  function Validate(decl: Declared, reg: Registry): (err: Option<GoError>)
  {
    if !decl.bodyIsNil && |reg.bodyReaders| == 0 then
      Some(Errorf("no body reader provided, please provide one"))
    else if !decl.paramsIsNil && reg.paramsReader.None? then
      Some(Errorf("no params reader provided, please provide one"))
    else if !decl.responseIsNil && |reg.writers| == 0 then
      Some(Errorf("no writers provided, please provide one"))
    else None
  }

  /** Validation passes exactly when each non-Nil type has a codec for it. */
  lemma ValidateAccepts(decl: Declared, reg: Registry)
    ensures Validate(decl, reg).None? <==>
      (decl.bodyIsNil || reg.bodyReaders != map[])
      && (decl.paramsIsNil || reg.paramsReader.Some?)
      && (decl.responseIsNil || reg.writers != map[])
  {
    assert |reg.bodyReaders| == 0 <==> reg.bodyReaders == map[] by {
      if |reg.bodyReaders| == 0 { assert reg.bodyReaders.Keys == {}; }
    }
    assert |reg.writers| == 0 <==> reg.writers == map[] by {
      if |reg.writers| == 0 { assert reg.writers.Keys == {}; }
    }
  }

  /** What newStruct returns: the registry, or the first error met. */
  function Build(decl: Declared, opts: seq<Opt>): Result<Registry, GoError>
  {
    match RegisterAll(EmptyRegistry, Flatten(opts))
    case Err(e) => Err(e)
    case Ok(reg) =>
      match Validate(decl, reg)
      case Some(e) => Err(e)
      case None => Ok(reg)
  }

  // ------------------------------------------------------------------ the builder

  class HandleStruct {
    var writers: map<string, Capability>
    var bodyReaders: map<string, Capability>
    var paramsReader: Option<Capability>

    constructor ()
      ensures writers == map[] && bodyReaders == map[] && paramsReader == None
    {
      writers, bodyReaders, paramsReader := map[], map[], None;
    }

    function Snapshot(): Registry
      reads this
    {
      Registry(writers, bodyReaders, paramsReader)
    }

    /** One case of newStruct's type switch: file c under its key, or report it unknown. */
    method File(c: Capability) returns (ok: bool)
      modifies this
      ensures Register(old(Snapshot()), c) == if ok then Ok(Snapshot()) else Err(Errorf("unknown option type " + c.typeName))
    {
      ok := true;
      if IsWriter(c) {
        writers := writers[c.accept.value := c];
      } else if IsBodyReader(c) {
        bodyReaders := bodyReaders[c.contentType.value := c];
      } else if IsParamsReader(c) {
        paramsReader := Some(c);
      } else {
        ok := false;
      }
    }
  }

  /** One turn of newStruct's loop, on the processing order and on the measure. */
  lemma FlattenStep(q: seq<Opt>, i: nat)
    requires i < |q|
    ensures q[i].Single? ==>
      Flatten(q[i..]) == [q[i].cap] + Flatten(q[i + 1..]) && SizeSeq(q[i + 1..]) < SizeSeq(q[i..])
    ensures q[i].OptList? ==>
      Flatten(q[i..]) == Flatten(q[i + 1..] + q[i].items)
      && SizeSeq(q[i + 1..] + q[i].items) < SizeSeq(q[i..])
  {
    assert q[i..][0] == q[i] && q[i..][1..] == q[i + 1..];
    SizeSeqCons(q[i..]);
    if q[i].OptList? {
      SizeSeqAppend(q[i + 1..], q[i].items);
    }
  }

  /** Registering one more capability after a successful prefix. */
  lemma RegisterSnoc(reg: Registry, seen: seq<Capability>, c: Capability)
    requires RegisterAll(EmptyRegistry, seen) == Ok(reg)
    ensures RegisterAll(EmptyRegistry, seen + [c]) == Register(reg, c)
  {
    RegisterAllAppend(EmptyRegistry, seen, [c]);
    assert [c][1..] == [];
  }

  /** newStruct: the index loop over the growing option list, then validation. */
  method NewStruct(decl: Declared, opts: seq<Opt>) returns (h: HandleStruct?, err: Option<GoError>)
    ensures h == null <==> err.Some?
    ensures err.Some? ==> Build(decl, opts) == Err(err.value)
    ensures h != null ==> fresh(h) && Build(decl, opts) == Ok(h.Snapshot())
  {
    var data := new HandleStruct();
    var failed := FileOptions(data, opts);
    if failed.Some? {
      return null, failed;
    }
    if !decl.bodyIsNil && |data.bodyReaders| == 0 {
      return null, Some(Errorf("no body reader provided, please provide one"));
    }
    if !decl.paramsIsNil && data.paramsReader.None? {
      return null, Some(Errorf("no params reader provided, please provide one"));
    }
    if !decl.responseIsNil && |data.writers| == 0 {
      return null, Some(Errorf("no writers provided, please provide one"));
    }
    return data, None;
  }

  /** The loop of newStruct: the options in processing order, until one fits no case. */
  method FileOptions(data: HandleStruct, opts: seq<Opt>) returns (failed: Option<GoError>)
    requires data.Snapshot() == EmptyRegistry
    modifies data
    ensures RegisterAll(EmptyRegistry, Flatten(opts)) == if failed.Some? then Err(failed.value) else Ok(data.Snapshot())
  {
    var queue := opts;
    var i := 0;
    ghost var seen: seq<Capability> := [];
    while i < |queue|
      invariant 0 <= i <= |queue|
      invariant Flatten(opts) == seen + Flatten(queue[i..])
      invariant RegisterAll(EmptyRegistry, seen) == Ok(data.Snapshot())
      decreases SizeSeq(queue[i..])
    {
      FlattenStep(queue, i);
      if queue[i].OptList? {
        ghost var before := queue;
        queue := queue + queue[i].items;
        assert queue[i + 1..] == before[i + 1..] + before[i].items;
      } else {
        var c := queue[i].cap;
        RegisterSnoc(data.Snapshot(), seen, c);
        var ok := data.File(c);
        if !ok {
          assert Flatten(opts) == (seen + [c]) + Flatten(queue[i + 1..]);
          RegisterAllAppend(EmptyRegistry, seen + [c], Flatten(queue[i + 1..]));
          return Some(Errorf("unknown option type " + c.typeName));
        }
        seen := seen + [c];
      }
      i := i + 1;
    }
    assert Flatten(opts) == seen;
    return None;
  }

  // ------------------------------------------------------------------ the dispatcher

  /** The Content-Type the body stage looks up: "" stands for JSON. */
  function BodyKey(req: Http.Request): string
  {
    if req.contentType == "" then Http.MimeJson else req.contentType
  }

  /** The Accept value the response stage looks up: "" and the wildcard type stand for JSON. */
  function WriterKey(req: Http.Request): string
  {
    if req.accept == "" || req.accept == "*/*" then Http.MimeJson else req.accept
  }

  /**
   * The request closure Handle registers.  readBody, readParams and write are
   * the Reader and Write methods of the registered capabilities; business is
   * the user's function.
   */
  function Serve<B, P, R>(
    h: HandleStruct, decl: Declared, req: Http.Request,
    readBody: (Capability, Http.Request) -> Result<B, GoError>,
    readParams: (Capability, Http.Request) -> Result<P, GoError>,
    business: (Http.Context, Boxed<B>, Boxed<P>) -> Result<Boxed<R>, GoError>,
    write: (Capability, Http.Request, R) -> Option<GoError>): Http.Reply<R>
    reads h
    requires Validate(decl, h.Snapshot()).None?
  {
    var ct := BodyKey(req);
    if !decl.bodyIsNil && ct !in h.bodyReaders then
      Http.Error(Http.StatusBadRequest, "unsupported content type " + ct)
    else
      var body := if decl.bodyIsNil then Ok(Nil) else
        match readBody(h.bodyReaders[ct], req)
        case Ok(b) => Ok(Data(b))
        case Err(e) => Err(e);
      if body.Err? then Http.Error(Http.StatusBadRequest, body.error.Error())
      else
        var params := if decl.paramsIsNil then Ok(Nil) else
          match readParams(h.paramsReader.value, req)
          case Ok(p) => Ok(Data(p))
          case Err(e) => Err(e);
        if params.Err? then Http.Error(Http.StatusBadRequest, params.error.Error())
        else
          match business(req.context, body.value, params.value)
          case Err(e) => Http.Error(Http.StatusInternalServerError, e.Error())
          case Ok(Nil) => Http.NoContent
          case Ok(Data(resp)) =>
            var accept := WriterKey(req);
            if accept !in h.writers then
              Http.Error(Http.StatusBadRequest, "unsupported accept type " + accept)
            else
              match write(h.writers[accept], req, resp)
              case Some(e) => Http.Error(Http.StatusInternalServerError, e.Error())
              case None => Http.Written(accept, resp)
  }

  /** Every request ends in 200, 204, 400 or 500. */
  lemma ServeStatuses<B, P, R>(
    h: HandleStruct, decl: Declared, req: Http.Request,
    readBody: (Capability, Http.Request) -> Result<B, GoError>,
    readParams: (Capability, Http.Request) -> Result<P, GoError>,
    business: (Http.Context, Boxed<B>, Boxed<P>) -> Result<Boxed<R>, GoError>,
    write: (Capability, Http.Request, R) -> Option<GoError>)
    requires Validate(decl, h.Snapshot()).None?
    ensures Http.StatusOf(Serve(h, decl, req, readBody, readParams, business, write)) in
      {Http.StatusOK, Http.StatusNoContent, Http.StatusBadRequest, Http.StatusInternalServerError}
  {
  }

  /**
   * Body stage: for a non-Nil Body, a Content-Type ("" meaning JSON) with no
   * reader gives 400, and the reply does not depend on the business function:
   * it is not invoked.
   */
  lemma UnsupportedContentType<B, P, R>(
    h: HandleStruct, decl: Declared, req: Http.Request,
    readBody: (Capability, Http.Request) -> Result<B, GoError>,
    readParams: (Capability, Http.Request) -> Result<P, GoError>,
    business: (Http.Context, Boxed<B>, Boxed<P>) -> Result<Boxed<R>, GoError>,
    other: (Http.Context, Boxed<B>, Boxed<P>) -> Result<Boxed<R>, GoError>,
    write: (Capability, Http.Request, R) -> Option<GoError>)
    requires Validate(decl, h.Snapshot()).None?
    requires !decl.bodyIsNil && BodyKey(req) !in h.bodyReaders
    ensures Serve(h, decl, req, readBody, readParams, business, write)
      == Http.Error(Http.StatusBadRequest, "unsupported content type " + BodyKey(req))
    ensures Serve(h, decl, req, readBody, readParams, business, write)
      == Serve(h, decl, req, readBody, readParams, other, write)
  {
  }

  /** The body stage succeeds: a Nil Body, or a registered reader that returns a value. */
  predicate BodyStageOk<B>(h: HandleStruct, decl: Declared, req: Http.Request,
                           readBody: (Capability, Http.Request) -> Result<B, GoError>)
    reads h
  {
    decl.bodyIsNil || (BodyKey(req) in h.bodyReaders && readBody(h.bodyReaders[BodyKey(req)], req).Ok?)
  }

  /** The params stage succeeds: Nil Params, or the params reader returns a value. */
  predicate ParamsStageOk<P>(h: HandleStruct, decl: Declared, req: Http.Request,
                             readParams: (Capability, Http.Request) -> Result<P, GoError>)
    reads h
    requires Validate(decl, h.Snapshot()).None?
  {
    decl.paramsIsNil || readParams(h.paramsReader.value, req).Ok?
  }

  /**
   * A body or params reader error gives 400 with the reader's message, and the
   * business function is not invoked.  The params stage runs whether or not
   * there is a Body.
   */
  lemma ReaderErrorIs400<B, P, R>(
    h: HandleStruct, decl: Declared, req: Http.Request,
    readBody: (Capability, Http.Request) -> Result<B, GoError>,
    readParams: (Capability, Http.Request) -> Result<P, GoError>,
    business: (Http.Context, Boxed<B>, Boxed<P>) -> Result<Boxed<R>, GoError>,
    other: (Http.Context, Boxed<B>, Boxed<P>) -> Result<Boxed<R>, GoError>,
    write: (Capability, Http.Request, R) -> Option<GoError>)
    requires Validate(decl, h.Snapshot()).None?
    requires (!decl.bodyIsNil && BodyKey(req) in h.bodyReaders && readBody(h.bodyReaders[BodyKey(req)], req).Err?)
      || (BodyStageOk(h, decl, req, readBody) && !decl.paramsIsNil && readParams(h.paramsReader.value, req).Err?)
    ensures Http.StatusOf(Serve(h, decl, req, readBody, readParams, business, write)) == Http.StatusBadRequest
    ensures Serve(h, decl, req, readBody, readParams, business, write)
      == Serve(h, decl, req, readBody, readParams, other, write)
  {
  }

  /**
   * A business error always gives 500 with its message, whatever Body and
   * Params are: a status the error carries is not consulted.
   */
  lemma BusinessErrorIs500<B(!new), P(!new), R>(
    h: HandleStruct, decl: Declared, req: Http.Request,
    readBody: (Capability, Http.Request) -> Result<B, GoError>,
    readParams: (Capability, Http.Request) -> Result<P, GoError>,
    business: (Http.Context, Boxed<B>, Boxed<P>) -> Result<Boxed<R>, GoError>,
    write: (Capability, Http.Request, R) -> Option<GoError>,
    e: GoError)
    requires Validate(decl, h.Snapshot()).None?
    requires BodyStageOk(h, decl, req, readBody) && ParamsStageOk(h, decl, req, readParams)
    requires forall b, p :: business(req.context, b, p) == Err(e)
    ensures Serve(h, decl, req, readBody, readParams, business, write)
      == Http.Error(Http.StatusInternalServerError, e.Error())
  {
  }

  /**
   * Response stage, once the body and params stages have succeeded: a Nil
   * response is 204 and no writer is called; "" and the wildcard select the
   * writer under "application/json"; any other Accept value is looked up as it
   * is, list and all; a miss is 400, a writer error 500.
   */
  lemma ResponseStage<B(!new), P(!new), R>(
    h: HandleStruct, decl: Declared, req: Http.Request,
    readBody: (Capability, Http.Request) -> Result<B, GoError>,
    readParams: (Capability, Http.Request) -> Result<P, GoError>,
    business: (Http.Context, Boxed<B>, Boxed<P>) -> Result<Boxed<R>, GoError>,
    write: (Capability, Http.Request, R) -> Option<GoError>,
    response: Boxed<R>)
    requires Validate(decl, h.Snapshot()).None?
    requires BodyStageOk(h, decl, req, readBody) && ParamsStageOk(h, decl, req, readParams)
    requires forall b, p :: business(req.context, b, p) == Ok(response)
    ensures response.Nil? ==>
      Serve(h, decl, req, readBody, readParams, business, write) == Http.NoContent
    ensures response.Data? ==>
      Serve(h, decl, req, readBody, readParams, business, write) ==
        if WriterKey(req) !in h.writers then
          Http.Error(Http.StatusBadRequest, "unsupported accept type " + WriterKey(req))
        else if write(h.writers[WriterKey(req)], req, response.value).Some? then
          Http.Error(Http.StatusInternalServerError, write(h.writers[WriterKey(req)], req, response.value).value.Error())
        else Http.Written(WriterKey(req), response.value)
    ensures (req.accept == "" || req.accept == "*/*") ==> WriterKey(req) == Http.MimeJson
    ensures req.accept != "" && req.accept != "*/*" ==> WriterKey(req) == req.accept
  {
  }

  // ------------------------------------------------------------------ Handle

  datatype Registration = Panicked(reason: GoError) | Mounted(path: string, endpoint: HandleStruct)

  /**
   * Handle: build and validate the endpoint; a configuration error panics,
   * otherwise the closure is bound to path (Serve on the new endpoint) and nil
   * is returned.
   */
  method NewHandle(decl: Declared, path: string, opts: seq<Opt>) returns (r: Registration)
    ensures r.Panicked? <==> Build(decl, opts).Err?
    ensures r.Panicked? ==> r.reason == Build(decl, opts).error
    ensures r.Mounted? ==>
      (r.path == path && fresh(r.endpoint)
       && Build(decl, opts) == Ok(r.endpoint.Snapshot())
       && Validate(decl, r.endpoint.Snapshot()).None?)
  {
    var h, err := NewStruct(decl, opts);
    if err.Some? {
      return Panicked(err.value);
    }
    return Mounted(path, h);
  }

  // ------------------------------------------------------------------ scenarios

  /** A capability with the methods of a JSON writer, body reader or params reader. */
  function JsonWriter(id: nat): Capability { Capability(id, "*mockWriter", Some(Http.MimeJson), true, None, false) }
  function JsonBodyReader(id: nat): Capability { Capability(id, "*mockBodyReader", None, false, Some(Http.MimeJson), true) }
  function AnyParamsReader(id: nat): Capability { Capability(id, "*mockParamsReader", None, false, None, true) }

  /**
   * The builder's test cases: all three codecs build, one JSON writer and one
   * JSON body reader; without the params reader the message is the second
   * check's.
   */
  lemma BuilderScenarios()
    ensures Build(Declared(false, false, false),
        [Single(JsonBodyReader(0)), Single(AnyParamsReader(1)), Single(JsonWriter(2))])
      == Ok(Registry(map[Http.MimeJson := JsonWriter(2)], map[Http.MimeJson := JsonBodyReader(0)], Some(AnyParamsReader(1))))
    ensures Build(Declared(false, false, false), [Single(JsonBodyReader(0)), Single(JsonWriter(2))])
      == Err(Errorf("no params reader provided, please provide one"))
    ensures Build(Declared(false, false, false), [Single(AnyParamsReader(1)), Single(JsonWriter(2))])
      == Err(Errorf("no body reader provided, please provide one"))
    ensures Build(Declared(false, false, false), [Single(JsonBodyReader(0)), Single(AnyParamsReader(1))])
      == Err(Errorf("no writers provided, please provide one"))
  {
    var q1 := [Single(JsonBodyReader(0)), Single(AnyParamsReader(1)), Single(JsonWriter(2))];
    FlattenFlat(q1);
    var q2 := [Single(JsonBodyReader(0)), Single(JsonWriter(2))];
    FlattenFlat(q2);
    var q3 := [Single(AnyParamsReader(1)), Single(JsonWriter(2))];
    FlattenFlat(q3);
    var q4 := [Single(JsonBodyReader(0)), Single(AnyParamsReader(1))];
    FlattenFlat(q4);
  }

  /**
   * An explicit option given before a nested default list is overridden by
   * the default with the same key, because nested lists are processed last.
   */
  lemma NestedDefaultsOverride(explicit: Capability, default: Capability)
    requires IsWriter(explicit) && IsWriter(default) && explicit.accept == default.accept
    ensures Flatten([Single(explicit), OptList([Single(default)])]) == [explicit, default]
    ensures RegisterAll(EmptyRegistry, [explicit, default])
      == Ok(Registry(map[explicit.accept.value := default], map[], None))
  {
    var q := [Single(explicit), OptList([Single(default)])];
    assert q[1..] == [OptList([Single(default)])];
    assert q[1..][1..] + [Single(default)] == [Single(default)];
    assert Flatten([Single(default)]) == [default];
    assert Flatten(q[1..]) == [default];
    var reg1 := Registry(map[explicit.accept.value := explicit], map[], None);
    assert Register(EmptyRegistry, explicit) == Ok(reg1);
    assert [explicit, default][1..] == [default];
    assert reg1.writers[explicit.accept.value := default] == map[explicit.accept.value := default];
    assert RegisterAll(reg1, [default]) == Ok(Registry(map[explicit.accept.value := default], map[], None));
  }
}
