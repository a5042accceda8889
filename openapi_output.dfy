/**
 * examples/openapi/output.go: the handler the code generator emits for
 * POST /files.  The request body is read only for a Content-Type of exactly
 * application/json, and the response is written only when the Accept list
 * accepts application/json.
 */
module OpenApiOutput {
  import opened Wrappers
  import opened Errors
  import Http
  import Accept

  newtype Int32 = x: int | -0x8000_0000 <= x < 0x8000_0000

  datatype User = User(name: string, age: Int32, email: string)

  /** The zero User a request without a JSON body is processed with. */
  const ZeroUser := User("", 0, "")

  /** The three methods of a PostFilesManager. */
  datatype PostFilesManager = PostFilesManager(
    handle: (Http.Context, User) -> Result<User, GoError>,
    readApplicationJson: Http.Request -> Result<User, GoError>,
    write200ApplicationJson: User -> Option<GoError>)

  /** The method and pattern RegisterPostFiles returns beside its closure. */
  const Verb := "POST"
  const Pattern := "/files"

  /** The body Handle is given: read for an exact application/json Content-Type, else the zero User. */
  function ReadBody(m: PostFilesManager, req: Http.Request): Result<User, GoError>
  {
    if req.contentType == Http.MimeJson then m.readApplicationJson(req) else Ok(ZeroUser)
  }

  /** What one request yields. */
  function PostFiles(m: PostFilesManager, req: Http.Request): Http.Reply<User>
  {
    var read := ReadBody(m, req);
    if read.Err? then Http.Error(Http.StatusBadRequest, read.error.Error())
    else
      match m.handle(req.context, read.value)
      case Err(e) => Http.Error(Http.StatusInternalServerError, e.Error())
      case Ok(resp) =>
        if !Accept.Accepts(Accept.AcceptList(req.accept), Http.MimeJson) then Http.Empty
        else
          match m.write200ApplicationJson(resp)
          case Some(e) => Http.Error(Http.StatusBadRequest, e.Error())
          case None => Http.Written(Http.MimeJson, resp)
  }

  /** The request closure of RegisterPostFiles. */
  method ServePostFiles(m: PostFilesManager, req: Http.Request) returns (reply: Http.Reply<User>)
    ensures reply == PostFiles(m, req)
  {
    var data := ZeroUser;
    if req.contentType == Http.MimeJson {
      var read := m.readApplicationJson(req);
      if read.Err? {
        return Http.Error(Http.StatusBadRequest, read.error.Error());
      }
      data := read.value;
    }
    var result := m.handle(req.context, data);
    if result.Err? {
      return Http.Error(Http.StatusInternalServerError, result.error.Error());
    }
    var resp := result.value;
    var acceptedTypes := Accept.ParseAcceptHeader(req.accept);
    var ok := Accept.AcceptsType(acceptedTypes, Http.MimeJson);
    if ok {
      var err := m.write200ApplicationJson(resp);
      if err.Some? {
        return Http.Error(Http.StatusBadRequest, err.value.Error());
      }
      return Http.Written(Http.MimeJson, resp);
    }
    return Http.Empty;
  }

  /**
   * The body reader is consulted only for an exact application/json
   * Content-Type: for any other, a reader that would fail changes nothing and
   * Handle sees the zero User.
   */
  lemma ReadOnlyForJson(m: PostFilesManager, req: Http.Request, other: Http.Request -> Result<User, GoError>)
    requires req.contentType != Http.MimeJson
    ensures PostFiles(m, req) == PostFiles(m.(readApplicationJson := other), req)
    ensures PostFiles(m, req) == PostFiles(m.(handle := (c, u) => m.handle(c, ZeroUser)), req)
  {
  }

  /**
   * A failed read is 400 and a failed Handle 500; so is a failed write 400,
   * not 500.  A response is written exactly when reading and Handle succeed,
   * application/json is accepted and the write succeeds; an Accept list
   * without it gives an empty 200.
   */
  lemma PostFilesStatuses(m: PostFilesManager, req: Http.Request)
    ensures Http.StatusOf(PostFiles(m, req)) in {Http.StatusOK, Http.StatusBadRequest, Http.StatusInternalServerError}
    ensures req.contentType == Http.MimeJson && m.readApplicationJson(req).Err? ==>
      PostFiles(m, req) == Http.Error(Http.StatusBadRequest, m.readApplicationJson(req).error.Error())
    ensures ReadBody(m, req).Ok? && m.handle(req.context, ReadBody(m, req).value).Err? ==>
      PostFiles(m, req) == Http.Error(Http.StatusInternalServerError, m.handle(req.context, ReadBody(m, req).value).error.Error())
    ensures (ReadBody(m, req).Ok? && m.handle(req.context, ReadBody(m, req).value).Ok?
      && Accept.Accepts(Accept.AcceptList(req.accept), Http.MimeJson)
      && m.write200ApplicationJson(m.handle(req.context, ReadBody(m, req).value).value).Some?)
      ==> PostFiles(m, req) == Http.Error(Http.StatusBadRequest,
        m.write200ApplicationJson(m.handle(req.context, ReadBody(m, req).value).value).value.Error())
    ensures PostFiles(m, req).Written? <==>
      ReadBody(m, req).Ok? && m.handle(req.context, ReadBody(m, req).value).Ok?
      && Accept.Accepts(Accept.AcceptList(req.accept), Http.MimeJson)
      && m.write200ApplicationJson(m.handle(req.context, ReadBody(m, req).value).value).None?
    ensures PostFiles(m, req) == Http.Empty <==>
      ReadBody(m, req).Ok? && m.handle(req.context, ReadBody(m, req).value).Ok?
      && !Accept.Accepts(Accept.AcceptList(req.accept), Http.MimeJson)
  {
  }

  /** With no Accept header, or the bare wildcard, a successful Handle is always followed by the JSON write. */
  lemma DefaultAcceptWrites(m: PostFilesManager, req: Http.Request)
    requires req.accept == "" || req.accept == "*/*"
    ensures PostFiles(m, req) != Http.Empty
  {
    Accept.DefaultAccepts(req.accept);
    WrittenWhenAccepted(m, req);
  }

  lemma WrittenWhenAccepted(m: PostFilesManager, req: Http.Request)
    requires Accept.Accepts(Accept.AcceptList(req.accept), Http.MimeJson)
    ensures PostFiles(m, req) != Http.Empty
  {
  }
}
