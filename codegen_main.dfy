/**
 * pkg/codegen/main.go: the OpenAPI document turned into endpoint and
 * component descriptions for the templates.
 *
 * The document is given as the sequences its maps are visited in (Go's map
 * order is unspecified, so the visiting order is an input): the operations
 * of all paths, each operation's responses, and the component schemas.
 * Loading and validating the document are not part of this model.
 */
module CodegenMain {
  import opened Wrappers
  import opened GoText
  import opened CodegenUtils

  const JsonContent := "application/json"

  // ---------------------------------------------------------------- input

  /** One entry of operation.Parameters: name, schema and `in`. */
  datatype ParamSpec = ParamSpec(name: string, schema: Option<SchemaRef>, location: string)

  /** A content map: media type to schema. */
  type Content = map<string, SchemaRef>

  datatype Operation = Operation(
    path: string,
    verb: string,                  // the key in pathItem.Operations(), e.g. "PUT"
    tags: seq<string>,
    params: seq<ParamSpec>,
    requestBody: Option<Content>,    // operation.RequestBody, None when nil
    responses: seq<Content>)         // operation.Responses in visiting order

  /** The properties of a schema can all be typed. */
  predicate FieldsTyped(s: Schema)
  {
    forall k :: k in s.properties ==> Typed(Some(s.properties[k]))
  }

  /** A JSON entry of a content map has a schema value (it is dereferenced unguarded). */
  predicate ContentReady(c: Content)
  {
    JsonContent in c ==> c[JsonContent].value.Some? && FieldsTyped(c[JsonContent].value.value)
  }

  /** The operation can be processed without a nil dereference or an index panic. */
  predicate OperationReady(op: Operation)
  {
    (forall i :: 0 <= i < |op.params| ==> Typed(op.params[i].schema))
    && (op.requestBody.Some? ==> ContentReady(op.requestBody.value))
    && (forall i :: 0 <= i < |op.responses| ==> ContentReady(op.responses[i]))
  }

  predicate AllReady(ops: seq<Operation>)
  {
    forall k :: 0 <= k < |ops| ==> OperationReady(ops[k])
  }

  // ---------------------------------------------------------------- output

  datatype Parameter = Parameter(name: string, goType: string, tag: string)

  /** RequestBody, used for request and response bodies alike. */
  datatype Body = Body(name: string, fields: map<string, string>)

  datatype Endpoint = Endpoint(
    path: string, verb: string, operationId: string, params: seq<Parameter>,
    body: Option<Body>, state: int, response: Option<Body>)

  datatype Component = Component(name: string, fields: map<string, string>)

  // ---------------------------------------------------------------- per operation

  /** getTag: the first tag, or "default". */
  function GetTag(tags: seq<string>): (tag: string)
    ensures tags != [] ==> tag == tags[0]
    ensures tags == [] ==> tag == "default"
  {
    if |tags| > 0 then tags[0] else "default"
  }

  /** The fields map of a schema: property name to goType. */
  function FieldsOf(s: Schema): (fields: map<string, string>)
    requires FieldsTyped(s)
    ensures fields.Keys == s.properties.Keys
  {
    map k | k in s.properties :: GoType(Some(s.properties[k]))
  }

  function ParameterOf(p: ParamSpec): Parameter
    requires Typed(p.schema)
  {
    Parameter(p.name, GoType(p.schema), p.location)
  }

  /** The request body: built from the application/json content alone, named by its cut $ref. */
  function RequestBodyOf(body: Option<Content>): (b: Option<Body>)
    requires body.Some? ==> ContentReady(body.value)
    ensures b.Some? <==> body.Some? && JsonContent in body.value
  {
    if body.Some? && JsonContent in body.value then
      var schemaRef := body.value[JsonContent];
      Some(Body(CutPrefix(schemaRef.ref), FieldsOf(schemaRef.value.value)))
    else None
  }

  /** A JSON response body: an array schema gets "[]" before its name. */
  function ResponseOf(schemaRef: SchemaRef): Body
    requires schemaRef.value.Some? && FieldsTyped(schemaRef.value.value)
  {
    var types := schemaRef.value.value.types;
    var name := CutPrefix(schemaRef.ref);
    Body(if |types| > 0 && types[0] == "array" then "[]" + name else name, FieldsOf(schemaRef.value.value))
  }

  /** The response body: the JSON one of the last response visited that has one. */
  function ResponseBodyOf(responses: seq<Content>): (b: Option<Body>)
    requires forall i :: 0 <= i < |responses| ==> ContentReady(responses[i])
    ensures b.None? <==> forall i :: 0 <= i < |responses| ==> JsonContent !in responses[i]
  {
    if responses == [] then None
    else
      var last := responses[|responses| - 1];
      assert ContentReady(last);
      if JsonContent in last then Some(ResponseOf(last[JsonContent]))
      else ResponseBodyOf(responses[..|responses| - 1])
  }

  /** The response loop: every JSON content met overwrites the body found so far. */
  method LastJsonResponse(responses: seq<Content>) returns (responseBody: Option<Body>)
    requires forall i :: 0 <= i < |responses| ==> ContentReady(responses[i])
    ensures responseBody == ResponseBodyOf(responses)
  {
    responseBody := None;
    var i := 0;
    while i < |responses|
      invariant 0 <= i <= |responses|
      invariant responseBody == ResponseBodyOf(responses[..i])
    {
      assert responses[..i + 1][..i] == responses[..i];
      if JsonContent in responses[i] {
        responseBody := Some(ResponseOf(responses[i][JsonContent]));
      }
      i := i + 1;
    }
    assert responses[..i] == responses;
  }

  /** The later of two JSON responses wins. */
  lemma LastResponseWins(earlier: seq<Content>, c: Content)
    requires forall i :: 0 <= i < |earlier| ==> ContentReady(earlier[i])
    requires ContentReady(c) && JsonContent in c
    ensures ResponseBodyOf(earlier + [c]) == Some(ResponseOf(c[JsonContent]))
  {
    assert (earlier + [c])[|earlier|] == c;
  }

  /** The template state: 0 nothing, 1 request only, 2 response only, 3 both. */
  function State(hasRequest: bool, hasResponse: bool): (t: int)
    ensures t == (if hasRequest then 1 else 0) + (if hasResponse then 2 else 0)
    ensures 0 <= t <= 3
  {
    var t0 := if hasRequest then 1 else 0;
    var t1 := if hasResponse then 2 else t0;
    if hasRequest && hasResponse then 3 else t1
  }

  // ---------------------------------------------------------------- operation ids

  /** A path segment title-cased when it is not empty. */
  function TitleSegment(seg: string): string
  {
    if |seg| > 0 then Title(seg) else seg
  }

  /** strings.Join(parts, ""). */
  function Concat(parts: seq<string>): string
  {
    if parts == [] then [] else parts[0] + Concat(parts[1..])
  }

  predicate IsBrace(c: char) { c == '{' || c == '}' }

  /** strings.TrimLeft(s, "{}"). */
  function TrimLeftBraces(s: string): (r: string)
    ensures |r| <= |s|
    ensures r != [] ==> !IsBrace(r[0])
  {
    if s != [] && IsBrace(s[0]) then TrimLeftBraces(s[1..]) else s
  }

  /** strings.TrimRight(s, "{}"). */
  function TrimRightBraces(s: string): (r: string)
    ensures |r| <= |s|
    ensures r != [] ==> !IsBrace(r[|r| - 1])
  {
    if s != [] && IsBrace(s[|s| - 1]) then TrimRightBraces(s[..|s| - 1]) else s
  }

  /** strings.Trim(s, "{}"): leading, then trailing braces removed. */
  function TrimBraces(s: string): string
  {
    TrimRightBraces(TrimLeftBraces(s))
  }

  /**
   * Where the lazy group of `\{(.*?)\}` ends after an opening brace: the
   * index in s of the first '}', provided no newline comes before it (the
   * dot does not match a newline); -1 when there is no match here.
   */
  function CloseAt(s: string): (j: int)
    ensures -1 <= j < |s|
    ensures j >= 0 ==> s[j] == '}' && forall k :: 0 <= k < j ==> s[k] != '}' && s[k] != '\n'
    ensures j == -1 <==> forall k :: 0 <= k < |s| && s[k] == '}' ==> exists m :: 0 <= m < k && s[m] == '\n'
  {
    if s == [] then -1
    else if s[0] == '}' then 0
    else if s[0] == '\n' then -1
    else
      var j := CloseAt(s[1..]);
      if j == -1 then
        assert forall k :: 1 <= k < |s| && s[k] == '}' ==> exists m :: 0 <= m < k && s[m] == '\n' by {
          forall k | 1 <= k < |s| && s[k] == '}' ensures exists m :: 0 <= m < k && s[m] == '\n' {
            assert s[1..][k - 1] == '}';
            var m :| 0 <= m < k - 1 && s[1..][m] == '\n';
            assert s[m + 1] == '\n';
          }
        }
        -1
      else j + 1
  }

  /**
   * regexp `\{(.*?)\}` with ReplaceAllStringFunc and strings.Trim(_, "{}"):
   * each leftmost-first match is replaced by itself with its enclosing braces
   * trimmed; scanning resumes after the match.
   */
  function StripBraces(s: string): string
    decreases |s|
  {
    if s == [] then []
    else if s[0] == '{' && CloseAt(s[1..]) >= 0 then
      var j := CloseAt(s[1..]);
      TrimBraces(s[..j + 2]) + StripBraces(s[j + 2..])
    else [s[0]] + StripBraces(s[1..])
  }

  /** The operation id: Title(lower(verb)), the title-cased path segments, braces stripped. */
  function OperationId(verb: string, path: string): string
  {
    var segments := Split(path, '/');
    StripBraces(Title(ToLower(verb)) + Concat(seq(|segments|, i requires 0 <= i < |segments| => TitleSegment(segments[i]))))
  }

  /** The id computation of extractEndpointsAndComponents. */
  method OperationIdOf(verb: string, path: string) returns (operationId: string)
    ensures operationId == OperationId(verb, path)
  {
    var segments := TitleSegments(Split(path, '/'));
    var paths := Concat(segments);
    operationId := Title(ToLower(verb)) + paths;
    operationId := StripBraces(operationId);
  }

  /** Its in-place loop over the path segments: every non-empty one title-cased. */
  method TitleSegments(parts: seq<string>) returns (titled: seq<string>)
    ensures titled == seq(|parts|, k requires 0 <= k < |parts| => TitleSegment(parts[k]))
  {
    var segments := new string[|parts|](i requires 0 <= i < |parts| => parts[i]);
    var i := 0;
    while i < segments.Length
      invariant 0 <= i <= segments.Length
      invariant forall k :: 0 <= k < i ==> segments[k] == TitleSegment(parts[k])
      invariant forall k :: i <= k < segments.Length ==> segments[k] == parts[k]
    {
      if |segments[i]| > 0 {
        segments[i] := Title(segments[i]);
      }
      i := i + 1;
    }
    titled := segments[..];
  }

  /** Text without an opening brace is left as it is. */
  lemma {:induction false} StripBracesNoOpen(s: string)
    requires '{' !in s
    ensures StripBraces(s) == s
    decreases |s|
  {
    if s != [] {
      assert '{' !in s[1..];
      StripBracesNoOpen(s[1..]);
    }
  }

  /** A simple placeholder is replaced by its name. */
  lemma StripBracesPlaceholder(a: string, name: string, b: string)
    requires '{' !in a
    requires forall k :: 0 <= k < |name| ==> !IsBrace(name[k]) && name[k] != '\n'
    requires name != []
    ensures StripBraces(a + "{" + name + "}" + b) == a + name + StripBraces(b)
  {
    var s := "{" + name + "}" + b;
    assert a + "{" + name + "}" + b == a + s;
    StripBracesPrefix(a, s);
    PlaceholderFirst(name, b);
  }

  lemma PlaceholderFirst(name: string, b: string)
    requires forall k :: 0 <= k < |name| ==> !IsBrace(name[k]) && name[k] != '\n'
    ensures StripBraces("{" + name + "}" + b) == name + StripBraces(b)
  {
    var s := "{" + name + "}" + b;
    assert s[1..] == name + "}" + b;
    CloseAtName(name, b);
    assert s[..|name| + 2] == "{" + name + "}";
    assert s[|name| + 2..] == b;
    TrimBracesName(name);
  }

  lemma {:induction false} CloseAtName(name: string, b: string)
    requires forall k :: 0 <= k < |name| ==> !IsBrace(name[k]) && name[k] != '\n'
    ensures CloseAt(name + "}" + b) == |name|
  {
    var s := name + "}" + b;
    assert s[|name|] == '}';
    assert forall k :: 0 <= k < |name| ==> s[k] == name[k];
  }

  lemma TrimBracesName(name: string)
    requires forall k :: 0 <= k < |name| ==> !IsBrace(name[k])
    ensures TrimBraces("{" + name + "}") == name
  {
    var m := "{" + name + "}";
    assert m[1..] == name + "}";
    if name == [] {
      assert TrimLeftBraces(m) == TrimLeftBraces(m[1..]) == TrimLeftBraces([]);
    } else {
      assert TrimLeftBraces(m) == TrimLeftBraces(m[1..]);
      assert (name + "}")[0] == name[0];
      assert TrimLeftBraces(m[1..]) == name + "}";
      assert (name + "}")[..|name|] == name;
      assert TrimRightBraces(name + "}") == TrimRightBraces(name);
      assert TrimRightBraces(name) == name by { assert name[|name| - 1] == name[|name| - 1]; }
    }
  }

  /** Text before the first opening brace is copied through. */
  lemma {:induction false} StripBracesPrefix(a: string, s: string)
    requires '{' !in a
    ensures StripBraces(a + s) == a + StripBraces(s)
    decreases |a|
  {
    if a != [] {
      assert (a + s)[1..] == a[1..] + s;
      assert '{' !in a[1..];
      StripBracesPrefix(a[1..], s);
      assert [a[0]] + a[1..] == a;
    } else {
      assert a + s == s;
    }
  }

  /** PUT /users/{id} gets the operation id "PutUsersId". */
  lemma OperationIdExample(verb: string, path: string)
    requires verb == "PUT" && path == "/users/{id}"
    ensures OperationId(verb, path) == "PutUsersId"
  {
    var segs := ExamplePathSegments(path);
    var titled := seq(|segs|, i requires 0 <= i < |segs| => TitleSegment(segs[i]));
    ExampleTitles(verb, titled, segs);
    var inner := ExampleConcat(titled);
    ExampleStrip(Title(ToLower(verb)), inner);
  }

  lemma ExampleConcat(titled: seq<string>) returns (inner: string)
    requires titled == ["", "Users", "{Id}"]
    ensures Concat(titled) == inner && inner == "Users{Id}"
  {
    inner := "Users{Id}";
    var t1 := titled[1..];
    var t2 := t1[1..];
    assert t1 == ["Users", "{Id}"] && t2 == ["{Id}"] && t2[1..] == [];
    assert Concat(t2) == "{Id}" + Concat([]);
    assert Concat(t1) == "Users" + Concat(t2);
    assert Concat(titled) == "" + Concat(t1);
  }

  lemma ExampleStrip(verbTitle: string, inner: string)
    requires verbTitle == "Put" && inner == "Users{Id}"
    ensures StripBraces(verbTitle + inner) == "PutUsersId"
  {
    ExamplePieces(verbTitle, inner, "PutUsers", "Id");
    StripBracesPlaceholder("PutUsers", "Id", "");
    ExampleJoined("PutUsers", "Id");
  }

  lemma ExamplePieces(verbTitle: string, inner: string, a: string, name: string)
    requires verbTitle == "Put" && inner == "Users{Id}" && a == "PutUsers" && name == "Id"
    ensures verbTitle + inner == a + "{" + name + "}" + ""
  {
  }

  lemma ExampleJoined(a: string, name: string)
    requires a == "PutUsers" && name == "Id"
    ensures a + name + StripBraces("") == "PutUsersId"
  {
  }

  lemma ExamplePathSegments(path: string) returns (segs: seq<string>)
    requires path == "/users/{id}"
    ensures segs == Split(path, '/') && segs == ["", "users", "{id}"]
  {
    segs := ["", "users", "{id}"];
    assert Join(segs, '/') == path by {
      assert segs[1..] == ["users", "{id}"] && segs[1..][1..] == ["{id}"];
    }
    SplitJoin(segs, '/');
  }

  lemma ExampleTitles(verb: string, titled: seq<string>, segs: seq<string>)
    requires verb == "PUT" && segs == ["", "users", "{id}"]
    requires titled == seq(|segs|, i requires 0 <= i < |segs| => TitleSegment(segs[i]))
    ensures Title(ToLower(verb)) == "Put"
    ensures titled == ["", "Users", "{Id}"]
  {
    ExampleVerb(verb);
    ExampleSegment("users", "Users");
    ExampleSegment("{id}", "{Id}");
  }

  lemma ExampleVerb(verb: string)
    requires verb == "PUT"
    ensures Title(ToLower(verb)) == "Put"
  {
    assert ToLower(verb) == "put";
  }

  lemma ExampleSegment(seg: string, titled: string)
    requires (seg == "users" && titled == "Users") || (seg == "{id}" && titled == "{Id}")
    ensures TitleSegment(seg) == titled
  {
    if seg == "users" {
      assert Title("users") == "Users";
    } else {
      assert Title("{id}") == "{Id}";
    }
  }

  // ---------------------------------------------------------------- the endpoint pass

  /** The operation itself has a parameter or a JSON request body. */
  predicate OwnRequest(op: Operation)
    requires OperationReady(op)
  {
    |op.params| > 0 || RequestBodyOf(op.requestBody).Some?
  }

  /** The hasRequest flag after the first n operations: never reset once set. */
  predicate HasRequestThrough(ops: seq<Operation>, n: nat)
    requires AllReady(ops) && n <= |ops|
  {
    n > 0 && (HasRequestThrough(ops, n - 1) || OwnRequest(ops[n - 1]))
  }

  /** The endpoint of an operation, given the hasRequest flag when it is reached. */
  function EndpointOf(op: Operation, hasRequest: bool): Endpoint
    requires OperationReady(op)
  {
    var response := ResponseBodyOf(op.responses);
    Endpoint(op.path, op.verb, OperationId(op.verb, op.path),
      seq(|op.params|, i requires 0 <= i < |op.params| => ParameterOf(op.params[i])),
      RequestBodyOf(op.requestBody), State(hasRequest, response.Some?), response)
  }

  /** The tag each operation is filed under. */
  function Tags(ops: seq<Operation>): (tags: seq<string>)
    ensures |tags| == |ops| && forall i :: 0 <= i < |ops| ==> tags[i] == GetTag(ops[i].tags)
  {
    seq(|ops|, i requires 0 <= i < |ops| => GetTag(ops[i].tags))
  }

  /** The endpoint built for each operation, with the hasRequest flag as it stands after it. */
  function Endpoints(ops: seq<Operation>): (es: seq<Endpoint>)
    requires AllReady(ops)
    ensures |es| == |ops| && forall i :: 0 <= i < |ops| ==> es[i] == EndpointOf(ops[i], HasRequestThrough(ops, i + 1))
  {
    seq(|ops|, i requires 0 <= i < |ops| => EndpointOf(ops[i], HasRequestThrough(ops, i + 1)))
  }

  /** The first n values appended, in order, each under its own tag. */
  function GroupBy<E>(tags: seq<string>, es: seq<E>, n: nat): map<string, seq<E>>
    requires n <= |tags| == |es|
  {
    if n == 0 then map[]
    else
      var g := GroupBy(tags, es, n - 1);
      var tag := tags[n - 1];
      g[tag := (if tag in g then g[tag] else []) + [es[n - 1]]]
  }

  /** The endpoints map after the first n operations: each appended under its tag. */
  function Grouped(ops: seq<Operation>, n: nat): map<string, seq<Endpoint>>
    requires AllReady(ops) && n <= |ops|
  {
    GroupBy(Tags(ops), Endpoints(ops), n)
  }

  /** The body of the endpoint loop for one operation, given hasRequest so far. */
  method EndpointFor(op: Operation, hasRequestBefore: bool) returns (endpoint: Endpoint, hasRequest: bool)
    requires OperationReady(op)
    ensures hasRequest == (hasRequestBefore || OwnRequest(op))
    ensures endpoint == EndpointOf(op, hasRequest)
  {
    hasRequest := hasRequestBefore;
    var params: seq<Parameter> := [];
    var i := 0;
    while i < |op.params|
      invariant 0 <= i <= |op.params|
      invariant params == seq(i, k requires 0 <= k < i => ParameterOf(op.params[k]))
      invariant hasRequest == (hasRequestBefore || i > 0)
    {
      params := params + [ParameterOf(op.params[i])];
      hasRequest := true;
      i := i + 1;
    }
    var requestBody := RequestBodyOf(op.requestBody);
    if requestBody.Some? {
      hasRequest := true;
    }
    var responseBody := LastJsonResponse(op.responses);
    var operationId := OperationIdOf(op.verb, op.path);
    var t := 0;
    if hasRequest {
      t := 1;
    }
    if responseBody != None {
      t := 2;
    }
    if hasRequest && responseBody != None {
      t := 3;
    }
    endpoint := Endpoint(op.path, op.verb, operationId, params, requestBody, t, responseBody);
  }

  /**
   * The endpoint loop of extractEndpointsAndComponents: hasRequest is declared
   * once, before the loop, and each endpoint is appended under its tag.
   */
  method ExtractEndpoints(ops: seq<Operation>) returns (endpoints: map<string, seq<Endpoint>>)
    requires AllReady(ops)
    ensures endpoints == Grouped(ops, |ops|)
  {
    endpoints := map[];
    var hasRequest := false;
    var n := 0;
    while n < |ops|
      invariant 0 <= n <= |ops|
      invariant endpoints == Grouped(ops, n)
      invariant hasRequest == HasRequestThrough(ops, n)
    {
      var endpoint;
      endpoint, hasRequest := EndpointFor(ops[n], hasRequest);
      assert endpoint == Endpoints(ops)[n];
      var tag := GetTag(ops[n].tags);
      var existing := if tag in endpoints then endpoints[tag] else [];
      endpoints := endpoints[tag := existing + [endpoint]];
      n := n + 1;
    }
  }

  /**
   * hasRequest is sticky: once an operation has a parameter or a JSON body,
   * every operation processed after it gets state 1 or 3.
   */
  lemma {:induction false} RequestSticks(ops: seq<Operation>, j: nat, k: nat)
    requires AllReady(ops) && j <= k < |ops| && OwnRequest(ops[j])
    ensures HasRequestThrough(ops, k + 1)
    ensures EndpointOf(ops[k], HasRequestThrough(ops, k + 1)).state in {1, 3}
    decreases k
  {
    if j < k {
      RequestSticks(ops, j, k - 1);
    }
  }

  /** The first n values whose tag is t, in order. */
  function TagListBy<E>(tags: seq<string>, es: seq<E>, t: string, n: nat): seq<E>
    requires n <= |tags| == |es|
  {
    if n == 0 then []
    else TagListBy(tags, es, t, n - 1) + (if tags[n - 1] == t then [es[n - 1]] else [])
  }

  /** The endpoints of the first n operations with tag t, in processing order. */
  function TagList(ops: seq<Operation>, t: string, n: nat): seq<Endpoint>
    requires AllReady(ops) && n <= |ops|
  {
    TagListBy(Tags(ops), Endpoints(ops), t, n)
  }

  lemma {:induction false} GroupByKeys<E>(tags: seq<string>, es: seq<E>, n: nat)
    requires n <= |tags| == |es|
    ensures GroupBy(tags, es, n).Keys == set k | 0 <= k < n :: tags[k]
  {
    if n > 0 {
      GroupByKeys(tags, es, n - 1);
      assert (set k | 0 <= k < n :: tags[k]) == (set k | 0 <= k < n - 1 :: tags[k]) + {tags[n - 1]};
    }
  }

  /** The tags that get an entry are exactly the tags used. */
  lemma GroupedKeys(ops: seq<Operation>, n: nat)
    requires AllReady(ops) && n <= |ops|
    ensures Grouped(ops, n).Keys == set k | 0 <= k < n :: GetTag(ops[k].tags)
  {
    var tags := Tags(ops);
    GroupByKeys(tags, Endpoints(ops), n);
    assert (set k | 0 <= k < n :: tags[k]) == set k | 0 <= k < n :: GetTag(ops[k].tags);
  }

  lemma {:induction false} GroupByTag<E>(tags: seq<string>, es: seq<E>, t: string, n: nat)
    requires n <= |tags| == |es|
    ensures t in GroupBy(tags, es, n) ==> GroupBy(tags, es, n)[t] == TagListBy(tags, es, t, n)
    ensures t !in GroupBy(tags, es, n) ==> TagListBy(tags, es, t, n) == []
  {
    if n > 0 {
      GroupByTag(tags, es, t, n - 1);
      var g := GroupBy(tags, es, n - 1);
      var list := TagListBy(tags, es, t, n - 1);
      if tags[n - 1] == t && t !in g {
        assert list + [es[n - 1]] == [] + [es[n - 1]];
      }
    }
  }

  /** Each entry holds exactly its tag's endpoints, in processing order. */
  lemma GroupedByTag(ops: seq<Operation>, t: string, n: nat)
    requires AllReady(ops) && n <= |ops|
    ensures t in Grouped(ops, n) ==> Grouped(ops, n)[t] == TagList(ops, t, n)
    ensures t !in Grouped(ops, n) ==> TagList(ops, t, n) == []
  {
    GroupByTag(Tags(ops), Endpoints(ops), t, n);
  }

  // ---------------------------------------------------------------- components

  /** One component schema as visited: the map key and its schema. */
  datatype ComponentSpec = ComponentSpec(name: string, schema: SchemaRef)

  predicate IsArraySchema(s: Schema) { |s.types| > 0 && s.types[0] == "array" }

  /** The schema (or, for an array, its items' schema) is present and typed. */
  predicate ComponentReady(c: ComponentSpec)
  {
    c.schema.value.Some?
    && (if IsArraySchema(c.schema.value.value)
        then c.schema.value.value.items.Some? && c.schema.value.value.items.value.value.Some?
             && FieldsTyped(c.schema.value.value.items.value.value.value)
        else FieldsTyped(c.schema.value.value))
  }

  /** The entries one schema adds; plural stands for inflection.Plural. */
  function AddComponent(m: map<string, Component>, c: ComponentSpec, plural: string -> string): map<string, Component>
    requires ComponentReady(c)
  {
    var singularName := Camel(c.name);
    var s := c.schema.value.value;
    if IsArraySchema(s) then
      var withSingular := m[singularName := Component(singularName, FieldsOf(s.items.value.value.value))];
      withSingular[plural(singularName) := Component(plural(singularName), map[singularName := "[]" + singularName])]
    else m[singularName := Component(singularName, FieldsOf(s))]
  }

  /** The component map after the schemas, in visiting order. */
  function ComponentsOf(schemas: seq<ComponentSpec>, plural: string -> string): map<string, Component>
    requires forall i :: 0 <= i < |schemas| ==> ComponentReady(schemas[i])
  {
    if schemas == [] then map[]
    else AddComponent(ComponentsOf(schemas[..|schemas| - 1], plural), schemas[|schemas| - 1], plural)
  }

  /** processComponents: fills componentMap schema by schema. */
  method ProcessComponents(schemas: seq<ComponentSpec>, plural: string -> string)
    returns (componentMap: map<string, Component>)
    requires forall i :: 0 <= i < |schemas| ==> ComponentReady(schemas[i])
    ensures componentMap == ComponentsOf(schemas, plural)
  {
    componentMap := map[];
    var i := 0;
    while i < |schemas|
      invariant 0 <= i <= |schemas|
      invariant componentMap == ComponentsOf(schemas[..i], plural)
    {
      assert schemas[..i + 1][..i] == schemas[..i];
      var c := schemas[i];
      var singularName := ToCamel(c.name);
      var pluralName := plural(singularName);
      var s := c.schema.value.value;
      if |s.types| > 0 && s.types[0] == "array" {
        var itemsSchema := s.items.value.value.value;
        componentMap := componentMap[singularName := Component(singularName, FieldsOf(itemsSchema))];
        componentMap := componentMap[pluralName := Component(pluralName, map[singularName := "[]" + singularName])];
      } else {
        componentMap := componentMap[singularName := Component(singularName, FieldsOf(s))];
      }
      i := i + 1;
    }
    assert schemas[..i] == schemas;
  }

  /**
   * An object schema gives one component under the camel-cased name; an array
   * gives the singular component from its items and a plural one whose single
   * field is the singular wrapped in "[]" — which replaces the singular when
   * the two names coincide.  Earlier entries under other names are kept.
   */
  lemma AddComponentEntries(m: map<string, Component>, c: ComponentSpec, plural: string -> string)
    requires ComponentReady(c)
    ensures var r := AddComponent(m, c, plural);
      var singular := Camel(c.name);
      var s := c.schema.value.value;
      (!IsArraySchema(s) ==> r.Keys == m.Keys + {singular} && r[singular] == Component(singular, FieldsOf(s)))
      && (IsArraySchema(s) ==>
            r.Keys == m.Keys + {singular, plural(singular)}
            && r[plural(singular)] == Component(plural(singular), map[singular := "[]" + singular])
            && (plural(singular) != singular ==>
                  r[singular] == Component(singular, FieldsOf(s.items.value.value.value))))
      && (forall k :: k in m && k != singular && k != plural(singular) ==> r[k] == m[k])
      && (!IsArraySchema(s) ==> forall k :: k in m && k != singular ==> r[k] == m[k])
  {
  }
}
