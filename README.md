# gohandlr in Dafny

gohandlr adapts a typed business function `func(ctx, Body, Params) (Response, error)`
to an HTTP handler. The repository holds several generations of that adapter,
and this project models, proves and cross-checks each of them:

- **The option registry, builder and dispatcher of `handle.go`.**
  - `newStruct` walks a growing list of options and files each one. Writers go under their `Accept()` key, body readers under their `ContentType()` key, and there is one params reader.
  - It then validates the result against which of Body, Params and Response are the `Nil` marker.
  - `Handle` panics on a configuration error. Otherwise it mounts a request closure that runs a fixed sequence of stages.
- **The Config of `pkg/gohandlr/gohandlr.go`.**
  - It is built by applying option closures to a copy of the package-level `DefaultConfig`. The copy shares its two codec maps with the default.
  - There is a simplified Accept parser with a prefix matcher.
  - There are four handler wrappers with a fixed status mapping.
- **The earlier list-scanning dispatcher of `handle/handle.go`.** It gives 406 when no writer matches.
- **The generated dispatcher of `examples/openapi/output.go`** for `POST /files`.
- **The tag-driven parameter binder, in three copies:** `handle/readers.go`, `options/params_reader.go` and the path/query-only `handle/decode_request.go`.
- **The status-carrying errors of `error.go`.**
- **The string logic of the code generator.**
  - `pkg/codegen/utils.go`: `toCamel`, `cutPrefix`, `goType`.
  - `pkg/codegen/main.go`: getTag, the operation id, the request/response/state logic, the endpoint grouping and `processComponents`.
  - `pkg/codegen/generate.go`: the idempotent insertion of handler functions and registrations into `process.go`.

## How the model is built

- **Requests, replies and reflection.**
  - A request is a record: Content-Type, Accept, path captures, query values, context values (`Http.Request`).
  - A reply records what the handler wrote: `Error(status, message)`, `Written(key, value)`, `NoContent`, `Empty`, or `Aborted` for a panic.
  - Reflection over a params struct becomes a sequence of field descriptors `(kind, path tag, query tag, ctx tag)`. The struct is an `array` of field values, updated in place field by field.
- **Codecs and option types.**
  - Codecs, business functions and templates are function-typed parameters; what they compute is unknown, and they may fail.
  - Options are known by the methods their dynamic type has. That is how Go's interface type switch classifies them.
- **Shared maps.** The two maps of a gohandlr `Config` are objects (`GoHandlr.CodecTable`), so the aliasing through `DefaultConfig` is explicit.
- **Go map iteration order is never fixed.**
  - `Marshal` picks any accepted key (`:|`).
  - The code generator takes its visiting orders as input sequences.
- **Status codes, as the code assigns them.**
  - In `handle.go`, a business error is always 500 (handle.go:117-122). A status the error may carry (`error.go`) is not consulted.
  - An unsupported Content-Type is 400 (handle.go:96).
  - In `handle.go`, an unacceptable response type is 400 (handle.go:135). In `handle/handle.go` a missing writer is 406 (handle/handle.go:67-68).
  - In `handle.go`, an endpoint without a writer for a non-Nil Response is a configuration error at build time (handle.go:67-69). No writer is chosen by default.

## Model

| member | source | states |
|---|---|---|
| Handle.NotNilExamples | handle.go:25-28 | notNil is true for an ordinary value such as 1 and false for the Nil marker |
| Handle.SlotOf | handle.go:37-48 | a capability fits no case of the type switch exactly when it is neither writer, body reader nor params reader; the params slot is taken only by a capability that is neither body reader nor writer |
| Handle.FlattenBreadthFirst | handle.go:36-39 | options are processed level by level: every option given directly comes first, in order, then the contents of the nested lists, recursively |
| Handle.FlattenDefers | handle.go:36-39 | a nested list met while processing a queue is appended after everything still queued |
| Handle.FlattenFlat | handle.go:36-39 | a list without nested lists is processed exactly in the order given |
| Handle.NestedDefaultsOverride | handle.go:36-41 | an explicit writer given before a nested list holding a writer for the same key is overridden by the nested one |
| Handle.RegisterAllKeepsLast | handle.go:40-45 | after registration every slot (writer key, body reader key, params reader) holds the last capability filed there, a later one replacing an earlier one |
| Handle.ParamsReaderIsNoBodyReader | handle.go:42-45 | the params reader kept is never a body reader or a writer |
| Handle.RegisterAllFails | handle.go:46-47 | registration fails exactly when some capability fits no case, and the error is "unknown option type" plus the type of the first such one |
| Handle.ValidateAccepts | handle.go:51-72 | validation passes exactly when each non-Nil Body, Params and Response has a body reader, a params reader and a writer respectively |
| Handle.HandleStruct.File | handle.go:37-48 | one case of the type switch applied to the struct's maps in place, or the unknown-type error |
| Handle.FileOptions | handle.go:36-49 | the loop over the growing option list leaves the struct holding the registration, or stops with the first unknown-type error |
| Handle.NewStruct | handle.go:30-73 | newStruct returns a fresh struct equal to the validated registration, or nil and the first error met: unknown type, then the body reader, params reader and writer checks in that order |
| Handle.BuilderScenarios | handle.go:30-73 | the builder's test cases: all three codecs build one JSON writer, one JSON body reader and the params reader; dropping the params reader, the body reader or the writer gives that check's exact message |
| Handle.NewHandle | handle.go:75-150 | Handle panics exactly when building fails, with that error; otherwise it mounts a validated endpoint on the path |
| Handle.Serve | handle.go:81-148 | the request closure: the body stage (reader lookup, then reader), the params stage, the business call and the response stage, each failure ending the request with its status |
| Handle.ServeStatuses | handle.go:81-148 | every request ends in 200, 204, 400 or 500 |
| Handle.UnsupportedContentType | handle.go:88-98 | for a non-Nil Body, a Content-Type ("" meaning JSON) with no reader gives 400 "unsupported content type ...", and the business function is not invoked |
| Handle.ReaderErrorIs400 | handle.go:100-115 | a body reader error, or a params reader error after a successful or Nil body stage, gives 400 and the business function is not invoked |
| Handle.BusinessErrorIs500 | handle.go:117-122 | once the body and params stages succeed (or are Nil), a business error always gives 500 with its message; the status it may carry is not consulted |
| Handle.ResponseStage | handle.go:124-147 | once the body and params stages succeed (or are Nil): a Nil response gives 204 and no writer; "" and the bare wildcard select the JSON writer, any other Accept value is looked up as is; a miss is 400, a writer error 500, success writes under that key |
| Errors.NestedErrorMessage | error.go:15-17 | Error() of a NewError reports the innermost plain message, however deeply nested |
| Errors.WrappedNest | error.go:15-37 | each of the four constructors, applied to any nest of errors, reports the innermost plain message and its own code as Status() |
| Errors.GoError.Status | error.go:19-21 | only the status-carrying NewError has a Status() |
| Errors.ErrorInternal | error.go:23-25 | the wrapper has status 500 and the wrapped message |
| Errors.ErrorBadGateway | error.go:27-29 | the wrapper has status 502 and the wrapped message |
| Errors.ErrorUnavailable | error.go:31-33 | the wrapper has status 503 and the wrapped message |
| Errors.ErrorTimeout | error.go:35-37 | the wrapper has status 504 and the wrapped message |
| GoText.Atoi | handle/readers.go:77 | strconv.Atoi with its error discarded stays in the 64-bit range and gives 0 for anything that is not an optionally signed decimal |
| GoText.AtoiExamples | handle/readers.go:77 | "42", "-7" and "+7" parse; "", "abc", "4x" and "-" give 0 |
| GoText.AtoiDecimal | handle/readers.go:77 | Atoi reads back every in-range number Itoa writes |
| ParamsBinding.SetField | handle/readers.go:67-119 | one field set in place from its path tag, then its query tag, then its ctx tag, as BindField specifies |
| ParamsBinding.SetFields | handle/readers.go:64-120 | fields visited in declaration order; the array ends as every field bound from its own prior contents, so step i changes only field i |
| ParamsBinding.BindAll | handle/readers.go:64-65 | field i of the result depends only on field i's descriptor and prior contents |
| ParamsBinding.PathOverwrites | handle/readers.go:68-82 | a path-tagged field is always overwritten: an int field gets Atoi of the capture (0 when absent or malformed), a string field the capture |
| ParamsBinding.QueryAfterPath | handle/readers.go:84-99 | the query stage runs after the path stage and wins; an absent query parameter resets the field to 0 or "" |
| ParamsBinding.CtxOnlyOnMatch | handle/readers.go:101-119 | a ctx value is assigned only on a dynamic-type match; otherwise the field keeps what the earlier stages left |
| ParamsBinding.Untouched | handle/readers.go:75-118 | fields of other kinds, and untagged fields, are never modified |
| ParamsBinding.BindFieldIdempotent | handle/readers.go:67-119 | binding a field twice is binding it once |
| HandleReaders.Reader | handle/readers.go:50-123 | for a struct whose tagged fields are exported, Reader never fails and leaves the array as every field bound in order |
| HandleReaders.JsonBodyReader | handle/readers.go:42-44 | the JSON body reader's ContentType() is "application/json" and it has no Accept() |
| HandleReaders.DefaultParamsReader | handle/readers.go:48-50 | the default params reader has Reader only |
| HandleReaders.ReadersAreFiled | handle/readers.go:42-50 | filed by newStruct, the JSON body reader goes under "application/json" and the default params reader becomes the params reader |
| OptionsParamsReader.Reader | options/params_reader.go:17-90 | for the same structs, the second copy never fails and meets the same postcondition as HandleReaders.Reader, so the two copies agree on every input |
| OptionsParamsReader.DefaultParamsReader | options/params_reader.go:11-17 | this copy is also filed as the params reader |
| ParamsBinding.Zero | handle/decode_request.go:31 | the zero value of an int field is 0, of a string field "" |
| DecodeRequest.DecodeRequestParams | handle/decode_request.go:30-83 | a nil-typed P gives the zero value; a struct whose tagged fields are exported is bound from its zero value with path then query for each field; the error is always nil |
| DecodeRequest.DecodeField | handle/decode_request.go:45-79 | one field: path stage, then query stage, with the ctx tag dropped |
| DecodeRequest.DecodedFields | handle/decode_request.go:42-80 | the ctx tag is ignored, untagged and other-kind fields stay zero, query overwrites path, path alone gives Atoi or the raw capture |
| HandleList.FirstMatch | handle/handle.go:56-65 | the position of the first writer whose Accept() equals the negotiated type, or -1 exactly when there is none |
| HandleList.Outcome | handle/handle.go:21-70 | one request stage by stage: body decode, params decode, process, the first writer for the negotiated Accept value |
| HandleList.Serve | handle/handle.go:21-70 | the request closure: body and params always decoded, 400 on a body error, 500 on a process error, the first matching writer used, 500 on its error, 406 without one |
| HandleList.DecodeErrorIs400 | handle/handle.go:25-30 | a body decode error gives 400 and the process function is not invoked |
| HandleList.FirstWriterWins | handle/handle.go:56-65 | only the first writer for the negotiated type is called; later duplicates never are |
| HandleList.ProcessErrorIs500 | handle/handle.go:42-46 | after a successful decode, a process error gives 500 with its message |
| HandleList.WriterErrorIs500 | handle/handle.go:56-65 | after a successful process, the error of the first writer for the negotiated type gives 500 with its message, and its success writes the response under its Accept() value |
| HandleList.NoWriterIs406 | handle/handle.go:67-68 | with no matching writer, an empty list included, a successful decode and process end in exactly 406 "No writer found for Accept header" |
| HandleList.OutcomeStatuses | handle/handle.go:22-69 | every request ends in 200, 400, 406 or 500 |
| Accept.AcceptList | pkg/gohandlr/gohandlr.go:56-66 | the parsed list is the effective header split at commas, each piece trimmed |
| Accept.AcceptListShape | pkg/gohandlr/gohandlr.go:56-66 | the list is never empty, has one entry more than the effective header has commas, and no entry holds a comma or surrounding space |
| Accept.AcceptListDefault | pkg/gohandlr/gohandlr.go:57-59 | "" and the bare wildcard both parse to exactly ["application/json"] |
| Accept.ParseAcceptHeader | pkg/gohandlr/gohandlr.go:56-66 | the in-place trimming loop returns AcceptList of the header; the generated copy in examples/openapi/output.go (lines 63-73) is the same code |
| Accept.TrimEach | pkg/gohandlr/gohandlr.go:62-64 | each piece of the array is trimmed in place, and nothing else changes |
| Accept.AcceptsType | pkg/gohandlr/gohandlr.go:68-75 | the search loop returns true exactly when some entry starts with the media type; the generated copy in examples/openapi/output.go (lines 75-82) is the same code |
| Accept.AcceptsFacts | pkg/gohandlr/gohandlr.go:68-75 | an empty list accepts nothing, an exact entry is accepted, and "" is accepted exactly by a non-empty list |
| Accept.DefaultAccepts | pkg/gohandlr/gohandlr.go:57-75 | the default list accepts JSON and its prefix "application/", but not HTML |
| GoHandlr.ReadParameterSkips | pkg/gohandlr/gohandlr.go:21-26 | with a nil ParameterReader, ReadParameter succeeds with the value untouched and no reader runs |
| GoHandlr.UnmarshalSkips | pkg/gohandlr/gohandlr.go:28-38 | a nil map, or a Content-Type ("" included) with no entry, succeeds with the value untouched and no unmarshaler runs |
| GoHandlr.Marshal | pkg/gohandlr/gohandlr.go:40-54 | the search loop meets MarshalOutcome: a nil map writes nothing and succeeds; otherwise the chosen key is registered and accepted and its marshaler's result is returned; no key is chosen exactly when none is accepted, and then the error is "can't write to any of the accepted types" |
| GoHandlr.DefaultMarshalerChoice | pkg/gohandlr/gohandlr.go:180-190 | with the default marshaler map, no Accept header or the wildcard accepts its key, and an HTML-only list accepts none |
| GoHandlr.NewDefaultConfig | pkg/gohandlr/gohandlr.go:180-190 | DefaultConfig: two fresh distinct maps holding the JSON and form unmarshalers and the JSON marshaler, and the empty validator and parameter reader |
| GoHandlr.ApplyOptionTo | pkg/gohandlr/gohandlr.go:139-170 | one With* option applied in place: WithConfig replaces the config, the map options write into the map the config holds (panicking on a nil map), the hook options set their field |
| GoHandlr.WriteTable | pkg/gohandlr/gohandlr.go:146-150 | a map option's write updates exactly that key of that map object |
| GoHandlr.ApplyOptions | pkg/gohandlr/gohandlr.go:271-273 | the loop applies the options in order until one panics, keeping every reachable map equal to its initial contents replayed through the writes so far |
| GoHandlr.NewConfig | pkg/gohandlr/gohandlr.go:269-275 | NewConfig returns the options applied in order to the copy, panics exactly when they do, and leaves every map reachable from the options holding its old contents with all their writes replayed |
| GoHandlr.DefaultMapsShared | pkg/gohandlr/gohandlr.go:269-273 | without WithConfig, the built config holds the default's own map objects and every write lands in one of them |
| GoHandlr.MarshalerRegistrationVisible | pkg/gohandlr/gohandlr.go:159-163 | WithMarshaler writes its key into the default's marshaler map itself |
| GoHandlr.UnMarshalerRegistrationVisible | pkg/gohandlr/gohandlr.go:146-150 | WithUnMarshaler writes its key into the default's unmarshaler map itself |
| GoHandlr.ApplyAllAppend | pkg/gohandlr/gohandlr.go:271-273 | later options are applied to the result of the earlier ones |
| GoHandlr.WithConfigResets | pkg/gohandlr/gohandlr.go:139-143 | WithConfig replaces everything set so far; map writes made before it are not undone |
| GoHandlr.LaterHookWins | pkg/gohandlr/gohandlr.go:165-170 | of two WithValidator options, the later wins |
| GoHandlr.LaterParamsReaderWins | pkg/gohandlr/gohandlr.go:152-156 | of two WithParamsReader options, the later wins |
| GoHandlr.NilMapWritePanics | pkg/gohandlr/gohandlr.go:146-163 | a map option after WithConfig of a config with nil maps panics |
| GoHandlr.ReadRequest | pkg/gohandlr/gohandlr.go:192-209 | readRequest: params, then body, then validation, each failure wrapped with its prefix, a nil Validate panicking |
| GoHandlr.ReadRequestOrder | pkg/gohandlr/gohandlr.go:192-209 | params, then body, then validation; the first failure is wrapped with its prefix and later steps do not matter; success means all three passed |
| GoHandlr.DefaultsReadZero | pkg/gohandlr/gohandlr.go:172-190 | with the default hooks and no unmarshaler for the Content-Type, the handler processes the zero value |
| GoHandlr.HandlerNoRequestNoResponse | pkg/gohandlr/gohandlr.go:211-222 | 500 with the message on a process error, 204 exactly on success |
| GoHandlr.HandlerWithRequestNoResponse | pkg/gohandlr/gohandlr.go:224-246 | the per-request body of the wrapper: 400 on a read failure, 500 on a process error, 204 otherwise |
| GoHandlr.NoResponseStatuses | pkg/gohandlr/gohandlr.go:224-246 | 400 exactly when reading fails, 204 exactly when reading and processing succeed, 500 with the process error's message when reading succeeds and processing fails, a panic on a nil Validate |
| GoHandlr.MarshalOutcomeWrites | pkg/gohandlr/gohandlr.go:40-54 | when some key is accepted and every accepted key's marshaler succeeds, any key Marshal may pick gives a written reply under that key |
| GoHandlr.MarshalReply | pkg/gohandlr/gohandlr.go:260-266 | a marshal error gives 500 with its message, a chosen key a written reply |
| GoHandlr.HandlerNoRequestWithResponse | pkg/gohandlr/gohandlr.go:248-267 | 500 on a process error; after a successful process the reply is MarshalReply of an outcome Marshal may return, so a marshal error is 500 with its message, a successful marshal writes under the chosen key, and no accepted key is 500 "can't write to any of the accepted types"; a written reply comes from a registered, accepted key whose marshaler succeeded; nothing is sent exactly for a nil map |
| GoHandlr.HandlerWithRequestWithResponse | pkg/gohandlr/gohandlr.go:277-304 | 400 exactly when reading fails, 500 on a process error; after a successful read and process the reply is MarshalReply of an outcome Marshal may return (a marshal error is 500 with its message, a successful marshal writes under the chosen key); 500 "can't write to any of the accepted types" when no registered key is accepted, a panic exactly on a nil Validate; a written reply only after reading and processing succeed, from an accepted key whose marshaler succeeded; an empty reply exactly for a nil marshaler map; never 204 |
| OpenApiOutput.ServePostFiles | examples/openapi/output.go:9-46 | the closure RegisterPostFiles returns for POST /files yields exactly the reply PostFiles describes |
| OpenApiOutput.ReadOnlyForJson | examples/openapi/output.go:15-23 | the body reader is consulted only for an exact "application/json" Content-Type; otherwise Handle sees the zero User |
| OpenApiOutput.PostFilesStatuses | examples/openapi/output.go:18-45 | 400 on a read error, 500 with Handle's message on a Handle error, 400 with the writer's message on a write error; a response is written exactly when JSON is accepted and every step succeeds; the reply is empty (200) exactly when reading and Handle succeed and JSON is not accepted |
| OpenApiOutput.DefaultAcceptWrites | examples/openapi/output.go:34-42 | with no Accept header or the wildcard, a successful Handle is always followed by the JSON write |
| CodegenUtils.UpperName | pkg/codegen/utils.go:10-12 | toUpper upper-cases every character and leaves no lower-case letter |
| CodegenUtils.ToCamel | pkg/codegen/utils.go:14-28 | the rune loop returns Camel of its input |
| CodegenUtils.CamelFirst | pkg/codegen/utils.go:18-20 | the first character is upper-cased, whatever it is |
| CodegenUtils.CamelSeparators | pkg/codegen/utils.go:18-22 | a separator outside a capitalising position is dropped and the next character upper-cased; one in a capitalising position is kept |
| CodegenUtils.CamelFromLength | pkg/codegen/utils.go:17-26 | the output is never longer than the input, and shorter when a separator is dropped |
| CodegenUtils.CamelNoSeparators | pkg/codegen/utils.go:17-26 | without separators only the first character changes |
| CodegenUtils.CamelExample | pkg/codegen/utils.go:14-28 | "a__b" gives "A_b" |
| CodegenUtils.CutPrefix | pkg/codegen/utils.go:59-61 | one leading "#/components/schemas/" is removed, and anything else is left as it is |
| CodegenUtils.CutPrefixName | pkg/codegen/utils.go:59-61 | a component reference cuts back to its name, and only one prefix is removed |
| CodegenUtils.GoType | pkg/codegen/utils.go:30-57 | goType over the schema reference, its value, its first type and, for arrays, its items |
| CodegenUtils.GoTypeCases | pkg/codegen/utils.go:30-57 | goType maps nil to "interface{}", string/integer/boolean to string/int/bool, other names to "interface{}", an item-less array to "[]interface{}", an object to its camel-cased component name or "struct{}" |
| CodegenUtils.GoTypeArrays | pkg/codegen/utils.go:44-48 | nested arrays give one "[]" per level before the element type |
| CodegenMain.GetTag | pkg/codegen/main.go:76-82 | the first tag, or "default" without tags |
| CodegenMain.FieldsOf | pkg/codegen/main.go:106-109 | a body's fields are exactly the schema's properties |
| CodegenMain.RequestBodyOf | pkg/codegen/main.go:101-118 | a request body exists exactly when the operation has one with "application/json" content |
| CodegenMain.ResponseBodyOf | pkg/codegen/main.go:120-141 | there is no response body exactly when no response has JSON content |
| CodegenMain.LastJsonResponse | pkg/codegen/main.go:120-141 | the response loop returns the JSON body of the last response visited that has one |
| CodegenMain.LastResponseWins | pkg/codegen/main.go:122-138 | a later JSON response replaces an earlier one |
| CodegenMain.State | pkg/codegen/main.go:163-172 | the state is 1 for a request plus 2 for a response, so always 0 to 3 |
| CodegenMain.CloseAt | pkg/codegen/main.go:158 | the lazy group of the regexp ends at the first '}' with no newline before it, or there is no match |
| CodegenMain.TitleSegments | pkg/codegen/main.go:147-151 | every non-empty segment is title-cased in place and the empty ones are kept |
| CodegenMain.OperationId | pkg/codegen/main.go:143-161 | the operation id: the title-cased lower-case verb, the title-cased path segments, and the braces of placeholders stripped |
| CodegenMain.OperationIdOf | pkg/codegen/main.go:143-161 | the id computation returns OperationId of the verb and path |
| CodegenMain.StripBracesNoOpen | pkg/codegen/main.go:158-161 | text without an opening brace is left as it is |
| CodegenMain.StripBracesPlaceholder | pkg/codegen/main.go:158-161 | a simple placeholder is replaced by its name |
| CodegenMain.OperationIdExample | pkg/codegen/main.go:143-161 | PUT /users/{id} gets the id "PutUsersId" |
| CodegenMain.EndpointFor | pkg/codegen/main.go:91-182 | one operation's endpoint: parameters, bodies, id and state; hasRequest becomes set when the operation has a parameter or a JSON body, and is never cleared |
| CodegenMain.ExtractEndpoints | pkg/codegen/main.go:84-184 | the endpoint loop appends each operation's endpoint under its tag, with the flag as it stands after that operation |
| CodegenMain.RequestSticks | pkg/codegen/main.go:87-172 | once an operation has a request, every operation processed after it gets state 1 or 3 |
| CodegenMain.GroupedKeys | pkg/codegen/main.go:173-182 | the tags with an entry are exactly the tags used |
| CodegenMain.GroupedByTag | pkg/codegen/main.go:173-182 | each entry holds exactly its tag's endpoints, in processing order |
| CodegenMain.ProcessComponents | pkg/codegen/main.go:198-237 | processComponents fills the map schema by schema, as ComponentsOf describes |
| CodegenMain.AddComponentEntries | pkg/codegen/main.go:200-234 | an object adds one component under the camel-cased name; an array adds the items' component and a plural one holding "[]" + singular, which replaces the singular when the names coincide; other entries are kept |
| CodegenGenerate.AddHandlerToRegisterHandlers | pkg/codegen/generate.go:71-81 | addHandlerToRegisterHandlers: unless the name occurs, the first header occurrence is followed by the call line |
| CodegenGenerate.NamePresentUnchanged | pkg/codegen/generate.go:75-80 | content that already contains the handler name is returned unchanged |
| CodegenGenerate.LongerNameSuppresses | pkg/codegen/generate.go:76 | a name that occurs inside a longer name already present suppresses the insertion |
| CodegenGenerate.NoHeaderUnchanged | pkg/codegen/generate.go:77 | content without the RegisterHandlers header is returned unchanged |
| CodegenGenerate.Inserted | pkg/codegen/generate.go:71-81 | otherwise the first header occurrence is replaced by the header, a newline and the call line, and the result contains both |
| CodegenGenerate.KeepsHeader | pkg/codegen/generate.go:71-81 | the header, once present, stays present |
| CodegenGenerate.AddHandlerIdempotent | pkg/codegen/generate.go:71-81 | adding the same handler twice equals adding it once |
| CodegenGenerate.AddHandlerFunction | pkg/codegen/generate.go:53-68 | content containing "func process" + id is returned unchanged; otherwise the rendered template is appended after a newline |
| CodegenGenerate.AddHandlerFunctionIdempotent | pkg/codegen/generate.go:53-68 | when the rendered function defines that name, a second addition changes nothing |
| CodegenGenerate.AddEndpoint | pkg/codegen/generate.go:109-113 | the two edits for one endpoint: its function, then its "Handle" registration |
| CodegenGenerate.ThreadEndpoints | pkg/codegen/generate.go:107-114 | the inner loop threads the text through each endpoint of one tag, in order |
| CodegenGenerate.GenerateProcess | pkg/codegen/generate.go:106-115 | the text is threaded through every endpoint, group by group, in visiting order |
| CodegenGenerate.StepRegisters | pkg/codegen/generate.go:109-113 | after an endpoint's edits, the header stays and the endpoint's handler name occurs |
| CodegenGenerate.ThreadedKeepsHeader | pkg/codegen/generate.go:106-115 | a process.go with the header keeps it through every step |

## Left out

- JSON, templates and body decoding are not modelled. `DefaultUnMarshalJSON`, `DefaultMarshalJSON`, the JSON body reader's and writer's `Reader`/`Write`, `DecodeRequestBody` and the HTML template writer become uninterpreted functions that may fail. Their sources are outside the code modelled here, except for their key constants.
- The guard of `DecodeRequestBody` (handle/decode_request.go:17) is not modelled: it never fires for a typed pointer.
- HandleList.Serve: the 400 branch after `DecodeRequestParams` (handle/handle.go:35-38) is omitted, because that function's error is always nil.
- HandleReaders.Reader: the field descriptors stand for a struct P whose tagged fields are exported. Go's reflection panics for a P that is not a struct: `NumField` at handle/readers.go:64 is called on every request for `Params = any`, because notNil of a nil interface is true (handle.go:110). It also panics when `SetInt`/`SetString` write a tagged unexported field (handle/readers.go:78-116). Neither panic is modelled, so "never fails" holds only for the structs the descriptors describe.
- OptionsParamsReader.Reader: the same two reflection panics are not modelled: a non-struct P at options/params_reader.go:31, and a tagged unexported field at options/params_reader.go:45-83.
- DecodeRequest.DecodeRequestParams: the same two panics are not modelled: a concrete non-struct P at handle/decode_request.go:42, and a tagged unexported field at handle/decode_request.go:56-76.
- GoHandlr.Marshal: a nil codec function registered through `WithUnMarshaler` or `WithMarshaler` panics when it is called (pkg/gohandlr/gohandlr.go:33-37, 50). Codecs are modelled as total functions, so this panic is not modelled.
- Reflection, `net/http`, the router and `context.Value` become the `Http.Request` record and field descriptors. Only int and string fields are converted; every other kind is one opaque kind.
- Go's map iteration order (`Marshal`, the generator's loops over paths, operations, responses, content maps, endpoint lists and components) is either a nondeterministic choice or an input sequence. The order in which `componentMap` is copied into the `components` slice is not modelled.
- GoHandlr.ApplyOptionTo: only the package's own `With*` options are modelled; arbitrary user-written `Option` closures are not.
- A nil `Validate` function, a write into a nil map and the panics of `Handle` are explicit outcomes (`Aborted`, `NilMapPanic`, `Panicked`). They are not Go panics with recovery.
- CodegenMain.OperationReady, CodegenMain.ContentReady and CodegenMain.ComponentReady are preconditions that exclude the generator's nil-pointer and index panics: a JSON content entry without a schema value, whose properties are read at pkg/codegen/main.go:105-107 and 125-127; an array component without items or without an items value, read at main.go:210; and untyped property schemas. The model does not say what the generator does on such a document; it crashes.
- CodegenUtils.GoTypeCases: the index panic of `goType` on an empty type list is a precondition (`Typed`), not a modelled panic.
- Letter case is ASCII only. `strings.ToUpper`, `strings.ToLower`, `unicode.ToUpper` and `strings.Title` leave non-ASCII characters unchanged, and `strings.Title` treats every non-ASCII character as a letter.
- `strconv.Atoi` is the 64-bit `int` of the usual platforms; its range error is dropped, as the binders drop it.
- The file I/O of the code generator is not modelled: `GenerateCode`, `generateFile`, the `os.Stat` branch that renders a fresh `process.go`, the reads and writes, `format.Source`, `parseTemplates`, and loading and validating the OpenAPI document.
- `inflection.Plural` is the parameter `plural`.
- Template execution is the parameter `render`; its `log.Fatalf` on failure is not modelled.
- `findAndAddComment` (a `go/ast` rewrite) is not part of this model.
- Debug output (`fmt.Println`) is not modelled.
- Concurrency is not modelled: the host serves requests on separate goroutines over a config that is only read after registration.
- The wiring and example programs are not modelled: `main.go`, `cmd/`, the `examples/*/main.go` files and the `handlr/process.go` example.
