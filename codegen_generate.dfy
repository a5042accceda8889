/**
 * pkg/codegen/generate.go: the text edits that bring an existing process.go
 * up to date with the endpoints.  Template execution is a parameter
 * (`render`), and the file reads, formatting and writes are not part of this
 * model.
 */
module CodegenGenerate {
  import opened GoText
  import CodegenMain

  const RegisterFuncStart := "func RegisterHandlers(r *chi.Mux) {"

  /** The call line inserted for a handler: a tab, r.MethodFunc(<name>()), a newline. */
  function HandlerCall(handlerName: string): (call: string)
    ensures Contains(call, handlerName)
  {
    var call := "\tr.MethodFunc(" + handlerName + "())\n";
    assert call == "\tr.MethodFunc(" + handlerName + "())\n";
    ContainsSelf(handlerName);
    ContainsInside("\tr.MethodFunc(", handlerName, "())\n", handlerName);
    call
  }

  /** The replacement text for the header: the header, a newline, the call. */
  function Registration(handlerName: string): (rep: string)
    ensures Contains(rep, handlerName) && Contains(rep, RegisterFuncStart)
  {
    var call := HandlerCall(handlerName);
    HeaderThenCall(RegisterFuncStart, call, handlerName);
    RegisterFuncStart + "\n" + call
  }

  lemma HeaderThenCall(header: string, call: string, name: string)
    requires Contains(call, name)
    ensures Contains(header + "\n" + call, name) && Contains(header + "\n" + call, header)
  {
    ContainsInside(header + "\n", call, [], name);
    assert header + "\n" + call + [] == header + "\n" + call;
    ContainsSelf(header);
    ContainsPrefixOf(header, "\n" + call, header);
    assert header + ("\n" + call) == header + "\n" + call;
  }

  /**
   * addHandlerToRegisterHandlers: unless handlerName already occurs anywhere,
   * the first header occurrence gets the call line after it.
   */
  function AddHandlerToRegisterHandlers(content: string, handlerName: string): string
  {
    if !Contains(content, handlerName)
    then ReplaceFirst(content, RegisterFuncStart, Registration(handlerName))
    else content
  }

  /** Content that already mentions the name, however, is returned unchanged. */
  lemma NamePresentUnchanged(content: string, handlerName: string)
    requires Contains(content, handlerName)
    ensures AddHandlerToRegisterHandlers(content, handlerName) == content
  {
  }

  /**
   * The test is a plain substring test: a name occurring inside a longer
   * name already present (HandleGetUser inside HandleGetUsers) suppresses the
   * insertion.
   */
  lemma LongerNameSuppresses(before: string, handlerName: string, suffix: string, after: string)
    ensures AddHandlerToRegisterHandlers(before + (handlerName + suffix) + after, handlerName)
      == before + (handlerName + suffix) + after
  {
    ContainsSelf(handlerName);
    ContainsPrefixOf(handlerName, suffix, handlerName);
    ContainsInside(before, handlerName + suffix, after, handlerName);
  }

  /** Content without the header is returned unchanged. */
  lemma NoHeaderUnchanged(content: string, handlerName: string)
    requires !Contains(content, RegisterFuncStart)
    ensures AddHandlerToRegisterHandlers(content, handlerName) == content
  {
  }

  /**
   * Otherwise the call goes after the FIRST header occurrence, and the result
   * contains both the header and the name.
   */
  lemma Inserted(content: string, handlerName: string)
    requires !Contains(content, handlerName) && Contains(content, RegisterFuncStart)
    ensures var i := Index(content, RegisterFuncStart);
      var r := AddHandlerToRegisterHandlers(content, handlerName);
      0 <= i && r == content[..i] + Registration(handlerName) + content[i + |RegisterFuncStart|..]
      && Contains(r, handlerName) && Contains(r, RegisterFuncStart)
  {
    var i := Index(content, RegisterFuncStart);
    var rep := Registration(handlerName);
    ContainsInside(content[..i], rep, content[i + |RegisterFuncStart|..], handlerName);
    ContainsInside(content[..i], rep, content[i + |RegisterFuncStart|..], RegisterFuncStart);
  }

  /** The header, once present, stays present. */
  lemma KeepsHeader(content: string, handlerName: string)
    requires Contains(content, RegisterFuncStart)
    ensures Contains(AddHandlerToRegisterHandlers(content, handlerName), RegisterFuncStart)
  {
    if !Contains(content, handlerName) {
      Inserted(content, handlerName);
    }
  }

  /** Adding the same handler twice is adding it once. */
  lemma AddHandlerIdempotent(content: string, handlerName: string)
    ensures AddHandlerToRegisterHandlers(AddHandlerToRegisterHandlers(content, handlerName), handlerName)
      == AddHandlerToRegisterHandlers(content, handlerName)
  {
    if !Contains(content, handlerName) && Contains(content, RegisterFuncStart) {
      Inserted(content, handlerName);
    }
  }

  /** addHandlerFunction: the rendered function is appended unless "func process<id>" occurs already. */
  function AddHandlerFunction(content: string, operationId: string, rendered: string): (r: string)
    ensures Contains(content, "func process" + operationId) ==> r == content
    ensures !Contains(content, "func process" + operationId) ==> r == content + "\n" + rendered
  {
    var functionName := "process" + operationId;
    assert "func " + functionName == "func process" + operationId;
    if !Contains(content, "func " + functionName) then content + "\n" + rendered else content
  }

  /** When the template output defines that function, a second addition changes nothing. */
  lemma AddHandlerFunctionIdempotent(content: string, operationId: string, rendered: string)
    requires Contains(rendered, "func process" + operationId)
    ensures var once := AddHandlerFunction(content, operationId, rendered);
      AddHandlerFunction(once, operationId, rendered) == once
  {
    ContainsInside(content + "\n", rendered, [], "func process" + operationId);
    assert content + "\n" + rendered + [] == content + "\n" + rendered;
  }

  // ---------------------------------------------------------------- threading through the endpoints

  /** The two edits made for one endpoint. */
  function Step(content: string, e: CodegenMain.Endpoint, render: CodegenMain.Endpoint -> string): string
  {
    AddHandlerToRegisterHandlers(AddHandlerFunction(content, e.operationId, render(e)), "Handle" + e.operationId)
  }

  /** The endpoints in the order they are visited: group by group. */
  function Flat(groups: seq<seq<CodegenMain.Endpoint>>): seq<CodegenMain.Endpoint>
  {
    if groups == [] then [] else Flat(groups[..|groups| - 1]) + groups[|groups| - 1]
  }

  /** The content after the edits for the endpoints, in order. */
  function Threaded(content: string, es: seq<CodegenMain.Endpoint>, render: CodegenMain.Endpoint -> string): string
  {
    if es == [] then content else Step(Threaded(content, es[..|es| - 1], render), es[|es| - 1], render)
  }

  lemma ThreadedSnoc(content: string, es: seq<CodegenMain.Endpoint>, e: CodegenMain.Endpoint, render: CodegenMain.Endpoint -> string)
    ensures Threaded(content, es + [e], render) == Step(Threaded(content, es, render), e, render)
  {
    assert (es + [e])[..|es|] == es;
  }

  lemma FlatSnoc(groups: seq<seq<CodegenMain.Endpoint>>, g: nat)
    requires g < |groups|
    ensures Flat(groups[..g + 1]) == Flat(groups[..g]) + groups[g]
  {
    assert groups[..g + 1][..g] == groups[..g];
  }

  lemma PrefixSnoc<T>(done: seq<T>, xs: seq<T>, i: nat)
    requires i <= |xs|
    ensures done + xs[..0] == done && done + xs[..|xs|] == done + xs
    ensures i < |xs| ==> done + xs[..i + 1] == done + xs[..i] + [xs[i]]
  {
    assert xs[..0] == [] && xs[..|xs|] == xs;
    if i < |xs| {
      assert xs[..i + 1] == xs[..i] + [xs[i]];
    }
  }

  /** The body of the inner loop of generateStructs. */
  method AddEndpoint(contentStr: string, endpoint: CodegenMain.Endpoint, render: CodegenMain.Endpoint -> string)
    returns (updated: string)
    ensures updated == Step(contentStr, endpoint, render)
  {
    updated := AddHandlerFunction(contentStr, endpoint.operationId, render(endpoint));
    var handlerName := "Handle" + endpoint.operationId;
    updated := AddHandlerToRegisterHandlers(updated, handlerName);
  }

  /** The inner loop of generateStructs, over the endpoints of one tag. */
  method ThreadEndpoints(ghost content: string, ghost done: seq<CodegenMain.Endpoint>, start: string,
                         endpoints: seq<CodegenMain.Endpoint>, render: CodegenMain.Endpoint -> string)
    returns (contentStr: string)
    requires start == Threaded(content, done, render)
    ensures contentStr == Threaded(content, done + endpoints, render)
  {
    contentStr := start;
    ghost var seen := done;
    var i := 0;
    PrefixSnoc(done, endpoints, 0);
    while i < |endpoints|
      invariant 0 <= i <= |endpoints|
      invariant seen == done + endpoints[..i]
      invariant contentStr == Threaded(content, seen, render)
    {
      var endpoint := endpoints[i];
      PrefixSnoc(done, endpoints, i);
      ThreadedSnoc(content, seen, endpoint, render);
      seen := seen + [endpoint];
      contentStr := AddEndpoint(contentStr, endpoint, render);
      i := i + 1;
    }
    PrefixSnoc(done, endpoints, i);
  }

  /** The loops of generateStructs over the endpoint lists and their endpoints. */
  method GenerateProcess(content: string, groups: seq<seq<CodegenMain.Endpoint>>, render: CodegenMain.Endpoint -> string)
    returns (contentStr: string)
    ensures contentStr == Threaded(content, Flat(groups), render)
  {
    contentStr := content;
    var g := 0;
    while g < |groups|
      invariant 0 <= g <= |groups|
      invariant contentStr == Threaded(content, Flat(groups[..g]), render)
    {
      contentStr := ThreadEndpoints(content, Flat(groups[..g]), contentStr, groups[g], render);
      FlatSnoc(groups, g);
      g := g + 1;
    }
    assert groups[..g] == groups;
  }

  /**
   * Each step leaves the header in place and the step's handler registered:
   * after the edits for an endpoint, its Handle name occurs in the content.
   */
  lemma StepRegisters(content: string, e: CodegenMain.Endpoint, render: CodegenMain.Endpoint -> string)
    requires Contains(content, RegisterFuncStart)
    ensures Contains(Step(content, e, render), RegisterFuncStart)
    ensures Contains(Step(content, e, render), "Handle" + e.operationId)
  {
    var c1 := AddHandlerFunction(content, e.operationId, render(e));
    assert Contains(c1, RegisterFuncStart) by {
      if c1 != content {
        ContainsPrefixOf(content, "\n" + render(e), RegisterFuncStart);
        assert content + ("\n" + render(e)) == c1;
      }
    }
    KeepsHeader(c1, "Handle" + e.operationId);
    if !Contains(c1, "Handle" + e.operationId) {
      Inserted(c1, "Handle" + e.operationId);
    }
  }

  /** A process.go with the header keeps it through every step. */
  lemma {:induction false} ThreadedKeepsHeader(content: string, es: seq<CodegenMain.Endpoint>, render: CodegenMain.Endpoint -> string)
    requires Contains(content, RegisterFuncStart)
    ensures Contains(Threaded(content, es, render), RegisterFuncStart)
  {
    if es != [] {
      ThreadedKeepsHeader(content, es[..|es| - 1], render);
      StepRegisters(Threaded(content, es[..|es| - 1], render), es[|es| - 1], render);
    }
  }
}
