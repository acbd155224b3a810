/** What one agent step produces, and the messages it becomes. */
module StepContent {
  import opened Common
  import T = Transcript

  type Id = T.Id

  datatype Meta = Meta(signature: string, redactedData: string)

  /** A call as the model made it; `invalid` holds what is wrong with it, if anything. */
  datatype ToolCall = ToolCall(id: Id, name: string, input: string, providerExecuted: bool, invalid: Option<string>)

  datatype ToolResult = ToolResult(id: Id, name: string, output: T.Output, providerExecuted: bool, stopTurn: bool)

  datatype Content =
    | TextContent(text: string)
    | ReasoningContent(text: string, meta: Option<Meta>)
    | CallContent(call: ToolCall)
    | FileContent(mime: string, data: string)
    | SourceContent(url: string)
    | ResultContent(result: ToolResult)

  function IdOf(call: ToolCall): Id {
    call.id
  }

  function IdsOf(calls: seq<ToolCall>): seq<Id> {
    Map(IdOf, calls)
  }

  // ------------------------------------------------------ content to messages

  predicate IsRedacted(meta: Option<Meta>) {
    meta.Some? && meta.value.signature == "" && meta.value.redactedData != ""
  }

  function CallPart(c: ToolCall): T.Part {
    T.Call(c.id, c.name, c.input, c.providerExecuted)
  }

  function ResultPart(r: ToolResult): T.Part {
    T.Result(r.id, r.output, r.providerExecuted)
  }

  /** What goes into the assistant turn: everything but sources and the results of client calls. */
  function AssistantPart(c: Content): seq<T.Part> {
    match c
    case TextContent(text) => [T.Text(text)]
    case ReasoningContent(text, meta) => [T.Reasoning(text, IsRedacted(meta))]
    case CallContent(call) => [CallPart(call)]
    case FileContent(mime, data) => [T.File("", mime, data)]
    case SourceContent(_) => []
    case ResultContent(r) => if r.providerExecuted then [ResultPart(r)] else []
  }

  function ToolPart(c: Content): seq<T.Part> {
    if c.ResultContent? && !c.result.providerExecuted then [ResultPart(c.result)] else []
  }

  function AssistantParts(content: seq<Content>): seq<T.Part> {
    if content == [] then [] else
    AssistantParts(content[..|content| - 1]) + AssistantPart(content[|content| - 1])
  }

  function ToolParts(content: seq<Content>): seq<T.Part> {
    if content == [] then [] else
    ToolParts(content[..|content| - 1]) + ToolPart(content[|content| - 1])
  }

  function Turn(role: T.Role, parts: seq<T.Part>): seq<T.Message> {
    if parts == [] then [] else [T.Message(role, parts, None)]
  }

  function ResponseMessages(content: seq<Content>): seq<T.Message> {
    Turn(T.Assistant, AssistantParts(content)) + Turn(T.Tool, ToolParts(content))
  }

  method ToResponseMessages(content: seq<Content>) returns (messages: seq<T.Message>)
    ensures messages == ResponseMessages(content)
  {
    var assistantParts, toolParts := [], [];
    for i := 0 to |content|
      invariant assistantParts == AssistantParts(content[..i]) && toolParts == ToolParts(content[..i])
    {
      assert content[..i + 1][..i] == content[..i];
      match content[i] {
        case TextContent(text) =>
          assistantParts := assistantParts + [T.Text(text)];
        case ReasoningContent(text, meta) =>
          assistantParts := assistantParts + [T.Reasoning(text, IsRedacted(meta))];
        case CallContent(call) =>
          assistantParts := assistantParts + [CallPart(call)];
        case FileContent(mime, data) =>
          assistantParts := assistantParts + [T.File("", mime, data)];
        case SourceContent(_) =>
          continue;
        case ResultContent(r) =>
          if r.providerExecuted {
            assistantParts := assistantParts + [ResultPart(r)];
          } else {
            toolParts := toolParts + [ResultPart(r)];
          }
      }
    }
    assert content[..|content|] == content;
    messages := [];
    if |assistantParts| > 0 {
      messages := messages + [T.Message(T.Assistant, assistantParts, None)];
    }
    if |toolParts| > 0 {
      messages := messages + [T.Message(T.Tool, toolParts, None)];
    }
  }

  // ------------------------------------------------------- what is carried on

  /** `p` says to the model what the content item `c` says. */
  predicate Carries(c: Content, p: T.Part) {
    match c
    case TextContent(text) => p.Text? && p.text == text
    case ReasoningContent(text, meta) =>
      && p.Reasoning? && p.text == text
      && (p.redacted <==> meta.Some? && meta.value.signature == "" && meta.value.redactedData != "")
    case CallContent(call) =>
      && p.Call? && p.id == call.id && p.name == call.name && p.input == call.input
      && p.providerExecuted == call.providerExecuted
    case FileContent(mime, data) => p.File? && p.mime == mime && p.data == data
    case SourceContent(_) => false
    case ResultContent(r) => p.Result? && p.id == r.id && p.output == r.output && p.providerExecuted == r.providerExecuted
  }

  predicate CarriesAll(content: seq<Content>, parts: seq<T.Part>) {
    |parts| == |content| && forall k :: 0 <= k < |content| ==> Carries(content[k], parts[k])
  }

  /** The items of one kind, in order: the results the client gave, or everything else but sources. */
  function Items(content: seq<Content>, answers: bool): seq<Content> {
    if content == [] then [] else
    var c := content[|content| - 1];
    Items(content[..|content| - 1], answers)
    + (if !c.SourceContent? && (c.ResultContent? && !c.result.providerExecuted) == answers then [c] else [])
  }

  lemma {:induction false} PartsCarry(content: seq<Content>)
    ensures CarriesAll(Items(content, false), AssistantParts(content))
    ensures CarriesAll(Items(content, true), ToolParts(content))
  {
    if content != [] {
      PartsCarry(content[..|content| - 1]);
    }
  }

  /**
  What one step feeds back: one assistant turn that carries, in order and once
  each, every text, reasoning block, call, file and provider result of the step,
  then one tool turn that carries every result the client gave, its output
  included.  A turn with nothing to carry is left out.
  */
  lemma ResponseCarries(content: seq<Content>)
    ensures var spoken, answers, ms := Items(content, false), Items(content, true), ResponseMessages(content);
            && |ms| == (if spoken != [] then 1 else 0) + (if answers != [] then 1 else 0)
            && (spoken != [] ==> ms[0].role.Assistant? && CarriesAll(spoken, ms[0].parts))
            && (answers != [] ==> ms[|ms| - 1].role.Tool? && CarriesAll(answers, ms[|ms| - 1].parts))
            && forall k :: 0 <= k < |ms| ==> ms[k].options == None
  {
    hide Items, AssistantParts, ToolParts, Carries;
    PartsCarry(content);
  }

  // ------------------------------------------------------------------ pairing

  /** The calls the client must answer. */
  function ClientCalls(content: seq<Content>): seq<Id> {
    if content == [] then [] else
    var c := content[|content| - 1];
    ClientCalls(content[..|content| - 1]) + (if c.CallContent? && !c.call.providerExecuted then [c.call.id] else [])
  }

  /** The client's answers. */
  function ClientResults(content: seq<Content>): seq<Id> {
    if content == [] then [] else
    var c := content[|content| - 1];
    ClientResults(content[..|content| - 1]) + (if c.ResultContent? && !c.result.providerExecuted then [c.result.id] else [])
  }

  lemma {:induction false} ClientCallsConcat(a: seq<Content>, b: seq<Content>)
    ensures ClientCalls(a + b) == ClientCalls(a) + ClientCalls(b)
    decreases |b|
  {
    if b == [] {
      assert a + b == a;
    } else {
      assert (a + b)[..|a + b| - 1] == a + b[..|b| - 1];
      ClientCallsConcat(a, b[..|b| - 1]);
    }
  }

  lemma {:induction false} ClientResultsConcat(a: seq<Content>, b: seq<Content>)
    ensures ClientResults(a + b) == ClientResults(a) + ClientResults(b)
    decreases |b|
  {
    if b == [] {
      assert a + b == a;
    } else {
      assert (a + b)[..|a + b| - 1] == a + b[..|b| - 1];
      ClientResultsConcat(a, b[..|b| - 1]);
    }
  }

  lemma AssistantStep(parts: seq<T.Part>, c: Content)
    ensures T.CallIds(T.ClientCalls, parts + AssistantPart(c))
         == T.CallIds(T.ClientCalls, parts) + (if c.CallContent? && !c.call.providerExecuted then [c.call.id] else [])
  {
    hide IsRedacted, T.CallIds;
    if AssistantPart(c) == [] {
      assert parts + [] == parts;
    } else {
      T.CallIdsAppend(T.ClientCalls, parts, AssistantPart(c)[0]);
    }
  }

  lemma {:induction false} AssistantCallIds(content: seq<Content>)
    ensures T.CallIds(T.ClientCalls, AssistantParts(content)) == ClientCalls(content)
  {
    hide AssistantPart;
    if content != [] {
      AssistantCallIds(content[..|content| - 1]);
      AssistantStep(AssistantParts(content[..|content| - 1]), content[|content| - 1]);
    }
  }

  lemma {:induction false} ToolResultIds(content: seq<Content>)
    ensures T.ResultIds(ToolParts(content)) == ClientResults(content)
  {
    if content != [] {
      var front, c := content[..|content| - 1], content[|content| - 1];
      ToolResultIds(front);
      if ToolPart(c) == [] {
        assert ToolParts(front) + [] == ToolParts(front);
      } else {
        T.ResultIdsAppend(ToolParts(front), ToolPart(c)[0]);
      }
    }
  }

  lemma {:induction false} OnlyResults(parts: seq<T.Part>)
    requires forall p :: p in parts ==> p.Result?
    ensures |T.ResultIds(parts)| == |parts|
  {
    if parts != [] {
      OnlyResults(parts[..|parts| - 1]);
      assert parts[|parts| - 1] in parts;
    }
  }

  lemma {:induction false} ToolPartsAreResults(content: seq<Content>)
    ensures forall p :: p in ToolParts(content) ==> p.Result?
  {
    if content != [] {
      ToolPartsAreResults(content[..|content| - 1]);
    }
  }

  lemma MultisetEmpty(a: seq<Id>, b: seq<Id>)
    requires multiset(a) == multiset(b)
    ensures |a| == |b|
  {
    assert |multiset(a)| == |a|;
  }

  /** Two optional turns keep the contract exactly when the second answers the first. */
  lemma TurnsPaired(base: seq<T.Message>, spoken: seq<T.Part>, answers: seq<T.Part>)
    requires T.WellPaired(T.ClientCalls, base)
    requires forall p :: p in answers ==> p.Result?
    ensures T.WellPaired(T.ClientCalls, base + Turn(T.Assistant, spoken) + Turn(T.Tool, answers))
       <==> multiset(T.ResultIds(answers)) == multiset(T.CallIds(T.ClientCalls, spoken))
  {
    hide T.OpenPaired, T.Pending, T.CallIds, T.ResultIds;
    OnlyResults(answers);
    var asked, answered := T.CallIds(T.ClientCalls, spoken), T.ResultIds(answers);
    var mid := base + Turn(T.Assistant, spoken);
    EmptyTurn(base, spoken);
    assert T.OpenPaired(T.ClientCalls, mid) && T.Pending(T.ClientCalls, mid) == asked;
    if multiset(answered) == multiset(asked) {
      MultisetEmpty(answered, asked);
    }
    if answers == [] {
      assert mid + [] == mid;
    } else {
      T.PairedAppend(T.ClientCalls, mid, T.Message(T.Tool, answers, None));
    }
  }

  lemma EmptyTurn(base: seq<T.Message>, spoken: seq<T.Part>)
    requires T.WellPaired(T.ClientCalls, base)
    ensures var mid := base + Turn(T.Assistant, spoken);
            T.OpenPaired(T.ClientCalls, mid) && T.Pending(T.ClientCalls, mid) == T.CallIds(T.ClientCalls, spoken)
  {
    if spoken == [] {
      assert base + [] == base;
    } else {
      T.PairedAppend(T.ClientCalls, base, T.Message(T.Assistant, spoken, None));
    }
  }

  /** One step keeps the transcript well paired exactly when its client results answer its client calls. */
  lemma StepPaired(base: seq<T.Message>, content: seq<Content>)
    requires T.WellPaired(T.ClientCalls, base)
    ensures T.WellPaired(T.ClientCalls, base + ResponseMessages(content))
       <==> multiset(ClientResults(content)) == multiset(ClientCalls(content))
  {
    hide T.WellPaired, AssistantParts, ToolParts, ClientCalls, ClientResults, T.CallIds, T.ResultIds, Turn;
    AssistantCallIds(content);
    ToolResultIds(content);
    ToolPartsAreResults(content);
    TurnsPaired(base, AssistantParts(content), ToolParts(content));
    assert base + ResponseMessages(content)
        == base + Turn(T.Assistant, AssistantParts(content)) + Turn(T.Tool, ToolParts(content));
  }
}
