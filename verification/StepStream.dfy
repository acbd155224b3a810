/** The stream of one model step: events in, content and tool calls out. */
module StepStream {
  import opened Common
  import opened StepContent
  import T = Transcript

  /** Stream parts; `Failed` is an error part or a callback that returned an error. */
  datatype Event =
    | TextStart(id: string)
    | TextDelta(id: string, delta: string)
    | TextEnd(id: string)
    | ReasoningStart(id: string, delta: string, meta: Option<Meta>)
    | ReasoningDelta(id: string, delta: string, meta: Option<Meta>)
    | ReasoningEnd(id: string, meta: Option<Meta>)
    | ToolInput(id: string)
    | CallMade(call: ToolCall)
    | ResultMade(callId: Id, name: string, providerExecuted: bool)
    | Source(url: string)
    | Finish(reason: string)
    | Warnings
    | Failed

  const FINISH_UNKNOWN := "unknown"
  const FINISH_TOOL_CALLS := "tool-calls"

  // --------------------------------------------------------- validating calls

  /** Argument checking and the two ways of repairing a call that fails it; a check may rewrite the input. */
  datatype Validator = Validator(
    check: ToolCall -> Option<string>,
    problem: ToolCall -> string,
    repair: ToolCall -> Option<ToolCall>,
    fallback: ToolCall -> Option<string>)

  function Validate(v: Validator, call: ToolCall): Option<ToolCall> {
    match v.check(call)
    case Some(input) => Some(call.(input := input))
    case None => None
  }

  function FallbackRepair(v: Validator, call: ToolCall): ToolCall {
    var invalid := call.(invalid := Some(v.problem(call)));
    match v.fallback(call)
    case None => invalid
    case Some(input) =>
      match Validate(v, call.(input := input))
      case Some(valid) => valid
      case None => invalid
  }

  /** The check accepts `call`, and `r` is `call` with the input the check gave. */
  predicate Passes(v: Validator, call: ToolCall, r: ToolCall) {
    v.check(call) == Some(r.input) && r == call.(input := r.input)
  }

  /** A caller's repair that the check accepts. */
  predicate Repaired(v: Validator, call: ToolCall) {
    v.repair(call).Some? && v.check(v.repair(call).value).Some?
  }

  /** A schema-driven repair of the arguments that the check accepts. */
  predicate Salvaged(v: Validator, call: ToolCall) {
    v.fallback(call).Some? && v.check(call.(input := v.fallback(call).value)).Some?
  }

  /**
  A call that passes its check comes out with the input the check gave, and
  otherwise as it was.  A repair is used only after a failed check, the caller's
  before the built-in one and only if it passes the check itself.  A call that
  nothing repairs comes out as it was made, marked with the problem of the
  original.
  */
  function ValidateAndRepair(v: Validator, call: ToolCall): (r: ToolCall)
    ensures v.check(call).Some? ==> Passes(v, call, r)
    ensures v.check(call).None? && Repaired(v, call) ==> Passes(v, v.repair(call).value, r)
    ensures v.check(call).None? && !Repaired(v, call) && Salvaged(v, call) ==>
              Passes(v, call.(input := v.fallback(call).value), r)
    ensures v.check(call).None? && !Repaired(v, call) && !Salvaged(v, call) ==>
              r == call.(invalid := Some(v.problem(call)))
  {
    match Validate(v, call)
    case Some(valid) => valid
    case None =>
      match v.repair(call)
      case None => FallbackRepair(v, call)
      case Some(repaired) =>
        match Validate(v, repaired)
        case Some(valid) => valid
        case None => FallbackRepair(v, call)
  }

  /** A caller's repair function that does not hand client calls to the provider. */
  ghost predicate KeepsClientCalls(v: Validator) {
    forall call :: v.repair(call).Some? ==> v.repair(call).value.providerExecuted == call.providerExecuted
  }

  // ----------------------------------------------------- reference definition

  /** The latest start of text block `id` among the first `n` events, unless the block has ended since. */
  function OpenText(events: seq<Event>, n: nat, id: string): (k: Option<nat>)
    requires n <= |events|
    ensures k.Some? ==> k.value < n
  {
    if n == 0 then None
    else if events[n - 1] == TextStart(id) then Some(n - 1)
    else if events[n - 1] == TextEnd(id) then None
    else OpenText(events, n - 1, id)
  }

  /** The deltas for text block `id` from event `k` up to event `n`, joined. */
  function TextSince(events: seq<Event>, k: nat, n: nat, id: string): string
    requires k <= n <= |events|
  {
    if k == n then "" else
    var e := events[n - 1];
    TextSince(events, k, n - 1, id) + (if e.TextDelta? && e.id == id then e.delta else "")
  }

  function OpenReasoning(events: seq<Event>, n: nat, id: string): (k: Option<nat>)
    requires n <= |events|
    ensures k.Some? ==> k.value < n && events[k.value].ReasoningStart?
  {
    if n == 0 then None
    else if events[n - 1].ReasoningStart? && events[n - 1].id == id then Some(n - 1)
    else if events[n - 1].ReasoningEnd? && events[n - 1].id == id then None
    else OpenReasoning(events, n - 1, id)
  }

  function ReasoningSince(events: seq<Event>, k: nat, n: nat, id: string): string
    requires k <= n <= |events|
  {
    if k == n then "" else
    var e := events[n - 1];
    ReasoningSince(events, k, n - 1, id) + (if e.ReasoningDelta? && e.id == id then e.delta else "")
  }

  /** The latest metadata for reasoning block `id`, starting from what its start carried. */
  function MetaSince(events: seq<Event>, first: Option<Meta>, k: nat, n: nat, id: string): Option<Meta>
    requires k <= n <= |events|
  {
    if k == n then first else
    var e := events[n - 1];
    if e.ReasoningDelta? && e.id == id && e.meta.Some? then e.meta else MetaSince(events, first, k, n - 1, id)
  }

  /** A reasoning block opened by event `k`, as it stands after `n` events. */
  function ReasoningBlock(events: seq<Event>, k: nat, n: nat, id: string): (string, Option<Meta>)
    requires k < n <= |events| && events[k].ReasoningStart?
  {
    (events[k].delta + ReasoningSince(events, k + 1, n, id), MetaSince(events, events[k].meta, k + 1, n, id))
  }

  /** What event `i` adds to the content, told from the events alone. */
  function EmittedAt(v: Validator, events: seq<Event>, i: nat): seq<Content>
    requires i < |events|
  {
    match events[i]
    case TextEnd(id) =>
      (match OpenText(events, i, id)
       case None => []
       case Some(k) => [TextContent(TextSince(events, k + 1, i, id))])
    case ReasoningEnd(id, meta) =>
      (match OpenReasoning(events, i, id)
       case None => []
       case Some(k) =>
         var (text, latest) := ReasoningBlock(events, k, i, id);
         [ReasoningContent(text, if meta.Some? then meta else latest)])
    case CallMade(call) => [CallContent(if call.providerExecuted then call else ValidateAndRepair(v, call))]
    case ResultMade(id, name, providerExecuted) =>
      if providerExecuted then [ResultContent(ToolResult(id, name, T.NoOutput, true, false))] else []
    case Source(url) => [SourceContent(url)]
    case _ => []
  }

  function Emitted(v: Validator, events: seq<Event>, n: nat): seq<Content>
    requires n <= |events|
  {
    if n == 0 then [] else Emitted(v, events, n - 1) + EmittedAt(v, events, n - 1)
  }

  /** The client calls to run, in the order the model made them. */
  function Dispatched(v: Validator, events: seq<Event>, n: nat): seq<ToolCall>
    requires n <= |events|
  {
    if n == 0 then [] else
    var e := events[n - 1];
    Dispatched(v, events, n - 1)
    + (if e.CallMade? && !e.call.providerExecuted then [ValidateAndRepair(v, e.call)] else [])
  }

  function LastFinish(events: seq<Event>, n: nat): string
    requires n <= |events|
  {
    if n == 0 then FINISH_UNKNOWN
    else if events[n - 1].Finish? then events[n - 1].reason
    else LastFinish(events, n - 1)
  }

  // ---------------------------------------------------------------- the stream

  /** The blocks that are open after `n` events are exactly those a start opened, with all their deltas. */
  ghost predicate TextOpen(events: seq<Event>, n: nat, active: map<string, string>)
    requires n <= |events|
  {
    forall id :: match OpenText(events, n, id)
                 case None => id !in active
                 case Some(k) => id in active && active[id] == TextSince(events, k + 1, n, id)
  }

  ghost predicate ReasoningOpen(events: seq<Event>, n: nat, active: map<string, (string, Option<Meta>)>)
    requires n <= |events|
  {
    forall id :: match OpenReasoning(events, n, id)
                 case None => id !in active
                 case Some(k) => id in active && active[id] == ReasoningBlock(events, k, n, id)
  }

  lemma TextAdvances(events: seq<Event>, n: nat, active: map<string, string>)
    requires n < |events| && TextOpen(events, n, active)
    ensures TextOpen(events, n + 1, NextText(active, events[n]))
  {
    var next := NextText(active, events[n]);
    forall id ensures match OpenText(events, n + 1, id)
                      case None => id !in next
                      case Some(k) => id in next && next[id] == TextSince(events, k + 1, n + 1, id)
    {
      assert match OpenText(events, n, id)
             case None => id !in active
             case Some(k) => id in active && active[id] == TextSince(events, k + 1, n, id);
    }
  }

  function NextText(active: map<string, string>, e: Event): map<string, string> {
    match e
    case TextStart(id) => active[id := ""]
    case TextDelta(id, delta) => if id in active then active[id := active[id] + delta] else active
    case TextEnd(id) => active - {id}
    case _ => active
  }

  function NextReasoning(active: map<string, (string, Option<Meta>)>, e: Event): map<string, (string, Option<Meta>)> {
    match e
    case ReasoningStart(id, delta, meta) => active[id := (delta, meta)]
    case ReasoningDelta(id, delta, meta) =>
      if id in active then active[id := (active[id].0 + delta, if meta.Some? then meta else active[id].1)] else active
    case ReasoningEnd(id, _) => active - {id}
    case _ => active
  }

  lemma BlockStep(events: seq<Event>, k: nat, n: nat, id: string)
    requires k < n < |events| && events[k].ReasoningStart?
    ensures ReasoningBlock(events, k, n + 1, id)
         == var (text, meta), e := ReasoningBlock(events, k, n, id), events[n];
            if e.ReasoningDelta? && e.id == id then (text + e.delta, if e.meta.Some? then e.meta else meta)
            else (text, meta)
  {
    var start, since, e := events[k].delta, ReasoningSince(events, k + 1, n, id), events[n];
    if e.ReasoningDelta? && e.id == id {
      assert (start + since) + e.delta == start + (since + e.delta);
    } else {
      assert since + "" == since;
    }
  }

  lemma BlockStart(events: seq<Event>, k: nat, id: string)
    requires k < |events| && events[k].ReasoningStart?
    ensures ReasoningBlock(events, k, k + 1, id) == (events[k].delta, events[k].meta)
  {
    assert events[k].delta + "" == events[k].delta;
  }

  lemma ReasoningAdvances(events: seq<Event>, n: nat, active: map<string, (string, Option<Meta>)>)
    requires n < |events| && ReasoningOpen(events, n, active)
    ensures ReasoningOpen(events, n + 1, NextReasoning(active, events[n]))
  {
    var next := NextReasoning(active, events[n]);
    forall id ensures match OpenReasoning(events, n + 1, id)
                      case None => id !in next
                      case Some(k) => id in next && next[id] == ReasoningBlock(events, k, n + 1, id)
    {
      assert match OpenReasoning(events, n, id)
             case None => id !in active
             case Some(k) => id in active && active[id] == ReasoningBlock(events, k, n, id);
      hide ReasoningBlock;
      var k := OpenReasoning(events, n, id);
      if k.Some? {
        BlockStep(events, k.value, n, id);
      }
      if events[n].ReasoningStart? {
        BlockStart(events, n, id);
      }
    }
  }

  /** What the next event adds to the content, told from the open blocks. */
  function NextContent(v: Validator, text: map<string, string>, reasoning: map<string, (string, Option<Meta>)>, e: Event)
    : seq<Content>
  {
    match e
    case TextEnd(id) => if id in text then [TextContent(text[id])] else []
    case ReasoningEnd(id, meta) =>
      if id in reasoning then
        [ReasoningContent(reasoning[id].0, if meta.Some? then meta else reasoning[id].1)]
      else []
    case CallMade(call) => [CallContent(if call.providerExecuted then call else ValidateAndRepair(v, call))]
    case ResultMade(id, name, providerExecuted) =>
      if providerExecuted then [ResultContent(ToolResult(id, name, T.NoOutput, true, false))] else []
    case Source(url) => [SourceContent(url)]
    case _ => []
  }

  lemma NextContentIsEmitted(v: Validator, events: seq<Event>, n: nat, text: map<string, string>,
                             reasoning: map<string, (string, Option<Meta>)>)
    requires n < |events| && TextOpen(events, n, text) && ReasoningOpen(events, n, reasoning)
    ensures NextContent(v, text, reasoning, events[n]) == EmittedAt(v, events, n)
  {
    hide TextSince, ReasoningBlock, OpenText, OpenReasoning, ValidateAndRepair;
    var e := events[n];
    if e.TextEnd? {
      assert match OpenText(events, n, e.id)
             case None => e.id !in text
             case Some(k) => e.id in text && text[e.id] == TextSince(events, k + 1, n, e.id);
    } else if e.ReasoningEnd? {
      assert match OpenReasoning(events, n, e.id)
             case None => e.id !in reasoning
             case Some(k) => e.id in reasoning && reasoning[e.id] == ReasoningBlock(events, k, n, e.id);
    }
  }

  /** What reading `n` events has built up. */
  ghost predicate Read(v: Validator, events: seq<Event>, n: nat, content: seq<Content>, calls: seq<ToolCall>,
                       finish: string, text: map<string, string>, reasoning: map<string, (string, Option<Meta>)>)
    requires n <= |events|
  {
    && Failed !in events[..n]
    && content == Emitted(v, events, n)
    && calls == Dispatched(v, events, n)
    && finish == LastFinish(events, n)
    && TextOpen(events, n, text)
    && ReasoningOpen(events, n, reasoning)
  }

  lemma ReadNothing(v: Validator, events: seq<Event>)
    ensures Read(v, events, 0, [], [], FINISH_UNKNOWN, map[], map[])
  {
  }

  lemma ReadMore(v: Validator, events: seq<Event>, n: nat, content: seq<Content>, calls: seq<ToolCall>,
                 finish: string, text: map<string, string>, reasoning: map<string, (string, Option<Meta>)>)
    requires n < |events| && !events[n].Failed?
    requires Read(v, events, n, content, calls, finish, text, reasoning)
    ensures var e := events[n];
            Read(v, events, n + 1, content + NextContent(v, text, reasoning, e),
                 if e.CallMade? && !e.call.providerExecuted then calls + [ValidateAndRepair(v, e.call)] else calls,
                 if e.Finish? then e.reason else finish,
                 NextText(text, e), NextReasoning(reasoning, e))
  {
    hide TextOpen, ReasoningOpen, NextContent, EmittedAt, NextText, NextReasoning, ValidateAndRepair;
    NextContentIsEmitted(v, events, n, text, reasoning);
    TextAdvances(events, n, text);
    ReasoningAdvances(events, n, reasoning);
    assert events[..n + 1] == events[..n] + [events[n]];
  }

  lemma ReadAll(v: Validator, events: seq<Event>, content: seq<Content>, calls: seq<ToolCall>,
                finish: string, text: map<string, string>, reasoning: map<string, (string, Option<Meta>)>)
    requires Read(v, events, |events|, content, calls, finish, text, reasoning)
    ensures Failed !in events
    ensures content == Emitted(v, events, |events|)
    ensures calls == Dispatched(v, events, |events|) && finish == LastFinish(events, |events|)
  {
    assert events[..|events|] == events;
  }

  datatype StreamResult =
    | Streamed(content: seq<Content>, calls: seq<ToolCall>, finish: string)
    | StreamFailed

  /**
  Reads one stream.  Every emitted text or reasoning block is the concatenation
  of the deltas for its id since its latest start, interleaved blocks included.
  */
  method ReadStream(v: Validator, events: seq<Event>) returns (r: StreamResult)
    ensures r.StreamFailed? <==> Failed in events
    ensures r.Streamed? ==>
      && r.content == Emitted(v, events, |events|)
      && r.calls == Dispatched(v, events, |events|)
      && r.finish == LastFinish(events, |events|)
  {
    hide Read, ValidateAndRepair, Emitted, Dispatched, LastFinish;
    var stepContent: seq<Content>, stepToolCalls: seq<ToolCall>, finish := [], [], FINISH_UNKNOWN;
    var activeText: map<string, string> := map[];
    var activeReasoning: map<string, (string, Option<Meta>)> := map[];
    ReadNothing(v, events);
    for i := 0 to |events|
      invariant Read(v, events, i, stepContent, stepToolCalls, finish, activeText, activeReasoning)
    {
      var part := events[i];
      if part.Failed? {
        return StreamFailed;
      }
      ReadMore(v, events, i, stepContent, stepToolCalls, finish, activeText, activeReasoning);
      ghost var content0, text0, reasoning0 := stepContent, activeText, activeReasoning;
      match part {
        case TextStart(id) =>
          activeText := activeText[id := ""];
        case TextDelta(id, delta) =>
          if id in activeText {
            activeText := activeText[id := activeText[id] + delta];
          }
        case TextEnd(id) =>
          if id in activeText {
            stepContent := stepContent + [TextContent(activeText[id])];
          }
          activeText := activeText - {id};
        case ReasoningStart(id, delta, meta) =>
          activeReasoning := activeReasoning[id := (delta, meta)];
        case ReasoningDelta(id, delta, meta) =>
          if id in activeReasoning {
            var active := activeReasoning[id];
            active := (active.0 + delta, active.1);
            if meta.Some? {
              active := (active.0, meta);
            }
            activeReasoning := activeReasoning[id := active];
          }
        case ReasoningEnd(id, meta) =>
          if id in activeReasoning {
            var active := activeReasoning[id];
            if meta.Some? {
              active := (active.0, meta);
            }
            stepContent := stepContent + [ReasoningContent(active.0, active.1)];
          }
          activeReasoning := activeReasoning - {id};
        case CallMade(call) =>
          if call.providerExecuted {
            stepContent := stepContent + [CallContent(call)];
          } else {
            var validated := ValidateAndRepair(v, call);
            stepToolCalls := stepToolCalls + [validated];
            stepContent := stepContent + [CallContent(validated)];
          }
        case ResultMade(id, name, providerExecuted) =>
          if providerExecuted {
            stepContent := stepContent + [ResultContent(ToolResult(id, name, T.NoOutput, true, false))];
          }
        case Source(url) =>
          stepContent := stepContent + [SourceContent(url)];
        case Finish(reason) =>
          finish := reason;
        case _ =>
      }
      assert stepContent == content0 + NextContent(v, text0, reasoning0, part);
      assert activeText == NextText(text0, part) && activeReasoning == NextReasoning(reasoning0, part);
    }
    ReadAll(v, events, stepContent, stepToolCalls, finish, activeText, activeReasoning);
    r := Streamed(stepContent, stepToolCalls, finish);
  }

  // ------------------------------------------------------------- what it says

  /** Unless a caller's repair function says otherwise, a validated call stays a client call. */
  lemma StaysClientCall(v: Validator, call: ToolCall)
    requires KeepsClientCalls(v)
    ensures ValidateAndRepair(v, call).providerExecuted == call.providerExecuted
  {
  }

  lemma OneResults(v: Validator, events: seq<Event>, i: nat)
    requires i < |events|
    ensures ClientResults(EmittedAt(v, events, i)) == []
  {
    hide ValidateAndRepair;
    var one := EmittedAt(v, events, i);
    if one != [] {
      assert one[..|one| - 1] == [];
    }
  }

  lemma EmittedStep(v: Validator, events: seq<Event>, n: nat)
    requires n <= |events|
    ensures Emitted(v, events, n)
         == if n == 0 then [] else Emitted(v, events, n - 1) + EmittedAt(v, events, n - 1)
    ensures ClientResults([]) == [] && ClientCalls([]) == []
  {
    hide EmittedAt;
  }

  /** The stream itself answers nothing. */
  lemma {:induction false} EmittedResults(v: Validator, events: seq<Event>, n: nat)
    requires n <= |events|
    ensures ClientResults(Emitted(v, events, n)) == []
  {
    hide *;
    EmittedStep(v, events, n);
    if n > 0 {
      EmittedResults(v, events, n - 1);
      OneResults(v, events, n - 1);
      ClientResultsConcat(Emitted(v, events, n - 1), EmittedAt(v, events, n - 1));
    }
  }

  lemma DispatchedStep(v: Validator, events: seq<Event>, n: nat)
    requires n < |events| && KeepsClientCalls(v)
    ensures IdsOf(Dispatched(v, events, n + 1))
         == IdsOf(Dispatched(v, events, n)) + ClientCalls(EmittedAt(v, events, n))
  {
    hide ClientCalls, EmittedAt, ValidateAndRepair;
    OneEmitted(v, events, n);
    var before, e := Dispatched(v, events, n), events[n];
    if e.CallMade? && !e.call.providerExecuted {
      MapAppend(IdOf, before, ValidateAndRepair(v, e.call));
    } else {
      assert before + [] == before;
    }
  }

  lemma DispatchedNone(v: Validator, events: seq<Event>)
    ensures IdsOf(Dispatched(v, events, 0)) == []
  {
  }

  /** The client calls in the content are exactly the calls to run. */
  lemma {:induction false} EmittedCalls(v: Validator, events: seq<Event>, n: nat)
    requires n <= |events| && KeepsClientCalls(v)
    ensures ClientCalls(Emitted(v, events, n)) == IdsOf(Dispatched(v, events, n))
  {
    hide Emitted, EmittedAt, ClientCalls, Dispatched;
    EmittedStep(v, events, n);
    if n == 0 {
      DispatchedNone(v, events);
    } else {
      EmittedCalls(v, events, n - 1);
      DispatchedStep(v, events, n - 1);
      ClientCallsConcat(Emitted(v, events, n - 1), EmittedAt(v, events, n - 1));
    }
  }

  lemma OneEmitted(v: Validator, events: seq<Event>, i: nat)
    requires i < |events| && KeepsClientCalls(v)
    ensures ClientCalls(EmittedAt(v, events, i))
         == if events[i].CallMade? && !events[i].call.providerExecuted then [ValidateAndRepair(v, events[i].call).id] else []
  {
    var one := EmittedAt(v, events, i);
    if one != [] {
      assert one[..|one| - 1] == [];
      if events[i].CallMade? {
        StaysClientCall(v, events[i].call);
      }
    }
  }
}
