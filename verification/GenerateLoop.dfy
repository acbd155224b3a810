/**
The step loop without streaming: whole responses, calls run one after another,
and a tool that breaks ends the run without its results.
*/
module GenerateLoop {
  import opened Common
  import opened StepContent
  import opened StepPrompts
  import opened StepStream
  import E = ToolExecutor
  import T = Transcript

  datatype Response = Response(content: seq<Content>, finish: string)

  // ------------------------------------------------------------- one response

  predicate IsClientCall(c: Content) {
    c.CallContent? && !c.call.providerExecuted
  }

  function ClientCallsIn(v: Validator, content: seq<Content>): seq<ToolCall> {
    if content == [] then [] else
    var c := content[|content| - 1];
    ClientCallsIn(v, content[..|content| - 1]) + (if IsClientCall(c) then [ValidateAndRepair(v, c.call)] else [])
  }

  function Validated(v: Validator, c: Content): Content {
    if IsClientCall(c) then CallContent(ValidateAndRepair(v, c.call)) else c
  }

  function AllValidated(v: Validator, content: seq<Content>): seq<Content> {
    Map((c: Content) => Validated(v, c), content)
  }

  /** How the `j`-th call of a step ends. */
  type Answers = nat -> E.Ran

  function ResultAt(tools: E.Toolbox, calls: seq<ToolCall>, answers: Answers, j: nat): (ToolResult, Option<string>)
    requires j < |calls|
  {
    E.ExecuteSingleTool(tools, calls[j], answers(j))
  }

  /** Some tool breaks; the calls after it are not run and the results before it are dropped. */
  predicate Breaks(tools: E.Toolbox, calls: seq<ToolCall>, answers: Answers) {
    exists j :: 0 <= j < |calls| && ResultAt(tools, calls, answers, j).1.Some?
  }

  function Results(tools: E.Toolbox, calls: seq<ToolCall>, answers: Answers): seq<ToolResult> {
    seq(|calls|, j requires 0 <= j < |calls| => ResultAt(tools, calls, answers, j).0)
  }

  method ExecuteTools(tools: E.Toolbox, calls: seq<ToolCall>, answers: Answers)
    returns (results: seq<ToolResult>, error: Option<string>)
    ensures error.Some? <==> Breaks(tools, calls, answers)
    ensures results == if error.Some? then [] else Results(tools, calls, answers)
  {
    results := [];
    for j := 0 to |calls|
      invariant |results| == j
      invariant forall k :: 0 <= k < j ==>
        results[k] == ResultAt(tools, calls, answers, k).0 && ResultAt(tools, calls, answers, k).1.None?
    {
      var (result, critical) := E.ExecuteSingleTool(tools, calls[j], answers(j));
      results := results + [result];
      if critical.Some? {
        assert ResultAt(tools, calls, answers, j).1.Some?;
        return [], critical;
      }
    }
    error := None;
  }

  function WrapResult(r: ToolResult): Content {
    ResultContent(r)
  }

  /** The content of one step: the response with its calls validated, then the results. */
  function StepContentOf(v: Validator, tools: E.Toolbox, content: seq<Content>, answers: Answers): seq<Content> {
    var calls := ClientCallsIn(v, content);
    AllValidated(v, content) + (if Breaks(tools, calls, answers) then [] else Map(WrapResult, Results(tools, calls, answers)))
  }

  lemma ClientCallsInStep(v: Validator, content: seq<Content>, i: nat)
    requires i < |content|
    ensures ClientCallsIn(v, content[..i + 1])
         == ClientCallsIn(v, content[..i])
            + (if IsClientCall(content[i]) then [ValidateAndRepair(v, content[i].call)] else [])
    ensures AllValidated(v, content[..i + 1]) == AllValidated(v, content[..i]) + [Validated(v, content[i])]
  {
    hide ValidateAndRepair;
    assert content[..i + 1][..i] == content[..i];
  }

  lemma ClientCallsInPrefix(v: Validator, content: seq<Content>, i: nat)
    requires i <= |content|
    ensures ClientCallsIn(v, content[..i]) <= ClientCallsIn(v, content)
    decreases |content| - i
  {
    if i < |content| {
      ClientCallsInStep(v, content, i);
      ClientCallsInPrefix(v, content, i + 1);
    } else {
      assert content[..i] == content;
    }
  }

  method CollectCalls(v: Validator, content: seq<Content>) returns (calls: seq<ToolCall>)
    ensures calls == ClientCallsIn(v, content)
  {
    hide ValidateAndRepair;
    calls := [];
    for i := 0 to |content|
      invariant calls == ClientCallsIn(v, content[..i])
    {
      assert content[..i + 1][..i] == content[..i];
      if content[i].CallContent? {
        if content[i].call.providerExecuted {
          continue;
        }
        calls := calls + [ValidateAndRepair(v, content[i].call)];
      }
    }
    assert content[..|content|] == content;
  }

  /** Puts the validated calls back in the places of the original ones. */
  method ReplaceCalls(v: Validator, content: seq<Content>, calls: seq<ToolCall>) returns (r: seq<Content>)
    requires calls == ClientCallsIn(v, content)
    ensures r == AllValidated(v, content)
  {
    hide ValidateAndRepair, ClientCallsIn, AllValidated;
    r := [];
    var toolCallIndex := 0;
    NothingCollected(v);
    for i := 0 to |content|
      invariant r == AllValidated(v, content[..i])
      invariant toolCallIndex == |ClientCallsIn(v, content[..i])|
    {
      ClientCallsInStep(v, content, i);
      ClientCallsInPrefix(v, content, i + 1);
      if content[i].CallContent? {
        if content[i].call.providerExecuted {
          r := r + [content[i]];
          continue;
        }
        if toolCallIndex < |calls| {
          r := r + [CallContent(calls[toolCallIndex])];
          toolCallIndex := toolCallIndex + 1;
        }
      } else {
        r := r + [content[i]];
      }
    }
    assert content[..|content|] == content;
  }

  lemma NothingCollected(v: Validator)
    ensures ClientCallsIn(v, []) == [] && AllValidated(v, []) == []
  {
  }

  // ----------------------------------------------------------------- the loop

  datatype Run = Run(
    call: Call,
    prep: Preparation,
    validator: Validator,
    tools: E.Toolbox,
    responses: seq<Response>,
    answers: nat -> Answers,
    stopWhen: nat -> bool)

  function CallsAt(run: Run, k: nat): seq<ToolCall>
    requires k < |run.responses|
  {
    ClientCallsIn(run.validator, run.responses[k].content)
  }

  predicate BreaksAt(run: Run, k: nat)
    requires k < |run.responses|
  {
    Breaks(run.tools, CallsAt(run, k), run.answers(k))
  }

  function ContentAt(run: Run, k: nat): seq<Content>
    requires k < |run.responses|
  {
    StepContentOf(run.validator, run.tools, run.responses[k].content, run.answers(k))
  }

  predicate StopTurn(rs: seq<ToolResult>) {
    exists i :: 0 <= i < |rs| && rs[i].stopTurn
  }

  predicate ContinuesAt(run: Run, k: nat)
    requires k < |run.responses|
  {
    && !BreaksAt(run, k)
    && CallsAt(run, k) != []
    && run.responses[k].finish == FINISH_TOOL_CALLS
    && !StopTurn(Results(run.tools, CallsAt(run, k), run.answers(k)))
    && !run.stopWhen(k)
  }

  /** The messages `k` steps have added. */
  function ResponsesTo(run: Run, k: nat): seq<T.Message> {
    if k == 0 then []
    else ResponsesTo(run, k - 1) + (if k <= |run.responses| then ResponseMessages(ContentAt(run, k - 1)) else [])
  }

  function Said(run: Run): Responses {
    (k: nat) => ResponsesTo(run, k)
  }

  /** What the model is sent at step `k`. */
  function SentAt(run: Run, k: nat): seq<T.Message>
    requires Accepted(run.call)
  {
    PromptAt(run.call, run.prep, Said(run), k)
  }

  lemma SaidStep(run: Run, k: nat)
    requires k <= |run.responses|
    ensures ResponsesTo(run, k) == Said(run)(k)
         == if k == 0 then [] else ResponsesTo(run, k - 1) + ResponseMessages(ContentAt(run, k - 1))
  {
    hide StepContentOf;
  }

  method HasStopTurn(results: seq<ToolResult>) returns (b: bool)
    ensures b == StopTurn(results)
  {
    for i := 0 to |results|
      invariant !StopTurn(results[..i])
    {
      if results[i].stopTurn {
        return true;
      }
      assert results[..i + 1] == results[..i] + [results[i]];
    }
    assert results[..|results|] == results;
    return false;
  }

  /** One step: the response, its calls run in turn, and the messages both become. */
  method RunStep(run: Run, k: nat) returns (currentStepMessages: seq<T.Message>, goesOn: bool)
    requires k < |run.responses|
    ensures currentStepMessages == ResponseMessages(ContentAt(run, k))
    ensures ContinuesAt(run, k) <==> goesOn && !run.stopWhen(k)
  {
    hide ClientCallsIn, AllValidated, ResponseMessages, Map, Results, Breaks, StopTurn;
    var result := run.responses[k];
    var stepToolCalls := CollectCalls(run.validator, result.content);
    var toolResults, err := ExecuteTools(run.tools, stepToolCalls, run.answers(k));
    var stopTurnRequested := HasStopTurn(toolResults);
    var stepContent := ReplaceCalls(run.validator, result.content, stepToolCalls);
    stepContent := stepContent + Map(WrapResult, toolResults);
    MapNone();
    currentStepMessages := ToResponseMessages(stepContent);
    goesOn := !(err.Some? || stopTurnRequested || |stepToolCalls| == 0 || result.finish != FINISH_TOOL_CALLS);
  }

  datatype Outcome = Rejected | Finished | Unfinished

  /**
  One run.  A critical tool error is not reported: the run simply ends with that
  step.
  */
  method Generate(run: Run) returns (prompts: seq<seq<T.Message>>, responseMessages: seq<T.Message>, outcome: Outcome)
    ensures outcome.Rejected? <==> !Accepted(run.call)
    ensures outcome.Rejected? ==> prompts == []
    ensures |prompts| <= |run.responses|
    ensures forall k :: 0 <= k < |prompts| ==> Accepted(run.call) && prompts[k] == SentAt(run, k)
    ensures forall k :: 0 <= k < |prompts| - 1 ==> ContinuesAt(run, k)
    ensures outcome.Unfinished? ==> |prompts| == |run.responses|
    ensures outcome.Finished? ==> |prompts| > 0 && !ContinuesAt(run, |prompts| - 1)
    ensures responseMessages == ResponsesTo(run, |prompts|)
  {
    hide ResponsesTo, ContentAt, ContinuesAt, ResponseMessages, CreatePrompt, StepInput, NextInitial, OwnSystem, WritesThrough;
    prompts, responseMessages := [], [];
    SaidStep(run, 0);
    var created := CreatePrompt(run.call.system, run.call);
    if created.InvalidArgument? {
      return prompts, responseMessages, Rejected;
    }
    var backing := Allocate(created.messages, run.prep.spare);
    var n := |created.messages|;
    for step := 0 to |run.responses|
      invariant fresh(backing) && backing.Length == n + run.prep.spare
      invariant backing[..n] == InitialAt(run.call, run.prep, Said(run), step)
      invariant |prompts| == step
      invariant responseMessages == ResponsesTo(run, step)
      invariant forall k :: 0 <= k < step ==> prompts[k] == SentAt(run, k) && ContinuesAt(run, k)
    {
      SaidStep(run, step + 1);
      var prompt := PrepareInput(run.call, run.prep, backing, n, responseMessages, step);
      prompts := prompts + [prompt];
      var currentStepMessages, goesOn := RunStep(run, step);
      responseMessages := responseMessages + currentStepMessages;
      if run.stopWhen(step) || !goesOn {
        return prompts, responseMessages, Finished;
      }
    }
    return prompts, responseMessages, Unfinished;
  }

  lemma MapNone()
    ensures Map(WrapResult, []) == []
  {
  }

  // ------------------------------------------------------------------ pairing

  lemma {:induction false} ValidatedIds(v: Validator, content: seq<Content>)
    requires KeepsClientCalls(v)
    ensures ClientCalls(AllValidated(v, content)) == IdsOf(ClientCallsIn(v, content))
    ensures ClientResults(AllValidated(v, content)) == ClientResults(content)
  {
    if content != [] {
      var front, c := content[..|content| - 1], content[|content| - 1];
      ValidatedIds(v, front);
      assert AllValidated(v, content)[..|front|] == AllValidated(v, front);
      if IsClientCall(c) {
        StaysClientCall(v, c.call);
        MapAppend(IdOf, ClientCallsIn(v, front), ValidateAndRepair(v, c.call));
      } else {
        assert ClientCallsIn(v, front) + [] == ClientCallsIn(v, front);
      }
    }
  }

  lemma OneResult(r: ToolResult)
    requires !r.providerExecuted
    ensures ClientResults([WrapResult(r)]) == [r.id] && ClientCalls([WrapResult(r)]) == []
  {
    assert [WrapResult(r)][..0] == [];
  }

  lemma {:induction false} WrappedIds(rs: seq<ToolResult>, calls: seq<ToolCall>)
    requires |rs| == |calls|
    requires forall j :: 0 <= j < |rs| ==> rs[j].id == calls[j].id && !rs[j].providerExecuted
    ensures ClientResults(Map(WrapResult, rs)) == IdsOf(calls) && ClientCalls(Map(WrapResult, rs)) == []
  {
    if rs != [] {
      var n := |rs| - 1;
      WrappedIds(rs[..n], calls[..n]);
      assert rs == rs[..n] + [rs[n]];
      MapAppend(WrapResult, rs[..n], rs[n]);
      ClientResultsConcat(Map(WrapResult, rs[..n]), [WrapResult(rs[n])]);
      ClientCallsConcat(Map(WrapResult, rs[..n]), [WrapResult(rs[n])]);
      OneResult(rs[n]);
      MapAppend(IdOf, calls[..n], calls[n]);
      assert calls == calls[..n] + [calls[n]];
    }
  }

  lemma CancelPrefix(stray: seq<Id>, ids: seq<Id>)
    ensures multiset(stray + ids) == multiset(ids) <==> stray == []
  {
    assert multiset(stray + ids) == multiset(stray) + multiset(ids);
    if stray == [] {
      assert stray + ids == ids;
    } else {
      assert |multiset(stray + ids)| == |stray| + |ids|;
      assert |multiset(ids)| == |ids|;
    }
  }

  /**
  A step answers its calls: no tool breaks and the response brings no client
  result of its own, or one does and what the response brings happens to answer them.
  */
  ghost predicate AnswersAt(run: Run, k: nat)
    requires k < |run.responses|
  {
    var stray := ClientResults(run.responses[k].content);
    if BreaksAt(run, k) then multiset(stray) == multiset(IdsOf(CallsAt(run, k))) else stray == []
  }

  /** The calls and results of one step. */
  lemma StepIds(run: Run, k: nat)
    requires k < |run.responses| && KeepsClientCalls(run.validator)
    ensures ClientCalls(ContentAt(run, k)) == IdsOf(CallsAt(run, k))
    ensures ClientResults(ContentAt(run, k))
         == ClientResults(run.responses[k].content) + (if BreaksAt(run, k) then [] else IdsOf(CallsAt(run, k)))
  {
    hide ClientCalls, ClientResults, ClientCallsIn, AllValidated, Breaks;
    var v, content, calls := run.validator, run.responses[k].content, CallsAt(run, k);
    ValidatedIds(v, content);
    var spoken := AllValidated(v, content);
    if BreaksAt(run, k) {
      MapNone();
      NoContent();
      assert spoken + [] == spoken;
      assert ClientResults(content) + [] == ClientResults(content);
    } else {
      var rs := Results(run.tools, calls, run.answers(k));
      NotBroken(run.tools, calls, run.answers(k));
      WrappedIds(rs, calls);
      ClientCallsConcat(spoken, Map(WrapResult, rs));
      ClientResultsConcat(spoken, Map(WrapResult, rs));
      assert IdsOf(calls) + [] == IdsOf(calls);
    }
  }

  lemma NoContent()
    ensures ClientCalls([]) == [] && ClientResults([]) == []
  {
  }

  lemma NotBroken(tools: E.Toolbox, calls: seq<ToolCall>, answers: Answers)
    ensures forall j :: 0 <= j < |calls| ==>
      Results(tools, calls, answers)[j].id == calls[j].id && !Results(tools, calls, answers)[j].providerExecuted
  {
  }

  /** One step keeps the transcript well paired exactly when it answers its calls. */
  lemma StepPairedIff(run: Run, base: seq<T.Message>, k: nat)
    requires k < |run.responses| && KeepsClientCalls(run.validator) && Paired(base)
    ensures Paired(base + ResponseMessages(ContentAt(run, k))) <==> AnswersAt(run, k)
  {
    hide ClientCalls, ClientResults, CallsAt, ContentAt, T.WellPaired, ResponseMessages, BreaksAt, IdsOf;
    StepPaired(base, ContentAt(run, k));
    StepIds(run, k);
    var stray, ids := ClientResults(run.responses[k].content), IdsOf(CallsAt(run, k));
    CancelPrefix(stray, ids);
    assert stray + [] == stray;
  }

  /** The transcript after `n` steps: the prompt and what they added. */
  function TranscriptAt(run: Run, n: nat): seq<T.Message>
    requires Accepted(run.call)
  {
    PromptUnder(run.call.system, run.call) + ResponsesTo(run, n)
  }

  lemma TranscriptStep(run: Run, n: nat)
    requires Accepted(run.call) && n < |run.responses|
    ensures TranscriptAt(run, n + 1) == TranscriptAt(run, n) + ResponseMessages(ContentAt(run, n))
  {
    hide CreatePrompt, ResponseMessages, ContentAt;
    assert ResponsesTo(run, n + 1) == ResponsesTo(run, n) + ResponseMessages(ContentAt(run, n));
  }

  /** A step that went on although its results do not answer its calls can never be made good. */
  lemma StrayBreaks(run: Run, base: seq<T.Message>, k: nat)
    requires k < |run.responses| && KeepsClientCalls(run.validator) && Paired(base)
    requires ContinuesAt(run, k) && !AnswersAt(run, k)
    ensures !T.OpenPaired(T.ClientCalls, base + ResponseMessages(ContentAt(run, k)))
  {
    hide ClientCalls, ClientResults, CallsAt, ContentAt, ResponseMessages, BreaksAt, IdsOf, T.OpenPaired, T.Pending;
    StepIds(run, k);
    StepPairedIff(run, base, k);
    AnswersEndOpen(base, ContentAt(run, k));
  }

  /** A step whose content holds a client result ends in a tool turn, which leaves nothing open. */
  lemma AnswersEndOpen(base: seq<T.Message>, content: seq<Content>)
    requires ClientResults(content) != []
    ensures T.Pending(T.ClientCalls, base + ResponseMessages(content)) == []
  {
    hide ClientResults, AssistantParts, ToolParts;
    ToolResultIds(content);
    NoResultIds();
    assert ToolParts(content) != [];
    var msgs := base + ResponseMessages(content);
    assert msgs[|msgs| - 1] == T.Message(T.Tool, ToolParts(content), None);
  }

  lemma NoResultIds()
    ensures T.ResultIds([]) == []
  {
  }

  /**
  The transcript a run has gathered is well paired exactly when each of its
  steps answered its calls: the steps before the last one when their responses
  brought no client result, and the last one also when a tool broke and the
  response's own results answer its calls.
  */
  lemma {:induction false} GenerateResultPaired(run: Run, n: nat)
    requires n <= |run.responses| && KeepsClientCalls(run.validator)
    requires Accepted(run.call) && Paired(run.call.messages)
    requires forall k :: 0 <= k < n - 1 ==> ContinuesAt(run, k)
    ensures Paired(TranscriptAt(run, n)) <==> forall k :: 0 <= k < n ==> AnswersAt(run, k)
  {
    hide ContentAt, ResponseMessages, T.OpenPaired, ResponsesTo, TranscriptAt, AnswersAt, ContinuesAt, CreatePrompt;
    if n == 0 {
      NothingSaid(run);
      CreatePromptPaired(run.call.system, run.call);
    } else {
      GenerateResultPaired(run, n - 1);
      TranscriptStep(run, n - 1);
      if Paired(TranscriptAt(run, n - 1)) {
        StepPairedIff(run, TranscriptAt(run, n - 1), n - 1);
      } else {
        BrokenStays(run, n - 1, n);
      }
    }
  }

  lemma NothingSaid(run: Run)
    requires Accepted(run.call)
    ensures TranscriptAt(run, 0) == PromptUnder(run.call.system, run.call)
  {
  }

  /** Once a step that goes on has left the transcript unpaired, it stays so. */
  lemma {:induction false} BrokenStays(run: Run, n: nat, m: nat)
    requires n <= m <= |run.responses| && KeepsClientCalls(run.validator)
    requires Accepted(run.call) && Paired(run.call.messages)
    requires forall k :: 0 <= k < n ==> ContinuesAt(run, k)
    requires !Paired(TranscriptAt(run, n))
    ensures !T.OpenPaired(T.ClientCalls, TranscriptAt(run, m))
    decreases n, m
  {
    hide ContentAt, ResponseMessages, T.OpenPaired, ResponsesTo, TranscriptAt, AnswersAt, ContinuesAt, CreatePrompt;
    if m > n {
      BrokenStays(run, n, m - 1);
      TranscriptStep(run, m - 1);
      var all, front := TranscriptAt(run, m), TranscriptAt(run, m - 1);
      assert all[..|front|] == front;
      if T.OpenPaired(T.ClientCalls, all) {
        T.PrefixOpenPaired(T.ClientCalls, all, |front|);
      }
    } else if n == 0 {
      NothingSaid(run);
      CreatePromptPaired(run.call.system, run.call);
    } else if Paired(TranscriptAt(run, n - 1)) {
      TranscriptStep(run, n - 1);
      StepPairedIff(run, TranscriptAt(run, n - 1), n - 1);
      StrayBreaks(run, TranscriptAt(run, n - 1), n - 1);
    } else {
      BrokenStays(run, n - 1, n);
    }
  }

  /**
  Where no response brings a client result, every prompt sent is well paired
  exactly when the system prompt that stands in it fits the call, or the step's
  own where preparation replaces the messages: a broken tool leaves calls
  unanswered, but no prompt follows it.
  */
  lemma GeneratePromptsPaired(run: Run, n: nat)
    requires n <= |run.responses| && KeepsClientCalls(run.validator)
    requires Accepted(run.call) && Paired(run.call.messages)
    requires forall k :: 0 <= k < n ==> ContinuesAt(run, k) && ClientResults(run.responses[k].content) == []
    ensures var prepared := run.prep.messages(n, GivenAt(run.call, run.prep, Said(run), n));
      && (prepared.None? ==>
            (Paired(SentAt(run, n)) <==> Fits(run.call, SystemAt(run.call, run.prep, Said(run), n))))
      && (prepared.Some? && PreparesPaired(run.prep) && Fits(run.call, StandingSystem(run.call, run.prep, Said(run), n)) ==>
            (Paired(SentAt(run, n)) <==> OwnFits(run.call, run.prep, prepared.value, n)))
  {
    hide Paired, Fits, CreatePrompt, InitialAt, SystemAt, ClientResults, ResponsesTo, OwnFits, GivenAt, PreparesPaired,
         StandingSystem;
    forall k | 0 <= k < n ensures AnswersAt(run, k) {
      assert ContinuesAt(run, k);
    }
    GenerateResultPaired(run, n);
    var call, prep, rs := run.call, run.prep, Said(run);
    assert TranscriptAt(run, n) == PromptUnder(call.system, call) + rs(n);
    StepPromptPaired(call, prep, rs, n);
    if prep.messages(n, GivenAt(call, prep, rs, n)).Some? && PreparesPaired(prep) && Fits(call, StandingSystem(call, prep, rs, n)) {
      ReplacedPromptPaired(call, prep, rs, n);
    }
  }

  // ------------------------------------------------------- where it goes wrong

  const ACCEPT_ALL := Validator((call: ToolCall) => Some(call.input), call => "", call => None, call => None)

  const READ := ToolCall(T.Id("c1"), "read", "{}", false, None)

  /** A run of one step with a tool that ends as `ran`. */
  function OneStep(content: seq<Content>, ran: E.Ran): Run {
    Run(Call("", "hi", [], []), Preparation(0, (k, msgs) => None, k => None), ACCEPT_ALL, E.Toolbox(name => true, name => false),
        [Response(content, FINISH_TOOL_CALLS)], k => j => ran, k => false)
  }

  lemma OneStepIds(content: Content, ran: E.Ran)
    ensures var run := OneStep([content], ran);
            && CallsAt(run, 0) == (if IsClientCall(content) then [ValidateAndRepair(ACCEPT_ALL, content.call)] else [])
            && ClientResults(run.responses[0].content)
               == (if content.ResultContent? && !content.result.providerExecuted then [content.result.id] else [])
            && Accepted(run.call) && Paired(run.call.messages) && KeepsClientCalls(run.validator)
  {
    hide ValidateAndRepair;
    assert [content][..0] == [];
    NothingCollected(ACCEPT_ALL);
    NoContent();
  }

  /** A run whose tool breaks: the call is left unanswered in what it returns. */
  lemma BrokenToolUnanswered()
    ensures var run := OneStep([CallContent(READ)], E.Broke("boom", false));
            BreaksAt(run, 0) && !Paired(TranscriptAt(run, 1))
  {
    hide TranscriptAt, Paired, CreatePrompt;
    var run := OneStep([CallContent(READ)], E.Broke("boom", false));
    OneStepIds(CallContent(READ), E.Broke("boom", false));
    assert CallsAt(run, 0) == [READ];
    assert ResultAt(run.tools, CallsAt(run, 0), run.answers(0), 0).1.Some?;
    assert |IdsOf([READ])| == 1 && |multiset(IdsOf([READ]))| == 1;
    assert !AnswersAt(run, 0);
    GenerateResultPaired(run, 1);
  }

  /** A response that brings a client result: nothing asked for it. */
  lemma StrayResultUnpaired()
    ensures var stray := ToolResult(T.Id("c9"), "read", T.TextOutput("text"), false, false);
            var run := OneStep([ResultContent(stray)], E.Broke("boom", false));
            !BreaksAt(run, 0) && !Paired(TranscriptAt(run, 1))
  {
    hide TranscriptAt, Paired, CreatePrompt;
    var stray := ToolResult(T.Id("c9"), "read", T.TextOutput("text"), false, false);
    var run := OneStep([ResultContent(stray)], E.Broke("boom", false));
    OneStepIds(ResultContent(stray), E.Broke("boom", false));
    assert CallsAt(run, 0) == [];
    assert !AnswersAt(run, 0);
    GenerateResultPaired(run, 1);
  }
}
