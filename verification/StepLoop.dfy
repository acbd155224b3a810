/**
The streaming step loop: prompt the model, run the calls it makes, feed the
results back, and prompt again.
*/
module StepLoop {
  import opened Common
  import opened StepContent
  import opened StepPrompts
  import opened StepStream
  import E = ToolExecutor
  import T = Transcript

  // ----------------------------------------------------------------- the loop

  /**
  What a run depends on: the call and the preparation of its steps, what the
  model streams at each step, and how the executor's run of that step's calls ends.
  */
  datatype Run = Run(
    call: Call,
    prep: Preparation,
    validator: Validator,
    tools: E.Toolbox,
    streams: seq<seq<Event>>,
    execute: (nat, seq<ToolCall>) -> E.State,
    stopWhen: nat -> bool)

  /** Every execution is a finished run of the executor, under whatever schedule. */
  ghost predicate Executes(run: Run) {
    forall k, calls :: E.Reachable(run.tools, calls, run.execute(k, calls)) && E.Done(calls, run.execute(k, calls))
  }

  function ResultOf(e: E.Entry): Content {
    ResultContent(e.result)
  }

  function CallsAt(run: Run, k: nat): seq<ToolCall>
    requires k < |run.streams|
  {
    Dispatched(run.validator, run.streams[k], |run.streams[k]|)
  }

  function LogAt(run: Run, k: nat): seq<E.Entry>
    requires k < |run.streams|
  {
    run.execute(k, CallsAt(run, k)).log
  }

  function ContentAt(run: Run, k: nat): seq<Content>
    requires k < |run.streams|
  {
    Emitted(run.validator, run.streams[k], |run.streams[k]|) + Map(ResultOf, LogAt(run, k))
  }

  /** Step `k` fails: its stream does, or one of its tools breaks. */
  predicate FailsAt(run: Run, k: nat)
    requires k < |run.streams|
  {
    Failed in run.streams[k] || run.execute(k, CallsAt(run, k)).error.Some?
  }

  predicate StopTurn(log: seq<E.Entry>) {
    exists i :: 0 <= i < |log| && log[i].result.stopTurn
  }

  /** The model asked for tool results and nothing asks to stop. */
  predicate ContinuesAt(run: Run, k: nat)
    requires k < |run.streams|
  {
    && CallsAt(run, k) != []
    && LastFinish(run.streams[k], |run.streams[k]|) == FINISH_TOOL_CALLS
    && !StopTurn(LogAt(run, k))
    && !run.stopWhen(k)
  }

  /** The messages `k` steps have added. */
  function ResponsesTo(run: Run, k: nat): seq<T.Message> {
    if k == 0 then []
    else ResponsesTo(run, k - 1) + (if k <= |run.streams| then ResponseMessages(ContentAt(run, k - 1)) else [])
  }

  function Said(run: Run): Responses {
    (k: nat) => ResponsesTo(run, k)
  }

  /** What the model is sent at step `k`. */
  function SentAt(run: Run, k: nat): seq<T.Message>
    requires Accepted(run.call)
  {
    PromptAt(run.call, run.prep, Said(run), k)
  }

  method HasStopTurn(log: seq<E.Entry>) returns (b: bool)
    ensures b == StopTurn(log)
  {
    for i := 0 to |log|
      invariant !StopTurn(log[..i])
    {
      if log[i].result.stopTurn {
        return true;
      }
      assert log[..i + 1] == log[..i] + [log[i]];
    }
    assert log[..|log|] == log;
    return false;
  }

  /** One step: the stream, the calls it makes, and the messages both become. */
  method RunStep(run: Run, k: nat) returns (failed: bool, stepMessages: seq<T.Message>, shouldContinue: bool)
    requires k < |run.streams|
    ensures failed == FailsAt(run, k)
    ensures !failed ==> stepMessages == ResponseMessages(ContentAt(run, k))
    ensures !failed ==> (ContinuesAt(run, k) <==> shouldContinue && !run.stopWhen(k))
  {
    hide Emitted, Dispatched, LastFinish, ResponseMessages, StopTurn, Map;
    failed, stepMessages, shouldContinue := true, [], false;
    var streamed := ReadStream(run.validator, run.streams[k]);
    if streamed.StreamFailed? {
      return;
    }
    var executed := run.execute(k, streamed.calls);
    if executed.error.Some? {
      return;
    }
    failed := false;
    var stopTurn := HasStopTurn(executed.log);
    stepMessages := ToResponseMessages(streamed.content + Map(ResultOf, executed.log));
    shouldContinue := |streamed.calls| > 0 && streamed.finish == FINISH_TOOL_CALLS && !stopTurn;
  }

  datatype Outcome = Rejected | Finished | Unfinished | StepFailed

  /**
  One run.  Its prompts are exactly those of the steps it reached; it goes on
  exactly while steps continue, and ends early only when a step fails.
  */
  method Stream(run: Run) returns (prompts: seq<seq<T.Message>>, responseMessages: seq<T.Message>, outcome: Outcome)
    ensures outcome.Rejected? <==> !Accepted(run.call)
    ensures outcome.Rejected? ==> prompts == []
    ensures |prompts| <= |run.streams|
    ensures forall k :: 0 <= k < |prompts| ==> Accepted(run.call) && prompts[k] == SentAt(run, k)
    ensures forall k :: 0 <= k < |prompts| - 1 ==> !FailsAt(run, k) && ContinuesAt(run, k)
    ensures outcome.Unfinished? ==> |prompts| == |run.streams| && responseMessages == ResponsesTo(run, |prompts|)
    ensures outcome.Finished? || outcome.StepFailed? ==> |prompts| > 0
    ensures outcome.Finished? ==>
      && responseMessages == ResponsesTo(run, |prompts|)
      && !FailsAt(run, |prompts| - 1) && !ContinuesAt(run, |prompts| - 1)
    ensures outcome.StepFailed? ==> FailsAt(run, |prompts| - 1)
  {
    hide ResponsesTo, ContentAt, FailsAt, ContinuesAt, ResponseMessages, CreatePrompt, StepInput, NextInitial, OwnSystem,
         WritesThrough;
    prompts, responseMessages := [], [];
    var created := CreatePrompt(run.call.system, run.call);
    if created.InvalidArgument? {
      return prompts, responseMessages, Rejected;
    }
    var backing := Allocate(created.messages, run.prep.spare);
    var n := |created.messages|;
    SaidStep(run, 0);
    for stepNumber := 0 to |run.streams|
      invariant fresh(backing) && backing.Length == n + run.prep.spare
      invariant backing[..n] == InitialAt(run.call, run.prep, Said(run), stepNumber)
      invariant |prompts| == stepNumber
      invariant responseMessages == ResponsesTo(run, stepNumber)
      invariant forall k :: 0 <= k < stepNumber ==> prompts[k] == SentAt(run, k)
      invariant forall k :: 0 <= k < stepNumber ==> !FailsAt(run, k) && ContinuesAt(run, k)
    {
      SaidStep(run, stepNumber + 1);
      var prompt := PrepareInput(run.call, run.prep, backing, n, responseMessages, stepNumber);
      prompts := prompts + [prompt];
      var failed, stepMessages, shouldContinue := RunStep(run, stepNumber);
      if failed {
        return prompts, [], StepFailed;
      }
      responseMessages := responseMessages + stepMessages;
      if run.stopWhen(stepNumber) || !shouldContinue {
        return prompts, responseMessages, Finished;
      }
    }
    return prompts, responseMessages, Unfinished;
  }

  lemma SaidStep(run: Run, k: nat)
    requires k <= |run.streams|
    ensures ResponsesTo(run, k) == Said(run)(k)
         == if k == 0 then [] else ResponsesTo(run, k - 1) + ResponseMessages(ContentAt(run, k - 1))
  {
  }

  // ------------------------------------------------------------------ pairing

  lemma {:induction false} ResultContents(log: seq<E.Entry>)
    requires forall k :: 0 <= k < |log| ==> !log[k].result.providerExecuted
    ensures ClientResults(Map(ResultOf, log)) == Map(E.ResultId, log)
    ensures ClientCalls(Map(ResultOf, log)) == []
  {
    if log != [] {
      var front, e := log[..|log| - 1], log[|log| - 1];
      ResultContents(front);
      assert log == front + [e];
      MapAppend(ResultOf, front, e);
      MapAppend(E.ResultId, front, e);
      assert (Map(ResultOf, front) + [ResultOf(e)])[..|front|] == Map(ResultOf, front);
    }
  }

  /** The calls one step makes are exactly the calls it answers. */
  lemma ContentAnswered(run: Run, k: nat)
    requires Executes(run) && KeepsClientCalls(run.validator) && k < |run.streams|
    ensures multiset(ClientResults(ContentAt(run, k))) == multiset(ClientCalls(ContentAt(run, k)))
  {
    hide ClientCalls, ClientResults, Emitted, Dispatched, E.Reachable, E.Done;
    var events, calls, log := run.streams[k], CallsAt(run, k), LogAt(run, k);
    var spoken := Emitted(run.validator, events, |events|);
    E.AllAnswered(run.tools, calls, run.execute(k, calls));
    EmittedResults(run.validator, events, |events|);
    EmittedCalls(run.validator, events, |events|);
    ResultContents(log);
    ClientCallsConcat(spoken, Map(ResultOf, log));
    ClientResultsConcat(spoken, Map(ResultOf, log));
    assert [] + Map(E.ResultId, log) == Map(E.ResultId, log);
    assert IdsOf(calls) + [] == IdsOf(calls);
  }

  /**
  Over any number of steps, for every model, every tool schedule and every tool
  outcome, the transcript stays well paired: invalid calls and unknown tools
  are answered too.
  */
  lemma {:induction false} TranscriptPaired(run: Run, k: nat)
    requires Executes(run) && KeepsClientCalls(run.validator) && k <= |run.streams|
    requires Accepted(run.call) && Paired(run.call.messages)
    ensures Paired(PromptUnder(run.call.system, run.call) + ResponsesTo(run, k))
  {
    hide ClientCalls, ClientResults, ContentAt, ResponseMessages, Executes, T.WellPaired, CreatePrompt;
    var first := PromptUnder(run.call.system, run.call);
    if k == 0 {
      CreatePromptPaired(run.call.system, run.call);
      assert first + [] == first;
    } else {
      TranscriptPaired(run, k - 1);
      ContentAnswered(run, k - 1);
      StepPaired(first + ResponsesTo(run, k - 1), ContentAt(run, k - 1));
      assert first + ResponsesTo(run, k) == first + ResponsesTo(run, k - 1) + ResponseMessages(ContentAt(run, k - 1));
    }
  }

  /**
  Every prompt the model is sent is well paired exactly when the system prompt
  whose first message stands in it fits the call: the step's own where it sets
  one, and otherwise the one an earlier step last wrote through.  Where
  preparation replaces the messages and keeps the contract, the step's own
  system prompt decides, unless something unfitting was written through before.
  */
  lemma PromptsPaired(run: Run, k: nat)
    requires Executes(run) && KeepsClientCalls(run.validator) && k <= |run.streams|
    requires Accepted(run.call) && Paired(run.call.messages)
    ensures var prepared := run.prep.messages(k, GivenAt(run.call, run.prep, Said(run), k));
      && (prepared.None? ==>
            (Paired(SentAt(run, k)) <==> Fits(run.call, SystemAt(run.call, run.prep, Said(run), k))))
      && (prepared.Some? && PreparesPaired(run.prep) && Fits(run.call, StandingSystem(run.call, run.prep, Said(run), k)) ==>
            (Paired(SentAt(run, k)) <==> OwnFits(run.call, run.prep, prepared.value, k)))
  {
    hide Paired, Executes, Fits, CreatePrompt, InitialAt, SystemAt, OwnFits, GivenAt, PreparesPaired, StandingSystem;
    TranscriptPaired(run, k);
    var call, prep, rs := run.call, run.prep, Said(run);
    StepPromptPaired(call, prep, rs, k);
    if prep.messages(k, GivenAt(call, prep, rs, k)).Some? && PreparesPaired(prep) && Fits(call, StandingSystem(call, prep, rs, k)) {
      ReplacedPromptPaired(call, prep, rs, k);
    }
  }

  /** Without system prompts of their own, all steps are sent well-paired prompts. */
  lemma {:induction false} NothingWrittenThrough(run: Run, k: nat)
    requires Accepted(run.call)
    requires forall j :: 0 <= j < k ==> OwnSystem(run.call, run.prep, j).None?
    ensures StandingSystem(run.call, run.prep, Said(run), k) == run.call.system
    ensures Fits(run.call, StandingSystem(run.call, run.prep, Said(run), k))
  {
    hide CreatePrompt, InitialAt;
    if k > 0 {
      NothingWrittenThrough(run, k - 1);
    }
  }
}
