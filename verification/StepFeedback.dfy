/**
What the step loops tell the model and when they go on, told from the events,
the responses and the recorded results themselves.
*/
module StepFeedback {
  import opened Common
  import opened StepContent
  import opened StepStream
  import SP = StepPrompts
  import L = StepLoop
  import G = GenerateLoop
  import E = ToolExecutor
  import T = Transcript

  // ------------------------------------------------------------- first prompt

  /**
  A call is accepted exactly when it has a prompt, or has no files and its last
  message is one the model answers.  Its prompt is the system turn if there is
  a system prompt, then the given messages, then the user's text and files.
  */
  lemma CreatePromptSays(system: string, call: SP.Call)
    ensures SP.Accepted(call) <==>
              call.prompt != ""
              || (call.files == [] && call.messages != [] && call.messages[|call.messages| - 1].role in {T.User, T.Tool})
    ensures SP.Accepted(call) ==>
              var p, n, m := SP.PromptUnder(system, call), |call.messages|, if system == "" then 0 else 1;
              && |p| == m + n + (if call.prompt == "" then 0 else 1)
              && (system != "" ==> p[0].role.System? && p[0].parts == [T.Text(system)])
              && p[m..m + n] == call.messages
              && (call.prompt != "" ==> p[m + n].role.User? && p[m + n].parts == [T.Text(call.prompt)] + call.files)
  {
  }

  // ------------------------------------------------------------ open blocks

  /** Event `k` starts text block `id`, and neither starts it again nor ends it before event `n`. */
  predicate StartsText(events: seq<Event>, k: nat, n: nat, id: string)
    requires n <= |events|
  {
    && k < n && events[k] == TextStart(id)
    && forall j :: k < j < n ==> events[j] != TextStart(id) && events[j] != TextEnd(id)
  }

  lemma {:induction false} OpenTextIs(events: seq<Event>, n: nat, id: string)
    requires n <= |events|
    ensures match OpenText(events, n, id)
            case Some(k) => StartsText(events, k, n, id)
            case None => forall k :: 0 <= k < n ==> !StartsText(events, k, n, id)
  {
    if n > 0 {
      OpenTextIs(events, n - 1, id);
      if events[n - 1] != TextStart(id) && events[n - 1] != TextEnd(id) {
        forall k | 0 <= k < n ensures StartsText(events, k, n, id) <==> k < n - 1 && StartsText(events, k, n - 1, id) {}
      }
    }
  }

  predicate StartsReasoning(events: seq<Event>, k: nat, n: nat, id: string)
    requires n <= |events|
  {
    && k < n && events[k].ReasoningStart? && events[k].id == id
    && forall j :: k < j < n && (events[j].ReasoningStart? || events[j].ReasoningEnd?) ==> events[j].id != id
  }

  lemma {:induction false} OpenReasoningIs(events: seq<Event>, n: nat, id: string)
    requires n <= |events|
    ensures match OpenReasoning(events, n, id)
            case Some(k) => StartsReasoning(events, k, n, id)
            case None => forall k :: 0 <= k < n ==> !StartsReasoning(events, k, n, id)
  {
    if n > 0 {
      OpenReasoningIs(events, n - 1, id);
      if !((events[n - 1].ReasoningStart? || events[n - 1].ReasoningEnd?) && events[n - 1].id == id) {
        forall k | 0 <= k < n
          ensures StartsReasoning(events, k, n, id) <==> k < n - 1 && StartsReasoning(events, k, n - 1, id) {}
      }
    }
  }

  /** The text of a block is its deltas, each once and in order, and nothing else. */
  lemma {:induction false} TextReads(events: seq<Event>, k: nat, m: nat, n: nat, id: string)
    requires k <= m < n <= |events|
    ensures TextSince(events, k, n, id)
         == TextSince(events, k, m, id)
            + (if events[m].TextDelta? && events[m].id == id then events[m].delta else "")
            + TextSince(events, m + 1, n, id)
    ensures TextSince(events, n, n, id) == ""
    decreases n
  {
    if m < n - 1 {
      TextReads(events, k, m, n - 1, id);
    }
  }

  lemma {:induction false} ReasoningReads(events: seq<Event>, k: nat, m: nat, n: nat, id: string)
    requires k <= m < n <= |events|
    ensures ReasoningSince(events, k, n, id)
         == ReasoningSince(events, k, m, id)
            + (if events[m].ReasoningDelta? && events[m].id == id then events[m].delta else "")
            + ReasoningSince(events, m + 1, n, id)
    ensures ReasoningSince(events, n, n, id) == ""
    decreases n
  {
    if m < n - 1 {
      ReasoningReads(events, k, m, n - 1, id);
    }
  }

  /** Event `j` brings metadata for reasoning block `id`. */
  predicate BringsMeta(e: Event, id: string) {
    e.ReasoningDelta? && e.id == id && e.meta.Some?
  }

  /** The metadata of a block is the latest a delta brought, or what its start carried. */
  lemma {:induction false} MetaIsLatest(events: seq<Event>, first: Option<Meta>, k: nat, n: nat, id: string)
    requires k <= n <= |events|
    ensures if exists j :: k <= j < n && BringsMeta(events[j], id) then
              exists j :: k <= j < n && BringsMeta(events[j], id) && MetaSince(events, first, k, n, id) == events[j].meta
                          && forall i :: j < i < n ==> !BringsMeta(events[i], id)
            else MetaSince(events, first, k, n, id) == first
    decreases n
  {
    if k < n {
      if BringsMeta(events[n - 1], id) {
        assert MetaSince(events, first, k, n, id) == events[n - 1].meta;
      } else {
        MetaIsLatest(events, first, k, n - 1, id);
        if j :| k <= j < n && BringsMeta(events[j], id) {
          assert k <= j < n - 1;
        }
      }
    }
  }

  /**
  What one event adds to the content.  The end of a block adds what has been
  said in it since its latest start, if it is open; a call, a source and a
  result the provider gives are added as they come, a client's call after it
  has been checked; nothing else adds anything.
  */
  lemma EmittedIs(v: Validator, events: seq<Event>, i: nat, k: nat)
    requires i < |events|
    ensures var e, r := events[i], EmittedAt(v, events, i);
            && |r| <= 1
            && (e.TextEnd? && StartsText(events, k, i, e.id) ==> r == [TextContent(TextSince(events, k + 1, i, e.id))])
            && (e.ReasoningEnd? && StartsReasoning(events, k, i, e.id) ==>
                  r == [ReasoningContent(events[k].delta + ReasoningSince(events, k + 1, i, e.id),
                                         if e.meta.Some? then e.meta else MetaSince(events, events[k].meta, k + 1, i, e.id))])
            && (e.CallMade? ==> r == [CallContent(if e.call.providerExecuted then e.call else ValidateAndRepair(v, e.call))])
            && (e.ResultMade? && e.providerExecuted ==>
                  && |r| == 1 && r[0].ResultContent? && r[0].result.id == e.callId
                  && r[0].result.name == e.name && r[0].result.providerExecuted)
            && (e.Source? ==> r == [SourceContent(e.url)])
            && (r != [] ==> e.TextEnd? || e.ReasoningEnd? || e.CallMade? || e.Source? || (e.ResultMade? && e.providerExecuted))
  {
    hide ValidateAndRepair, TextSince, ReasoningSince, MetaSince, OpenText, OpenReasoning;
    var e := events[i];
    if e.TextEnd? {
      OpenTextIs(events, i, e.id);
      if StartsText(events, k, i, e.id) {
        OneTextStart(events, i, e.id, k, OpenText(events, i, e.id));
      }
    } else if e.ReasoningEnd? {
      OpenReasoningIs(events, i, e.id);
      if StartsReasoning(events, k, i, e.id) {
        OneReasoningStart(events, i, e.id, k, OpenReasoning(events, i, e.id));
      }
    }
  }

  lemma OneTextStart(events: seq<Event>, n: nat, id: string, k: nat, open: Option<nat>)
    requires n <= |events| && StartsText(events, k, n, id)
    requires match open case Some(j) => StartsText(events, j, n, id)
                        case None => forall j :: 0 <= j < n ==> !StartsText(events, j, n, id)
    ensures open == Some(k)
  {
  }

  lemma OneReasoningStart(events: seq<Event>, n: nat, id: string, k: nat, open: Option<nat>)
    requires n <= |events| && StartsReasoning(events, k, n, id)
    requires match open case Some(j) => StartsReasoning(events, j, n, id)
                        case None => forall j :: 0 <= j < n ==> !StartsReasoning(events, j, n, id)
    ensures open == Some(k)
  {
  }

  // ---------------------------------------------------------------- going on

  /** Event `i` is the last finish event of the first `n`. */
  predicate FinishesAt(events: seq<Event>, n: nat, i: int, reason: string) {
    && 0 <= i < n <= |events| && events[i] == Finish(reason)
    && forall j :: i < j < n ==> !events[j].Finish?
  }

  /** One of the first `n` events is a finish event, the last of them for `reason`; or none is. */
  ghost predicate Finishes(events: seq<Event>, n: nat, reason: string) {
    || (exists i :: FinishesAt(events, n, i, reason))
    || (reason == "unknown" && n <= |events| && forall i :: 0 <= i < n ==> !events[i].Finish?)
  }

  lemma FinishStep(events: seq<Event>, m: nat, reason: string)
    requires m < |events|
    requires if events[m].Finish? then reason == events[m].reason else Finishes(events, m, reason)
    ensures Finishes(events, m + 1, reason)
  {
    var n := m + 1;
    if events[m].Finish? {
      assert FinishesAt(events, n, m, reason);
    } else if i :| FinishesAt(events, m, i, reason) {
      assert FinishesAt(events, n, i, reason);
    }
  }

  lemma {:induction false} FinishIs(events: seq<Event>, n: nat)
    requires n <= |events|
    ensures Finishes(events, n, LastFinish(events, n))
  {
    hide FinishesAt;
    if n > 0 {
      var m := n - 1;
      if !events[m].Finish? {
        FinishIs(events, m);
      }
      FinishStep(events, m, LastFinish(events, n));
    }
  }

  predicate MakesClientCall(e: Event) {
    e.CallMade? && !e.call.providerExecuted
  }

  lemma {:induction false} DispatchedSome(v: Validator, events: seq<Event>, n: nat)
    requires n <= |events|
    ensures Dispatched(v, events, n) != [] <==> exists i :: 0 <= i < n && MakesClientCall(events[i])
  {
    hide ValidateAndRepair;
    if n > 0 {
      DispatchedSome(v, events, n - 1);
    }
  }

  /**
  Exactly when a streamed step goes on: the model made a call for the client to
  run and last said it stopped for tool calls, no recorded result ends the turn,
  and the caller does not stop the run.
  */
  lemma ContinuesIff(run: L.Run, k: nat)
    requires k < |run.streams|
    ensures var events := run.streams[k];
            L.ContinuesAt(run, k) <==>
              && (exists i :: 0 <= i < |events| && MakesClientCall(events[i]))
              && (exists i :: FinishesAt(events, |events|, i, "tool-calls"))
              && (forall j :: 0 <= j < |L.LogAt(run, k)| ==> !L.LogAt(run, k)[j].result.stopTurn)
              && !run.stopWhen(k)
  {
    hide Dispatched, LastFinish;
    var events := run.streams[k];
    DispatchedSome(run.validator, events, |events|);
    FinishIs(events, |events|);
    if i :| FinishesAt(events, |events|, i, "tool-calls") {
      var reason := LastFinish(events, |events|);
      if j :| FinishesAt(events, |events|, j, reason) {
        assert i == j;
      }
    }
  }

  // ------------------------------------------------------------- feeding back

  lemma {:induction false} ItemsConcat(a: seq<Content>, b: seq<Content>, answers: bool)
    ensures Items(a + b, answers) == Items(a, answers) + Items(b, answers)
    decreases |b|
  {
    if b == [] {
      assert a + b == a;
    } else {
      assert (a + b)[..|a + b| - 1] == a + b[..|b| - 1];
      ItemsConcat(a, b[..|b| - 1], answers);
    }
  }

  lemma OneAnswersNothing(v: Validator, events: seq<Event>, i: nat)
    requires i < |events|
    ensures Items(EmittedAt(v, events, i), true) == []
  {
    hide ValidateAndRepair, TextSince, OpenText, OpenReasoning, ReasoningBlock;
    var one := EmittedAt(v, events, i);
    assert |one| <= 1;
    if one != [] {
      assert one[..0] == [];
    }
  }

  lemma {:induction false} StreamAnswersNothing(v: Validator, events: seq<Event>, n: nat)
    requires n <= |events|
    ensures Items(Emitted(v, events, n), true) == []
  {
    hide EmittedAt, Items;
    if n == 0 {
      NoItems();
    } else {
      StreamAnswersNothing(v, events, n - 1);
      OneAnswersNothing(v, events, n - 1);
      ItemsConcat(Emitted(v, events, n - 1), EmittedAt(v, events, n - 1), true);
    }
  }

  lemma NoItems()
    ensures forall answers :: Items([], answers) == []
  {
  }

  lemma {:induction false} ResultsAreAnswers(log: seq<E.Entry>)
    requires forall j :: 0 <= j < |log| ==> !log[j].result.providerExecuted
    ensures Items(Map(L.ResultOf, log), true) == Map(L.ResultOf, log) && Items(Map(L.ResultOf, log), false) == []
  {
    if log != [] {
      var front, e := log[..|log| - 1], log[|log| - 1];
      ResultsAreAnswers(front);
      assert log == front + [e];
      MapAppend(L.ResultOf, front, e);
      var all := Map(L.ResultOf, log);
      assert all[..|all| - 1] == Map(L.ResultOf, front);
    }
  }

  /**
  What a streamed step tells the model about its calls: the tool turn, if there
  is anything to tell, carries every recorded result, once each and in the order
  of recording, and each is a result of one of the calls the step made, saying
  what became of it.  The assistant turn carries what the stream said, and
  nothing of the results.
  */
  lemma StepFeedsBack(run: L.Run, k: nat)
    requires L.Executes(run) && k < |run.streams|
    ensures var log, calls := L.LogAt(run, k), L.CallsAt(run, k);
            var events := run.streams[k];
            var ms := ResponseMessages(L.ContentAt(run, k));
            var spoken := Items(Emitted(run.validator, events, |events|), false);
            && |ms| == (if spoken != [] then 1 else 0) + (if log != [] then 1 else 0)
            && (spoken != [] ==> ms[0].role.Assistant? && CarriesAll(spoken, ms[0].parts))
            && (log != [] ==> ms[|ms| - 1].role.Tool? && CarriesAll(Map(L.ResultOf, log), ms[|ms| - 1].parts))
            && forall j :: 0 <= j < |log| ==>
                 log[j].i < |calls| && log[j].result.id == calls[log[j].i].id && SaysOutcome(run.tools, calls[log[j].i], log[j].result)
  {
    hide Items, Emitted, Dispatched, CarriesAll, ResponseMessages, E.Reachable, E.Done, E.ExecuteSingleTool, SaysOutcome;
    var log, calls, events := L.LogAt(run, k), L.CallsAt(run, k), run.streams[k];
    var said := Emitted(run.validator, events, |events|);
    E.ReachableInv(run.tools, calls, run.execute(k, calls));
    E.AllAnswered(run.tools, calls, run.execute(k, calls));
    ResultsAreAnswers(log);
    StreamAnswersNothing(run.validator, events, |events|);
    ItemsConcat(said, Map(L.ResultOf, log), true);
    ItemsConcat(said, Map(L.ResultOf, log), false);
    assert [] + Map(L.ResultOf, log) == Map(L.ResultOf, log);
    assert Items(said, false) + [] == Items(said, false);
    ResponseCarries(L.ContentAt(run, k));
    forall j | 0 <= j < |log|
      ensures log[j].i < |calls| && log[j].result.id == calls[log[j].i].id
      ensures SaysOutcome(run.tools, calls[log[j].i], log[j].result)
    {
      EntrySays(run.tools, calls, run.execute(k, calls), j);
    }
  }

  /** Some way the tool can have ended is what the result reports. */
  ghost predicate SaysOutcome(tools: E.Toolbox, call: ToolCall, r: ToolResult) {
    exists ran :: E.Reports(tools, call, ran, r)
  }

  lemma EntrySays(tools: E.Toolbox, calls: seq<ToolCall>, s: E.State, j: nat)
    requires E.Entries(tools, calls, s) && j < |s.log|
    ensures s.log[j].i < |calls| && s.log[j].result.id == calls[s.log[j].i].id
    ensures SaysOutcome(tools, calls[s.log[j].i], s.log[j].result)
  {
    assert E.IsResult(tools, calls, s.log[j]);
    var ran :| s.log[j] == E.EntryOf(tools, calls, s.log[j].i, ran);
    assert E.Reports(tools, calls[s.log[j].i], ran, s.log[j].result);
  }

  // --------------------------------------------------------- without streaming

  /** A response is kept item by item; only a client's call is checked, in its place. */
  lemma ResponseKept(v: Validator, content: seq<Content>)
    ensures |G.AllValidated(v, content)| == |content|
    ensures forall i :: 0 <= i < |content| ==>
              G.AllValidated(v, content)[i]
                == if content[i].CallContent? && !content[i].call.providerExecuted
                   then CallContent(ValidateAndRepair(v, content[i].call)) else content[i]
  {
    hide ValidateAndRepair;
  }

  /** The calls to run are the client's calls of the response, checked, in order. */
  lemma {:induction false} CallsRead(v: Validator, a: seq<Content>, c: Content, b: seq<Content>)
    ensures G.ClientCallsIn(v, a + [c] + b)
         == G.ClientCallsIn(v, a)
            + (if c.CallContent? && !c.call.providerExecuted then [ValidateAndRepair(v, c.call)] else [])
            + G.ClientCallsIn(v, b)
    ensures G.ClientCallsIn(v, []) == []
    decreases |b|
  {
    hide ValidateAndRepair;
    var all := a + [c] + b;
    if b == [] {
      assert all[..|all| - 1] == a && all[|all| - 1] == c;
    } else {
      assert all[..|all| - 1] == a + [c] + b[..|b| - 1] && all[|all| - 1] == b[|b| - 1];
      CallsRead(v, a, c, b[..|b| - 1]);
    }
  }

  /**
  The content of a step without streaming: the response, then, unless a tool
  broke, the result of every call in the order of the calls, each saying how its
  own tool ended.
  */
  lemma GenerateFeedsBack(run: G.Run, k: nat)
    requires k < |run.responses|
    ensures var content, calls := G.ContentAt(run, k), G.CallsAt(run, k);
            var n := |run.responses[k].content|;
            && |content| == n + (if G.BreaksAt(run, k) then 0 else |calls|)
            && content[..n] == G.AllValidated(run.validator, run.responses[k].content)
            && (G.BreaksAt(run, k) <==> exists j :: 0 <= j < |calls| && RanAndBroke(run.tools, calls[j], run.answers(k)(j)))
            && forall j :: 0 <= j < |content| - n ==>
                 && content[n + j].ResultContent? && content[n + j].result.id == calls[j].id
                 && E.Reports(run.tools, calls[j], run.answers(k)(j), content[n + j].result)
  {
    hide G.ClientCallsIn, E.Reports, G.AllValidated;
    var calls, content := G.CallsAt(run, k), G.ContentAt(run, k);
    var n := |run.responses[k].content|;
    ResponseKept(run.validator, run.responses[k].content);
    forall j | 0 <= j < |calls|
      ensures G.ResultAt(run.tools, calls, run.answers(k), j).1.Some? <==> RanAndBroke(run.tools, calls[j], run.answers(k)(j))
    {
    }
    forall j | 0 <= j < |content| - n
      ensures content[n + j] == ResultContent(E.ExecuteSingleTool(run.tools, calls[j], run.answers(k)(j)).0)
    {
      var results := G.Results(run.tools, calls, run.answers(k));
      assert content[n + j] == Map(G.WrapResult, results)[j];
      assert Map(G.WrapResult, results)[j] == G.WrapResult(results[j]);
    }
  }

  /** A valid call of a known tool whose tool broke. */
  predicate RanAndBroke(tools: E.Toolbox, call: ToolCall, ran: E.Ran) {
    call.invalid.None? && tools.known(call.name) && ran.Broke?
  }

  /** Exactly when a step without streaming goes on. */
  lemma GenerateContinuesIff(run: G.Run, k: nat)
    requires k < |run.responses|
    ensures var content, calls := run.responses[k].content, G.CallsAt(run, k);
            G.ContinuesAt(run, k) <==>
              && calls != []
              && run.responses[k].finish == "tool-calls"
              && (forall j :: 0 <= j < |calls| ==>
                    && !RanAndBroke(run.tools, calls[j], run.answers(k)(j))
                    && !EndsTurn(run.tools, calls[j], run.answers(k)(j)))
              && !run.stopWhen(k)
  {
    hide G.ClientCallsIn;
    var calls := G.CallsAt(run, k);
    forall j | 0 <= j < |calls|
      ensures G.ResultAt(run.tools, calls, run.answers(k), j).1.Some? <==> RanAndBroke(run.tools, calls[j], run.answers(k)(j))
      ensures G.Results(run.tools, calls, run.answers(k))[j].stopTurn <==>
                EndsTurn(run.tools, calls[j], run.answers(k)(j))
                || (RanAndBroke(run.tools, calls[j], run.answers(k)(j)) && run.answers(k)(j).stopTurn)
    {
    }
  }

  /** A valid call of a known tool that answered and asks for the turn to end. */
  predicate EndsTurn(tools: E.Toolbox, call: ToolCall, ran: E.Ran) {
    call.invalid.None? && tools.known(call.name) && ran.Answered? && ran.response.stopTurn
  }

  /** A streamed step fails exactly when its stream does or a recorded result came from a tool that broke. */
  lemma FailsIff(run: L.Run, k: nat)
    requires L.Executes(run) && k < |run.streams|
    ensures var log := L.LogAt(run, k);
            L.FailsAt(run, k) <==> Failed in run.streams[k] || exists j :: 0 <= j < |log| && log[j].critical.Some?
  {
    hide E.Reachable, E.Done, Dispatched;
    var calls := L.CallsAt(run, k);
    E.EarliestErrorReported(run.tools, calls, run.execute(k, calls));
  }
}
