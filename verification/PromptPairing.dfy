/**
What the assembled prompt guarantees, for every persisted history: exactly when
it is well paired, and which persisted result each call is given.
*/
module PromptPairing {
  import opened Common
  import opened Persisted
  import opened Prompt
  import opened CanceledBranches
  import TextOps

  // -------------------------------------------------------- reference terms

  function IdsOfCalls(calls: seq<ToolCall>): seq<Id> {
    if calls == [] then [] else IdsOfCalls(calls[..|calls| - 1]) + [calls[|calls| - 1].id]
  }

  function IdsOfResults(rs: seq<ToolResult>): seq<Id> {
    if rs == [] then [] else IdsOfResults(rs[..|rs| - 1]) + [rs[|rs| - 1].id]
  }

  function WithId(rs: seq<ToolResult>, id: Id): seq<ToolResult> {
    if rs == [] then [] else
    WithId(rs[..|rs| - 1], id) + (if rs[|rs| - 1].id == id then [rs[|rs| - 1]] else [])
  }

  /** The results persisted for `id` in the first `n` messages, in order. */
  function ResultsFor(msgs: seq<Message>, n: nat, id: Id): seq<ToolResult>
    requires n <= |msgs|
  {
    if n == 0 then [] else
    ResultsFor(msgs, n - 1, id)
    + (if msgs[n - 1].role.Tool? then WithId(ToolResults(msgs[n - 1].parts), id) else [])
  }

  function CountId(calls: seq<ToolCall>, id: Id): nat {
    if calls == [] then 0 else
    CountId(calls[..|calls| - 1], id) + (if calls[|calls| - 1].id == id then 1 else 0)
  }

  /** How many calls with `id` the assistant turns among the first `n` messages make. */
  function CallCount(msgs: seq<Message>, n: nat, id: Id): nat
    requires n <= |msgs|
  {
    if n == 0 then 0 else
    CallCount(msgs, n - 1, id)
    + (if msgs[n - 1].role.Assistant? then CountId(ToolCalls(msgs[n - 1].parts), id) else 0)
  }

  // ------------------------------------------------------- the lookup table

  lemma {:induction false} LookupAll(results: Index, trs: seq<ToolResult>, id: Id)
    ensures Lookup(AddResults(results, trs), id) == Lookup(results, id) + WithId(trs, id)
  {
    if trs != [] {
      LookupAll(results, trs[..|trs| - 1], id);
    }
  }

  lemma {:induction false} WithIdHasId(trs: seq<ToolResult>, id: Id)
    ensures forall r :: r in WithId(trs, id) ==> r.id == id
  {
    if trs != [] {
      WithIdHasId(trs[..|trs| - 1], id);
    }
  }

  /** The lookup table is right: each id's results, all of them, in persisted order. */
  lemma {:induction false} LookupIsResultsFor(msgs: seq<Message>, n: nat, id: Id)
    requires n <= |msgs|
    ensures Lookup(IndexOf(msgs, n), id) == ResultsFor(msgs, n, id)
    ensures forall r :: r in ResultsFor(msgs, n, id) ==> r.id == id
  {
    if n > 0 {
      LookupIsResultsFor(msgs, n - 1, id);
      LookupAll(IndexOf(msgs, n - 1), ToolResults(msgs[n - 1].parts), id);
      WithIdHasId(ToolResults(msgs[n - 1].parts), id);
    }
  }

  ghost predicate WellIndexed(results: Index) {
    forall id :: forall r :: r in Lookup(results, id) ==> r.id == id
  }

  lemma IndexIsWellIndexed(msgs: seq<Message>)
    ensures WellIndexed(IndexOf(msgs, |msgs|))
  {
    forall id ensures forall r :: r in Lookup(IndexOf(msgs, |msgs|), id) ==> r.id == id {
      LookupIsResultsFor(msgs, |msgs|, id);
    }
  }

  // ------------------------------------------------- answering one turn: ids

  lemma {:induction false} AnswerPartIds(env: Env, rs: seq<ToolResult>)
    ensures T.ResultIds(AnswerParts(env, rs)) == IdsOfResults(rs)
  {
    if rs != [] {
      var front := rs[..|rs| - 1];
      AnswerPartIds(env, front);
      assert AnswerParts(env, rs) == AnswerParts(env, front) + [AnswerPart(env, rs[|rs| - 1])];
      T.ResultIdsAppend(AnswerParts(env, front), AnswerPart(env, rs[|rs| - 1]));
    }
  }

  /** The ids answered, really or synthetically. */
  function AnsweredIds(a: Answers): multiset<Id> {
    multiset(IdsOfResults(a.grouped)) + multiset(T.ResultIds(a.missing))
  }

  lemma AnswerOneId(results: Index, a: Answers, id: Id)
    requires forall r :: r in Lookup(results, id) ==> r.id == id
    ensures AnsweredIds(AnswerOne(results, a, id)) == AnsweredIds(a) + multiset{id}
  {
    hide Lookup, Consumed, IdsOfResults, T.ResultIds;
    var k := Consumed(a.consumed, id);
    if k < |Lookup(results, id)| {
      var r := Lookup(results, id)[k];
      assert r in Lookup(results, id);
      IdsOfResultsAppend(a.grouped, r);
    } else {
      T.ResultIdsAppend(a.missing, Synthetic(id));
    }
  }

  lemma IdsOfResultsAppend(rs: seq<ToolResult>, r: ToolResult)
    ensures IdsOfResults(rs + [r]) == IdsOfResults(rs) + [r.id]
  {
    assert (rs + [r])[..|rs|] == rs;
  }

  /** Each call of the turn is answered once. */
  lemma {:induction false} EachCallAnswered(results: Index, consumed: Counter, calls: seq<ToolCall>)
    requires WellIndexed(results)
    ensures AnsweredIds(AnswerAll(results, consumed, calls)) == multiset(IdsOfCalls(calls))
  {
    if calls != [] {
      var front := calls[..|calls| - 1];
      EachCallAnswered(results, consumed, front);
      AnswerOneId(results, AnswerAll(results, consumed, front), calls[|calls| - 1].id);
    }
  }

  lemma TurnIds(env: Env, a: Answers)
    ensures multiset(T.ResultIds(AnswerParts(env, a.grouped) + a.missing)) == AnsweredIds(a)
  {
    T.ResultIdsConcat(AnswerParts(env, a.grouped), a.missing);
    AnswerPartIds(env, a.grouped);
  }

  /** The calls the contract covers. */
  function Covered(scope: T.Scope, calls: seq<ToolCall>): seq<ToolCall> {
    if calls == [] then [] else
    var c := calls[|calls| - 1];
    Covered(scope, calls[..|calls| - 1]) + (if scope.EveryCall? || !c.providerExecuted then [c] else [])
  }

  lemma {:induction false} CoveredSize(scope: T.Scope, calls: seq<ToolCall>)
    ensures |Covered(scope, calls)| <= |calls|
    ensures Covered(scope, calls) == calls <==> scope.EveryCall? || forall c :: c in calls ==> !c.providerExecuted
    ensures Covered(scope, calls) != calls ==> |Covered(scope, calls)| < |calls|
  {
    if calls != [] {
      var front, c := calls[..|calls| - 1], calls[|calls| - 1];
      assert calls == front + [c];
      CoveredSize(scope, front);
    }
  }

  lemma IdsOfCallsAppend(calls: seq<ToolCall>, c: ToolCall)
    ensures IdsOfCalls(calls + [c]) == IdsOfCalls(calls) + [c.id]
  {
    assert (calls + [c])[..|calls|] == calls;
  }

  lemma {:induction false} CallPartIds(scope: T.Scope, calls: seq<ToolCall>)
    ensures T.CallIds(scope, CallParts(calls)) == IdsOfCalls(Covered(scope, calls))
  {
    if calls != [] {
      var front, c := calls[..|calls| - 1], calls[|calls| - 1];
      CallPartIds(scope, front);
      var part := T.Call(c.id, c.name, c.input, c.providerExecuted);
      assert CallParts(calls) == CallParts(front) + [part];
      T.CallIdsAppend(scope, CallParts(front), part);
      IdsOfCallsAppend(Covered(scope, front), c);
      assert Covered(scope, front) + [] == Covered(scope, front);
    }
  }

  /** An assistant turn sent to the model carries exactly the persisted calls. */
  lemma AssistantCallIds(env: Env, scope: T.Scope, m: Message)
    ensures T.CallIds(scope, AssistantParts(env, m)) == IdsOfCalls(Covered(scope, ToolCalls(m.parts)))
  {
    var pre := Preamble(env, m);
    T.CallIdsConcat(scope, pre, CallParts(ToolCalls(m.parts)));
    NoCallIds(scope, pre);
    CallPartIds(scope, ToolCalls(m.parts));
  }

  lemma {:induction false} NoCallIds(scope: T.Scope, parts: seq<T.Part>)
    requires forall p :: p in parts ==> !p.Call?
    ensures T.CallIds(scope, parts) == []
  {
    if parts != [] {
      NoCallIds(scope, parts[..|parts| - 1]);
      assert parts[|parts| - 1] in parts;
    }
  }

  // ------------------------------------------------------------ whole history

  /** An assistant turn with calls that is not sent, although its answers are. */
  predicate HidesCalls(m: Message) {
    IsRetryNotice(m) && ToolCalls(m.parts) != []
  }

  /** A call the provider executed itself, which is answered like any other. */
  predicate ProviderCalls(m: Message) {
    m.role.Assistant? && exists c :: c in ToolCalls(m.parts) && c.providerExecuted
  }

  /** A turn whose answers answer something else than the calls the contract covers. */
  predicate Mismatched(scope: T.Scope, m: Message) {
    HidesCalls(m) || (scope.ClientCalls? && ProviderCalls(m))
  }

  lemma {:induction false} IdsOfCallsSize(calls: seq<ToolCall>)
    ensures |IdsOfCalls(calls)| == |calls|
  {
    if calls != [] {
      IdsOfCallsSize(calls[..|calls| - 1]);
    }
  }

  /** A message without calls keeps the transcript well paired. */
  lemma AppendQuiet(scope: T.Scope, history: seq<T.Message>, m: T.Message)
    requires T.WellPaired(scope, history) && !m.role.Tool?
    requires m.role.Assistant? ==> T.CallIds(scope, m.parts) == []
    ensures T.WellPaired(scope, history + [m])
  {
    T.PairedAppend(scope, history, m);
  }

  /** So does a turn with calls followed by its answers. */
  lemma AppendAnswered(scope: T.Scope, history: seq<T.Message>, m: T.Message, turn: T.Message)
    requires T.WellPaired(scope, history) && m.role.Assistant? && turn.role.Tool?
    requires T.CallIds(scope, m.parts) != []
    requires multiset(T.ResultIds(turn.parts)) == multiset(T.CallIds(scope, m.parts))
    ensures T.WellPaired(scope, history + [m] + [turn])
  {
    T.PairedAppend(scope, history, m);
    T.PairedAppend(scope, history + [m], turn);
  }

  lemma {:induction false} NoAnswersWithoutCalls(results: Index, consumed: Counter, calls: seq<ToolCall>)
    ensures var a := AnswerAll(results, consumed, calls); |a.grouped| + |a.missing| == |calls|
  {
    if calls != [] {
      NoAnswersWithoutCalls(results, consumed, calls[..|calls| - 1]);
    }
  }

  /** The one tool turn that answers `calls`. */
  lemma TurnAnswers(env: Env, results: Index, consumed: Counter, calls: seq<ToolCall>)
    requires WellIndexed(results)
    ensures var t := ToolTurn(env, AnswerAll(results, consumed, calls));
            if calls == [] then t == []
            else |t| == 1 && t[0].role.Tool? && multiset(T.ResultIds(t[0].parts)) == multiset(IdsOfCalls(calls))
  {
    EachCallAnswered(results, consumed, calls);
    NoAnswersWithoutCalls(results, consumed, calls);
    TurnIds(env, AnswerAll(results, consumed, calls));
  }

  /** What a persisted assistant turn is sent as. */
  lemma AssistantSent(env: Env, scope: T.Scope, m: Message)
    requires m.role.Assistant?
    ensures var ai := ToAIMessage(env, m);
            && |ai| <= 1
            && (ai != [] ==> ai[0].role.Assistant? && T.CallIds(scope, ai[0].parts) == IdsOfCalls(Covered(scope, ToolCalls(m.parts))))
            && (IsRetryNotice(m) ==> ai == [])
            && (!IsRetryNotice(m) && ToolCalls(m.parts) != [] ==> ai != [])
  {
    AssistantCallIds(env, scope, m);
  }

  lemma MatchedCalls(scope: T.Scope, m: Message)
    requires m.role.Assistant? && !Mismatched(scope, m)
    ensures Covered(scope, ToolCalls(m.parts)) == ToolCalls(m.parts)
    ensures IsRetryNotice(m) ==> ToolCalls(m.parts) == []
  {
    hide ToolCalls, IsRetryNotice, Covered;
    CoveredSize(scope, ToolCalls(m.parts));
  }

  lemma MismatchedCalls(scope: T.Scope, m: Message)
    requires Mismatched(scope, m)
    ensures m.role.Assistant? && ToolCalls(m.parts) != [] && !Skipped(m)
    ensures !IsRetryNotice(m) ==> |Covered(scope, ToolCalls(m.parts))| < |ToolCalls(m.parts)|
  {
    hide ContentText, ReasoningContent, Covered;
    CoveredSize(scope, ToolCalls(m.parts));
  }

  lemma StepAssistant(env: Env, scope: T.Scope, results: Index, p: Progress, m: Message)
    requires WellIndexed(results) && T.WellPaired(scope, p.history)
    requires m.role.Assistant? && !Skipped(m) && !Mismatched(scope, m)
    ensures T.WellPaired(scope, Step(env, results, p, m).history)
  {
    hide AnswerAll, T.WellPaired, T.CallIds, T.ResultIds, ToolTurn, ToAIMessage, IsRetryNotice, Skipped, Covered, ToolCalls,
         Mismatched, IdsOfCalls;
    var calls := ToolCalls(m.parts);
    var ai, turn := ToAIMessage(env, m), ToolTurn(env, AnswerAll(results, p.consumed, calls));
    AssistantSent(env, scope, m);
    TurnAnswers(env, results, p.consumed, calls);
    IdsOfCallsSize(calls);
    MatchedCalls(scope, m);
    if ai == [] {
      assert p.history + ai + turn == p.history;
    } else if calls == [] {
      AppendQuiet(scope, p.history, ai[0]);
      assert p.history + ai + turn == p.history + [ai[0]];
    } else {
      AppendAnswered(scope, p.history, ai[0], turn[0]);
      assert p.history + ai + turn == p.history + [ai[0]] + [turn[0]];
    }
  }

  /** One more message keeps the transcript well paired, unless it hides its calls. */
  lemma StepKeepsPairing(env: Env, scope: T.Scope, results: Index, p: Progress, m: Message)
    requires WellIndexed(results) && T.WellPaired(scope, p.history) && !Mismatched(scope, m)
    ensures T.WellPaired(scope, Step(env, results, p, m).history)
  {
    if !Skipped(m) {
      if m.role.Assistant? {
        StepAssistant(env, scope, results, p, m);
      } else {
        var ai := ToAIMessage(env, m);
        if ai == [] {
          assert p.history + ai == p.history;
        } else {
          AppendQuiet(scope, p.history, ai[0]);
          assert p.history + ai == p.history + [ai[0]];
        }
      }
    }
  }

  /** A turn that hides its calls leaves a tool turn with nothing before it; one the provider ran answers too much. */
  lemma MismatchBreaksPairing(env: Env, scope: T.Scope, results: Index, p: Progress, m: Message)
    requires WellIndexed(results) && T.WellPaired(scope, p.history) && Mismatched(scope, m)
    ensures !T.OpenPaired(scope, Step(env, results, p, m).history)
  {
    hide AnswerAll, T.OpenPaired, T.CallIds, T.ResultIds, ToolTurn, ToAIMessage, IsRetryNotice, Skipped, Covered, ToolCalls,
         Mismatched, IdsOfCalls;
    var calls := ToolCalls(m.parts);
    var ai, turn := ToAIMessage(env, m), ToolTurn(env, AnswerAll(results, p.consumed, calls));
    MismatchedCalls(scope, m);
    AssistantSent(env, scope, m);
    TurnAnswers(env, results, p.consumed, calls);
    if ai == [] {
      T.PairedAppend(scope, p.history, turn[0]);
      assert p.history + [] + turn == p.history + [turn[0]];
    } else {
      SizesDiffer(calls, Covered(scope, calls));
      T.PairedAppend(scope, p.history, ai[0]);
      T.PairedAppend(scope, p.history + [ai[0]], turn[0]);
      assert p.history + ai + turn == p.history + [ai[0]] + [turn[0]];
    }
  }

  lemma SizesDiffer(a: seq<ToolCall>, b: seq<ToolCall>)
    requires |a| != |b|
    ensures multiset(IdsOfCalls(a)) != multiset(IdsOfCalls(b))
  {
    IdsOfCallsSize(a);
    IdsOfCallsSize(b);
    assert |multiset(IdsOfCalls(a))| == |IdsOfCalls(a)|;
    assert |multiset(IdsOfCalls(b))| == |IdsOfCalls(b)|;
  }

  lemma {:induction false} StepsPaired(env: Env, scope: T.Scope, results: Index, msgs: seq<Message>, n: nat)
    requires WellIndexed(results) && n <= |msgs|
    requires forall i :: 0 <= i < n ==> !Mismatched(scope, msgs[i])
    ensures T.WellPaired(scope, Steps(env, results, msgs, n).history)
  {
    if n > 0 {
      StepsPaired(env, scope, results, msgs, n - 1);
      StepKeepsPairing(env, scope, results, Steps(env, results, msgs, n - 1), msgs[n - 1]);
    }
  }

  lemma {:induction false} StepsGrow(env: Env, results: Index, msgs: seq<Message>, n: nat, k: nat)
    requires n <= k <= |msgs|
    ensures Steps(env, results, msgs, n).history <= Steps(env, results, msgs, k).history
    decreases k
  {
    if n < k {
      StepsGrow(env, results, msgs, n, k - 1);
    }
  }

  lemma PairedShrinks(scope: T.Scope, before: seq<T.Message>, after: seq<T.Message>)
    requires before <= after
    ensures T.OpenPaired(scope, after) ==> T.OpenPaired(scope, before)
  {
    if T.OpenPaired(scope, after) {
      T.PrefixOpenPaired(scope, after, |before|);
      assert after[..|before|] == before;
    }
  }

  /** The first such turn. */
  ghost function FirstMismatched(scope: T.Scope, msgs: seq<Message>, i: nat): (k: nat)
    requires i < |msgs| && Mismatched(scope, msgs[i])
    ensures k <= i && Mismatched(scope, msgs[k])
    ensures forall j :: 0 <= j < k ==> !Mismatched(scope, msgs[j])
    decreases i
  {
    if exists k :: 0 <= k < i && Mismatched(scope, msgs[k]) then
      var k :| 0 <= k < i && Mismatched(scope, msgs[k]);
      FirstMismatched(scope, msgs, k)
    else i
  }

  lemma StepsUnpaired(env: Env, scope: T.Scope, results: Index, msgs: seq<Message>, i: nat)
    requires WellIndexed(results) && i < |msgs| && Mismatched(scope, msgs[i])
    ensures !T.OpenPaired(scope, Steps(env, results, msgs, |msgs|).history)
  {
    var k := FirstMismatched(scope, msgs, i);
    StepsPaired(env, scope, results, msgs, k);
    MismatchBreaksPairing(env, scope, results, Steps(env, results, msgs, k), msgs[k]);
    StepsGrow(env, results, msgs, k + 1, |msgs|);
    PairedShrinks(scope, Steps(env, results, msgs, k + 1).history, Steps(env, results, msgs, |msgs|).history);
  }

  /**
  Exactly, for either reading of the contract: the assembled prompt is well
  paired if and only if no assistant turn that survives trimming makes calls
  and begins with the retry notice or, where only the client's calls count,
  carries a call the provider executed.
  */
  lemma PairedIffMatched(env: Env, scope: T.Scope, persisted: seq<Message>)
    ensures T.WellPaired(scope, Assembled(env, Trimmed(persisted)))
        <==> forall m :: m in Trimmed(persisted) ==> !Mismatched(scope, m)
  {
    hide Mismatched, Steps, Trimmed, IndexOf, T.OpenPaired;
    var msgs := Trimmed(persisted);
    IndexIsWellIndexed(msgs);
    if forall m :: m in msgs ==> !Mismatched(scope, m) {
      StepsPaired(env, scope, IndexOf(msgs, |msgs|), msgs, |msgs|);
    } else {
      var m :| m in msgs && Mismatched(scope, m);
      var i :| 0 <= i < |msgs| && msgs[i] == m;
      StepsUnpaired(env, scope, IndexOf(msgs, |msgs|), msgs, i);
    }
  }

  /**
  Tool pairing, exactly: for every persisted history the assembled prompt is
  well paired if and only if no assistant turn that survives trimming both
  makes calls and begins with the retry notice.
  */
  lemma PairedIffNoHiddenCalls(env: Env, persisted: seq<Message>)
    ensures T.WellPaired(T.EveryCall, Assembled(env, Trimmed(persisted)))
        <==> forall m :: m in Trimmed(persisted) ==> !HidesCalls(m)
  {
    hide HidesCalls, Steps, Trimmed, IndexOf, T.WellPaired;
    PairedIffMatched(env, T.EveryCall, persisted);
    assert forall m :: Mismatched(T.EveryCall, m) <==> HidesCalls(m);
  }

  /** A retry notice that also made a call. */
  const NOTICE_WITH_CALL :=
    Message(T.Assistant,
            [TextPart(RETRY_NOTICE), CallPart(ToolCall(T.Id("c1"), "read", "{}", false)), FinishPart("tool_use")],
            false)

  lemma NoticeHidesCall()
    ensures HidesCalls(NOTICE_WITH_CALL)
  {
    TextOps.TrimTrimmed(RETRY_NOTICE);
    var parts := NOTICE_WITH_CALL.parts;
    assert ContentText(parts) == RETRY_NOTICE;
    assert ToolCalls(parts) == ToolCalls(parts[1..]);
    assert parts[1..][0].CallPart?;
  }

  /** A history whose prompt is not well paired. */
  lemma PairingCanFail(env: Env)
    ensures !T.WellPaired(T.EveryCall, Assembled(env, Trimmed([NOTICE_WITH_CALL])))
  {
    var history := [NOTICE_WITH_CALL];
    NoticeHidesCall();
    TrimUnchangedIff(history);
    assert history[0] in Trimmed(history);
    PairedIffNoHiddenCalls(env, history);
  }

  /** A turn with a call the provider executed. */
  const SEARCHED :=
    Message(T.Assistant, [CallPart(ToolCall(T.Id("s1"), "web_search", "{}", true)), FinishPart("tool_use")], false)

  /** A history whose prompt pairs all calls, and not the client's: the provider's call is answered again. */
  lemma ProviderCallAnswered(env: Env)
    ensures T.WellPaired(T.EveryCall, Assembled(env, Trimmed([SEARCHED])))
    ensures !T.WellPaired(T.ClientCalls, Assembled(env, Trimmed([SEARCHED])))
  {
    var history := [SEARCHED];
    var call := ToolCall(T.Id("s1"), "web_search", "{}", true);
    TrimUnchangedIff(history);
    assert history[0] in Trimmed(history);
    assert Trimmed(history) == history;
    assert SEARCHED.parts[0].CallPart? && SEARCHED.parts[0].call == call;
    assert call in ToolCalls(SEARCHED.parts);
    assert ProviderCalls(SEARCHED);
    NoNotice();
    PairedIffNoHiddenCalls(env, history);
    PairedIffMatched(env, T.ClientCalls, history);
  }

  lemma NoNotice()
    ensures !HidesCalls(SEARCHED)
  {
    assert ContentText(SEARCHED.parts) == ContentText(SEARCHED.parts[1..]) == ContentText(SEARCHED.parts[2..]) == "";
    TextOps.TrimTrimmed("");
  }
}
