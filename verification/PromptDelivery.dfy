/**
Delivery of persisted results: over the whole prompt, the calls with one id
receive that id's persisted results one by one, in order, and synthetic errors
once those run out.
*/
module PromptDelivery {
  import opened Common
  import opened Persisted
  import opened Prompt
  import opened PromptPairing
  import opened CanceledBranches

  const SYNTHETIC := T.ErrorOutput(INTERRUPTED)

  function PartOutputs(parts: seq<T.Part>, id: Id): seq<T.Output> {
    if parts == [] then [] else
    var p := parts[|parts| - 1];
    PartOutputs(parts[..|parts| - 1], id) + (if p.Result? && p.id == id then [p.output] else [])
  }

  /** What the model is told for `id`, over a whole transcript and in order. */
  function OutputsFor(msgs: seq<T.Message>, id: Id): seq<T.Output> {
    if msgs == [] then [] else
    var m := msgs[|msgs| - 1];
    OutputsFor(msgs[..|msgs| - 1], id) + (if m.role.Tool? then PartOutputs(m.parts, id) else [])
  }

  function OutputsOf(env: Env, rs: seq<ToolResult>): seq<T.Output> {
    seq(|rs|, i requires 0 <= i < |rs| => OutputOf(env, rs[i]))
  }

  /** What `n` calls with one id must be told, given that id's persisted results. */
  function Due(env: Env, rs: seq<ToolResult>, n: nat): seq<T.Output> {
    OutputsOf(env, rs[..Min(n, |rs|)]) + seq(n - Min(n, |rs|), i => SYNTHETIC)
  }

  lemma PartOutputsAppend(parts: seq<T.Part>, p: T.Part, id: Id)
    ensures PartOutputs(parts + [p], id) == PartOutputs(parts, id) + (if p.Result? && p.id == id then [p.output] else [])
  {
    assert (parts + [p])[..|parts|] == parts;
  }

  lemma {:induction false} PartOutputsConcat(a: seq<T.Part>, b: seq<T.Part>, id: Id)
    ensures PartOutputs(a + b, id) == PartOutputs(a, id) + PartOutputs(b, id)
    decreases |b|
  {
    if b == [] {
      assert a + b == a;
    } else {
      var front, p := b[..|b| - 1], b[|b| - 1];
      assert a + b == a + front + [p];
      PartOutputsAppend(a + front, p, id);
      PartOutputsConcat(a, front, id);
    }
  }

  lemma OutputsForAppend(msgs: seq<T.Message>, m: T.Message, id: Id)
    ensures OutputsFor(msgs + [m], id)
         == OutputsFor(msgs, id) + (if m.role.Tool? then PartOutputs(m.parts, id) else [])
  {
    assert (msgs + [m])[..|msgs|] == msgs;
  }

  lemma {:induction false} AnswerPartOutputs(env: Env, rs: seq<ToolResult>, id: Id)
    ensures PartOutputs(AnswerParts(env, rs), id) == OutputsOf(env, WithId(rs, id))
  {
    if rs != [] {
      var front, r := rs[..|rs| - 1], rs[|rs| - 1];
      AnswerPartOutputs(env, front, id);
      assert AnswerParts(env, rs) == AnswerParts(env, front) + [AnswerPart(env, r)];
      PartOutputsAppend(AnswerParts(env, front), AnswerPart(env, r), id);
      assert OutputsOf(env, WithId(front, id) + [r]) == OutputsOf(env, WithId(front, id)) + [OutputOf(env, r)];
    }
  }

  // ------------------------------------------------------------ one turn

  /** One id's share of the answers: how many it has had, its real ones and its synthetic ones. */
  datatype View = View(consumed: nat, stored: seq<ToolResult>, synthetic: seq<T.Output>)

  function ViewOf(a: Answers, id: Id): View {
    View(Consumed(a.consumed, id), WithId(a.grouped, id), PartOutputs(a.missing, id))
  }

  /** One more call: the next persisted result, or a synthetic error once they have run out. */
  function Next(rs: seq<ToolResult>, v: View): View {
    if v.consumed < |rs| then View(v.consumed + 1, v.stored + [rs[v.consumed]], v.synthetic)
    else View(v.consumed + 1, v.stored, v.synthetic + [SYNTHETIC])
  }

  function Run(rs: seq<ToolResult>, consumed: nat, n: nat): View {
    if n == 0 then View(consumed, [], []) else Next(rs, Run(rs, consumed, n - 1))
  }

  lemma WithIdAppend(rs: seq<ToolResult>, r: ToolResult, id: Id)
    ensures WithId(rs + [r], id) == WithId(rs, id) + (if r.id == id then [r] else [])
  {
    assert (rs + [r])[..|rs|] == rs;
  }

  /** A call with another id leaves this one alone; a call with this id takes its next answer. */
  lemma AnswerOneView(results: Index, a: Answers, call: Id, id: Id)
    requires forall r :: r in Lookup(results, call) ==> r.id == call
    ensures ViewOf(AnswerOne(results, a, call), id)
         == if call == id then Next(Lookup(results, id), ViewOf(a, id)) else ViewOf(a, id)
  {
    hide WithId, PartOutputs, Lookup;
    var slot := Consumed(a.consumed, call);
    if slot < |Lookup(results, call)| {
      var r := Lookup(results, call)[slot];
      assert r in Lookup(results, call);
      WithIdAppend(a.grouped, r, id);
    } else {
      PartOutputsAppend(a.missing, Synthetic(call), id);
    }
  }

  lemma {:induction false} TurnView(results: Index, consumed: Counter, calls: seq<ToolCall>, id: Id)
    requires WellIndexed(results)
    ensures ViewOf(AnswerAll(results, consumed, calls), id)
         == Run(Lookup(results, id), Consumed(consumed, id), CountId(calls, id))
  {
    if calls != [] {
      var front := calls[..|calls| - 1];
      TurnView(results, consumed, front, id);
      AnswerOneView(results, AnswerAll(results, consumed, front), calls[|calls| - 1].id, id);
    }
  }

  lemma OutputsOfAppend(env: Env, rs: seq<ToolResult>, r: ToolResult)
    ensures OutputsOf(env, rs + [r]) == OutputsOf(env, rs) + [OutputOf(env, r)]
  {
  }

  lemma DueNext(env: Env, rs: seq<ToolResult>, n: nat)
    ensures Due(env, rs, n + 1) == Due(env, rs, n) + [if n < |rs| then OutputOf(env, rs[n]) else SYNTHETIC]
  {
    if n < |rs| {
      assert rs[..n + 1] == rs[..n] + [rs[n]];
      OutputsOfAppend(env, rs[..n], rs[n]);
    }
  }

  lemma NextDelivers(env: Env, rs: seq<ToolResult>, before: seq<T.Output>, v: View)
    requires v.consumed < |rs| ==> v.synthetic == []
    requires before + OutputsOf(env, v.stored) + v.synthetic == Due(env, rs, v.consumed)
    ensures var w := Next(rs, v); before + OutputsOf(env, w.stored) + w.synthetic == Due(env, rs, w.consumed)
  {
    DueNext(env, rs, v.consumed);
    if v.consumed < |rs| {
      OutputsOfAppend(env, v.stored, rs[v.consumed]);
    }
  }

  /** `n` more calls take what is told for the id from what is due after `k` calls to what is due after `k + n`. */
  lemma {:induction false} RunDelivers(env: Env, rs: seq<ToolResult>, k: nat, n: nat)
    ensures Run(rs, k, n).consumed == k + n
    ensures k + n <= |rs| ==> Run(rs, k, n).synthetic == []
    ensures Due(env, rs, k) + OutputsOf(env, Run(rs, k, n).stored) + Run(rs, k, n).synthetic == Due(env, rs, k + n)
  {
    if n == 0 {
      assert OutputsOf(env, []) == [];
    } else {
      RunDelivers(env, rs, k, n - 1);
      NextDelivers(env, rs, Due(env, rs, k), Run(rs, k, n - 1));
    }
  }

  // ------------------------------------------------------- the whole history

  lemma TurnOutputs(env: Env, a: Answers, history: seq<T.Message>, id: Id)
    ensures OutputsFor(history + ToolTurn(env, a), id)
         == OutputsFor(history, id) + OutputsOf(env, WithId(a.grouped, id)) + PartOutputs(a.missing, id)
  {
    if ToolTurn(env, a) == [] {
      assert history + [] == history;
    } else {
      var turn := ToolTurn(env, a)[0];
      OutputsForAppend(history, turn, id);
      PartOutputsConcat(AnswerParts(env, a.grouped), a.missing, id);
      AnswerPartOutputs(env, a.grouped, id);
    }
  }

  lemma SentOutputs(env: Env, m: Message, history: seq<T.Message>, id: Id)
    requires !m.role.Tool?
    ensures OutputsFor(history + ToAIMessage(env, m), id) == OutputsFor(history, id)
  {
    var ai := ToAIMessage(env, m);
    if ai == [] {
      assert history + ai == history;
    } else {
      assert ai == [ai[0]];
      OutputsForAppend(history, ai[0], id);
    }
  }

  lemma ViewDelivers(env: Env, rs: seq<ToolResult>, history: seq<T.Message>, a: Answers, k: nat, n: nat, id: Id)
    requires ViewOf(a, id) == Run(rs, k, n)
    requires OutputsFor(history, id) == Due(env, rs, k)
    ensures Consumed(a.consumed, id) == k + n
    ensures OutputsFor(history + ToolTurn(env, a), id) == Due(env, rs, k + n)
  {
    TurnOutputs(env, a, history, id);
    RunDelivers(env, rs, k, n);
  }

  lemma StepDelivers(env: Env, results: Index, p: Progress, m: Message, k: nat, id: Id)
    requires WellIndexed(results) && Consumed(p.consumed, id) == k
    requires OutputsFor(p.history, id) == Due(env, Lookup(results, id), k)
    ensures var n := k + (if m.role.Assistant? then CountId(ToolCalls(m.parts), id) else 0);
            && Consumed(Step(env, results, p, m).consumed, id) == n
            && OutputsFor(Step(env, results, p, m).history, id) == Due(env, Lookup(results, id), n)
  {
    hide Run, Due, AnswerAll, ToAIMessage, ToolTurn, OutputsFor, Lookup, WithId, PartOutputs;
    if Skipped(m) {
      assert m.role.Assistant? ==> ToolCalls(m.parts) == [];
    } else {
      SentOutputs(env, m, p.history, id);
      if m.role.Assistant? {
        var calls := ToolCalls(m.parts);
        TurnView(results, p.consumed, calls, id);
        ViewDelivers(env, Lookup(results, id), p.history + ToAIMessage(env, m), AnswerAll(results, p.consumed, calls),
                     k, CountId(calls, id), id);
      }
    }
  }

  lemma {:induction false} StepsDeliver(env: Env, results: Index, msgs: seq<Message>, n: nat, id: Id)
    requires WellIndexed(results) && n <= |msgs|
    ensures var p := Steps(env, results, msgs, n);
            && Consumed(p.consumed, id) == CallCount(msgs, n, id)
            && OutputsFor(p.history, id) == Due(env, Lookup(results, id), CallCount(msgs, n, id))
  {
    if n > 0 {
      StepsDeliver(env, results, msgs, n - 1, id);
      StepDelivers(env, results, Steps(env, results, msgs, n - 1), msgs[n - 1], CallCount(msgs, n - 1, id), id);
    }
  }

  /**
  Delivery, for every history and every id: the model is told the first
  persisted results for the id, in order and once each, as many as there are
  calls with it, and then the synthetic error for every further call.  Results
  whose id nobody called are told to nobody.
  */
  lemma ResultsDeliveredInOrder(env: Env, persisted: seq<Message>, id: Id)
    ensures OutputsFor(Assembled(env, Trimmed(persisted)), id)
         == Due(env, ResultsFor(Trimmed(persisted), |Trimmed(persisted)|, id),
                CallCount(Trimmed(persisted), |Trimmed(persisted)|, id))
  {
    var msgs := Trimmed(persisted);
    IndexIsWellIndexed(msgs);
    LookupIsResultsFor(msgs, |msgs|, id);
    StepsDeliver(env, IndexOf(msgs, |msgs|), msgs, |msgs|, id);
  }
}
