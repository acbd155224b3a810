/**
Queued prompts joining the running turn: at most two, at most 1,600 characters
in all, latest first; exact repeats are dropped and the rest go back.
*/
module JoinRun {
  import opened Common
  import opened TextOps
  import opened Queue

  const MAX_INJECTED := 2
  const PROMPT_BUDGET := 1600
  const ELLIPSIS := "\U{2026}"

  // ------------------------------------------------------------ specification

  /** What becomes of one taken call. */
  datatype Fate = Injected(prompt: string) | Requeued | Dropped

  /** The loop's state: how many are in, the characters left, and the prompts seen. */
  datatype Progress = Progress(count: nat, budget: nat, seen: set<string>)

  function Start(mainPrompt: string): Progress {
    Progress(0, PROMPT_BUDGET, if Trim(mainPrompt) == "" then {} else {Trim(mainPrompt)})
  }

  /** A prompt cut to the budget, its last character an ellipsis. */
  function Fitted(prompt: string, budget: nat): (r: string)
    requires prompt != "" && budget > 0 && (|prompt| > budget ==> budget > 1)
    ensures r != "" && |r| <= budget
    ensures |prompt| <= budget ==> r == prompt
    ensures |prompt| > budget ==> |r| == budget && r == prompt[..budget - 1] + ELLIPSIS
  {
    if |prompt| > budget then prompt[..budget - 1] + ELLIPSIS else prompt
  }

  function FateOf(p: Progress, call: Call): Fate {
    var prompt := Trim(call.prompt);
    if p.count >= MAX_INJECTED || p.budget == 0 then Requeued
    else if prompt == "" then Requeued
    else if prompt in p.seen then Dropped
    else if |prompt| > p.budget && p.budget <= 1 then Requeued
    else Injected(Fitted(prompt, p.budget))
  }

  function After(p: Progress, fate: Fate): Progress {
    match fate
    case Injected(prompt) =>
      Progress(p.count + 1, if |prompt| <= p.budget then p.budget - |prompt| else 0, p.seen + {prompt})
    case _ => p
  }

  /** The state after the calls from `k` on have been looked at, last one first. */
  function Before(mainPrompt: string, taken: seq<Call>, k: nat): Progress
    requires k <= |taken|
    decreases |taken| - k
  {
    if k == |taken| then Start(mainPrompt)
    else After(Before(mainPrompt, taken, k + 1), FateOf(Before(mainPrompt, taken, k + 1), taken[k]))
  }

  /** The fate of the `k`-th taken call. */
  function Fates(mainPrompt: string, taken: seq<Call>, k: nat): Fate
    requires k < |taken|
  {
    FateOf(Before(mainPrompt, taken, k + 1), taken[k])
  }

  /** The calls injected from `k` on, in queue order, with the prompts they are injected with. */
  function InjectedFrom(mainPrompt: string, taken: seq<Call>, k: nat): seq<Call>
    requires k <= |taken|
    decreases |taken| - k
  {
    if k == |taken| then []
    else (match Fates(mainPrompt, taken, k)
          case Injected(prompt) => [taken[k].(prompt := prompt)]
          case _ => [])
         + InjectedFrom(mainPrompt, taken, k + 1)
  }

  /** The calls put back from `k` on, in the order they are put back. */
  function RequeuedFrom(mainPrompt: string, taken: seq<Call>, k: nat): seq<Call>
    requires k <= |taken|
    decreases |taken| - k
  {
    if k == |taken| then []
    else RequeuedFrom(mainPrompt, taken, k + 1) + (if Fates(mainPrompt, taken, k).Requeued? then [taken[k]] else [])
  }

  // ----------------------------------------------------------------- the code

  /** One more call from the back. */
  lemma OneMore(mainPrompt: string, taken: seq<Call>, k: nat)
    requires k < |taken|
    ensures var p := Before(mainPrompt, taken, k + 1);
            var fate := FateOf(p, taken[k]);
            && Before(mainPrompt, taken, k) == After(p, fate)
            && InjectedFrom(mainPrompt, taken, k)
               == (if fate.Injected? then [taken[k].(prompt := fate.prompt)] else []) + InjectedFrom(mainPrompt, taken, k + 1)
            && RequeuedFrom(mainPrompt, taken, k)
               == RequeuedFrom(mainPrompt, taken, k + 1) + (if fate.Requeued? then [taken[k]] else [])
  {
    hide FateOf;
  }

  lemma NoMore(mainPrompt: string, taken: seq<Call>)
    ensures Before(mainPrompt, taken, |taken|) == Start(mainPrompt)
    ensures InjectedFrom(mainPrompt, taken, |taken|) == [] && RequeuedFrom(mainPrompt, taken, |taken|) == []
  {
  }

  lemma ReversedAppend(calls: seq<Call>, c: Call)
    ensures Reversed(calls + [c]) == [c] + Reversed(calls)
  {
    assert (calls + [c])[..|calls|] == calls;
  }

  /** The calls from last to first. */
  method BackToFront(selected: seq<Call>) returns (injected: seq<Call>)
    ensures injected == Reversed(selected)
  {
    injected := [];
    var s := |selected|;
    assert selected[..s] == selected;
    while s > 0
      invariant 0 <= s <= |selected|
      invariant injected + Reversed(selected[..s]) == Reversed(selected)
    {
      s := s - 1;
      assert selected[..s + 1] == selected[..s] + [selected[s]];
      ReversedAppend(selected[..s], selected[s]);
      injected := injected + [selected[s]];
    }
  }

  /** Chooses among the taken calls; those put back go to the end of the message queue. */
  method SelectJoining(queues: AgentQueues, id: string, mainPrompt: string, taken: seq<Call>)
    returns (injected: seq<Call>)
    requires queues.Valid()
    modifies queues
    ensures queues.Valid()
    ensures injected == InjectedFrom(mainPrompt, taken, 0)
    ensures queues.Of(id)
         == old(queues.Of(id)).(message := old(queues.Of(id)).message + RequeuedFrom(mainPrompt, taken, 0))
    ensures forall other :: other != id ==> queues.Of(other) == old(queues.Of(other))
  {
    hide Trim, Before, InjectedFrom, RequeuedFrom, Reversed, AgentQueues.Valid, AgentQueues.Of, Apply;
    NoMore(mainPrompt, taken);
    ReversedNone();
    var remaining := PROMPT_BUDGET;
    var selected: seq<Call> := [];
    var seen: set<string> := {};
    var mainTrimmed := Trim(mainPrompt);
    if mainTrimmed != "" {
      seen := seen + {mainTrimmed};
    }
    var i := |taken|;
    while i > 0
      invariant 0 <= i <= |taken| && queues.Valid() && remaining >= 0
      invariant Progress(|selected|, remaining, seen) == Before(mainPrompt, taken, i)
      invariant Reversed(selected) == InjectedFrom(mainPrompt, taken, i)
      invariant queues.Of(id)
             == old(queues.Of(id)).(message := old(queues.Of(id)).message + RequeuedFrom(mainPrompt, taken, i))
      invariant forall other :: other != id ==> queues.Of(other) == old(queues.Of(other))
    {
      i := i - 1;
      OneMore(mainPrompt, taken, i);
      var queued := taken[i];
      var prompt := Trim(queued.prompt);
      if |selected| >= MAX_INJECTED || remaining <= 0 || prompt == "" {
        queues.EnqueueQueuedCall(id, queued);
        continue;
      }
      if prompt in seen {
        continue;
      }
      if |prompt| > remaining {
        if remaining <= 1 {
          queues.EnqueueQueuedCall(id, queued);
          continue;
        }
        prompt := prompt[..remaining - 1] + ELLIPSIS;
      }
      seen := seen + {prompt};
      ReversedAppend(selected, queued.(prompt := prompt));
      selected := selected + [queued.(prompt := prompt)];
      remaining := remaining - |prompt|;
    }
    injected := BackToFront(selected);
  }

  lemma ReversedNone()
    ensures Reversed([]) == []
  {
  }

  function Reversed(calls: seq<Call>): seq<Call> {
    if calls == [] then [] else [calls[|calls| - 1]] + Reversed(calls[..|calls| - 1])
  }

  // ------------------------------------------------------- what is guaranteed

  function Characters(calls: seq<Call>): nat {
    if calls == [] then 0 else |calls[0].prompt| + Characters(calls[1..])
  }

  /** At most two prompts and 1,600 characters are injected, whatever was queued. */
  lemma {:induction false} WithinBudget(mainPrompt: string, taken: seq<Call>, k: nat)
    requires k <= |taken|
    ensures var injected, p := InjectedFrom(mainPrompt, taken, k), Before(mainPrompt, taken, k);
            && |injected| == p.count <= MAX_INJECTED
            && Characters(injected) + p.budget == PROMPT_BUDGET
    decreases |taken| - k
  {
    hide Trim;
    if k < |taken| {
      WithinBudget(mainPrompt, taken, k + 1);
      var fate := Fates(mainPrompt, taken, k);
      if fate.Injected? {
        var c := taken[k].(prompt := fate.prompt);
        assert ([c] + InjectedFrom(mainPrompt, taken, k + 1))[1..] == InjectedFrom(mainPrompt, taken, k + 1);
      } else {
        assert [] + InjectedFrom(mainPrompt, taken, k + 1) == InjectedFrom(mainPrompt, taken, k + 1);
      }
    }
  }

  predicate IsInjected(f: Fate, prompt: string) {
    f == Injected(prompt)
  }

  /** Every prompt seen is the main one or one injected from a later call. */
  lemma {:induction false} SeenComeFrom(mainPrompt: string, taken: seq<Call>, k: nat, prompt: string)
    requires k <= |taken| && prompt in Before(mainPrompt, taken, k).seen
    ensures prompt == Trim(mainPrompt)
         || exists j :: k <= j < |taken| && IsInjected(Fates(mainPrompt, taken, j), prompt)
    decreases |taken| - k
  {
    hide Trim, FateOf;
    if k < |taken| {
      if prompt in Before(mainPrompt, taken, k + 1).seen {
        SeenComeFrom(mainPrompt, taken, k + 1, prompt);
      } else {
        assert IsInjected(Fates(mainPrompt, taken, k), prompt);
      }
    }
  }

  /** A call is dropped only as an exact repeat of the main prompt or of an injected one. */
  lemma DroppedIsRepeat(mainPrompt: string, taken: seq<Call>, k: nat)
    requires k < |taken| && Fates(mainPrompt, taken, k).Dropped?
    ensures Trim(taken[k].prompt) != ""
    ensures Trim(taken[k].prompt) == Trim(mainPrompt)
         || exists j :: k < j < |taken| && IsInjected(Fates(mainPrompt, taken, j), Trim(taken[k].prompt))
  {
    hide Trim, Before;
    SeenComeFrom(mainPrompt, taken, k + 1, Trim(taken[k].prompt));
  }

  predicate HasPrompt(calls: seq<Call>, prompt: string) {
    exists i :: 0 <= i < |calls| && calls[i].prompt == prompt
  }

  /** The prompts seen are exactly the main one and those injected so far. */
  lemma {:induction false} SeenExactly(mainPrompt: string, taken: seq<Call>, k: nat, prompt: string)
    requires k <= |taken| && prompt != ""
    ensures prompt in Before(mainPrompt, taken, k).seen <==>
              prompt == Trim(mainPrompt) || HasPrompt(InjectedFrom(mainPrompt, taken, k), prompt)
    decreases |taken| - k
  {
    hide Trim, FateOf;
    if k < |taken| {
      SeenExactly(mainPrompt, taken, k + 1, prompt);
      var fate, rest := Fates(mainPrompt, taken, k), InjectedFrom(mainPrompt, taken, k + 1);
      if fate.Injected? {
        var all := [taken[k].(prompt := fate.prompt)] + rest;
        assert all[0].prompt == fate.prompt;
        assert forall i :: 0 <= i < |rest| ==> all[i + 1] == rest[i];
        assert HasPrompt(all, prompt) <==> fate.prompt == prompt || HasPrompt(rest, prompt);
      } else {
        assert [] + rest == rest;
      }
    }
  }

  /**
  Exactly what becomes of a taken call, told from the calls injected after it.
  While fewer than two are in and characters are left, an exact repeat of the
  main prompt or of an injected one is dropped, and any other prompt that is not
  blank is injected: whole if it fits into what is left of 1,600 characters,
  else cut to it, if that leaves room for more than the ellipsis.  Everything
  else is put back.
  */
  lemma FateIff(mainPrompt: string, taken: seq<Call>, k: nat)
    requires k < |taken|
    ensures var later, fate, prompt := InjectedFrom(mainPrompt, taken, k + 1), Fates(mainPrompt, taken, k), Trim(taken[k].prompt);
            var left := 1600 - Characters(later);
            var room := |later| < 2 && left > 0 && prompt != "";
            var repeated := prompt == Trim(mainPrompt) || HasPrompt(later, prompt);
            && (fate.Dropped? <==> room && repeated)
            && (fate.Injected? <==> room && !repeated && (|prompt| <= left || left > 1))
            && (fate.Injected? && |prompt| <= left ==> fate.prompt == prompt)
            && (fate.Injected? && |prompt| > left ==> fate.prompt == prompt[..left - 1] + ELLIPSIS)
  {
    hide Trim, Before, InjectedFrom;
    WithinBudget(mainPrompt, taken, k + 1);
    if Trim(taken[k].prompt) != "" {
      SeenExactly(mainPrompt, taken, k + 1, Trim(taken[k].prompt));
    }
  }

  /** An injected prompt is the trimmed one, cut only where it would exceed the budget then left. */
  lemma InjectedIsTrimmed(mainPrompt: string, taken: seq<Call>, k: nat)
    requires k < |taken| && Fates(mainPrompt, taken, k).Injected?
    ensures var prompt, whole := Fates(mainPrompt, taken, k).prompt, Trim(taken[k].prompt);
            && prompt != ""
            && (prompt == whole
                || (|prompt| < |whole| && prompt == whole[..|prompt| - 1] + ELLIPSIS
                    && Before(mainPrompt, taken, k).budget == 0))
  {
    hide Trim;
  }

  /** The original calls injected, or else those dropped, from `k` on. */
  function Gone(mainPrompt: string, taken: seq<Call>, k: nat, injected: bool): seq<Call>
    requires k <= |taken|
    decreases |taken| - k
  {
    if k == |taken| then []
    else Gone(mainPrompt, taken, k + 1, injected)
         + (if (if injected then Fates(mainPrompt, taken, k).Injected? else Fates(mainPrompt, taken, k).Dropped?)
            then [taken[k]] else [])
  }

  /** Each taken call meets exactly one fate, and the ones put back are put back unchanged. */
  lemma {:induction false} EachHasOneFate(mainPrompt: string, taken: seq<Call>, k: nat, c: Call)
    requires k <= |taken|
    ensures Times(taken[k..], c)
         == Times(Gone(mainPrompt, taken, k, true), c) + Times(Gone(mainPrompt, taken, k, false), c)
            + Times(RequeuedFrom(mainPrompt, taken, k), c)
    decreases |taken| - k
  {
    hide Bare, FateOf, Times, After, Before;
    TimesNone(c);
    if k == |taken| {
      assert taken[k..] == [];
    } else {
      EachHasOneFate(mainPrompt, taken, k + 1, c);
      assert taken[k..] == [taken[k]] + taken[k + 1..];
      TimesConcat([taken[k]], taken[k + 1..], c);
      var injected, dropped := Gone(mainPrompt, taken, k + 1, true), Gone(mainPrompt, taken, k + 1, false);
      var requeued := RequeuedFrom(mainPrompt, taken, k + 1);
      TimesConcat(injected, [taken[k]], c);
      TimesConcat(dropped, [taken[k]], c);
      TimesConcat(requeued, [taken[k]], c);
      assert injected + [] == injected && dropped + [] == dropped && requeued + [] == requeued;
    }
  }

  /** The calls put back from `k` on, in the order they were queued in. */
  function PutBackFrom(mainPrompt: string, taken: seq<Call>, k: nat): seq<Call>
    requires k <= |taken|
    decreases |taken| - k
  {
    if k == |taken| then []
    else (if Fates(mainPrompt, taken, k).Requeued? then [taken[k]] else []) + PutBackFrom(mainPrompt, taken, k + 1)
  }

  lemma {:induction false} ReversedPrepend(c: Call, calls: seq<Call>)
    ensures Reversed([c] + calls) == Reversed(calls) + [c]
  {
    if calls == [] {
      assert [c] + calls == [c] && [c][..0] == [];
      assert Reversed([c]) == [c] + Reversed([]);
    } else {
      var front, x := calls[..|calls| - 1], calls[|calls| - 1];
      assert [c] + calls == ([c] + front) + [x];
      ReversedAppend([c] + front, x);
      ReversedPrepend(c, front);
      assert calls == front + [x];
      ReversedAppend(front, x);
    }
  }

  /** Whatever is taken, the calls put back come back in reverse. */
  lemma {:induction false} RequeueReverses(mainPrompt: string, taken: seq<Call>, k: nat)
    requires k <= |taken|
    ensures RequeuedFrom(mainPrompt, taken, k) == Reversed(PutBackFrom(mainPrompt, taken, k))
    decreases |taken| - k
  {
    hide Fates, Reversed;
    if k == |taken| {
      ReversedNone();
    } else {
      var more := PutBackFrom(mainPrompt, taken, k + 1);
      RequeueReverses(mainPrompt, taken, k + 1);
      if Fates(mainPrompt, taken, k).Requeued? {
        ReversedPrepend(taken[k], more);
      } else {
        assert [] + more == more && Reversed(more) + [] == Reversed(more);
      }
    }
  }

  lemma {:induction false} ReversedAt(calls: seq<Call>, i: nat)
    requires i < |calls|
    ensures |Reversed(calls)| == |calls| && Reversed(calls)[i] == calls[|calls| - 1 - i]
  {
    if |calls| > 1 {
      ReversedAt(calls[..|calls| - 1], if i > 0 then i - 1 else 0);
    }
  }

  predicate Distinct(calls: seq<Call>) {
    forall i, j :: 0 <= i < j < |calls| ==> calls[i] != calls[j]
  }

  lemma DistinctPrepend(c: Call, calls: seq<Call>)
    requires Distinct(calls) && c !in calls
    ensures Distinct([c] + calls)
    ensures [] + calls == calls
  {
  }

  /** Distinct calls stay distinct when they are put back, and each is one of those taken. */
  lemma {:induction false} PutBackAreTaken(mainPrompt: string, taken: seq<Call>, k: nat)
    requires k <= |taken|
    ensures forall c :: c in PutBackFrom(mainPrompt, taken, k) ==> c in taken[k..]
    ensures Distinct(taken) ==> Distinct(PutBackFrom(mainPrompt, taken, k))
    decreases |taken| - k
  {
    hide Fates;
    if k < |taken| {
      PutBackAreTaken(mainPrompt, taken, k + 1);
      assert taken[k..] == [taken[k]] + taken[k + 1..];
      if Distinct(taken) {
        assert taken[k] !in taken[k + 1..];
        DistinctPrepend(taken[k], PutBackFrom(mainPrompt, taken, k + 1));
      }
    }
  }

  /**
  The queue keeps the order of the calls put back exactly when they read the
  same from both ends; for distinct calls, exactly when at most one is put back.
  */
  lemma OrderKeptIff(mainPrompt: string, taken: seq<Call>)
    ensures var p := PutBackFrom(mainPrompt, taken, 0);
            && (RequeuedFrom(mainPrompt, taken, 0) == p <==> forall i :: 0 <= i < |p| ==> p[i] == p[|p| - 1 - i])
            && (Distinct(taken) ==> (RequeuedFrom(mainPrompt, taken, 0) == p <==> |p| <= 1))
  {
    hide Fates, RequeuedFrom, PutBackFrom, Reversed;
    var p := PutBackFrom(mainPrompt, taken, 0);
    RequeueReverses(mainPrompt, taken, 0);
    PutBackAreTaken(mainPrompt, taken, 0);
    ReversedLength(p);
    forall i | 0 <= i < |p| ensures Reversed(p)[i] == p[|p| - 1 - i] {
      ReversedAt(p, i);
    }
    if |p| > 1 {
      assert p[0] == p[|p| - 1] <==> Reversed(p)[0] == p[0];
    }
  }

  lemma ReversedLength(calls: seq<Call>)
    ensures |Reversed(calls)| == |calls|
  {
    if calls == [] {
      ReversedNone();
    } else {
      ReversedAt(calls, 0);
    }
  }

  /** Two blank prompts come back in reverse. */
  lemma OrderCanBeLost(a: Call, b: Call)
    requires Trim(a.prompt) == "" && Trim(b.prompt) == "" && a != b
    ensures PutBackFrom("", [a, b], 0) == [a, b] && RequeuedFrom("", [a, b], 0) == [b, a]
  {
    hide Trim;
    var taken := [a, b];
    assert Fates("", taken, 1).Requeued? && Fates("", taken, 0).Requeued?;
    assert PutBackFrom("", taken, 2) == [] && PutBackFrom("", taken, 1) == [b];
    assert RequeuedFrom("", taken, 2) == [] && RequeuedFrom("", taken, 1) == [b];
  }
}
