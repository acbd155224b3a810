/**
Concurrent execution of the calls of one step: a coordinator that hands
parallel calls to at most five workers and runs the others itself, under every
schedule.
*/
module ToolExecutor {
  import opened Common
  import opened StepContent
  import T = Transcript

  const PARALLEL_SLOTS := 5

  // ----------------------------------------------------------------- one tool

  datatype ToolResponse = ToolResponse(kind: string, content: string, data: string, mime: string, isError: bool, stopTurn: bool)

  /** How running a tool ended: with a response, or with an error, which is critical. */
  datatype Ran = Answered(response: ToolResponse) | Broke(error: string, stopTurn: bool)

  /** The tools of the step by name, and whether a call of theirs may run beside others. */
  datatype Toolbox = Toolbox(known: string -> bool, parallel: string -> bool)

  function OutputOf(r: ToolResponse): T.Output {
    if r.isError then T.ErrorOutput(r.content)
    else if r.kind == "image" || r.kind == "media" then T.MediaOutput(r.data, r.mime)
    else T.TextOutput(r.content)
  }

  /** The model is told what happened to its call, and only a tool that ran can end the turn. */
  predicate Reports(tools: Toolbox, call: ToolCall, ran: Ran, r: ToolResult) {
    var known := tools.known(call.name);
    && (r.stopTurn ==> call.invalid.None? && known)
    && (call.invalid.Some? ==> r.output == T.ErrorOutput(call.invalid.value))
    && (call.invalid.None? && !known ==> r.output == T.ErrorOutput("tool not found: " + call.name))
    && (call.invalid.None? && known && ran.Broke? ==> r.output == T.ErrorOutput(ran.error) && r.stopTurn == ran.stopTurn)
    && (call.invalid.None? && known && ran.Answered? ==>
          && r.stopTurn == ran.response.stopTurn
          && (r.output.ErrorOutput? <==> ran.response.isError)
          && (r.output.MediaOutput? <==> !ran.response.isError && ran.response.kind in {"image", "media"})
          && match r.output
             case ErrorOutput(message) => message == ran.response.content
             case MediaOutput(data, mime) => data == ran.response.data && mime == ran.response.mime
             case TextOutput(text) => text == ran.response.content
             case NoOutput => false)
  }

  /** The result of one call, and the critical error it raised, if any. */
  function ExecuteSingleTool(tools: Toolbox, call: ToolCall, ran: Ran): (r: (ToolResult, Option<string>))
    ensures r.0.id == call.id && !r.0.providerExecuted
    ensures r.1.Some? <==> call.invalid.None? && tools.known(call.name) && ran.Broke?
    ensures r.1.Some? ==> r.0.output == T.ErrorOutput(r.1.value)
    ensures r.0.name == call.name
    ensures Reports(tools, call, ran, r.0)
  {
    if call.invalid.Some? then
      (ToolResult(call.id, call.name, T.ErrorOutput(call.invalid.value), false, false), None)
    else if !tools.known(call.name) then
      (ToolResult(call.id, call.name, T.ErrorOutput("tool not found: " + call.name), false, false), None)
    else
      match ran
      case Broke(error, stop) => (ToolResult(call.id, call.name, T.ErrorOutput(error), false, stop), Some(error))
      case Answered(r) => (ToolResult(call.id, call.name, OutputOf(r), false, r.stopTurn), None)
  }

  // ---------------------------------------------------------------- the system

  /** The coordinator is ready for the next call, waits for a slot for one, or runs one itself. */
  datatype Coordinator = Ready | Waiting(i: nat) | InSequence(i: nat)

  datatype Entry = Entry(i: nat, result: ToolResult, critical: Option<string>)

  /** `running` workers execute a call; `leaving` ones have recorded its result but still hold their slot. */
  datatype State = State(
    next: nat,
    coordinator: Coordinator,
    running: set<nat>,
    leaving: set<nat>,
    log: seq<Entry>,
    error: Option<string>)

  datatype Action =
    | Take
    | Acquire
    | FinishParallel(i: nat, ran: Ran)
    | Release(i: nat)
    | FinishSequential(ran: Ran)

  const START := State(0, Ready, {}, {}, [], None)

  function Record(s: State, e: Entry): State {
    s.(log := s.log + [e], error := if s.error.None? then e.critical else s.error)
  }

  function EntryOf(tools: Toolbox, calls: seq<ToolCall>, i: nat, ran: Ran): Entry
    requires i < |calls|
  {
    var (result, critical) := ExecuteSingleTool(tools, calls[i], ran);
    Entry(i, result, critical)
  }

  /** One atomic step; None when it is not enabled. */
  function Step(tools: Toolbox, calls: seq<ToolCall>, s: State, a: Action): Option<State> {
    match a
    case Take =>
      if s.coordinator.Ready? && s.next < |calls| then
        Some(s.(next := s.next + 1,
                coordinator := if tools.parallel(calls[s.next].name) then Waiting(s.next) else InSequence(s.next)))
      else None
    case Acquire =>
      if s.coordinator.Waiting? && |s.running| + |s.leaving| < PARALLEL_SLOTS then
        Some(s.(coordinator := Ready, running := s.running + {s.coordinator.i}))
      else None
    case FinishParallel(i, ran) =>
      if i in s.running && i < |calls| then
        Some(Record(s, EntryOf(tools, calls, i, ran)).(running := s.running - {i}, leaving := s.leaving + {i}))
      else None
    case Release(i) =>
      if i in s.leaving then Some(s.(leaving := s.leaving - {i})) else None
    case FinishSequential(ran) =>
      if s.coordinator.InSequence? && s.coordinator.i < |calls| then
        Some(Record(s, EntryOf(tools, calls, s.coordinator.i, ran)).(coordinator := Ready))
      else None
  }

  /** The channel is drained, the coordinator is done and every worker has returned its slot. */
  predicate Done(calls: seq<ToolCall>, s: State) {
    s.next == |calls| && s.coordinator.Ready? && s.running == {} && s.leaving == {}
  }

  function Exec(tools: Toolbox, calls: seq<ToolCall>, s: State, actions: seq<Action>): Option<State>
    decreases |actions|
  {
    if actions == [] then Some(s) else
    match Step(tools, calls, s, actions[0])
    case None => None
    case Some(s') => Exec(tools, calls, s', actions[1..])
  }

  ghost predicate Reachable(tools: Toolbox, calls: seq<ToolCall>, s: State) {
    exists actions :: Exec(tools, calls, START, actions) == Some(s)
  }

  // --------------------------------------------------------------- invariants

  function Times(log: seq<Entry>, i: nat): nat {
    if log == [] then 0 else Times(log[..|log| - 1], i) + (if log[|log| - 1].i == i then 1 else 0)
  }

  function One(b: bool): nat {
    if b then 1 else 0
  }

  predicate Holds(c: Coordinator, i: nat) {
    !c.Ready? && c.i == i
  }

  /** Each call taken so far is in exactly one place: held, running, or recorded once. */
  ghost predicate Placed(s: State) {
    forall i: nat :: Times(s.log, i) + One(i in s.running) + One(Holds(s.coordinator, i)) == One(i < s.next)
  }

  /** Workers run parallel calls only, and the coordinator holds the call it took last. */
  ghost predicate Slots(tools: Toolbox, calls: seq<ToolCall>, s: State) {
    && s.next <= |calls|
    && (!s.coordinator.Ready? ==> s.coordinator.i == s.next - 1)
    && (s.coordinator.Waiting? ==> s.next > 0 && tools.parallel(calls[s.next - 1].name))
    && (s.coordinator.InSequence? ==> s.next > 0 && !tools.parallel(calls[s.next - 1].name))
    && (forall i :: i in s.running ==> i < s.next && tools.parallel(calls[i].name))
    && (forall i :: i in s.leaving ==> i !in s.running && Times(s.log, i) > 0)
  }

  predicate AtMostFive(s: State) {
    |s.running| + |s.leaving| <= PARALLEL_SLOTS
  }

  ghost predicate IsResult(tools: Toolbox, calls: seq<ToolCall>, e: Entry) {
    e.i < |calls| && exists ran :: e == EntryOf(tools, calls, e.i, ran)
  }

  /** Each entry is a result of its own call. */
  ghost predicate Entries(tools: Toolbox, calls: seq<ToolCall>, s: State) {
    forall k :: 0 <= k < |s.log| ==> IsResult(tools, calls, s.log[k])
  }

  predicate IsSequential(tools: Toolbox, calls: seq<ToolCall>, i: nat) {
    i < |calls| && !tools.parallel(calls[i].name)
  }

  /** Calls that do not run in parallel are recorded in the order they were made. */
  ghost predicate SequentialOrder(tools: Toolbox, calls: seq<ToolCall>, log: seq<Entry>) {
    forall a, b :: 0 <= a < b < |log| && IsSequential(tools, calls, log[a].i) && IsSequential(tools, calls, log[b].i) ==>
      log[a].i < log[b].i
  }

  /** The error of the earliest critical entry. */
  function FirstCritical(log: seq<Entry>): Option<string> {
    if log == [] then None
    else if log[0].critical.Some? then log[0].critical
    else FirstCritical(log[1..])
  }

  ghost predicate Inv(tools: Toolbox, calls: seq<ToolCall>, s: State) {
    && Placed(s)
    && Slots(tools, calls, s)
    && AtMostFive(s)
    && Entries(tools, calls, s)
    && SequentialOrder(tools, calls, s.log)
    && s.error == FirstCritical(s.log)
  }

  lemma TimesAppend(log: seq<Entry>, e: Entry, i: nat)
    ensures Times(log + [e], i) == Times(log, i) + One(e.i == i)
  {
    assert (log + [e])[..|log|] == log;
  }

  lemma {:induction false} FirstCriticalAppend(log: seq<Entry>, e: Entry)
    ensures FirstCritical(log + [e]) == if FirstCritical(log).None? then e.critical else FirstCritical(log)
  {
    if log == [] {
      assert (log + [e])[1..] == [];
    } else {
      assert (log + [e])[1..] == log[1..] + [e];
      FirstCriticalAppend(log[1..], e);
    }
  }

  lemma {:induction false} TimesOf(log: seq<Entry>, k: nat)
    requires k < |log|
    ensures Times(log, log[k].i) > 0
  {
    if k < |log| - 1 {
      TimesOf(log[..|log| - 1], k);
    }
  }

  lemma PlacedStep(tools: Toolbox, calls: seq<ToolCall>, s: State, a: Action, s': State)
    requires Placed(s) && Slots(tools, calls, s) && Step(tools, calls, s, a) == Some(s')
    ensures Placed(s')
  {
    hide EntryOf, Times, AtMostFive;
    forall i: nat
      ensures Times(s'.log, i) + One(i in s'.running) + One(Holds(s'.coordinator, i)) == One(i < s'.next)
    {
      assert Times(s.log, i) + One(i in s.running) + One(Holds(s.coordinator, i)) == One(i < s.next);
      Recorded(tools, calls, s, a, s', i);
    }
  }

  lemma EntryIndex(tools: Toolbox, calls: seq<ToolCall>, i: nat, ran: Ran)
    requires i < |calls|
    ensures EntryOf(tools, calls, i, ran).i == i
  {
  }

  /** What a step records: nothing, or one entry. */
  lemma Recorded(tools: Toolbox, calls: seq<ToolCall>, s: State, a: Action, s': State, i: nat)
    requires Step(tools, calls, s, a) == Some(s')
    ensures Times(s'.log, i) == Times(s.log, i)
              + One((a.FinishParallel? && a.i == i) || (a.FinishSequential? && Holds(s.coordinator, i)))
  {
    hide Times, ExecuteSingleTool;
    if a.FinishParallel? {
      TimesAppend(s.log, EntryOf(tools, calls, a.i, a.ran), i);
    } else if a.FinishSequential? {
      TimesAppend(s.log, EntryOf(tools, calls, s.coordinator.i, a.ran), i);
    }
  }

  lemma SlotsStep(tools: Toolbox, calls: seq<ToolCall>, s: State, a: Action, s': State)
    requires Placed(s) && Slots(tools, calls, s) && Step(tools, calls, s, a) == Some(s')
    ensures Slots(tools, calls, s')
  {
    hide EntryOf, Times, AtMostFive;
    forall i | i in s'.leaving ensures i !in s'.running && Times(s'.log, i) > 0 {
      Recorded(tools, calls, s, a, s', i);
      assert Times(s.log, i) + One(i in s.running) + One(Holds(s.coordinator, i)) == One(i < s.next);
    }
  }

  lemma FiveStep(tools: Toolbox, calls: seq<ToolCall>, s: State, a: Action, s': State)
    requires AtMostFive(s) && Step(tools, calls, s, a) == Some(s')
    ensures AtMostFive(s')
  {
    hide EntryOf;
  }

  lemma EntriesStep(tools: Toolbox, calls: seq<ToolCall>, s: State, a: Action, s': State)
    requires Entries(tools, calls, s) && Step(tools, calls, s, a) == Some(s')
    ensures Entries(tools, calls, s')
  {
    hide EntryOf;
    if a.FinishParallel? {
      EntryIndex(tools, calls, a.i, a.ran);
      assert s'.log == s.log + [EntryOf(tools, calls, a.i, a.ran)];
    } else if a.FinishSequential? {
      EntryIndex(tools, calls, s.coordinator.i, a.ran);
      assert s'.log == s.log + [EntryOf(tools, calls, s.coordinator.i, a.ran)];
    }
  }

  /** A call the coordinator runs itself comes after every call recorded so far. */
  lemma OrderStep(tools: Toolbox, calls: seq<ToolCall>, s: State, a: Action, s': State)
    requires Placed(s) && Slots(tools, calls, s) && SequentialOrder(tools, calls, s.log)
    requires Step(tools, calls, s, a) == Some(s')
    ensures SequentialOrder(tools, calls, s'.log)
  {
    hide EntryOf, Times;
    if a.FinishParallel? {
      EntryIndex(tools, calls, a.i, a.ran);
    } else if a.FinishSequential? {
      var i := s.coordinator.i;
      EntryIndex(tools, calls, i, a.ran);
      forall k | 0 <= k < |s.log| ensures s.log[k].i < i {
        var j := s.log[k].i;
        TimesOf(s.log, k);
        assert Times(s.log, j) + One(j in s.running) + One(Holds(s.coordinator, j)) == One(j < s.next);
      }
    }
  }

  lemma ErrorStep(tools: Toolbox, calls: seq<ToolCall>, s: State, a: Action, s': State)
    requires s.error == FirstCritical(s.log) && Step(tools, calls, s, a) == Some(s')
    ensures s'.error == FirstCritical(s'.log)
  {
    hide EntryOf, FirstCritical;
    if a.FinishParallel? {
      FirstCriticalAppend(s.log, EntryOf(tools, calls, a.i, a.ran));
    } else if a.FinishSequential? {
      FirstCriticalAppend(s.log, EntryOf(tools, calls, s.coordinator.i, a.ran));
    }
  }

  lemma StepKeepsInv(tools: Toolbox, calls: seq<ToolCall>, s: State, a: Action, s': State)
    requires Inv(tools, calls, s) && Step(tools, calls, s, a) == Some(s')
    ensures Inv(tools, calls, s')
  {
    hide Placed, Slots, AtMostFive, Entries, SequentialOrder, FirstCritical, Step;
    PlacedStep(tools, calls, s, a, s');
    SlotsStep(tools, calls, s, a, s');
    FiveStep(tools, calls, s, a, s');
    EntriesStep(tools, calls, s, a, s');
    OrderStep(tools, calls, s, a, s');
    ErrorStep(tools, calls, s, a, s');
  }

  lemma {:induction false} ExecKeepsInv(tools: Toolbox, calls: seq<ToolCall>, s: State, actions: seq<Action>, s': State)
    requires Inv(tools, calls, s) && Exec(tools, calls, s, actions) == Some(s')
    ensures Inv(tools, calls, s')
    decreases |actions|
  {
    hide Inv, Step;
    if actions != [] {
      var m := Step(tools, calls, s, actions[0]).value;
      StepKeepsInv(tools, calls, s, actions[0], m);
      ExecKeepsInv(tools, calls, m, actions[1..], s');
    }
  }

  /** Every reachable state, under every schedule, satisfies the invariants. */
  lemma ReachableInv(tools: Toolbox, calls: seq<ToolCall>, s: State)
    requires Reachable(tools, calls, s)
    ensures Inv(tools, calls, s)
  {
    hide Exec;
    var actions :| Exec(tools, calls, START, actions) == Some(s);
    assert Inv(tools, calls, START);
    ExecKeepsInv(tools, calls, START, actions, s);
  }

  // ------------------------------------------------------------ main results

  /**
  Under every schedule at most five parallel calls and one other run at once,
  and a call that may not run beside others has been answered before the
  coordinator goes on to a later one.
  */
  lemma Concurrency(tools: Toolbox, calls: seq<ToolCall>, s: State, i: nat)
    requires Reachable(tools, calls, s)
    ensures |s.running| <= 5
    ensures i in s.running ==> i < |calls| && tools.parallel(calls[i].name)
    ensures i < s.next && IsSequential(tools, calls, i) ==>
      Times(s.log, i) == 1 || (s.coordinator == InSequence(i) && i == s.next - 1)
    ensures SequentialOrder(tools, calls, s.log)
  {
    hide Reachable, EntryOf, Times, SequentialOrder, FirstCritical, Entries;
    ReachableInv(tools, calls, s);
    assert Times(s.log, i) + One(i in s.running) + One(Holds(s.coordinator, i)) == One(i < s.next);
  }

  /** How many steps may still be taken. */
  function Left(calls: seq<ToolCall>, s: State): int {
    4 * (|calls| - s.next) + (if s.coordinator.Waiting? then 3 else if s.coordinator.InSequence? then 1 else 0)
    + 2 * |s.running| + |s.leaving|
  }

  lemma AddOne(xs: set<nat>, i: nat)
    ensures |xs + {i}| <= |xs| + 1
    ensures i in xs ==> |xs - {i}| == |xs| - 1
  {
    if i in xs {
      assert xs + {i} == xs;
    }
  }

  lemma FinishUses(calls: seq<ToolCall>, s: State, i: nat, s': State)
    requires i in s.running && s'.next == s.next && s'.coordinator == s.coordinator
    requires s'.running == s.running - {i} && s'.leaving == s.leaving + {i}
    ensures Left(calls, s') < Left(calls, s)
  {
    AddOne(s.running, i);
    AddOne(s.leaving, i);
  }

  lemma StepUses(tools: Toolbox, calls: seq<ToolCall>, s: State, a: Action, s': State)
    requires Step(tools, calls, s, a) == Some(s')
    ensures Left(calls, s') < Left(calls, s)
  {
    hide EntryOf;
    if a.Acquire? {
      AddOne(s.running, s.coordinator.i);
    } else if a.FinishParallel? {
      FinishUses(calls, s, a.i, s');
    } else if a.Release? {
      AddOne(s.leaving, a.i);
    }
  }

  /** Nobody ever waits for ever: a run that is not finished has a next step, whatever the tools answer. */
  lemma NotStuck(tools: Toolbox, calls: seq<ToolCall>, s: State, ran: Ran)
    requires Reachable(tools, calls, s) && !Done(calls, s)
    ensures exists a :: Step(tools, calls, s, a).Some? && (a.FinishParallel? || a.FinishSequential? ==> a.ran == ran)
  {
    hide Reachable, EntryOf, Times, Placed, SequentialOrder, FirstCritical, Entries;
    ReachableInv(tools, calls, s);
    if i :| i in s.running {
      assert Step(tools, calls, s, FinishParallel(i, ran)).Some?;
    } else if i :| i in s.leaving {
      assert Step(tools, calls, s, Release(i)).Some?;
    } else if s.coordinator.Waiting? {
      assert s.running == {} && s.leaving == {};
      assert Step(tools, calls, s, Acquire).Some?;
    } else if s.coordinator.InSequence? {
      assert Step(tools, calls, s, FinishSequential(ran)).Some?;
    } else {
      assert Step(tools, calls, s, Take).Some?;
    }
  }

  /** Every schedule is finished after at most four steps per call. */
  lemma {:induction false} RunsAreShort(tools: Toolbox, calls: seq<ToolCall>, s: State, actions: seq<Action>, s': State)
    requires Exec(tools, calls, s, actions) == Some(s') && s'.next <= |calls|
    ensures |actions| <= Left(calls, s)
    decreases |actions|
  {
    hide Step;
    if actions != [] {
      var m := Step(tools, calls, s, actions[0]).value;
      StepUses(tools, calls, s, actions[0], m);
      RunsAreShort(tools, calls, m, actions[1..], s');
    }
  }

  lemma ExecutorTerminates(tools: Toolbox, calls: seq<ToolCall>, actions: seq<Action>)
    requires Exec(tools, calls, START, actions).Some?
    ensures |actions| <= 4 * |calls|
  {
    hide Exec;
    var s := Exec(tools, calls, START, actions).value;
    ReachableInv(tools, calls, s);
    RunsAreShort(tools, calls, START, actions, s);
  }

  // --------------------------------------------------------------- the results

  function Indices(log: seq<Entry>): seq<nat> {
    seq(|log|, k requires 0 <= k < |log| => log[k].i)
  }

  function ResultId(e: Entry): Id {
    e.result.id
  }

  function IdAt(calls: seq<ToolCall>, i: nat): Id {
    if i < |calls| then calls[i].id else T.Id("")
  }

  function Upto(n: nat): seq<nat> {
    seq(n, i => i)
  }

  lemma CountAppend(xs: seq<nat>, x: nat, i: nat)
    ensures multiset(xs + [x])[i] == multiset(xs)[i] + One(x == i)
  {
    assert multiset(xs + [x]) == multiset(xs) + multiset{x};
  }

  lemma {:induction false} TimesIsCount(log: seq<Entry>, i: nat)
    ensures multiset(Indices(log))[i] == Times(log, i)
  {
    if log != [] {
      var front, e := log[..|log| - 1], log[|log| - 1];
      TimesIsCount(front, i);
      CountAppend(Indices(front), e.i, i);
      assert Indices(log) == Indices(front) + [e.i];
    }
  }

  lemma {:induction false} UptoCount(n: nat, i: nat)
    ensures multiset(Upto(n))[i] == One(i < n)
  {
    if n > 0 {
      UptoCount(n - 1, i);
      CountAppend(Upto(n - 1), n - 1, i);
      assert Upto(n) == Upto(n - 1) + [n - 1];
    }
  }

  lemma DoneIndices(tools: Toolbox, calls: seq<ToolCall>, s: State)
    requires Placed(s) && Done(calls, s)
    ensures multiset(Indices(s.log)) == multiset(Upto(|calls|))
  {
    var recorded, made := multiset(Indices(s.log)), multiset(Upto(|calls|));
    forall i: nat | i in recorded || i in made ensures recorded[i] == made[i] {
      TimesIsCount(s.log, i);
      UptoCount(|calls|, i);
      assert Times(s.log, i) + One(i in s.running) + One(Holds(s.coordinator, i)) == One(i < s.next);
    }
  }

  /** A finished run has answered every call once: the recorded ids are exactly the dispatched ones. */
  lemma AllAnswered(tools: Toolbox, calls: seq<ToolCall>, s: State)
    requires Reachable(tools, calls, s) && Done(calls, s)
    ensures multiset(Map(ResultId, s.log)) == multiset(IdsOf(calls))
    ensures forall k :: 0 <= k < |s.log| ==> !s.log[k].result.providerExecuted
  {
    hide Reachable, Done, Placed, SequentialOrder, FirstCritical, Slots;
    ReachableInv(tools, calls, s);
    DoneIndices(tools, calls, s);
    var idAt := (i: nat) => IdAt(calls, i);
    MapPermute(idAt, Indices(s.log), Upto(|calls|));
    forall k | 0 <= k < |s.log|
      ensures ResultId(s.log[k]) == idAt(Indices(s.log)[k]) && !s.log[k].result.providerExecuted
    {
      assert IsResult(tools, calls, s.log[k]);
    }
    MapsAgree(ResultId, s.log, idAt, Indices(s.log));
    MapsAgree(IdOf, calls, idAt, Upto(|calls|));
  }

  lemma {:induction false} FirstCriticalIsEarliest(log: seq<Entry>)
    ensures FirstCritical(log).None? <==> forall k :: 0 <= k < |log| ==> log[k].critical.None?
    ensures FirstCritical(log).Some? ==>
      exists k :: 0 <= k < |log| && log[k].critical == FirstCritical(log)
                  && forall j :: 0 <= j < k ==> log[j].critical.None?
  {
    if log != [] {
      FirstCriticalIsEarliest(log[1..]);
      if log[0].critical.Some? {
        assert log[0].critical == FirstCritical(log);
      } else if FirstCritical(log[1..]).Some? {
        var k :| 0 <= k < |log[1..]| && log[1..][k].critical == FirstCritical(log[1..])
                 && forall j :: 0 <= j < k ==> log[1..][j].critical.None?;
        assert log[k + 1].critical == FirstCritical(log);
        assert forall j :: 0 <= j < k + 1 ==> log[j].critical.None? by {
          forall j | 0 <= j < k + 1 ensures log[j].critical.None? {
            if j > 0 {
              assert log[1..][j - 1].critical.None?;
            }
          }
        }
      } else {
        assert forall k :: 0 < k < |log| ==> log[k] == log[1..][k - 1];
      }
    }
  }

  /** The reported error is that of the earliest recorded critical result, and there is one if and only if some tool broke. */
  lemma EarliestErrorReported(tools: Toolbox, calls: seq<ToolCall>, s: State)
    requires Reachable(tools, calls, s)
    ensures s.error.None? <==> forall k :: 0 <= k < |s.log| ==> s.log[k].critical.None?
    ensures s.error.Some? ==>
      exists k :: 0 <= k < |s.log| && s.log[k].critical == s.error
                  && forall j :: 0 <= j < k ==> s.log[j].critical.None?
  {
    hide Reachable, Placed, SequentialOrder, Slots, Entries;
    ReachableInv(tools, calls, s);
    FirstCriticalIsEarliest(s.log);
  }
}
