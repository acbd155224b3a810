/**
Message and steering queues of the sessions.  One operation is what runs under
the lock at a stretch; clearing a session and flushing its stranded steering
calls take the lock more than once, so others can act in between.
*/
module Queue {
  import opened Common

  /** A queued call; `join` lets it join the running turn. */
  datatype Call = Call(turnId: string, prompt: string, join: bool, steering: bool)

  // ------------------------------------------------------------ specification

  /** The queues of one session. */
  datatype Queues = Queues(message: seq<Call>, steering: seq<Call>)

  const EMPTY := Queues([], [])

  datatype Op =
    | Enqueue(call: Call)
    | EnqueueSteer(call: Call)
    | TakeJoin
    | PopNext
    | RemoveAt(index: int)
    | RemoveTurn(turnId: string)
    | Prioritize(index: int)
    | ClearMessages
    | ClearSteering
    | PopSteering
    | PutFront(calls: seq<Call>)

  /** The queues afterwards, what the operation hands out, and what it throws away. */
  datatype Effect = Effect(after: Queues, delivered: seq<Call>, removed: seq<Call>)

  function Joining(calls: seq<Call>, join: bool): seq<Call> {
    if calls == [] then [] else
    Joining(calls[..|calls| - 1], join) + (if calls[|calls| - 1].join == join then [calls[|calls| - 1]] else [])
  }

  predicate Within(calls: seq<Call>, index: int) {
    0 <= index < |calls|
  }

  /** The place of the first call of a turn; the length when there is none. */
  function PlaceOf(calls: seq<Call>, turnId: string): (i: nat)
    ensures i <= |calls|
    ensures i < |calls| ==> calls[i].turnId == turnId
    ensures forall k :: 0 <= k < i ==> calls[k].turnId != turnId
  {
    if calls == [] || calls[0].turnId == turnId then 0 else 1 + PlaceOf(calls[1..], turnId)
  }

  /** `calls` without the one at `i`, if there is one. */
  function Removed(calls: seq<Call>, i: nat): (seq<Call>, seq<Call>) {
    if i < |calls| then (calls[..i] + calls[i + 1..], [calls[i]]) else (calls, [])
  }

  function Prioritized(calls: seq<Call>, i: nat): seq<Call>
    requires i < |calls|
  {
    [calls[i].(join := true)] + calls[..i] + calls[i + 1..]
  }

  function Apply(q: Queues, op: Op): Effect {
    match op
    case Enqueue(c) => Effect(q.(message := q.message + [c]), [], [])
    case EnqueueSteer(c) => Effect(q.(steering := q.steering + [c.(steering := true)]), [], [])
    case TakeJoin => Effect(q.(message := Joining(q.message, false)), Joining(q.message, true), [])
    case PopNext =>
      if q.message == [] then Effect(q, [], []) else Effect(q.(message := q.message[1..]), [q.message[0]], [])
    case RemoveAt(i) =>
      if Within(q.message, i) then Effect(q.(message := Removed(q.message, i).0), [], Removed(q.message, i).1)
      else Effect(q, [], [])
    case RemoveTurn(turnId) =>
      var (message, gone) := Removed(q.message, PlaceOf(q.message, turnId));
      var (steering, gone') := Removed(q.steering, PlaceOf(q.steering, turnId));
      Effect(Queues(message, steering), [], gone + gone')
    case Prioritize(i) => if Within(q.message, i) then Effect(q.(message := Prioritized(q.message, i)), [], []) else Effect(q, [], [])
    case ClearMessages => Effect(q.(message := []), [], q.message)
    case ClearSteering => Effect(q.(steering := []), [], q.steering)
    case PopSteering => Effect(q.(steering := []), q.steering, [])
    case PutFront(calls) => Effect(q.(message := calls + q.message), [], [])
  }

  /** The queues after operations of others. */
  function ApplyAll(q: Queues, ops: seq<Op>): Queues {
    if ops == [] then q else Apply(ApplyAll(q, ops[..|ops| - 1]), ops[|ops| - 1]).after
  }

  /** Flushing: the steering queue is taken, others act, and what was taken goes first. */
  function Flushed(q: Queues, between: seq<Op>): Queues {
    var taken := Apply(q, PopSteering);
    if taken.delivered == [] then taken.after else Apply(ApplyAll(taken.after, between), PutFront(taken.delivered)).after
  }

  /** Clearing: others can act after the check and between the two queues. */
  function Cleared(q: Queues, afterCheck: seq<Op>, between: seq<Op>): Queues {
    var q1 := ApplyAll(q, afterCheck);
    var q2 := if q.message == [] then q1 else Apply(q1, ClearMessages).after;
    Apply(ApplyAll(q2, between), ClearSteering).after
  }

  /** Taking the joining calls out keeps the order of both kinds: the calls are read one by one. */
  lemma {:induction false} JoiningReads(a: seq<Call>, c: Call, b: seq<Call>, join: bool)
    ensures Joining(a + [c] + b, join) == Joining(a, join) + (if c.join == join then [c] else []) + Joining(b, join)
    decreases |b|
  {
    var all := a + [c] + b;
    if b == [] {
      assert all == a + [c];
      assert all[..|all| - 1] == a && all[|all| - 1] == c;
    } else {
      var n := |b| - 1;
      assert all[..|all| - 1] == a + [c] + b[..n] && all[|all| - 1] == b[n];
      JoiningReads(a, c, b[..n], join);
    }
  }

  predicate HasTurn(calls: seq<Call>, turnId: string) {
    exists i :: 0 <= i < |calls| && calls[i].turnId == turnId
  }

  /** `after` is `before` without the call at `i`, the first one of its turn. */
  ghost predicate GoneAt(before: seq<Call>, after: seq<Call>, turnId: string, i: nat) {
    && i < |before| && before[i].turnId == turnId
    && (forall k :: 0 <= k < i ==> before[k].turnId != turnId)
    && after == before[..i] + before[i + 1..]
  }

  /** The first call of the turn is gone, if it has one. */
  ghost predicate FirstGone(before: seq<Call>, after: seq<Call>, turnId: string) {
    if HasTurn(before, turnId) then exists i :: GoneAt(before, after, turnId, i) else after == before
  }

  // -------------------------------------------------------------------- class

  method FindTurn(calls: seq<Call>, turnId: string) returns (index: nat)
    ensures index == PlaceOf(calls, turnId)
  {
    index := 0;
    while index < |calls| && calls[index].turnId != turnId
      invariant index <= PlaceOf(calls, turnId)
    {
      index := index + 1;
    }
  }

  class AgentQueues {
    var messageQueue: map<string, seq<Call>>
    var steeringQueue: map<string, seq<Call>>

    /** An empty queue has no entry. */
    ghost predicate Valid()
      reads this
    {
      && (forall id :: id in messageQueue ==> messageQueue[id] != [])
      && (forall id :: id in steeringQueue ==> steeringQueue[id] != [])
    }

    function QueuedCalls(id: string): seq<Call>
      reads this
    {
      if id in messageQueue then messageQueue[id] else []
    }

    function SteeringCalls(id: string): seq<Call>
      reads this
    {
      if id in steeringQueue then steeringQueue[id] else []
    }

    /** The queues of one session. */
    ghost function Of(id: string): Queues
      reads this
    {
      Queues(QueuedCalls(id), SteeringCalls(id))
    }

    constructor ()
      ensures Valid() && forall id :: Of(id) == EMPTY
    {
      messageQueue, steeringQueue := map[], map[];
    }

    method SetQueuedCalls(id: string, calls: seq<Call>)
      requires Valid()
      modifies this`messageQueue
      ensures Valid() && Of(id) == old(Of(id)).(message := calls)
      ensures forall other :: other != id ==> Of(other) == old(Of(other))
    {
      if |calls| == 0 {
        messageQueue := messageQueue - {id};
        return;
      }
      messageQueue := messageQueue[id := calls];
    }

    method SetSteeringCalls(id: string, calls: seq<Call>)
      requires Valid()
      modifies this`steeringQueue
      ensures Valid() && Of(id) == old(Of(id)).(steering := calls)
      ensures forall other :: other != id ==> Of(other) == old(Of(other))
    {
      if |calls| == 0 {
        steeringQueue := steeringQueue - {id};
        return;
      }
      steeringQueue := steeringQueue[id := calls];
    }

    method EnqueueQueuedCall(id: string, call: Call)
      requires Valid()
      modifies this
      ensures Valid() && Of(id) == Apply(old(Of(id)), Enqueue(call)).after
      ensures Of(id) == old(Of(id)).(message := old(Of(id)).message + [call])
      ensures forall other :: other != id ==> Of(other) == old(Of(other))
    {
      SetQueuedCalls(id, QueuedCalls(id) + [call]);
    }

    method EnqueueSteeringCall(id: string, call: Call)
      requires Valid()
      modifies this
      ensures Valid() && Of(id) == Apply(old(Of(id)), EnqueueSteer(call)).after
      ensures Of(id) == old(Of(id)).(steering := old(Of(id)).steering + [call.(steering := true)])
      ensures forall other :: other != id ==> Of(other) == old(Of(other))
    {
      SetSteeringCalls(id, SteeringCalls(id) + [call.(steering := true)]);
    }

    method TakeJoinActiveRunCalls(id: string) returns (joining: seq<Call>)
      requires Valid()
      modifies this
      ensures Valid() && Of(id) == Apply(old(Of(id)), TakeJoin).after
      ensures joining == Apply(old(Of(id)), TakeJoin).delivered
      ensures joining == Joining(old(Of(id)).message, true)
      ensures Of(id) == old(Of(id)).(message := Joining(old(Of(id)).message, false))
      ensures forall other :: other != id ==> Of(other) == old(Of(other))
    {
      var queuedCalls := QueuedCalls(id);
      if |queuedCalls| == 0 {
        return [];
      }
      joining := [];
      var remaining: seq<Call> := [];
      for i := 0 to |queuedCalls|
        invariant joining == Joining(queuedCalls[..i], true) && remaining == Joining(queuedCalls[..i], false)
      {
        assert queuedCalls[..i + 1][..i] == queuedCalls[..i];
        if queuedCalls[i].join {
          joining := joining + [queuedCalls[i]];
          continue;
        }
        remaining := remaining + [queuedCalls[i]];
      }
      assert queuedCalls[..|queuedCalls|] == queuedCalls;
      SetQueuedCalls(id, remaining);
    }

    method PopNextQueuedCall(id: string) returns (r: Option<Call>)
      requires Valid()
      modifies this
      ensures Valid() && Of(id) == Apply(old(Of(id)), PopNext).after
      ensures (if r.Some? then [r.value] else []) == Apply(old(Of(id)), PopNext).delivered
      ensures if old(Of(id)).message == [] then r == None && Of(id) == old(Of(id))
              else r == Some(old(Of(id)).message[0]) && Of(id) == old(Of(id)).(message := old(Of(id)).message[1..])
      ensures forall other :: other != id ==> Of(other) == old(Of(other))
    {
      var queuedCalls := QueuedCalls(id);
      if |queuedCalls| == 0 {
        return None;
      }
      SetQueuedCalls(id, queuedCalls[1..]);
      return Some(queuedCalls[0]);
    }

    method RemoveQueuedCall(id: string, index: int) returns (ok: bool)
      requires Valid()
      modifies this
      ensures Valid() && Of(id) == Apply(old(Of(id)), RemoveAt(index)).after
      ensures ok <==> 0 <= index < |old(Of(id)).message|
      ensures Of(id) == if ok then old(Of(id)).(message := old(Of(id)).message[..index] + old(Of(id)).message[index + 1..])
                        else old(Of(id))
      ensures forall other :: other != id ==> Of(other) == old(Of(other))
    {
      var queuedCalls := QueuedCalls(id);
      if index < 0 || index >= |queuedCalls| {
        return false;
      }
      SetQueuedCalls(id, queuedCalls[..index] + queuedCalls[index + 1..]);
      return true;
    }

    method RemoveQueuedTurn(id: string, turnId: string) returns (removed: bool)
      requires Valid()
      modifies this
      ensures Valid() && Of(id) == Apply(old(Of(id)), RemoveTurn(turnId)).after
      ensures removed <==> Apply(old(Of(id)), RemoveTurn(turnId)).removed != []
      ensures FirstGone(old(Of(id)).message, Of(id).message, turnId)
      ensures FirstGone(old(Of(id)).steering, Of(id).steering, turnId)
      ensures removed <==> HasTurn(old(Of(id)).message, turnId) || HasTurn(old(Of(id)).steering, turnId)
      ensures forall other :: other != id ==> Of(other) == old(Of(other))
    {
      removed := false;
      var queuedCalls, steering := QueuedCalls(id), SteeringCalls(id);
      var index := FindTurn(queuedCalls, turnId);
      if index < |queuedCalls| {
        SetQueuedCalls(id, queuedCalls[..index] + queuedCalls[index + 1..]);
        removed := true;
        assert GoneAt(queuedCalls, QueuedCalls(id), turnId, index);
      }
      index := FindTurn(steering, turnId);
      if index < |steering| {
        SetSteeringCalls(id, steering[..index] + steering[index + 1..]);
        removed := true;
        assert GoneAt(steering, SteeringCalls(id), turnId, index);
      }
    }

    method PrioritizeQueuedCall(id: string, index: int) returns (ok: bool)
      requires Valid()
      modifies this
      ensures Valid() && Of(id) == Apply(old(Of(id)), Prioritize(index)).after
      ensures ok <==> 0 <= index < |old(Of(id)).message|
      ensures var message := old(Of(id)).message;
              Of(id) == if ok then old(Of(id)).(message := [message[index].(join := true)] + message[..index] + message[index + 1..])
                        else old(Of(id))
      ensures forall other :: other != id ==> Of(other) == old(Of(other))
    {
      var queuedCalls := QueuedCalls(id);
      if index < 0 || index >= |queuedCalls| {
        return false;
      }
      var call := queuedCalls[index].(join := true);
      SetQueuedCalls(id, [call] + queuedCalls[..index] + queuedCalls[index + 1..]);
      return true;
    }

    method ClearQueuedCalls(id: string)
      requires Valid()
      modifies this
      ensures Valid() && Of(id) == Apply(old(Of(id)), ClearMessages).after
      ensures Of(id) == old(Of(id)).(message := [])
      ensures forall other :: other != id ==> Of(other) == old(Of(other))
    {
      messageQueue := messageQueue - {id};
    }

    method ClearSteeringQueue(id: string)
      requires Valid()
      modifies this
      ensures Valid() && Of(id) == Apply(old(Of(id)), ClearSteering).after
      ensures Of(id) == old(Of(id)).(steering := [])
      ensures forall other :: other != id ==> Of(other) == old(Of(other))
    {
      steeringQueue := steeringQueue - {id};
    }

    method PopSteeringCalls(id: string) returns (steering: seq<Call>)
      requires Valid()
      modifies this
      ensures Valid() && Of(id) == Apply(old(Of(id)), PopSteering).after
      ensures steering == Apply(old(Of(id)), PopSteering).delivered
      ensures steering == old(Of(id)).steering && Of(id) == old(Of(id)).(steering := [])
      ensures forall other :: other != id ==> Of(other) == old(Of(other))
    {
      steering := SteeringCalls(id);
      if |steering| == 0 {
        return;
      }
      steeringQueue := steeringQueue - {id};
    }

    method PutFrontCalls(id: string, calls: seq<Call>)
      requires Valid()
      modifies this
      ensures Valid() && Of(id) == Apply(old(Of(id)), PutFront(calls)).after
      ensures Of(id) == old(Of(id)).(message := calls + old(Of(id)).message)
      ensures forall other :: other != id ==> Of(other) == old(Of(other))
    {
      SetQueuedCalls(id, calls + QueuedCalls(id));
    }

    /** Any one operation. */
    method Perform(id: string, op: Op)
      requires Valid()
      modifies this
      ensures Valid() && Of(id) == Apply(old(Of(id)), op).after
      ensures forall other :: other != id ==> Of(other) == old(Of(other))
    {
      hide Apply;
      match op {
        case Enqueue(c) => EnqueueQueuedCall(id, c);
        case EnqueueSteer(c) => EnqueueSteeringCall(id, c);
        case TakeJoin => var _ := TakeJoinActiveRunCalls(id);
        case PopNext => var _ := PopNextQueuedCall(id);
        case RemoveAt(index) => var _ := RemoveQueuedCall(id, index);
        case RemoveTurn(turnId) => var _ := RemoveQueuedTurn(id, turnId);
        case Prioritize(index) => var _ := PrioritizeQueuedCall(id, index);
        case ClearMessages => ClearQueuedCalls(id);
        case ClearSteering => ClearSteeringQueue(id);
        case PopSteering => var _ := PopSteeringCalls(id);
        case PutFront(calls) => PutFrontCalls(id, calls);
      }
    }

    /** What others do while the lock is free. */
    method Others(id: string, ops: seq<Op>)
      requires Valid()
      modifies this
      ensures Valid() && Of(id) == ApplyAll(old(Of(id)), ops)
      ensures forall other :: other != id ==> Of(other) == old(Of(other))
    {
      hide Apply, Valid, Of;
      for i := 0 to |ops|
        invariant Valid() && Of(id) == ApplyAll(old(Of(id)), ops[..i])
        invariant forall other :: other != id ==> Of(other) == old(Of(other))
      {
        assert ops[..i + 1][..i] == ops[..i];
        Perform(id, ops[i]);
      }
      assert ops[..|ops|] == ops;
    }

    method ClearQueue(id: string, afterCheck: seq<Op>, between: seq<Op>)
      requires Valid()
      modifies this
      ensures Valid() && Of(id) == Cleared(old(Of(id)), afterCheck, between)
      ensures forall other :: other != id ==> Of(other) == old(Of(other))
    {
      hide Apply, ApplyAll;
      var queued := QueuedCalls(id);
      Others(id, afterCheck);
      if |queued| > 0 {
        ClearQueuedCalls(id);
      }
      Others(id, between);
      ClearSteeringQueue(id);
    }

    method FlushStrandedSteeringMessages(id: string, between: seq<Op>)
      requires Valid()
      modifies this
      ensures Valid() && Of(id) == Flushed(old(Of(id)), between)
      ensures forall other :: other != id ==> Of(other) == old(Of(other))
    {
      hide Apply, ApplyAll;
      var stranded := PopSteeringCalls(id);
      if |stranded| == 0 {
        return;
      }
      Others(id, between);
      PutFrontCalls(id, stranded);
    }
  }

  /**
  Whatever others do meanwhile, flushed calls go first, in the order they were
  queued in, before everything then in the message queue; steering calls that
  arrive meanwhile stay where they are.
  */
  lemma FlushGoesFirst(q: Queues, between: seq<Op>)
    ensures var rest := ApplyAll(q.(steering := []), between);
            Flushed(q, between) == if q.steering == [] then q else Queues(q.steering + rest.message, rest.steering)
  {
    hide ApplyAll;
  }

  /**
  Clearing always empties the steering queue.  It empties both when the message
  queue was not empty and nobody acts between the two; when the check found the
  message queue empty, whatever arrives after it stays.
  */
  lemma ClearForgets(q: Queues, afterCheck: seq<Op>, between: seq<Op>)
    ensures Cleared(q, afterCheck, between).steering == []
    ensures between == [] && q.message != [] ==> Cleared(q, afterCheck, between) == EMPTY
    ensures q.message == [] ==>
      Cleared(q, afterCheck, between).message == ApplyAll(ApplyAll(q, afterCheck), between).message
  {
    hide ApplyAll;
    NothingDone(q);
  }

  lemma NothingDone(q: Queues)
    ensures forall p :: ApplyAll(p, []) == p
  {
  }

  // ------------------------------------------------------------- conservation

  /** A call apart from how it is to be delivered. */
  function Bare(c: Call): Call {
    c.(join := false, steering := false)
  }

  /** How often a call is among `calls`, however it is to be delivered. */
  function Times(calls: seq<Call>, c: Call): nat {
    if calls == [] then 0 else
    Times(calls[..|calls| - 1], c) + (if Bare(calls[|calls| - 1]) == Bare(c) then 1 else 0)
  }

  function Entered(op: Op): seq<Call> {
    match op
    case Enqueue(c) => [c]
    case EnqueueSteer(c) => [c]
    case PutFront(calls) => calls
    case _ => []
  }

  lemma {:induction false} TimesConcat(a: seq<Call>, b: seq<Call>, c: Call)
    ensures Times(a + b, c) == Times(a, c) + Times(b, c)
    decreases |b|
  {
    hide Bare;
    if b == [] {
      assert a + b == a;
    } else {
      assert (a + b)[..|a + b| - 1] == a + b[..|b| - 1];
      TimesConcat(a, b[..|b| - 1], c);
    }
  }

  lemma TimesOne(x: Call, c: Call)
    ensures Times([x], c) == if Bare(x) == Bare(c) then 1 else 0
  {
    assert [x][..0] == [];
  }

  lemma {:induction false} JoiningSplits(calls: seq<Call>, c: Call)
    ensures Times(calls, c) == Times(Joining(calls, true), c) + Times(Joining(calls, false), c)
  {
    hide Bare;
    if calls != [] {
      var front, x := calls[..|calls| - 1], calls[|calls| - 1];
      JoiningSplits(front, c);
      TimesConcat(Joining(front, x.join), [x], c);
      TimesOne(x, c);
      assert Joining(front, !x.join) + [] == Joining(front, !x.join);
    }
  }

  lemma RemovedSplits(calls: seq<Call>, i: nat, c: Call)
    ensures Times(calls, c) == Times(Removed(calls, i).0, c) + Times(Removed(calls, i).1, c)
  {
    hide Bare, Times;
    TimesNone(c);
    if i < |calls| {
      assert calls == calls[..i] + [calls[i]] + calls[i + 1..];
      TimesConcat(calls[..i] + [calls[i]], calls[i + 1..], c);
      TimesConcat(calls[..i], [calls[i]], c);
      TimesConcat(calls[..i], calls[i + 1..], c);
    }
  }

  lemma TimesNone(c: Call)
    ensures Times([], c) == 0
  {
  }

  /** Prioritising permutes: the chosen call comes first, the others keep their order. */
  lemma PrioritizePermutes(calls: seq<Call>, i: nat, c: Call)
    requires i < |calls|
    ensures Times(Prioritized(calls, i), c) == Times(calls, c)
  {
    hide Times;
    var x := calls[i].(join := true);
    TimesConcat([x] + calls[..i], calls[i + 1..], c);
    TimesConcat([x], calls[..i], c);
    TimesOne(x, c);
    TimesOne(calls[i], c);
    RemovedSplits(calls, i, c);
    TimesConcat(calls[..i], calls[i + 1..], c);
  }

  /** Where a call is afterwards, counted. */
  function Accounted(e: Effect, c: Call): nat {
    Times(e.after.message, c) + Times(e.after.steering, c) + Times(e.delivered, c) + Times(e.removed, c)
  }

  /** One operation loses no call and doubles none. */
  lemma ApplyConserves(q: Queues, op: Op, c: Call)
    ensures Accounted(Apply(q, op), c) == Times(q.message, c) + Times(q.steering, c) + Times(Entered(op), c)
  {
    hide Times, Bare, Joining, PlaceOf;
    TimesNone(c);
    match op
    case Enqueue(x) => TimesConcat(q.message, [x], c);
    case EnqueueSteer(x) => SteerCounts(q.steering, x, c);
    case TakeJoin => JoiningSplits(q.message, c);
    case PopNext =>
      if q.message != [] {
        assert q.message == [q.message[0]] + q.message[1..];
        TimesConcat([q.message[0]], q.message[1..], c);
      }
    case RemoveAt(i) =>
      if Within(q.message, i) {
        RemovedSplits(q.message, i, c);
      }
    case RemoveTurn(turnId) => RemoveTurnCounts(q, turnId, c);
    case Prioritize(i) =>
      if Within(q.message, i) {
        PrioritizePermutes(q.message, i, c);
      }
    case ClearMessages =>
    case ClearSteering =>
    case PopSteering =>
    case PutFront(calls) => TimesConcat(calls, q.message, c);
  }

  lemma SteerCounts(steering: seq<Call>, x: Call, c: Call)
    ensures Times(steering + [x.(steering := true)], c) == Times(steering, c) + Times([x], c)
  {
    hide Times;
    TimesConcat(steering, [x.(steering := true)], c);
    TimesOne(x, c);
    TimesOne(x.(steering := true), c);
  }

  lemma RemoveTurnCounts(q: Queues, turnId: string, c: Call)
    ensures Accounted(Apply(q, RemoveTurn(turnId)), c) == Times(q.message, c) + Times(q.steering, c)
  {
    hide Times, Removed;
    TimesNone(c);
    RemovedSplits(q.message, PlaceOf(q.message, turnId), c);
    RemovedSplits(q.steering, PlaceOf(q.steering, turnId), c);
    TimesConcat(Removed(q.message, PlaceOf(q.message, turnId)).1, Removed(q.steering, PlaceOf(q.steering, turnId)).1, c);
  }

  // ------------------------------------------------------------- whole runs

  /**
  A step of a run: one operation, or half of a flush by the `f`-th flusher, which
  holds the calls it took until it puts them back.
  */
  datatype Step = Do(op: Op) | TakeStranded(f: nat) | PutStranded(f: nat)

  /** `held` is what each flusher has in its hands. */
  datatype State = State(queues: Queues, held: seq<seq<Call>>, delivered: seq<Call>, removed: seq<Call>)

  function Next(s: State, step: Step): State {
    match step
    case Do(op) =>
      var e := Apply(s.queues, op);
      s.(queues := e.after, delivered := s.delivered + e.delivered, removed := s.removed + e.removed)
    case TakeStranded(f) =>
      if f < |s.held| && s.held[f] == [] then
        var e := Apply(s.queues, PopSteering);
        s.(queues := e.after, held := s.held[f := e.delivered])
      else s
    case PutStranded(f) =>
      if f < |s.held| then s.(queues := Apply(s.queues, PutFront(s.held[f])).after, held := s.held[f := []]) else s
  }

  /** The state after the first `n` steps, with `flushers` flushers. */
  function Run(flushers: nat, steps: seq<Step>, n: nat): State
    requires n <= |steps|
  {
    if n == 0 then State(EMPTY, seq(flushers, _ => []), [], []) else Next(Run(flushers, steps, n - 1), steps[n - 1])
  }

  function AllEntered(steps: seq<Step>, n: nat): seq<Call>
    requires n <= |steps|
  {
    if n == 0 then [] else AllEntered(steps, n - 1) + (if steps[n - 1].Do? then Entered(steps[n - 1].op) else [])
  }

  /** How often each flusher holds a call. */
  function Held(held: seq<seq<Call>>, c: Call): seq<nat> {
    seq(|held|, f requires 0 <= f < |held| => Times(held[f], c))
  }

  /** Where a call is, counted. */
  function Whereabouts(s: State, c: Call): nat {
    Times(s.queues.message, c) + Times(s.queues.steering, c) + Sum(Held(s.held, c))
    + Times(s.delivered, c) + Times(s.removed, c)
  }

  lemma HeldChanges(held: seq<seq<Call>>, f: nat, calls: seq<Call>, c: Call)
    requires f < |held|
    ensures Sum(Held(held[f := calls], c)) == Sum(Held(held, c)) - Times(held[f], c) + Times(calls, c)
  {
    hide Times;
    assert Held(held[f := calls], c) == Held(held, c)[f := Times(calls, c)];
    SumUpdate(Held(held, c), f, Times(calls, c));
  }

  /** One step loses no call and doubles none. */
  lemma NextConserves(s: State, step: Step, c: Call)
    ensures Whereabouts(Next(s, step), c) == Whereabouts(s, c) + (if step.Do? then Times(Entered(step.op), c) else 0)
  {
    hide Times, Apply, Held;
    TimesNone(c);
    match step
    case Do(op) =>
      var e := Apply(s.queues, op);
      ApplyConserves(s.queues, op, c);
      TimesConcat(s.delivered, e.delivered, c);
      TimesConcat(s.removed, e.removed, c);
    case TakeStranded(f) =>
      if f < |s.held| && s.held[f] == [] {
        PopTakesAll(s.queues);
        HeldChanges(s.held, f, Apply(s.queues, PopSteering).delivered, c);
        ApplyConserves(s.queues, PopSteering, c);
      }
    case PutStranded(f) =>
      if f < |s.held| {
        PutDeliversNone(s.queues, s.held[f]);
        HeldChanges(s.held, f, [], c);
        ApplyConserves(s.queues, PutFront(s.held[f]), c);
      }
  }

  lemma PopTakesAll(q: Queues)
    ensures Apply(q, PopSteering).removed == []
  {
  }

  lemma PutDeliversNone(q: Queues, calls: seq<Call>)
    ensures Apply(q, PutFront(calls)).delivered == [] && Apply(q, PutFront(calls)).removed == []
  {
  }

  lemma {:induction false} HoldNothing(flushers: nat, c: Call)
    ensures Sum(Held(seq(flushers, _ => []), c)) == 0
  {
    TimesNone(c);
    SumZero(Held(seq(flushers, _ => []), c));
  }

  /**
  Over any sequence of steps, those of several flushers interleaved with
  everything else, every call that entered is in the message queue, in the
  steering queue, in a flusher's hands, delivered or removed, exactly as often
  as it entered.
  */
  lemma {:induction false} RunConserves(flushers: nat, steps: seq<Step>, n: nat, c: Call)
    requires n <= |steps|
    ensures Whereabouts(Run(flushers, steps, n), c) == Times(AllEntered(steps, n), c)
  {
    hide Times, Next, Held, Entered;
    TimesNone(c);
    if n == 0 {
      HoldNothing(flushers, c);
    } else {
      RunConserves(flushers, steps, n - 1, c);
      NextConserves(Run(flushers, steps, n - 1), steps[n - 1], c);
      var entered := if steps[n - 1].Do? then Entered(steps[n - 1].op) else [];
      TimesConcat(AllEntered(steps, n - 1), entered, c);
    }
  }

  /** What a flusher holds stays in its hands whatever the others do. */
  lemma {:induction false} HandsUntouched(flushers: nat, steps: seq<Step>, i: nat, j: nat, f: nat)
    requires i <= j <= |steps| && f < flushers
    requires forall k :: i <= k < j ==> steps[k] != TakeStranded(f) && steps[k] != PutStranded(f)
    ensures |Run(flushers, steps, i).held| == |Run(flushers, steps, j).held| == flushers
    ensures Run(flushers, steps, j).held[f] == Run(flushers, steps, i).held[f]
    decreases i, j
  {
    hide Apply;
    HandCount(flushers, steps, i);
    HandCount(flushers, steps, j);
    if i < j {
      HandsUntouched(flushers, steps, i, j - 1, f);
    }
  }

  lemma {:induction false} HandCount(flushers: nat, steps: seq<Step>, n: nat)
    requires n <= |steps|
    ensures |Run(flushers, steps, n).held| == flushers
  {
    hide Apply;
    if n > 0 {
      HandCount(flushers, steps, n - 1);
    }
  }

  /**
  Against any interleaving: the calls a flush takes at step `i` come first in the
  message queue when it puts them back at step `j`, in the order they were queued
  in, before everything queued until then.
  */
  lemma FlushKeepsOrder(flushers: nat, steps: seq<Step>, i: nat, j: nat, f: nat)
    requires i < j < |steps| && f < flushers && steps[i] == TakeStranded(f) && steps[j] == PutStranded(f)
    requires forall k :: i < k < j ==> steps[k] != TakeStranded(f) && steps[k] != PutStranded(f)
    requires |Run(flushers, steps, i).held| == flushers && Run(flushers, steps, i).held[f] == []
    ensures Run(flushers, steps, j + 1).queues.message
         == Run(flushers, steps, i).queues.steering + Run(flushers, steps, j).queues.message
  {
    hide Run, Apply;
    HandsUntouched(flushers, steps, i + 1, j, f);
    OneStep(flushers, steps, i);
    OneStep(flushers, steps, j);
    TakesAndPuts(Run(flushers, steps, i).queues, Run(flushers, steps, j).queues, Run(flushers, steps, j).held[f]);
  }

  lemma OneStep(flushers: nat, steps: seq<Step>, n: nat)
    requires n < |steps|
    ensures Run(flushers, steps, n + 1) == Next(Run(flushers, steps, n), steps[n])
  {
    hide Next;
  }

  lemma TakesAndPuts(q: Queues, r: Queues, calls: seq<Call>)
    ensures Apply(q, PopSteering).delivered == q.steering
    ensures Apply(r, PutFront(calls)).after.message == calls + r.message
  {
  }
}
