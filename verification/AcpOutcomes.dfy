/**
What the callers of the ACP write runtime are told, and what a closed
connection still does: results about whole runs that `AcpSafety` leaves open.
*/
module AcpOutcomes {
  import opened Common
  import opened AcpWriter
  import opened AcpSafety

  ghost predicate Logged(s: State, p: nat, v: Verdict) {
    exists i :: 0 <= i < |s.log| && s.log[i] == Entry(p, v)
  }

  /** The reason a call gives for failing is true. */
  ghost predicate Justified(call: Call, p: nat, s: State, e: Error) {
    match e
    case TooLarge => !NonBlocking(call.kind) && Cost(call) > MAX_MESSAGE
    case Refused => NonBlocking(call.kind)
    case Cancelled => !NonBlocking(call.kind) && p in s.cancelled
    case Closed => !NonBlocking(call.kind) && (!s.open || Logged(s, p, Discarded))
    case WriteError => !NonBlocking(call.kind) && Logged(s, p, Failed)
  }

  /** Whether request `p` has entered its lane, seen from what its producer has been told. */
  ghost predicate Told(calls: seq<Call>, s: State, p: nat)
    requires Shaped(calls, s) && p < |calls|
  {
    var entered := p in Get(s, LaneOf(calls[p].kind)).sent;
    match s.phases[p]
    case Returned(Ok) => entered
    case Returned(Err(e)) => (NonBlocking(calls[p].kind) ==> !entered) && Justified(calls[p], p, s, e)
    case WaitAck => entered
    case _ => !entered
  }

  /** Nobody is past the check for a closed connection once it is closed, and nobody has seen a close too early. */
  predicate Aware(call: Call, ph: Phase, open: bool) {
    && (HoldsLock(call.kind, ph) ==> open)
    && ((ph.Releasing? || ph.Signalling?) && ph.closed ==> !open)
  }

  ghost predicate Outcomes(calls: seq<Call>, s: State)
    requires Shaped(calls, s)
  {
    forall p :: 0 <= p < |calls| ==> Told(calls, s, p) && Aware(calls[p], s.phases[p], s.open)
  }

  /** A failed write is followed by the close. */
  ghost predicate FailureCloses(s: State) {
    (exists i :: 0 <= i < |s.log| && s.log[i].verdict.Failed?) ==>
      !s.open || s.writer.Closing? || (s.writer.Acking? && s.writer.verdict.Failed?)
  }

  /** Everything a caller may rely on, beside `Inv`. */
  ghost predicate Promises(calls: seq<Call>, s: State) {
    Shaped(calls, s) && Inv(calls, s) && Outcomes(calls, s) && FailureCloses(s)
  }

  // ------------------------------------------------- one step of a producer

  /** The grounds on which one step returns `o`. */
  predicate Entitled(call: Call, open: bool, cancelled: bool, ack: Option<Outcome>, o: Outcome) {
    || (!NonBlocking(call.kind) && ack == Some(o))
    || (o == Err(TooLarge) && !NonBlocking(call.kind) && Cost(call) > MAX_MESSAGE)
    || (o == Err(Refused) && NonBlocking(call.kind))
    || (o == Err(Cancelled) && !NonBlocking(call.kind) && cancelled)
    || (o == Err(Closed) && !NonBlocking(call.kind) && !open)
  }

  /** What one producer step does to `sent`, and on what grounds it returns. */
  predicate Tells(call: Call, p: nat, v: View, v': View, open: bool, cancelled: bool, ack: Option<Outcome>) {
    && Aware(call, v'.phase, open)
    && !v.phase.Returned?
    && (if v'.queue.sent == v.queue.sent then
          && v'.queue.items == v.queue.items
          && !v'.phase.WaitAck?
          && (v'.phase.Returned? ==> Entitled(call, open, cancelled, ack, v'.phase.outcome))
          && (v.phase.WaitAck? ==> v'.phase.Returned? && !NonBlocking(call.kind))
        else
          && v'.queue.sent == v.queue.sent + [p]
          && HoldsLock(call.kind, v.phase)
          && v'.phase == (if NonBlocking(call.kind) then Returned(Ok) else WaitAck))
  }

  lemma ProducerTells(call: Call, p: nat, v: View, open: bool, cancelled: bool,
                      ack: Option<Outcome>, choice: Choice, v': View)
    requires ProducerLocal(call, p, v, open, cancelled, ack, choice) == Some(v')
    requires PhaseOk(call, v.phase) && Aware(call, v.phase, open)
    ensures Tells(call, p, v, v', open, cancelled, ack)
  {
  }

  /** A returned answer that came through the acknowledgement is justified by the log. */
  lemma AckJustified(calls: seq<Call>, s: State, p: nat, o: Outcome)
    requires Inv(calls, s) && p < |calls| && s.acks[p] == Some(o)
    ensures o == Ok || Justified(calls[p], p, s, o.error)
    ensures p in Get(s, LaneOf(calls[p].kind)).sent
  {
    hide WriterValid, Phases, Priority, NoLostWakeup, Books;
    var i :| 0 <= i < |s.log| && s.log[i].p == p && o == AckOf(s.log[i].verdict);
    assert s.log[i] == Entry(p, s.log[i].verdict);
    var c := LaneOf(calls[p].kind);
    DecidedHas(calls, s.log, i, c);
    assert LaneInv(calls, s, c);
  }

  lemma ProducerKeepsOutcomes(calls: seq<Call>, s: State, p: nat, choice: Choice, s': State)
    requires Promises(calls, s) && ProducerStep(calls, s, p, choice) == Some(s')
    ensures Outcomes(calls, s')
  {
    hide WriterValid, Priority, LaneInv, Acks, Verdicts, ProducerLocal, FailureCloses;
    var c := LaneOf(calls[p].kind);
    var v, v' := View(Get(s, c), s.phases[p]), View(Get(s', c), s'.phases[p]);
    ProducerTells(calls[p], p, v, s.open, p in s.cancelled, s.acks[p], choice, v');
    if s.acks[p].Some? {
      AckJustified(calls, s, p, s.acks[p].value);
    }
    forall q | 0 <= q < |calls| ensures Told(calls, s', q) && Aware(calls[q], s'.phases[q], s'.open) {
      assert Told(calls, s, q);
      assert q != p ==> (q in Get(s', LaneOf(calls[q].kind)).sent <==> q in Get(s, LaneOf(calls[q].kind)).sent);
    }
  }

  // ------------------------------------------------ the writer and the rest

  /** What the writer, a closer or the environment can change of what `Promises` speaks about. */
  ghost predicate Elsewhere(calls: seq<Call>, s: State, s': State)
    requires Shaped(calls, s)
  {
    && s'.phases == s.phases
    && (forall c :: Get(s', c).sent == Get(s, c).sent)
    && s.cancelled <= s'.cancelled
    && s.log <= s'.log
    && (s'.open ==> s.open)
    && (s.open && !s'.open ==> LockFree(calls, s))
  }

  lemma SearchIsElsewhere(calls: seq<Call>, s: State, choice: WriterChoice, s': State)
    requires Shaped(calls, s) && WriterStep(calls, s, choice) == Some(s')
    requires s.writer.Idle? || s.writer.Poll2? || s.writer.Poll3? || s.writer.Draining?
    ensures Elsewhere(calls, s, s')
  {
    hide LockFree, Cost, LaneOf;
  }

  predicate Gives(w: Writer) {
    w.Taken? || w.Freed? || w.DrainTaken? || w.DrainFreed?
  }

  lemma GiveIsElsewhere(calls: seq<Call>, s: State, choice: WriterChoice, s': State)
    requires Shaped(calls, s) && WriterStep(calls, s, choice) == Some(s') && Gives(s.writer)
    ensures Elsewhere(calls, s, s')
  {
    hide LockFree, Cost, LaneOf;
  }

  lemma DecideIsElsewhere(calls: seq<Call>, s: State, choice: WriterChoice, s': State)
    requires Shaped(calls, s) && WriterStep(calls, s, choice) == Some(s') && (s.writer.Handling? || s.writer.Writing?)
    ensures Elsewhere(calls, s, s')
  {
    hide LockFree, Cost, LaneOf;
  }

  lemma QuietIsElsewhere(calls: seq<Call>, s: State, choice: WriterChoice, s': State)
    requires Shaped(calls, s) && WriterStep(calls, s, choice) == Some(s') && (s.writer.Acking? || s.writer.Closing?)
    ensures Elsewhere(calls, s, s')
  {
    hide LockFree, Cost, LaneOf;
  }

  lemma StoppedIsStill(calls: seq<Call>, s: State, choice: WriterChoice)
    requires Shaped(calls, s) && s.writer.Stopped?
    ensures WriterStep(calls, s, choice) == None
  {
    hide LockFree, Cost, LaneOf;
  }

  lemma WriterIsElsewhere(calls: seq<Call>, s: State, choice: WriterChoice, s': State)
    requires Shaped(calls, s) && WriterStep(calls, s, choice) == Some(s')
    ensures Elsewhere(calls, s, s')
  {
    hide WriterStep, Elsewhere;
    if s.writer.Idle? || s.writer.Poll2? || s.writer.Poll3? || s.writer.Draining? {
      SearchIsElsewhere(calls, s, choice, s');
    } else if Gives(s.writer) {
      GiveIsElsewhere(calls, s, choice, s');
    } else if s.writer.Handling? || s.writer.Writing? {
      DecideIsElsewhere(calls, s, choice, s');
    } else if s.writer.Acking? || s.writer.Closing? {
      QuietIsElsewhere(calls, s, choice, s');
    } else {
      StoppedIsStill(calls, s, choice);
    }
  }

  lemma OtherIsElsewhere(calls: seq<Call>, s: State, a: Action, s': State)
    requires Shaped(calls, s) && Next(calls, s, a) == Some(s') && !a.Produce? && !a.Write?
    ensures Elsewhere(calls, s, s')
  {
    hide HoldsLock, NonBlocking, Cost, LaneOf;
  }

  lemma ElsewhereKeepsOutcomes(calls: seq<Call>, s: State, s': State)
    requires Shaped(calls, s) && Shaped(calls, s') && Elsewhere(calls, s, s') && Outcomes(calls, s)
    ensures Outcomes(calls, s')
  {
    forall q | 0 <= q < |calls| ensures Told(calls, s', q) && Aware(calls[q], s'.phases[q], s'.open) {
      assert Told(calls, s, q);
      forall v | Logged(s, q, v) ensures Logged(s', q, v) {
        var i :| 0 <= i < |s.log| && s.log[i] == Entry(q, v);
        assert s'.log[i] == Entry(q, v);
      }
    }
  }

  lemma WriterKeepsFailure(calls: seq<Call>, s: State, choice: WriterChoice, s': State)
    requires Inv(calls, s) && FailureCloses(s) && WriterStep(calls, s, choice) == Some(s')
    ensures FailureCloses(s')
  {
    hide WriterStep, Inv, LogMove;
    FailureMoves(calls, s, choice, s');
    if exists i :: 0 <= i < |s'.log| && s'.log[i].verdict.Failed? {
      var i :| 0 <= i < |s'.log| && s'.log[i].verdict.Failed?;
      if i < |s.log| {
        assert s.log[i] == s'.log[i];
      }
    }
  }

  /** A step that logs a failure starts the close, and nothing but the close follows it. */
  lemma FailureMoves(calls: seq<Call>, s: State, choice: WriterChoice, s': State)
    requires Inv(calls, s) && WriterStep(calls, s, choice) == Some(s')
    ensures s'.open ==> s.open
    ensures s'.log == s.log || (|s'.log| == |s.log| + 1 && s.log <= s'.log
              && s'.writer.Acking? && s'.writer.verdict == s'.log[|s.log|].verdict)
    ensures s.writer.Acking? && s.writer.verdict.Failed? ==> s'.writer.Closing? && s'.log == s.log
    ensures s.writer.Closing? ==> !s'.open && s'.log == s.log
  {
    hide WriterStep, Phases, LaneInv, Priority, Acks, Verdicts, LockFree, Cost;
    WriterFrame(calls, s, choice, s');
    var w := s.writer;
    if w.Idle? || w.Poll2? || w.Poll3? || w.Draining? {
      PollLogMove(calls, s, choice, s');
    } else if w.Acking? || w.Closing? {
      CloseMoves(calls, s, choice, s');
    } else {
      HandLogMove(calls, s, choice, s');
    }
  }

  lemma CloseMoves(calls: seq<Call>, s: State, choice: WriterChoice, s': State)
    requires Shaped(calls, s) && WriterStep(calls, s, choice) == Some(s') && WriterValid(calls, s)
    requires s.writer.Acking? || s.writer.Closing?
    ensures s'.log == s.log
    ensures s.writer.Acking? && s.writer.verdict.Failed? ==> s'.writer.Closing?
    ensures s.writer.Closing? ==> !s'.open
  {
    hide LockFree, Cost;
  }

  lemma StepKeepsPromises(calls: seq<Call>, s: State, a: Action, s': State)
    requires Promises(calls, s) && Next(calls, s, a) == Some(s')
    ensures Promises(calls, s')
  {
    hide WriterStep, ProducerStep, Inv, Outcomes;
    StepKeepsInv(calls, s, a, s');
    match a
    case Produce(p, choice) =>
      ProducerKeepsOutcomes(calls, s, p, choice, s');
      ProducerKeepsLog(calls, s, p, choice, s');
    case Write(choice) =>
      WriterIsElsewhere(calls, s, choice, s');
      ElsewhereKeepsOutcomes(calls, s, s');
      WriterKeepsFailure(calls, s, choice, s');
    case _ =>
      OtherIsElsewhere(calls, s, a, s');
      ElsewhereKeepsOutcomes(calls, s, s');
  }

  lemma ProducerKeepsLog(calls: seq<Call>, s: State, p: nat, choice: Choice, s': State)
    requires Shaped(calls, s) && ProducerStep(calls, s, p, choice) == Some(s')
    ensures s'.log == s.log && s'.writer == s.writer && s'.open == s.open && s'.cancelled == s.cancelled
  {
    hide ProducerLocal;
  }

  lemma {:induction false} RunKeepsPromises(calls: seq<Call>, s: State, actions: seq<Action>, s': State)
    requires Promises(calls, s) && Exec(calls, s, actions) == Some(s')
    ensures Promises(calls, s')
    decreases |actions|
  {
    hide Inv, Outcomes, FailureCloses, Next;
    if actions != [] {
      var m := Next(calls, s, actions[0]).value;
      StepKeepsPromises(calls, s, actions[0], m);
      RunKeepsPromises(calls, m, actions[1..], s');
    }
  }

  lemma InitPromises(calls: seq<Call>)
    ensures Promises(calls, Init(calls))
  {
    hide Inv;
    InitInv(calls);
    assert forall p :: 0 <= p < |calls| ==> Init(calls).phases[p] == Begin;
  }

  lemma ReachablePromises(calls: seq<Call>, s: State)
    requires Reachable(calls, s)
    ensures Promises(calls, s)
  {
    hide Inv, Outcomes, FailureCloses;
    var actions :| Exec(calls, Init(calls), actions) == Some(s);
    InitPromises(calls);
    RunKeepsPromises(calls, Init(calls), actions, s);
  }

  // ------------------------------------------------------------ main results

  /**
  A non-blocking write says true exactly when its frame has entered its lane:
  told Ok it is there, refused it is not and never was.
  */
  lemma VerdictIsTrue(calls: seq<Call>, s: State, p: nat)
    requires Reachable(calls, s) && p < |calls| && p < |s.phases| && NonBlocking(calls[p].kind)
    ensures s.phases[p] == Returned(Ok) <==> p in Get(s, LaneOf(calls[p].kind)).sent
    ensures s.phases[p].Returned? && s.phases[p].outcome.Err? ==>
              s.phases[p].outcome == Err(Refused) && p !in Get(s, LaneOf(calls[p].kind)).sent
  {
    hide Exec, Inv;
    ReachablePromises(calls, s);
    assert Told(calls, s, p);
    assert Inv(calls, s);
    PhasesHold(calls, s, p);
  }

  lemma PhasesHold(calls: seq<Call>, s: State, p: nat)
    requires Inv(calls, s) && p < |calls|
    ensures PhaseOk(calls[p], s.phases[p])
  {
    hide WriterValid, LaneInv, Verdicts, Acks, Priority;
  }

  /**
  The reason a blocking write or a flush gives for failing is true: too large
  means too large, cancelled that its context was cancelled, a write error that
  the transport failed on this very frame, and closed that the connection is
  closed or the frame was discarded.
  */
  lemma ReasonIsTrue(calls: seq<Call>, s: State, p: nat)
    requires Reachable(calls, s) && p < |calls| && p < |s.phases| && !NonBlocking(calls[p].kind)
    requires s.phases[p].Returned? && s.phases[p].outcome.Err?
    ensures match s.phases[p].outcome.error
            case TooLarge => Cost(calls[p]) > MAX_MESSAGE
            case Cancelled => p in s.cancelled
            case WriteError => Logged(s, p, Failed)
            case Closed => !s.open || Logged(s, p, Discarded)
            case Refused => false
  {
    hide Exec, Inv;
    ReachablePromises(calls, s);
    assert Told(calls, s, p);
  }

  /** Nothing enters a lane of a closed connection, whatever anybody does. */
  lemma ClosedIsClosed(calls: seq<Call>, s: State, a: Action, s': State, c: Lane)
    requires Reachable(calls, s) && Shaped(calls, s) && !s.open && Next(calls, s, a) == Some(s')
    ensures !s'.open && Get(s', c).sent == Get(s, c).sent
  {
    hide Exec, Inv, WriterStep, ProducerLocal;
    ReachablePromises(calls, s);
    match a
    case Produce(p, choice) =>
      var d := LaneOf(calls[p].kind);
      var v, v' := View(Get(s, d), s.phases[p]), View(Get(s', d), s'.phases[p]);
      assert Aware(calls[p], s.phases[p], s.open);
      PhasesHold(calls, s, p);
      ProducerTells(calls[p], p, v, s.open, p in s.cancelled, s.acks[p], choice, v');
    case Write(choice) =>
      WriterIsElsewhere(calls, s, choice, s');
    case _ =>
      OtherIsElsewhere(calls, s, a, s');
  }

  // -------------------------------------------------------- calls run alone

  /** The state after up to `n` steps of producer `p` alone, never giving up a wait. */
  function Alone(calls: seq<Call>, s: State, p: nat, n: nat): (r: State)
    requires Shaped(calls, s)
    ensures Shaped(calls, r)
    decreases n
  {
    if n == 0 then s else
    match ProducerStep(calls, s, p, Proceed)
    case None => s
    case Some(m) => Alone(calls, m, p, n - 1)
  }

  /** The connection is open and has room for the frame: its size, its bytes and a place in the channel. */
  predicate HasRoom(call: Call, q: Queue, open: bool) {
    && open
    && Cost(call) <= 4 * 1024 * 1024
    && q.bytes + Cost(call) <= 8 * 1024 * 1024
    && |q.items| < (if call.kind.WriteAsync? then 256 else 32)
  }

  /** What `Alone` does to the view of the one producer that runs. */
  function AloneView(call: Call, p: nat, v: View, open: bool, cancelled: bool, ack: Option<Outcome>, n: nat): View
    decreases n
  {
    if n == 0 then v else
    match ProducerLocal(call, p, v, open, cancelled, ack, Proceed)
    case None => v
    case Some(m) => AloneView(call, p, m, open, cancelled, ack, n - 1)
  }

  lemma {:induction false} AloneIsLocal(calls: seq<Call>, s: State, p: nat, n: nat)
    requires Shaped(calls, s) && p < |calls|
    ensures var c := LaneOf(calls[p].kind);
            var v := AloneView(calls[p], p, View(Get(s, c), s.phases[p]), s.open, p in s.cancelled, s.acks[p], n);
            Get(Alone(calls, s, p, n), c) == v.queue && Alone(calls, s, p, n).phases[p] == v.phase
    decreases n
  {
    hide ProducerLocal;
    if n > 0 {
      var r := ProducerStep(calls, s, p, Proceed);
      if r.Some? {
        AloneIsLocal(calls, r.value, p, n - 1);
      }
    }
  }

  lemma RefusedLocally(call: Call, p: nat, q: Queue, open: bool, cancelled: bool, ack: Option<Outcome>)
    requires NonBlocking(call.kind) && !HasRoom(call, q, open)
    ensures AloneView(call, p, View(q, Begin), open, cancelled, ack, 6)
         == View(AloneView(call, p, View(q, Begin), open, cancelled, ack, 6).queue, Returned(Err(Refused)))
    ensures var q' := AloneView(call, p, View(q, Begin), open, cancelled, ack, 6).queue;
            q'.bytes == q.bytes && q'.items == q.items && q'.sent == q.sent
  {
    var v1 := ProducerLocal(call, p, View(q, Begin), open, cancelled, ack, Proceed).value;
    if v1.phase.Locking? {
      var v2 := ProducerLocal(call, p, v1, open, cancelled, ack, Proceed).value;
      if v2.phase.Reserving? {
        var v3 := ProducerLocal(call, p, v2, open, cancelled, ack, Proceed).value;
        if v3.phase.Sending? {
          var v4 := ProducerLocal(call, p, v3, open, cancelled, ack, Proceed).value;
          var v5 := ProducerLocal(call, p, v4, open, cancelled, ack, Proceed).value;
          var v6 := ProducerLocal(call, p, v5, open, cancelled, ack, Proceed).value;
          assert AloneView(call, p, v5, open, cancelled, ack, 1) == v6;
          assert AloneView(call, p, v4, open, cancelled, ack, 2) == v6;
        }
        assert AloneView(call, p, v3, open, cancelled, ack, 3).phase == Returned(Err(Refused));
      }
      assert AloneView(call, p, v2, open, cancelled, ack, 4).phase == Returned(Err(Refused));
    }
    assert AloneView(call, p, v1, open, cancelled, ack, 5).phase == Returned(Err(Refused));
  }

  lemma EnqueuedLocally(call: Call, p: nat, q: Queue, open: bool, cancelled: bool)
    requires HasRoom(call, q, open)
    ensures AloneView(call, p, View(q, Begin), open, cancelled, None, 6)
         == View(q.(bytes := q.bytes + Cost(call), items := q.items + [p], sent := q.sent + [p]),
                 if NonBlocking(call.kind) then Returned(Ok) else WaitAck)
  {
    var v1 := ProducerLocal(call, p, View(q, Begin), open, cancelled, None, Proceed).value;
    var v2 := ProducerLocal(call, p, v1, open, cancelled, None, Proceed).value;
    var v3 := ProducerLocal(call, p, v2, open, cancelled, None, Proceed).value;
    assert AloneView(call, p, v2, open, cancelled, None, 4) == AloneView(call, p, v3, open, cancelled, None, 3);
    if !call.kind.Flush? {
      var v4 := ProducerLocal(call, p, v3, open, cancelled, None, Proceed).value;
      assert AloneView(call, p, v4, open, cancelled, None, 2) == v4;
    } else {
      assert AloneView(call, p, v3, open, cancelled, None, 3) == v3;
    }
  }

  /**
  Run alone on any state, a call that has room enters its lane at the end, a
  non-blocking one with Ok; a non-blocking one without room is refused and
  leaves the lane's bytes and requests as they were.
  */
  lemma AloneItEnqueues(calls: seq<Call>, s: State, p: nat)
    requires Inv(calls, s) && p < |calls| && s.phases[p] == Begin
    ensures var c, s' := LaneOf(calls[p].kind), Alone(calls, s, p, 6);
            if HasRoom(calls[p], Get(s, c), s.open) then
              && Get(s', c).items == Get(s, c).items + [p]
              && Get(s', c).bytes == Get(s, c).bytes + Cost(calls[p])
              && s'.phases[p] == (if NonBlocking(calls[p].kind) then Returned(Ok) else WaitAck)
            else NonBlocking(calls[p].kind) ==>
              && Get(s', c).items == Get(s, c).items
              && Get(s', c).bytes == Get(s, c).bytes
              && s'.phases[p] == Returned(Err(Refused))
  {
    hide ProducerStep, ProducerLocal, WriterValid, Phases, Verdicts, Priority, Books, NoLostWakeup;
    AloneIsLocal(calls, s, p, 6);
    var c := LaneOf(calls[p].kind);
    if HasRoom(calls[p], Get(s, c), s.open) {
      BeginHasNoAck(calls, s, p);
      EnqueuedLocally(calls[p], p, Get(s, c), s.open, p in s.cancelled);
    } else if NonBlocking(calls[p].kind) {
      RefusedLocally(calls[p], p, Get(s, c), s.open, p in s.cancelled, s.acks[p]);
    }
  }

  lemma BeginHasNoAck(calls: seq<Call>, s: State, p: nat)
    requires Inv(calls, s) && p < |calls| && s.phases[p] == Begin
    ensures s.acks[p].None?
  {
    hide WriterValid, Phases, Verdicts, Priority, Books, NoLostWakeup, Acks;
    assert !SentOn(calls, s, p, LaneOf(calls[p].kind));
    if s.acks[p].Some? {
      AckJustified(calls, s, p, s.acks[p].value);
    }
  }

  // ------------------------------------------------------ cancelled requests

  /** A request whose context is already cancelled, and which the transport has not got yet. */
  ghost predicate CancelledEarly(s: State, p: nat) {
    p in s.cancelled && s.writer != Writing(p)
  }

  lemma CancelledStaysEarly(calls: seq<Call>, s: State, a: Action, s': State, p: nat)
    requires Shaped(calls, s) && CancelledEarly(s, p) && Next(calls, s, a) == Some(s')
    ensures CancelledEarly(s', p) && s.log <= s'.log
    ensures |s'.log| <= |s.log| + 1
    ensures |s'.log| > |s.log| && s'.log[|s.log|].p == p ==>
              s'.log[|s.log|].verdict.Skipped? || s'.log[|s.log|].verdict.Discarded?
  {
    hide ProducerLocal, LockFree, Cost;
    if a.Write? {
      CancelledInHand(calls, s, a.wchoice, s', p);
    }
  }

  lemma CancelledInHand(calls: seq<Call>, s: State, choice: WriterChoice, s': State, p: nat)
    requires Shaped(calls, s) && CancelledEarly(s, p) && WriterStep(calls, s, choice) == Some(s')
    ensures CancelledEarly(s', p) && s.log <= s'.log
    ensures |s'.log| <= |s.log| + 1
    ensures |s'.log| > |s.log| && s'.log[|s.log|].p == p ==>
              s'.log[|s.log|].verdict.Skipped? || s'.log[|s.log|].verdict.Discarded?
  {
    hide WriterStep, LockFree, Cost;
    WriterFrame(calls, s, choice, s');
    var w := s.writer;
    if w.Idle? || w.Poll2? || w.Poll3? || w.Draining? {
      PollLogMove(calls, s, choice, s');
      SearchWritesNothing(calls, s, choice, s');
    } else {
      HandLogMove(calls, s, choice, s');
      HandlingSkips(calls, s, choice, s');
    }
  }

  lemma SearchWritesNothing(calls: seq<Call>, s: State, choice: WriterChoice, s': State)
    requires Shaped(calls, s) && WriterStep(calls, s, choice) == Some(s')
    requires s.writer.Idle? || s.writer.Poll2? || s.writer.Poll3? || s.writer.Draining?
    ensures !s'.writer.Writing? && !s'.writer.Acking?
  {
  }

  lemma HandlingSkips(calls: seq<Call>, s: State, choice: WriterChoice, s': State)
    requires Shaped(calls, s) && WriterStep(calls, s, choice) == Some(s')
    requires !(s.writer.Idle? || s.writer.Poll2? || s.writer.Poll3? || s.writer.Draining?)
    ensures s'.writer.Writing? ==> s.writer == Handling(s'.writer.p) && s.writer.p !in s.cancelled
    ensures s'.log != s.log && s.writer.Handling? && s.writer.p in s.cancelled ==> s'.writer.verdict.Skipped?
  {
    hide LockFree, Cost;
  }

  /** A request cancelled before the transport got it is never written, whatever happens next. */
  lemma {:induction false} CancelledIsSkipped(calls: seq<Call>, s: State, actions: seq<Action>, s': State, p: nat)
    requires Shaped(calls, s) && CancelledEarly(s, p) && Exec(calls, s, actions) == Some(s')
    ensures |s.log| <= |s'.log|
    ensures forall i :: |s.log| <= i < |s'.log| && s'.log[i].p == p ==>
              s'.log[i].verdict.Skipped? || s'.log[i].verdict.Discarded?
    ensures s.log <= s'.log
    decreases |actions|
  {
    hide Next, CancelledEarly;
    if actions != [] {
      var m := Next(calls, s, actions[0]).value;
      CancelledStaysEarly(calls, s, actions[0], m, p);
      CancelledIsSkipped(calls, m, actions[1..], s', p);
    }
  }

  // ---------------------------------------------------------- the final drain

  function Rank(c: Lane): nat {
    match c
    case Critical => 0
    case Sync => 1
    case Async => 2
  }

  /** The lanes the final drain has been through. */
  predicate Drained(calls: seq<Call>, w: Writer, c: Lane) {
    match w
    case Draining(d) => Rank(c) < Rank(d)
    case DrainTaken(p) => p < |calls| && Rank(c) < Rank(LaneOf(calls[p].kind))
    case DrainFreed(p) => p < |calls| && Rank(c) < Rank(LaneOf(calls[p].kind))
    case Acking(p, v) => v.Discarded? && p < |calls| && Rank(c) < Rank(LaneOf(calls[p].kind))
    case Stopped => true
    case _ => false
  }

  ghost predicate DrainedEmpty(calls: seq<Call>, s: State) {
    forall c :: Drained(calls, s.writer, c) ==> Get(s, c).items == []
  }

  lemma SearchDrains(calls: seq<Call>, s: State, choice: WriterChoice, s': State, c: Lane)
    requires Shaped(calls, s) && HeadsSent(calls, s) && WriterStep(calls, s, choice) == Some(s')
    requires s.writer.Idle? || s.writer.Poll2? || s.writer.Poll3? || s.writer.Draining?
    requires Drained(calls, s.writer, c) ==> Get(s, c).items == []
    ensures Drained(calls, s'.writer, c) ==> Get(s', c).items == []
  {
  }

  lemma HandDrains(calls: seq<Call>, s: State, choice: WriterChoice, s': State, c: Lane)
    requires Shaped(calls, s) && WriterValid(calls, s) && WriterStep(calls, s, choice) == Some(s')
    requires !(s.writer.Idle? || s.writer.Poll2? || s.writer.Poll3? || s.writer.Draining?)
    requires Drained(calls, s.writer, c) ==> Get(s, c).items == []
    ensures Drained(calls, s'.writer, c) ==> Get(s', c).items == []
  {
    hide LockFree, Cost;
  }

  lemma ProducerDrains(calls: seq<Call>, s: State, p: nat, choice: Choice, s': State, c: Lane)
    requires Promises(calls, s) && !s.open && ProducerStep(calls, s, p, choice) == Some(s')
    ensures s'.writer == s.writer && !s'.open && Get(s', c).items == Get(s, c).items
  {
    hide Inv, ProducerLocal, Told;
    var d := LaneOf(calls[p].kind);
    assert Aware(calls[p], s.phases[p], s.open);
    PhasesHold(calls, s, p);
    ProducerTells(calls[p], p, View(Get(s, d), s.phases[p]), s.open, p in s.cancelled, s.acks[p], choice,
                  View(Get(s', d), s'.phases[p]));
  }

  lemma StaysClosed(calls: seq<Call>, s: State, a: Action, s': State)
    requires Shaped(calls, s) && !s.open && Next(calls, s, a) == Some(s')
    ensures !s'.open
  {
    hide WriterStep, ProducerStep, LockFree;
    match a
    case Produce(p, choice) => ProducerKeepsLog(calls, s, p, choice, s');
    case Write(choice) => WriterFrame(calls, s, choice, s');
    case _ =>
  }

  lemma StepKeepsDrained(calls: seq<Call>, s: State, a: Action, s': State)
    requires Promises(calls, s) && !s.open && DrainedEmpty(calls, s) && Next(calls, s, a) == Some(s')
    ensures !s'.open && DrainedEmpty(calls, s')
  {
    hide WriterStep, ProducerStep, Inv, Outcomes, FailureCloses;
    StaysClosed(calls, s, a, s');
    forall c ensures Drained(calls, s'.writer, c) ==> Get(s', c).items == [] {
      match a
      case Produce(p, choice) =>
        ProducerDrains(calls, s, p, choice, s', c);
      case Write(choice) =>
        HeadsAreSent(calls, s);
        if s.writer.Idle? || s.writer.Poll2? || s.writer.Poll3? || s.writer.Draining? {
          SearchDrains(calls, s, choice, s', c);
        } else {
          HandDrains(calls, s, choice, s', c);
        }
      case _ =>
        EnvironmentMoves(calls, s, a, s');
    }
  }

  lemma HeadsAreSent(calls: seq<Call>, s: State)
    requires Inv(calls, s)
    ensures HeadsSent(calls, s) && WriterValid(calls, s)
  {
    hide Phases, Verdicts, Acks, Priority, Books, NoLostWakeup, WriterValid, SentOn;
    forall d | Get(s, d).items != [] ensures SentOn(calls, s, Get(s, d).items[0], d) {
      assert LaneInv(calls, s, d);
      HeadIsSent(calls, s, d);
    }
  }

  lemma {:induction false} RunDrains(calls: seq<Call>, s: State, actions: seq<Action>, s': State)
    requires Promises(calls, s) && !s.open && DrainedEmpty(calls, s) && Exec(calls, s, actions) == Some(s')
    ensures Promises(calls, s') && DrainedEmpty(calls, s')
    decreases |actions|
  {
    hide Inv, Outcomes, FailureCloses, DrainedEmpty, Next;
    if actions != [] {
      var m := Next(calls, s, actions[0]).value;
      StepKeepsPromises(calls, s, actions[0], m);
      StepKeepsDrained(calls, s, actions[0], m);
      RunDrains(calls, m, actions[1..], s');
    }
  }

  /**
  Nobody is forgotten: once a connection is closed before the writer begins its
  final drain, the writer stops only when every request that ever entered a lane
  has been decided, and a waiting caller has its answer ready.
  */
  lemma NobodyForgotten(calls: seq<Call>, s: State, actions: seq<Action>, s': State, c: Lane, p: nat)
    requires Reachable(calls, s) && Shaped(calls, s) && !s.open
    requires MainLoop(s.writer) || s.writer == Draining(Critical)
    requires Exec(calls, s, actions) == Some(s') && s'.writer.Stopped?
    ensures Get(s', c).items == [] && Decided(calls, s'.log, c) == Get(s', c).sent
    ensures p < |calls| && s'.phases[p].WaitAck? ==> s'.acks[p].Some?
  {
    hide Exec, Inv, Outcomes, FailureCloses;
    ReachablePromises(calls, s);
    RunDrains(calls, s, actions, s');
    StoppedDecided(calls, s', c);
    if p < |calls| && s'.phases[p].WaitAck? {
      AckComes(calls, s', p);
      StoppedDecided(calls, s', LaneOf(calls[p].kind));
    }
  }

  lemma StoppedDecided(calls: seq<Call>, s: State, c: Lane)
    requires Inv(calls, s) && DrainedEmpty(calls, s) && s.writer.Stopped?
    ensures Get(s, c).items == [] && Decided(calls, s.log, c) == Get(s, c).sent
  {
    hide Phases, Verdicts, Acks, Priority, Books, NoLostWakeup, WriterValid, SentOn;
    assert Drained(calls, s.writer, c);
    assert LaneInv(calls, s, c);
  }

  /** Somebody waiting for an answer has it, or the writer has still to decide or to answer the request. */
  lemma AckComes(calls: seq<Call>, s: State, p: nat)
    requires Promises(calls, s) && p < |calls| && s.phases[p].WaitAck?
    ensures var c := LaneOf(calls[p].kind);
            || s.acks[p].Some?
            || p in Get(s, c).items
            || InHand(calls, s.writer, c) == [p]
            || (s.writer.Acking? && s.writer.p == p)
  {
    hide Priority, Books, NoLostWakeup, SentOn, FailureCloses;
    var c := LaneOf(calls[p].kind);
    assert Told(calls, s, p);
    assert PhaseOk(calls[p], s.phases[p]);
    assert LaneInv(calls, s, c);
    if p in Decided(calls, s.log, c) {
      DecidedFrom(calls, s.log, c, p);
      var i :| 0 <= i < |s.log| && s.log[i].p == p;
      assert s.acks[s.log[i].p] == Some(AckOf(s.log[i].verdict)) || (s.writer.Acking? && i == |s.log| - 1);
    }
  }

  /** With this choice, the next step of producer `p` only makes it return `o`. */
  predicate Gone(calls: seq<Call>, s: State, p: nat, choice: Choice, o: Outcome)
    requires Shaped(calls, s) && p < |calls|
  {
    Next(calls, s, Produce(p, choice)) == Some(s.(phases := s.phases[p := Returned(o)]))
  }

  /**
  Nobody is stuck: a producer that has not returned has a step to take, waits
  for space on an open connection where no token has been posted, or waits for
  the answer to a request the writer has still to decide or to answer.  A waiting one
  can always leave when its context is cancelled or the connection is closed.
  */
  lemma NobodyStuck(calls: seq<Call>, s: State, p: nat)
    requires Reachable(calls, s) && p < |calls| && p < |s.phases| && Shaped(calls, s) && !s.phases[p].Returned?
    ensures var ph, c := s.phases[p], LaneOf(calls[p].kind);
            || Next(calls, s, Produce(p, Proceed)).Some?
            || (ph.WaitSpace? && !Get(s, c).token)
            || (ph.WaitAck? && s.acks[p].None? && (p in Get(s, c).items || InHand(calls, s.writer, c) == [p]
                  || (s.writer.Acking? && s.writer.p == p)))
    ensures s.phases[p].WaitSpace? || s.phases[p].WaitAck? ==>
              && (p in s.cancelled ==> Gone(calls, s, p, SeeCancel, Err(Cancelled)))
              && (!s.open ==> Gone(calls, s, p, SeeClosed, Err(Closed)))
  {
    hide Exec, Inv, Outcomes, FailureCloses;
    ReachablePromises(calls, s);
    if s.phases[p].WaitAck? {
      AckComes(calls, s, p);
    }
  }

  // ------------------------------------------------------------ the search

  /** The queue lengths the writer carries while it searches. */
  function Began(w: Writer): Option<Poll> {
    match w
    case Poll2(b) => Some(b)
    case Poll3(b) => Some(b)
    case Taken(_, b) => Some(b)
    case _ => None
  }

  /**
  What `AsyncYields` and `SyncYields` say is about the queues as they were when
  the search began: the lengths are read off the two lanes by the step that
  leaves `Idle`, and no later step changes them.
  */
  lemma SearchRecorded(calls: seq<Call>, s: State, a: Action, s': State)
    requires Shaped(calls, s) && Next(calls, s, a) == Some(s') && Began(s'.writer).Some?
    ensures Began(s'.writer) == if s.writer.Idle? then Some(Poll(|s.critical.items|, |s.sync.items|)) else Began(s.writer)
  {
    hide ProducerLocal, LockFree, Cost;
  }

  // ----------------------------------------------------- the writer's progress

  /** A close takes effect at once, and nothing but a lock held for an enqueue can delay it. */
  lemma CloseTakesEffect(calls: seq<Call>, s: State)
    requires Shaped(calls, s)
    ensures !s.open || LockFree(calls, s) ==> Next(calls, s, Close) == Some(s.(open := false))
    ensures s.open && !LockFree(calls, s) ==> Next(calls, s, Close) == None
  {
    hide LockFree;
  }

  predicate Searching(w: Writer) {
    w.Idle? || w.Poll2? || w.Poll3?
  }

  lemma SearchStops(calls: seq<Call>, s: State)
    requires Shaped(calls, s) && Searching(s.writer) && (!s.open || !s.serving)
    ensures WriterStep(calls, s, Quit) == Some(s.(writer := Draining(Critical)))
  {
    hide LockFree, Cost, LaneOf;
  }

  lemma SearchGoesOn(calls: seq<Call>, s: State)
    requires Shaped(calls, s) && Searching(s.writer) && s.open && s.serving
    requires s.critical.items != [] || s.sync.items != [] || s.async.items != []
    ensures exists choice :: WriterStep(calls, s, choice).Some?
  {
    hide LockFree, Cost, LaneOf;
    var next := if s.writer.Idle? then (if s.critical.items != [] then Take(Critical) else Default)
                else if s.writer.Poll2? then (if s.sync.items != [] then Take(Sync) else Default)
                else Take(if s.critical.items != [] then Critical else if s.sync.items != [] then Sync else Async);
    assert WriterStep(calls, s, next).Some?;
  }

  lemma HandGoesOn(calls: seq<Call>, s: State)
    requires Shaped(calls, s) && WriterValid(calls, s) && !Searching(s.writer) && !s.writer.Stopped?
    requires s.writer.Closing? ==> !s.open || LockFree(calls, s)
    ensures WriterStep(calls, s, Run).Some?
  {
    hide LockFree, Cost, LaneOf;
  }

  /**
  The writer is never stuck: a writer that has not stopped can go on unless
  there is nothing to send on an open, served connection or it waits to close
  while somebody holds the lock; and once the connection is closed or no longer
  served, a search can always give way to the final drain.
  */
  lemma WriterNotStuck(calls: seq<Call>, s: State)
    requires Reachable(calls, s) && Shaped(calls, s) && !s.writer.Stopped?
    ensures || (exists choice :: WriterStep(calls, s, choice).Some?)
            || (s.open && s.serving && Searching(s.writer)
                && s.critical.items == [] && s.sync.items == [] && s.async.items == [])
            || (s.writer.Closing? && s.open && !LockFree(calls, s))
    ensures Searching(s.writer) && (!s.open || !s.serving) ==>
              Next(calls, s, Write(Quit)) == Some(s.(writer := Draining(Critical)))
  {
    hide Exec, Inv, WriterStep, LockFree, WriterValid;
    ReachableInv(calls, s);
    HeadsAreSent(calls, s);
    if Searching(s.writer) {
      if !s.open || !s.serving {
        SearchStops(calls, s);
      } else if s.critical.items != [] || s.sync.items != [] || s.async.items != [] {
        SearchGoesOn(calls, s);
      }
    } else if !s.writer.Closing? || !s.open || LockFree(calls, s) {
      HandGoesOn(calls, s);
    }
  }

  /** What the final drain has still to do. */
  function DrainRank(s: State): nat {
    8 * (|s.critical.items| + |s.sync.items| + |s.async.items|)
    + match s.writer
      case DrainTaken(_) => 7
      case DrainFreed(_) => 6
      case Acking(_, v) => if v.Discarded? then 5 else 0
      case Draining(Critical) => 4
      case Draining(Sync) => 3
      case Draining(Async) => 2
      case _ => 0
  }

  predicate InDrain(w: Writer) {
    w.Draining? || w.DrainTaken? || w.DrainFreed? || (w.Acking? && w.verdict.Discarded?)
  }

  lemma DrainTakes(calls: seq<Call>, s: State, choice: WriterChoice, s': State)
    requires Shaped(calls, s) && s.writer.Draining? && WriterStep(calls, s, choice) == Some(s')
    ensures DrainRank(s') < DrainRank(s) && (InDrain(s'.writer) || s'.writer.Stopped?)
  {
    hide LockFree, Cost, LaneOf;
  }

  lemma DrainGives(calls: seq<Call>, s: State, choice: WriterChoice, s': State)
    requires Shaped(calls, s) && InDrain(s.writer) && !s.writer.Draining? && WriterStep(calls, s, choice) == Some(s')
    ensures DrainRank(s') < DrainRank(s) && InDrain(s'.writer)
  {
    hide LockFree, Cost, LaneOf;
  }

  /** The final drain ends: each of its steps leaves less to do, until it stops. */
  lemma DrainShrinks(calls: seq<Call>, s: State, choice: WriterChoice, s': State)
    requires Shaped(calls, s) && InDrain(s.writer) && WriterStep(calls, s, choice) == Some(s')
    ensures DrainRank(s') < DrainRank(s) && (InDrain(s'.writer) || s'.writer.Stopped?)
  {
    hide WriterStep, DrainRank;
    if s.writer.Draining? {
      DrainTakes(calls, s, choice, s');
    } else {
      DrainGives(calls, s, choice, s');
    }
  }
}
