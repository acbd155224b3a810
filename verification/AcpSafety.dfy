/**
Invariants of the ACP write runtime over every schedule: byte accounting, order
of writes, truth of acknowledgements, priority of the lanes, and absence of
lost wake-ups.
*/
module AcpSafety {
  import opened Common
  import opened AcpWriter

  // ------------------------------------------------------------- vocabulary

  function CostAt(calls: seq<Call>, p: nat): nat {
    if p < |calls| then Cost(calls[p]) else 0
  }

  /** Bytes of a channel's content. */
  function QueuedBytes(calls: seq<Call>, items: seq<nat>): nat {
    Sum(seq(|items|, i requires 0 <= i < |items| => CostAt(calls, items[i])))
  }

  /** Whether a producer in this phase has bytes reserved that are not in the channel. */
  predicate HoldsBytes(ph: Phase) {
    ph.Reserved? || ph.Sending? || ph.Releasing?
  }

  function Weight(call: Call, ph: Phase, c: Lane): nat {
    if LaneOf(call.kind) == c && HoldsBytes(ph) then Cost(call) else 0
  }

  function Weights(calls: seq<Call>, phases: seq<Phase>, c: Lane): (w: seq<nat>)
    requires |phases| == |calls|
    ensures |w| == |calls|
    ensures forall i :: 0 <= i < |calls| ==> w[i] == Weight(calls[i], phases[i], c)
  {
    seq(|calls|, i requires 0 <= i < |calls| => Weight(calls[i], phases[i], c))
  }

  /** Bytes reserved by producers that are mid-enqueue. */
  function HeldBytes(calls: seq<Call>, phases: seq<Phase>, c: Lane): nat
    requires |phases| == |calls|
  {
    Sum(Weights(calls, phases, c))
  }

  /** The bytes the writer has dequeued and not yet given back. */
  function WriterBytes(calls: seq<Call>, w: Writer, c: Lane): nat {
    match w
    case Taken(p, _) => if p < |calls| && LaneOf(calls[p].kind) == c then Cost(calls[p]) else 0
    case DrainTaken(p) => if p < |calls| && LaneOf(calls[p].kind) == c then Cost(calls[p]) else 0
    case _ => 0
  }

  /** The request the writer has dequeued and not yet decided. */
  function InHand(calls: seq<Call>, w: Writer, c: Lane): seq<nat> {
    if (w.Taken? || w.Freed? || w.Handling? || w.Writing? || w.DrainTaken? || w.DrainFreed?)
       && w.p < |calls| && LaneOf(calls[w.p].kind) == c
    then [w.p] else []
  }

  /** The requests of one lane in the order in which the writer decided them. */
  function Decided(calls: seq<Call>, log: seq<Entry>, c: Lane): seq<nat> {
    if log == [] then [] else
    var e := log[|log| - 1];
    Decided(calls, log[..|log| - 1], c) +
    (if e.p < |calls| && LaneOf(calls[e.p].kind) == c then [e.p] else [])
  }

  predicate Done(ph: Phase) {
    ph.WaitAck? || ph.Returned?
  }

  predicate Bad(v: Verdict) {
    v.Failed? || v.Discarded?
  }

  /** The writer is still in its serving loop: no write has failed and no frame was discarded. */
  predicate MainLoop(w: Writer) {
    match w
    case Closing => false
    case Draining(_) => false
    case DrainTaken(_) => false
    case DrainFreed(_) => false
    case Stopped => false
    case Acking(_, v) => !Bad(v)
    case _ => true
  }

  // -------------------------------------------------------------- invariants

  ghost predicate WriterValid(calls: seq<Call>, s: State)
    requires Shaped(calls, s)
  {
    match s.writer
    case Taken(p, _) => p < |calls|
    case Freed(p) => p < |calls|
    case Handling(p) => p < |calls|
    case Writing(p) => p < |calls| && !calls[p].kind.Flush?
    case DrainTaken(p) => p < |calls|
    case DrainFreed(p) => p < |calls|
    case Acking(p, v) =>
      p < |calls| && |s.log| > 0 && s.log[|s.log| - 1] == Entry(p, v) && s.acks[p].None?
    case _ => true
  }

  /** The lane's counter is exactly what is queued, reserved or just dequeued, and stays in budget. */
  ghost predicate Books(calls: seq<Call>, s: State, c: Lane)
    requires Shaped(calls, s)
  {
    var q := Get(s, c);
    && q.bytes == QueuedBytes(calls, q.items) + HeldBytes(calls, s.phases, c) + WriterBytes(calls, s.writer, c)
    && q.bytes <= MAX_QUEUED
    && |q.items| <= Slots(c)
  }

  ghost predicate Distinct(xs: seq<nat>) {
    forall i, j :: 0 <= i < j < |xs| ==> xs[i] != xs[j]
  }

  /** A producer whose request has entered lane `c` waits for its answer or has returned. */
  ghost predicate SentOn(calls: seq<Call>, s: State, p: nat, c: Lane)
    requires Shaped(calls, s)
  {
    p < |calls| && LaneOf(calls[p].kind) == c && Done(s.phases[p])
  }

  /** Everything sent on a lane is decided, in hand or queued, in sending order and once each. */
  ghost predicate Order(calls: seq<Call>, s: State, c: Lane)
    requires Shaped(calls, s)
  {
    var q := Get(s, c);
    && q.sent == Decided(calls, s.log, c) + InHand(calls, s.writer, c) + q.items
    && Distinct(q.sent)
    && (forall p :: p in q.sent ==> SentOn(calls, s, p, c))
  }

  /** Verdicts are true, and once one is bad only discards follow. */
  ghost predicate Verdicts(calls: seq<Call>, s: State) {
    && (forall i :: 0 <= i < |s.log| ==>
          && s.log[i].p < |calls|
          && (s.log[i].verdict.Skipped? ==> s.log[i].p in s.cancelled)
          && (s.log[i].verdict.Flushed? ==> calls[s.log[i].p].kind.Flush?)
          && (s.log[i].verdict.Written? ==> !calls[s.log[i].p].kind.Flush?))
    && (forall i, j :: 0 <= i < j < |s.log| && Bad(s.log[i].verdict) ==> s.log[j].verdict.Discarded?)
    && (MainLoop(s.writer) ==> forall i :: 0 <= i < |s.log| ==> !Bad(s.log[i].verdict))
  }

  /** An acknowledgement repeats the verdict, and every decided request but the current one has had it. */
  ghost predicate Acks(calls: seq<Call>, s: State)
    requires Shaped(calls, s)
  {
    && (forall p :: 0 <= p < |calls| && s.acks[p].Some? ==>
          && !NonBlocking(calls[p].kind)
          && exists i :: 0 <= i < |s.log| && s.log[i].p == p && s.acks[p].value == AckOf(s.log[i].verdict))
    && (forall i :: 0 <= i < |s.log| && s.log[i].p < |calls| && !NonBlocking(calls[s.log[i].p].kind) ==>
          || s.acks[s.log[i].p] == Some(AckOf(s.log[i].verdict))
          || (s.writer.Acking? && i == |s.log| - 1))
    && (forall p :: 0 <= p < |calls| && s.phases[p] == Returned(Ok) && !NonBlocking(calls[p].kind) ==>
          s.acks[p] == Some(Ok))
  }

  /** Lengths seen when `nextWrite` began bound what a later select may take. */
  ghost predicate Priority(calls: seq<Call>, s: State) {
    match s.writer
    case Poll2(b) => b.critical == 0 && |s.sync.items| >= b.sync
    case Poll3(b) => b.critical == 0 && b.sync == 0
    case Taken(p, b) =>
      && (p < |calls| && LaneOf(calls[p].kind).Async? ==> b == Poll(0, 0))
      && (p < |calls| && LaneOf(calls[p].kind).Sync? ==> b.critical == 0)
    case _ => true
  }

  /** A producer that will enqueue, post a token, or retry. */
  predicate Active(ph: Phase) {
    || ph.Reserved? || ph.Sending? || ph.Releasing? || ph.Signalling?
    || ph == Reserving(true) || ph == Locking(true)
  }

  predicate WriterOwes(calls: seq<Call>, w: Writer, c: Lane) {
    && (w.Taken? || w.Freed? || w.DrainTaken? || w.DrainFreed?)
    && w.p < |calls| && LaneOf(calls[w.p].kind) == c
  }

  ghost predicate IsWaiting(calls: seq<Call>, s: State, p: nat, c: Lane)
    requires Shaped(calls, s)
  {
    p < |calls| && LaneOf(calls[p].kind) == c && s.phases[p].WaitSpace?
  }

  ghost predicate IsActive(calls: seq<Call>, s: State, p: nat, c: Lane)
    requires Shaped(calls, s)
  {
    p < |calls| && LaneOf(calls[p].kind) == c && Active(s.phases[p])
  }

  /** Some step that will post a token on lane `c`, or consume one and retry, is still to come. */
  ghost predicate WakeupComing(calls: seq<Call>, s: State, c: Lane)
    requires Shaped(calls, s)
  {
    || Get(s, c).token
    || Get(s, c).items != []
    || WriterOwes(calls, s.writer, c)
    || exists p :: IsActive(calls, s, p, c)
  }

  /** No lost wake-up: nobody waits for space on an open connection with nothing left to wake it. */
  ghost predicate NoLostWakeup(calls: seq<Call>, s: State, c: Lane)
    requires Shaped(calls, s)
  {
    s.open && (exists p :: IsWaiting(calls, s, p, c)) ==> WakeupComing(calls, s, c)
  }

  /** Phases each entry point can be in; past the size check a frame fits the message limit. */
  predicate PhaseOk(call: Call, ph: Phase) {
    && (ph.Begin? || ph.Returned? || Cost(call) <= MAX_MESSAGE)
    && (NonBlocking(call.kind) ==>
          !(ph.Reserved? || ph.WaitSpace? || ph.WaitAck? || ph == Reserving(true) || ph == Locking(true)))
    && (ph.Locking? ==> NonBlocking(call.kind) || call.kind.Flush?)
    && (call.kind.Flush? ==> !(ph.Reserving? || ph.Reserved? || ph.Releasing? || ph.Signalling?))
  }

  ghost predicate Phases(calls: seq<Call>, s: State)
    requires Shaped(calls, s)
  {
    forall p :: 0 <= p < |calls| ==> PhaseOk(calls[p], s.phases[p])
  }

  ghost predicate LaneInv(calls: seq<Call>, s: State, c: Lane)
    requires Shaped(calls, s)
  {
    Books(calls, s, c) && Order(calls, s, c) && NoLostWakeup(calls, s, c)
  }

  ghost predicate Inv(calls: seq<Call>, s: State) {
    && Shaped(calls, s)
    && WriterValid(calls, s)
    && Phases(calls, s)
    && LaneInv(calls, s, Critical) && LaneInv(calls, s, Sync) && LaneInv(calls, s, Async)
    && Verdicts(calls, s)
    && Acks(calls, s)
    && Priority(calls, s)
  }

  // ------------------------------------------------------------ bookkeeping

  lemma HeldAfter(calls: seq<Call>, phases: seq<Phase>, p: nat, ph: Phase, c: Lane)
    requires |phases| == |calls| && p < |calls|
    ensures HeldBytes(calls, phases[p := ph], c)
         == HeldBytes(calls, phases, c) - Weight(calls[p], phases[p], c) + Weight(calls[p], ph, c)
  {
    assert Weights(calls, phases[p := ph], c) == Weights(calls, phases, c)[p := Weight(calls[p], ph, c)];
    SumUpdate(Weights(calls, phases, c), p, Weight(calls[p], ph, c));
  }

  lemma QueuedAfterSend(calls: seq<Call>, items: seq<nat>, p: nat)
    ensures QueuedBytes(calls, items + [p]) == QueuedBytes(calls, items) + CostAt(calls, p)
  {
    var w := seq(|items|, i requires 0 <= i < |items| => CostAt(calls, items[i]));
    var w' := seq(|items + [p]|, i requires 0 <= i < |items + [p]| => CostAt(calls, (items + [p])[i]));
    assert w' == w + [CostAt(calls, p)];
    SumAppend(w, CostAt(calls, p));
  }

  lemma QueuedAfterTake(calls: seq<Call>, items: seq<nat>)
    requires items != []
    ensures QueuedBytes(calls, items) == CostAt(calls, items[0]) + QueuedBytes(calls, items[1..])
  {
    var w := seq(|items|, i requires 0 <= i < |items| => CostAt(calls, items[i]));
    var w' := seq(|items[1..]|, i requires 0 <= i < |items[1..]| => CostAt(calls, items[1..][i]));
    assert w[1..] == w';
  }

  /** A counter above zero means someone holds, queued or is giving back bytes. */
  lemma BytesAreSomewhere(calls: seq<Call>, s: State, c: Lane)
    requires Shaped(calls, s) && Books(calls, s, c) && Get(s, c).bytes > 0
    ensures WakeupComing(calls, s, c)
  {
    var q := Get(s, c);
    if q.items == [] && !WriterOwes(calls, s.writer, c) {
      assert QueuedBytes(calls, q.items) == 0;
      SumPositive(Weights(calls, s.phases, c));
      var i :| 0 <= i < |calls| && Weights(calls, s.phases, c)[i] > 0;
      assert IsActive(calls, s, i, c);
    }
  }

  // ---------------------------------------------------------- producer steps

  /** What any producer step can do to its own lane and to its own phase. */
  ghost predicate Move(call: Call, p: nat, v: View, v': View, open: bool, ack: Option<Outcome>) {
    var c := LaneOf(call.kind);
    var q, q', ph, ph' := v.queue, v'.queue, v.phase, v'.phase;
    && PhaseOk(call, ph')
    && (Done(ph) ==> Done(ph'))
    && (ph' == Returned(Ok) && !NonBlocking(call.kind) ==> ack == Some(Ok))
    && (|| (q' == q.(bytes := q.bytes + Weight(call, ph', c) - Weight(call, ph, c))
            && (q'.bytes <= q.bytes || q'.bytes <= MAX_QUEUED))
        || (q' == q.(items := q.items + [p], sent := q.sent + [p])
            && ph.Sending? && Done(ph') && |q.items| < Slots(c))
        || (q' == q.(token := true) && HoldsBytes(ph) == HoldsBytes(ph') == false)
        || (q' == q.(token := false) && HoldsBytes(ph) == HoldsBytes(ph') == false && Active(ph')))
    && (ph'.WaitSpace? || Active(ph) ==>
          Active(ph') || q'.token || q'.items != [] || q'.bytes > 0 || !open)
  }

  lemma EntryMoves(call: Call, p: nat, v: View, open: bool, cancelled: bool,
                   ack: Option<Outcome>, choice: Choice, v': View)
    requires ProducerLocal(call, p, v, open, cancelled, ack, choice) == Some(v')
    requires PhaseOk(call, v.phase)
    requires v.phase.Begin? || v.phase.Locking? || v.phase.Reserving? || v.phase.Reserved?
    ensures Move(call, p, v, v', open, ack)
  {
  }

  lemma ReleaseMoves(call: Call, p: nat, v: View, open: bool, cancelled: bool,
                     ack: Option<Outcome>, choice: Choice, v': View)
    requires ProducerLocal(call, p, v, open, cancelled, ack, choice) == Some(v')
    requires PhaseOk(call, v.phase)
    requires v.phase.Sending? || v.phase.Releasing? || v.phase.Signalling?
    ensures Move(call, p, v, v', open, ack)
  {
  }

  lemma WaitMoves(call: Call, p: nat, v: View, open: bool, cancelled: bool,
                  ack: Option<Outcome>, choice: Choice, v': View)
    requires ProducerLocal(call, p, v, open, cancelled, ack, choice) == Some(v')
    requires PhaseOk(call, v.phase)
    requires v.phase.WaitSpace? || v.phase.WaitAck?
    ensures Move(call, p, v, v', open, ack)
  {
  }

  lemma ProducerMoves(call: Call, p: nat, v: View, open: bool, cancelled: bool,
                      ack: Option<Outcome>, choice: Choice, v': View)
    requires ProducerLocal(call, p, v, open, cancelled, ack, choice) == Some(v')
    requires PhaseOk(call, v.phase)
    ensures Move(call, p, v, v', open, ack)
  {
    hide Move, PhaseOk;
    match v.phase
    case Sending | Releasing(_) | Signalling(_) =>
      ReleaseMoves(call, p, v, open, cancelled, ack, choice, v');
    case WaitSpace | WaitAck =>
      WaitMoves(call, p, v, open, cancelled, ack, choice, v');
    case Returned(_) =>
    case _ =>
      EntryMoves(call, p, v, open, cancelled, ack, choice, v');
  }

  /** One producer step seen as a move of its own view. */
  ghost predicate Stepped(calls: seq<Call>, s: State, p: nat, s': State)
    requires Shaped(calls, s)
  {
    && p < |calls| && Shaped(calls, s')
    && (var c := LaneOf(calls[p].kind);
        && s'.phases == s.phases[p := s'.phases[p]]
        && s' == Put(s, c, Get(s', c)).(phases := s'.phases)
        && Move(calls[p], p, View(Get(s, c), s.phases[p]), View(Get(s', c), s'.phases[p]), s.open, s.acks[p]))
  }

  lemma ProducerStepped(calls: seq<Call>, s: State, p: nat, choice: Choice, s': State)
    requires Shaped(calls, s) && Phases(calls, s) && ProducerStep(calls, s, p, choice) == Some(s')
    ensures Stepped(calls, s, p, s')
  {
    var c := LaneOf(calls[p].kind);
    ProducerMoves(calls[p], p, View(Get(s, c), s.phases[p]), s.open, p in s.cancelled, s.acks[p], choice,
                  View(Get(s', c), s'.phases[p]));
  }

  lemma ProducerBooks(calls: seq<Call>, s: State, p: nat, s': State, c: Lane)
    requires Shaped(calls, s) && Books(calls, s, c) && Stepped(calls, s, p, s')
    ensures Books(calls, s', c)
  {
    HeldAfter(calls, s.phases, p, s'.phases[p], c);
    QueuedAfterSend(calls, Get(s, c).items, p);
  }

  lemma ProducerOrder(calls: seq<Call>, s: State, p: nat, s': State, c: Lane)
    requires Shaped(calls, s) && Order(calls, s, c) && Stepped(calls, s, p, s')
    ensures Order(calls, s', c)
  {
    var q, q' := Get(s, c), Get(s', c);
    forall r | SentOn(calls, s, r, c) ensures SentOn(calls, s', r, c) {}
    if q'.sent != q.sent {
      assert q'.sent == q.sent + [p] && q'.items == q.items + [p];
      assert !SentOn(calls, s, p, c) && SentOn(calls, s', p, c);
      var rest := Decided(calls, s.log, c) + InHand(calls, s.writer, c);
      assert rest + q.items + [p] == rest + (q.items + [p]);
    } else {
      assert q'.items == q.items;
    }
  }

  lemma ProducerWakeup(calls: seq<Call>, s: State, p: nat, s': State, c: Lane)
    requires Shaped(calls, s) && NoLostWakeup(calls, s, c) && Stepped(calls, s, p, s') && Books(calls, s', c)
    ensures NoLostWakeup(calls, s', c)
  {
    if s'.open && exists w :: IsWaiting(calls, s', w, c) {
      var w :| IsWaiting(calls, s', w, c);
      if LaneOf(calls[p].kind) == c && (s'.phases[p].WaitSpace? || Active(s.phases[p])) {
        if Active(s'.phases[p]) {
          assert IsActive(calls, s', p, c);
        } else if Get(s', c).bytes > 0 {
          BytesAreSomewhere(calls, s', c);
        }
      } else {
        assert IsWaiting(calls, s, w, c);
        if a :| IsActive(calls, s, a, c) {
          assert IsActive(calls, s', a, c);
        } else if IsActive(calls, s', p, c) {
        }
      }
    }
  }

  lemma ProducerRest(calls: seq<Call>, s: State, p: nat, s': State)
    requires Shaped(calls, s) && Stepped(calls, s, p, s')
    requires WriterValid(calls, s) && Phases(calls, s) && Verdicts(calls, s) && Acks(calls, s) && Priority(calls, s)
    ensures WriterValid(calls, s') && Phases(calls, s') && Verdicts(calls, s') && Acks(calls, s') && Priority(calls, s')
  {
  }

  lemma ProducerKeepsInv(calls: seq<Call>, s: State, p: nat, choice: Choice, s': State)
    requires Inv(calls, s) && ProducerStep(calls, s, p, choice) == Some(s')
    ensures Inv(calls, s')
  {
    ProducerStepped(calls, s, p, choice, s');
    forall c: Lane ensures LaneInv(calls, s', c) {
      assert LaneInv(calls, s, c);
      ProducerBooks(calls, s, p, s', c);
      ProducerOrder(calls, s, p, s', c);
      ProducerWakeup(calls, s, p, s', c);
    }
    ProducerRest(calls, s, p, s');
  }

  // ------------------------------------------------------------ writer steps

  lemma DecidedAppend(calls: seq<Call>, log: seq<Entry>, e: Entry, c: Lane)
    ensures Decided(calls, log + [e], c)
         == Decided(calls, log, c) + (if e.p < |calls| && LaneOf(calls[e.p].kind) == c then [e.p] else [])
  {
    assert (log + [e])[..|log|] == log;
  }

  /** The head of a lane is one of that lane's own requests. */
  lemma HeadIsSent(calls: seq<Call>, s: State, c: Lane)
    requires Shaped(calls, s) && Order(calls, s, c) && Get(s, c).items != []
    ensures SentOn(calls, s, Get(s, c).items[0], c)
  {
    var q := Get(s, c);
    assert q.items[0] in q.sent;
  }

  /** What any writer step can do to one lane, the log, and what the writer holds of that lane. */
  ghost predicate LaneMove(calls: seq<Call>, s: State, s': State, c: Lane) {
    var q, q', w, w' := Get(s, c), Get(s', c), s.writer, s'.writer;
    || (q' == q && s'.log == s.log
        && InHand(calls, w', c) == InHand(calls, w, c)
        && WriterBytes(calls, w', c) == WriterBytes(calls, w, c)
        && WriterOwes(calls, w', c) == WriterOwes(calls, w, c))
    || (q.items != [] && q' == q.(items := q.items[1..]) && s'.log == s.log
        && InHand(calls, w, c) == [] && InHand(calls, w', c) == [q.items[0]]
        && WriterBytes(calls, w, c) == 0 && WriterBytes(calls, w', c) == CostAt(calls, q.items[0])
        && WriterOwes(calls, w', c))
    || (q' == q.(bytes := q.bytes - WriterBytes(calls, w, c)) && s'.log == s.log
        && InHand(calls, w', c) == InHand(calls, w, c)
        && WriterBytes(calls, w', c) == 0
        && WriterOwes(calls, w', c))
    || (q' == q.(token := true) && s'.log == s.log
        && InHand(calls, w', c) == InHand(calls, w, c)
        && WriterBytes(calls, w, c) == WriterBytes(calls, w', c) == 0)
    || (q' == q.(token := q'.token) && (q'.token || (!WriterOwes(calls, w, c) && !q.token))
        && |s'.log| == |s.log| + 1 && s'.log[..|s.log|] == s.log
        && Decided(calls, s'.log, c) == Decided(calls, s.log, c) + InHand(calls, w, c)
        && InHand(calls, w', c) == []
        && WriterBytes(calls, w, c) == WriterBytes(calls, w', c) == 0)
  }

  /** The dequeue of one lane, as seen by every lane. */
  lemma DequeueMoves(calls: seq<Call>, s: State, d: Lane, w': Writer, s': State, c: Lane)
    requires Get(s, d).items != []
    requires Get(s, d).items[0] < |calls| && LaneOf(calls[Get(s, d).items[0]].kind) == d
    requires w' == DrainTaken(Get(s, d).items[0]) || (w'.Taken? && w'.p == Get(s, d).items[0])
    requires s' == Put(s, d, Get(s, d).(items := Get(s, d).items[1..])).(writer := w')
    requires s.writer.Idle? || s.writer.Poll2? || s.writer.Poll3? || s.writer.Draining?
    ensures LaneMove(calls, s, s', c)
  {
  }

  ghost predicate HeadsSent(calls: seq<Call>, s: State)
    requires Shaped(calls, s)
  {
    forall d :: Get(s, d).items != [] ==> SentOn(calls, s, Get(s, d).items[0], d)
  }

  lemma PollMoves(calls: seq<Call>, s: State, choice: WriterChoice, s': State, c: Lane)
    requires Shaped(calls, s) && WriterStep(calls, s, choice) == Some(s') && HeadsSent(calls, s)
    requires s.writer.Idle? || s.writer.Poll2? || s.writer.Poll3? || s.writer.Draining?
    ensures LaneMove(calls, s, s', c)
  {
    if s.writer.Draining? {
      if Get(s, s.writer.lane).items != [] {
        DequeueMoves(calls, s, s.writer.lane, s'.writer, s', c);
      }
    } else if choice.Take? {
      DequeueMoves(calls, s, choice.lane, s'.writer, s', c);
    }
  }

  lemma HandMoves(calls: seq<Call>, s: State, choice: WriterChoice, s': State, c: Lane)
    requires Shaped(calls, s) && WriterStep(calls, s, choice) == Some(s') && WriterValid(calls, s)
    requires s.writer.Taken? || s.writer.Freed? || s.writer.DrainTaken?
    ensures LaneMove(calls, s, s', c)
  {
  }

  lemma LogMoves(calls: seq<Call>, s: State, p: nat, v: Verdict, posted: bool, s': State, c: Lane)
    requires p < |calls|
    requires if posted then s.writer == DrainFreed(p) else s.writer == Handling(p) || s.writer == Writing(p)
    requires var d := LaneOf(calls[p].kind);
             s' == Log(if posted then Put(s, d, Get(s, d).(token := true)) else s, p, v)
    ensures LaneMove(calls, s, s', c)
  {
    DecidedAppend(calls, s.log, Entry(p, v), c);
    assert s'.log[..|s.log|] == s.log;
    assert (if LaneOf(calls[p].kind) == c then [p] else []) == InHand(calls, s.writer, c);
  }

  lemma DecideMoves(calls: seq<Call>, s: State, choice: WriterChoice, s': State, c: Lane)
    requires Shaped(calls, s) && WriterStep(calls, s, choice) == Some(s') && WriterValid(calls, s)
    requires s.writer.Handling? || s.writer.Writing? || s.writer.DrainFreed?
    ensures LaneMove(calls, s, s', c)
  {
    if s.writer.DrainFreed? {
      LogMoves(calls, s, s.writer.p, Discarded, true, s', c);
    } else if s'.writer.Acking? {
      LogMoves(calls, s, s.writer.p, s'.writer.verdict, false, s', c);
    }
  }

  lemma QuietMoves(calls: seq<Call>, s: State, choice: WriterChoice, s': State, c: Lane)
    requires Shaped(calls, s) && WriterStep(calls, s, choice) == Some(s')
    requires s.writer.Acking? || s.writer.Closing?
    ensures LaneMove(calls, s, s', c)
  {
  }

  lemma WriterMoves(calls: seq<Call>, s: State, choice: WriterChoice, s': State, c: Lane)
    requires Shaped(calls, s) && WriterStep(calls, s, choice) == Some(s') && WriterValid(calls, s)
    requires HeadsSent(calls, s)
    ensures LaneMove(calls, s, s', c)
  {
    var w := s.writer;
    if w.Idle? || w.Poll2? || w.Poll3? || w.Draining? {
      PollMoves(calls, s, choice, s', c);
    } else if w.Taken? || w.Freed? || w.DrainTaken? {
      HandMoves(calls, s, choice, s', c);
    } else if w.Handling? || w.Writing? || w.DrainFreed? {
      DecideMoves(calls, s, choice, s', c);
    } else if w.Acking? || w.Closing? {
      QuietMoves(calls, s, choice, s', c);
    }
  }

  lemma WriterFrame(calls: seq<Call>, s: State, choice: WriterChoice, s': State)
    requires Shaped(calls, s) && WriterStep(calls, s, choice) == Some(s')
    ensures s'.phases == s.phases && (s'.open ==> s.open) && s'.cancelled == s.cancelled
  {
  }

  lemma WriterBooks(calls: seq<Call>, s: State, s': State, c: Lane)
    requires Shaped(calls, s) && Shaped(calls, s') && s'.phases == s.phases && LaneMove(calls, s, s', c)
    requires Books(calls, s, c)
    ensures Books(calls, s', c)
  {
    if Get(s, c).items != [] {
      QueuedAfterTake(calls, Get(s, c).items);
    }
  }

  lemma WriterOrder(calls: seq<Call>, s: State, s': State, c: Lane)
    requires Shaped(calls, s) && Shaped(calls, s') && s'.phases == s.phases && LaneMove(calls, s, s', c)
    requires Order(calls, s, c)
    ensures Order(calls, s', c)
  {
    hide WriterBytes, WriterOwes;
    forall r | SentOn(calls, s, r, c) ensures SentOn(calls, s', r, c) {}
    var q := Get(s, c);
    if q.items != [] {
      assert q.items == [q.items[0]] + q.items[1..];
    }
    assert q.sent == Decided(calls, s'.log, c) + InHand(calls, s'.writer, c) + Get(s', c).items;
  }

  lemma WriterWakeup(calls: seq<Call>, s: State, s': State, c: Lane)
    requires Shaped(calls, s) && Shaped(calls, s') && s'.phases == s.phases && LaneMove(calls, s, s', c)
    requires s'.open ==> s.open
    requires NoLostWakeup(calls, s, c)
    ensures NoLostWakeup(calls, s', c)
  {
    if s'.open && exists w :: IsWaiting(calls, s', w, c) {
      var w :| IsWaiting(calls, s', w, c);
      assert IsWaiting(calls, s, w, c);
      if a :| IsActive(calls, s, a, c) {
        assert IsActive(calls, s', a, c);
      }
    }
  }

  lemma {:induction false} DecidedHas(calls: seq<Call>, log: seq<Entry>, i: nat, c: Lane)
    requires i < |log| && log[i].p < |calls| && LaneOf(calls[log[i].p].kind) == c
    ensures log[i].p in Decided(calls, log, c)
  {
    var front := log[..|log| - 1];
    if i < |log| - 1 {
      assert front[i] == log[i];
      DecidedHas(calls, front, i, c);
    }
  }

  lemma DistinctMiddle(xs: seq<nat>, p: nat, ys: seq<nat>)
    requires Distinct(xs + [p] + ys)
    ensures p !in xs
  {
    var all := xs + [p] + ys;
    assert all[|xs|] == p;
    forall k | 0 <= k < |xs| ensures xs[k] != p {
      assert all[k] == xs[k];
    }
  }

  /** A request in the writer's hand has not been decided before, so its answer slot is still empty. */
  lemma InHandIsFresh(calls: seq<Call>, s: State, c: Lane)
    requires Shaped(calls, s) && Order(calls, s, c) && Acks(calls, s)
    requires InHand(calls, s.writer, c) != []
    ensures s.acks[s.writer.p].None?
  {
    var p := s.writer.p;
    DistinctMiddle(Decided(calls, s.log, c), p, Get(s, c).items);
    forall i | 0 <= i < |s.log| ensures s.log[i].p != p {
      if s.log[i].p == p {
        DecidedHas(calls, s.log, i, c);
      }
    }
  }

  /** What a writer step can do to the log and the answers. */
  ghost predicate LogMove(calls: seq<Call>, s: State, s': State)
    requires Shaped(calls, s)
  {
    var w, w' := s.writer, s'.writer;
    || (s'.log == s.log && s'.acks == s.acks && !w.Acking? && !w'.Acking? && (MainLoop(w') ==> MainLoop(w)))
    || ((w.Handling? || w.Writing? || w.DrainFreed?) && w'.Acking? && w'.p == w.p
        && s'.log == s.log + [Entry(w.p, w'.verdict)] && s'.acks == s.acks
        && (w.DrainFreed? <==> w'.verdict.Discarded?)
        && (w'.verdict.Skipped? ==> w.p in s.cancelled)
        && (w'.verdict.Flushed? ==> w.p < |calls| && calls[w.p].kind.Flush?)
        && (w'.verdict.Written? ==> w.Writing?))
    || (w.Acking? && !w'.Acking? && s'.log == s.log && w.p < |calls|
        && s'.acks == (if NonBlocking(calls[w.p].kind) || s.acks[w.p].Some? then s.acks
                       else s.acks[w.p := Some(AckOf(w.verdict))])
        && (MainLoop(w') ==> MainLoop(w)))
  }

  lemma PollLogMove(calls: seq<Call>, s: State, choice: WriterChoice, s': State)
    requires Shaped(calls, s) && WriterStep(calls, s, choice) == Some(s')
    requires s.writer.Idle? || s.writer.Poll2? || s.writer.Poll3? || s.writer.Draining?
    ensures LogMove(calls, s, s')
  {
  }

  lemma HandLogMove(calls: seq<Call>, s: State, choice: WriterChoice, s': State)
    requires Shaped(calls, s) && WriterStep(calls, s, choice) == Some(s')
    requires !(s.writer.Idle? || s.writer.Poll2? || s.writer.Poll3? || s.writer.Draining?)
    ensures LogMove(calls, s, s')
  {
  }

  lemma LogMoveKeeps(calls: seq<Call>, s: State, s': State)
    requires Shaped(calls, s) && Shaped(calls, s') && LogMove(calls, s, s') && WriterValid(calls, s)
    requires s'.cancelled == s.cancelled && Verdicts(calls, s)
    ensures Verdicts(calls, s')
  {
  }

  lemma LogMoveKeepsAcks(calls: seq<Call>, s: State, s': State)
    requires Shaped(calls, s) && Shaped(calls, s') && LogMove(calls, s, s') && WriterValid(calls, s)
    requires s'.phases == s.phases && Acks(calls, s)
    ensures Acks(calls, s')
  {
    forall p | 0 <= p < |calls| && s'.acks[p].Some?
      ensures !NonBlocking(calls[p].kind)
      ensures exists i :: 0 <= i < |s'.log| && s'.log[i].p == p && s'.acks[p].value == AckOf(s'.log[i].verdict)
    {
      if s.acks[p].Some? {
        var i :| 0 <= i < |s.log| && s.log[i].p == p && s.acks[p].value == AckOf(s.log[i].verdict);
        assert s'.log[i] == s.log[i];
      } else {
        assert s'.log[|s.log| - 1].p == p;
      }
    }
  }

  lemma PollStaysValid(calls: seq<Call>, s: State, choice: WriterChoice, s': State)
    requires Shaped(calls, s) && WriterStep(calls, s, choice) == Some(s') && HeadsSent(calls, s)
    requires s.writer.Idle? || s.writer.Poll2? || s.writer.Poll3? || s.writer.Draining?
    requires Priority(calls, s)
    ensures WriterValid(calls, s') && Priority(calls, s')
  {
  }

  lemma HandStaysValid(calls: seq<Call>, s: State, choice: WriterChoice, s': State)
    requires Shaped(calls, s) && WriterStep(calls, s, choice) == Some(s') && WriterValid(calls, s)
    requires !(s.writer.Idle? || s.writer.Poll2? || s.writer.Poll3? || s.writer.Draining?)
    requires Acks(calls, s)
    requires forall c :: Order(calls, s, c)
    ensures WriterValid(calls, s') && Priority(calls, s')
  {
    hide Order, Acks;
    var w := s.writer;
    if w.Handling? || w.Writing? || w.DrainFreed? {
      InHandIsFresh(calls, s, LaneOf(calls[w.p].kind));
    }
  }

  lemma AllOrdered(calls: seq<Call>, s: State)
    requires Inv(calls, s)
    ensures forall c :: LaneInv(calls, s, c)
    ensures forall c :: Order(calls, s, c)
    ensures HeadsSent(calls, s)
  {
    hide Books, NoLostWakeup, Acks, Verdicts, Priority, Phases, WriterValid, Order;
    forall c: Lane ensures LaneInv(calls, s, c) {
      match c
      case Critical =>
      case Sync =>
      case Async =>
    }
    forall c: Lane ensures Order(calls, s, c) {
      assert LaneInv(calls, s, c);
    }
    forall c: Lane | Get(s, c).items != [] ensures SentOn(calls, s, Get(s, c).items[0], c) {
      HeadIsSent(calls, s, c);
    }
  }

  lemma WriterKeepsLane(calls: seq<Call>, s: State, choice: WriterChoice, s': State, c: Lane)
    requires Shaped(calls, s) && WriterStep(calls, s, choice) == Some(s') && WriterValid(calls, s)
    requires HeadsSent(calls, s) && LaneInv(calls, s, c)
    ensures LaneInv(calls, s', c)
  {
    WriterFrame(calls, s, choice, s');
    WriterMoves(calls, s, choice, s', c);
    WriterBooks(calls, s, s', c);
    WriterOrder(calls, s, s', c);
    WriterWakeup(calls, s, s', c);
  }

  lemma WriterKeepsRest(calls: seq<Call>, s: State, choice: WriterChoice, s': State)
    requires Shaped(calls, s) && WriterStep(calls, s, choice) == Some(s') && WriterValid(calls, s)
    requires HeadsSent(calls, s) && Verdicts(calls, s) && Acks(calls, s) && Priority(calls, s)
    requires forall c :: Order(calls, s, c)
    ensures WriterValid(calls, s') && Verdicts(calls, s') && Acks(calls, s') && Priority(calls, s')
  {
    WriterFrame(calls, s, choice, s');
    var w := s.writer;
    if w.Idle? || w.Poll2? || w.Poll3? || w.Draining? {
      PollLogMove(calls, s, choice, s');
      PollStaysValid(calls, s, choice, s');
    } else {
      HandLogMove(calls, s, choice, s');
      HandStaysValid(calls, s, choice, s');
    }
    LogMoveKeeps(calls, s, s');
    LogMoveKeepsAcks(calls, s, s');
  }

  lemma WriterKeepsInv(calls: seq<Call>, s: State, choice: WriterChoice, s': State)
    requires Inv(calls, s) && WriterStep(calls, s, choice) == Some(s')
    ensures Inv(calls, s')
  {
    AllOrdered(calls, s);
    forall c: Lane ensures LaneInv(calls, s', c) {
      WriterKeepsLane(calls, s, choice, s', c);
    }
    WriterKeepsRest(calls, s, choice, s');
    WriterFrame(calls, s, choice, s');
  }

  // --------------------------------------------------------------- every run

  lemma InitLane(calls: seq<Call>, c: Lane)
    ensures LaneInv(calls, Init(calls), c)
  {
    var s := Init(calls);
    assert forall i :: 0 <= i < |calls| ==> s.phases[i] == Begin;
    SumZero(Weights(calls, s.phases, c));
  }

  lemma InitInv(calls: seq<Call>)
    ensures Inv(calls, Init(calls))
  {
    hide LaneInv;
    InitLane(calls, Critical);
    InitLane(calls, Sync);
    InitLane(calls, Async);
  }

  /** What a closer or the environment can do to the state. */
  ghost predicate EnvironmentMove(s: State, s': State) {
    && s' == s.(open := s'.open, serving := s'.serving, cancelled := s'.cancelled)
    && s.cancelled <= s'.cancelled
    && (s'.open ==> s.open)
  }

  lemma EnvironmentMoves(calls: seq<Call>, s: State, a: Action, s': State)
    requires Shaped(calls, s) && Next(calls, s, a) == Some(s') && !a.Produce? && !a.Write?
    ensures EnvironmentMove(s, s')
  {
  }

  lemma EnvironmentKeepsLane(calls: seq<Call>, s: State, s': State, c: Lane)
    requires Shaped(calls, s) && EnvironmentMove(s, s')
    requires LaneInv(calls, s, c)
    ensures LaneInv(calls, s', c)
  {
    if s'.open && exists w :: IsWaiting(calls, s', w, c) {
      var w :| IsWaiting(calls, s', w, c);
      assert IsWaiting(calls, s, w, c);
      if p :| IsActive(calls, s, p, c) {
        assert IsActive(calls, s', p, c);
      }
    }
    forall r | SentOn(calls, s, r, c) ensures SentOn(calls, s', r, c) {}
  }

  lemma EnvironmentKeepsRest(calls: seq<Call>, s: State, s': State)
    requires Inv(calls, s) && EnvironmentMove(s, s')
    ensures WriterValid(calls, s') && Phases(calls, s') && Verdicts(calls, s') && Priority(calls, s')
  {
  }

  lemma EnvironmentKeepsAcks(calls: seq<Call>, s: State, s': State)
    requires Shaped(calls, s) && Acks(calls, s) && EnvironmentMove(s, s')
    ensures Acks(calls, s')
  {
  }

  lemma EnvironmentKeepsInv(calls: seq<Call>, s: State, a: Action, s': State)
    requires Inv(calls, s) && Next(calls, s, a) == Some(s') && !a.Produce? && !a.Write?
    ensures Inv(calls, s')
  {
    EnvironmentMoves(calls, s, a, s');
    EnvironmentKeepsRest(calls, s, s');
    EnvironmentKeepsAcks(calls, s, s');
    EnvironmentKeepsLane(calls, s, s', Critical);
    EnvironmentKeepsLane(calls, s, s', Sync);
    EnvironmentKeepsLane(calls, s, s', Async);
  }

  /** One step of anybody keeps every invariant. */
  lemma StepKeepsInv(calls: seq<Call>, s: State, a: Action, s': State)
    requires Inv(calls, s) && Next(calls, s, a) == Some(s')
    ensures Inv(calls, s')
  {
    match a
    case Produce(p, choice) => ProducerKeepsInv(calls, s, p, choice, s');
    case Write(choice) => WriterKeepsInv(calls, s, choice, s');
    case _ => EnvironmentKeepsInv(calls, s, a, s');
  }

  lemma {:induction false} ExecKeepsInv(calls: seq<Call>, s: State, actions: seq<Action>, s': State)
    requires Inv(calls, s) && Exec(calls, s, actions) == Some(s')
    ensures Inv(calls, s')
    decreases |actions|
  {
    if actions != [] {
      var m := Next(calls, s, actions[0]).value;
      StepKeepsInv(calls, s, actions[0], m);
      ExecKeepsInv(calls, m, actions[1..], s');
    }
  }

  /** Every reachable state, under every schedule, satisfies the invariant. */
  lemma ReachableInv(calls: seq<Call>, s: State)
    requires Reachable(calls, s)
    ensures Inv(calls, s)
  {
    var actions :| Exec(calls, Init(calls), actions) == Some(s);
    InitInv(calls);
    ExecKeepsInv(calls, Init(calls), actions, s);
  }

  // ------------------------------------------------------------ main results

  /** Byte conservation: the counter is what is queued, reserved or just taken, within the budget. */
  lemma BytesConserved(calls: seq<Call>, s: State, c: Lane)
    requires Reachable(calls, s)
    ensures Shaped(calls, s)
    ensures Get(s, c).bytes
         == QueuedBytes(calls, Get(s, c).items) + HeldBytes(calls, s.phases, c) + WriterBytes(calls, s.writer, c)
    ensures 0 <= Get(s, c).bytes <= MAX_QUEUED
    ensures |Get(s, c).items| <= Slots(c)
  {
    ReachableInv(calls, s);
    assert LaneInv(calls, s, c);
  }

  /** Nothing leaks: with an empty channel and nobody mid-step the whole budget is free again. */
  lemma BudgetReturned(calls: seq<Call>, s: State, c: Lane)
    requires Reachable(calls, s)
    requires Get(s, c).items == [] && !s.writer.Taken? && !s.writer.DrainTaken?
    requires forall p :: 0 <= p < |s.phases| ==> !HoldsBytes(s.phases[p])
    ensures Get(s, c).bytes == 0
  {
    BytesConserved(calls, s, c);
    SumZero(Weights(calls, s.phases, c));
  }

  lemma {:induction false} DecidedPrefix(calls: seq<Call>, log: seq<Entry>, i: nat, c: Lane)
    requires i <= |log|
    ensures Decided(calls, log[..i], c) <= Decided(calls, log, c)
    decreases |log|
  {
    if i == |log| {
      assert log[..i] == log;
    } else {
      var front := log[..|log| - 1];
      assert front[..i] == log[..i];
      DecidedPrefix(calls, front, i, c);
    }
  }

  lemma {:induction false} DecidedFrom(calls: seq<Call>, log: seq<Entry>, c: Lane, p: nat)
    requires p in Decided(calls, log, c)
    ensures exists i :: 0 <= i < |log| && log[i].p == p
  {
    var e := log[|log| - 1];
    if e.p != p {
      DecidedFrom(calls, log[..|log| - 1], c, p);
      var i :| 0 <= i < |log| - 1 && log[..|log| - 1][i].p == p;
      assert log[i].p == p;
    }
  }

  /** The place of log entry `i` in its lane's decision order. */
  lemma DecidedAt(calls: seq<Call>, log: seq<Entry>, i: nat, c: Lane)
    requires i < |log| && log[i].p < |calls| && LaneOf(calls[log[i].p].kind) == c
    ensures var k := |Decided(calls, log[..i], c)|;
            k < |Decided(calls, log, c)| && Decided(calls, log, c)[k] == log[i].p
  {
    DecidedPrefix(calls, log, i + 1, c);
    assert log[..i + 1][..i] == log[..i];
  }

  /** Each request is decided, and so acknowledged, at most once. */
  lemma DecidedOnce(calls: seq<Call>, s: State, i: nat, j: nat)
    requires Inv(calls, s) && i < j < |s.log|
    ensures s.log[i].p != s.log[j].p
  {
    if s.log[i].p == s.log[j].p {
      var c := LaneOf(calls[s.log[i].p].kind);
      assert LaneInv(calls, s, c);
      var front := s.log[..j];
      assert front[i] == s.log[i];
      DecidedHas(calls, front, i, c);
      var a :| 0 <= a < |Decided(calls, front, c)| && Decided(calls, front, c)[a] == s.log[i].p;
      DecidedPrefix(calls, s.log, j, c);
      DecidedAt(calls, s.log, j, c);
      SentAt(calls, s, c, a);
      SentAt(calls, s, c, |Decided(calls, front, c)|);
    }
  }

  lemma SentAt(calls: seq<Call>, s: State, c: Lane, k: nat)
    requires Shaped(calls, s) && Order(calls, s, c) && k < |Decided(calls, s.log, c)|
    ensures k < |Get(s, c).sent| && Get(s, c).sent[k] == Decided(calls, s.log, c)[k]
  {
  }

  /** Truthful acks: a synchronous write returns nil only if the transport finished that very frame. */
  lemma AckIsTruthful(calls: seq<Call>, s: State, p: nat)
    requires Reachable(calls, s)
    requires p < |calls| && p < |s.phases| && s.phases[p] == Returned(Ok)
    requires calls[p].kind.WriteCritical? || calls[p].kind.WriteSync?
    ensures exists i :: 0 <= i < |s.log| && s.log[i] == Entry(p, Written)
    ensures forall i, j :: 0 <= i < j < |s.log| ==> s.log[i].p != s.log[j].p
  {
    hide Exec, WriterValid, Phases, Priority, NoLostWakeup, Books;
    ReachableInv(calls, s);
    forall i, j | 0 <= i < j < |s.log| ensures s.log[i].p != s.log[j].p {
      DecidedOnce(calls, s, i, j);
    }
    var i :| 0 <= i < |s.log| && s.log[i].p == p && AckOf(s.log[i].verdict) == Ok;
    assert s.log[i] == Entry(p, Written);
  }

  /** First in, first out: a lane's requests are decided exactly in the order they were enqueued. */
  lemma DecidedInOrder(calls: seq<Call>, s: State, c: Lane)
    requires Reachable(calls, s)
    ensures Decided(calls, s.log, c) <= Get(s, c).sent
  {
    ReachableInv(calls, s);
    assert LaneInv(calls, s, c);
  }

  /** Whatever was sent on a lane before a decided request was decided before it. */
  lemma EarlierDecided(calls: seq<Call>, s: State, c: Lane, i: nat, a: nat, b: nat)
    requires Shaped(calls, s) && Order(calls, s, c)
    requires i < |s.log| && s.log[i].p < |calls| && LaneOf(calls[s.log[i].p].kind) == c
    requires a < b < |Get(s, c).sent| && Get(s, c).sent[b] == s.log[i].p
    ensures exists h :: 0 <= h < i && s.log[h].p == Get(s, c).sent[a]
  {
    var front := Decided(calls, s.log[..i], c);
    DecidedAt(calls, s.log, i, c);
    SentAt(calls, s, c, |front|);
    assert |front| == b;
    DecidedPrefix(calls, s.log, i, c);
    SentAt(calls, s, c, a);
    DecidedFrom(calls, s.log[..i], c, front[a]);
    var h :| 0 <= h < i && s.log[..i][h].p == front[a];
    assert s.log[h].p == Get(s, c).sent[a];
  }

  /**
  A flush barrier that returned nil: every frame enqueued on the critical lane
  before it was written, or skipped because its own context was cancelled.
  */
  lemma FlushCovers(calls: seq<Call>, s: State, p: nat, a: nat, b: nat)
    requires Reachable(calls, s)
    requires p < |calls| && p < |s.phases| && s.phases[p] == Returned(Ok) && calls[p].kind.Flush?
    requires a < b < |s.critical.sent| && s.critical.sent[b] == p
    ensures exists i :: 0 <= i < |s.log| && s.log[i].p == s.critical.sent[a]
              && (s.log[i].verdict.Written? || s.log[i].verdict.Flushed?
                  || (s.log[i].verdict.Skipped? && s.log[i].p in s.cancelled))
  {
    hide Exec, WriterValid, Phases, Priority, NoLostWakeup, Books;
    ReachableInv(calls, s);
    assert Verdicts(calls, s) && Acks(calls, s) && LaneInv(calls, s, Critical);
    var i :| 0 <= i < |s.log| && s.log[i].p == p && AckOf(s.log[i].verdict) == Ok;
    EarlierDecided(calls, s, Critical, i, a, b);
    var h :| 0 <= h < i && s.log[h].p == s.critical.sent[a];
    assert !Bad(s.log[h].verdict);
  }

  /** A best-effort frame is taken only if both priority lanes were empty when `nextWrite` began. */
  lemma AsyncYields(calls: seq<Call>, s: State)
    requires Reachable(calls, s)
    requires s.writer.Taken? && s.writer.p < |calls| && calls[s.writer.p].kind.WriteAsync?
    ensures s.writer.began == Poll(0, 0)
  {
    ReachableInv(calls, s);
  }

  /** A reliable frame is taken only if the critical lane was empty when `nextWrite` began. */
  lemma SyncYields(calls: seq<Call>, s: State)
    requires Reachable(calls, s)
    requires s.writer.Taken? && s.writer.p < |calls| && calls[s.writer.p].kind.WriteSync?
    ensures s.writer.began.critical == 0
  {
    ReachableInv(calls, s);
  }

  /** No lost wake-up, in every reachable interleaving. */
  lemma NeverLosesWakeup(calls: seq<Call>, s: State, p: nat, c: Lane)
    requires Reachable(calls, s) && Shaped(calls, s) && IsWaiting(calls, s, p, c)
    ensures !s.open || WakeupComing(calls, s, c)
    ensures !s.open ==> Next(calls, s, Produce(p, SeeClosed)) == Some(s.(phases := s.phases[p := Returned(Err(Closed))]))
  {
    hide Exec, Order, Books, Acks, Verdicts, Priority, Phases, WriterValid;
    ReachableInv(calls, s);
    assert LaneInv(calls, s, c);
  }
}
