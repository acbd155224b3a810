/**
The outbound write runtime of the ACP server: every goroutine that writes to
the connection, the single prioritising writer, and the one-shot close, as one
interleaved step system.

A step is one atomic action of the program: one compare-and-swap on a byte
counter, one channel operation, one check made while the enqueue read lock is
held.  `calls` fixes which operation each producer runs; it is an arbitrary
sequence, so results about every action list hold for every number of
producers, every mix of operations and every schedule.
*/
module AcpWriter {
  import opened Common

  const CRITICAL_SLOTS := 32
  const SYNC_SLOTS := 32
  const ASYNC_SLOTS := 256
  const MAX_MESSAGE := 4 * 1024 * 1024
  const MAX_QUEUED := 8 * 1024 * 1024

  /** The three write classes, each with a channel, a byte budget and a space token. */
  datatype Lane = Critical | Sync | Async

  /** The entry points that enqueue a write. */
  datatype Kind = WriteCritical | WriteSync | TryPriority | Flush | WriteAsync

  datatype Call = Call(kind: Kind, size: nat)

  function Slots(c: Lane): nat {
    match c
    case Critical => CRITICAL_SLOTS
    case Sync => SYNC_SLOTS
    case Async => ASYNC_SLOTS
  }

  function LaneOf(k: Kind): Lane {
    match k
    case WriteSync => Sync
    case WriteAsync => Async
    case _ => Critical
  }

  /** The two entry points that never block and hold the read lock throughout. */
  predicate NonBlocking(k: Kind) {
    k.TryPriority? || k.WriteAsync?
  }

  /** The bytes charged to the lane's budget: a flush barrier carries no data. */
  function Cost(call: Call): nat {
    if call.kind.Flush? then 0 else call.size
  }

  datatype Error = TooLarge | Refused | Closed | Cancelled | WriteError
  datatype Outcome = Ok | Err(error: Error)

  /** What the writer decided about a dequeued request. */
  datatype Verdict = Written | Skipped | Flushed | Failed | Discarded

  function AckOf(v: Verdict): Outcome {
    match v
    case Written => Ok
    case Flushed => Ok
    case Skipped => Err(Cancelled)
    case Failed => Err(WriteError)
    case Discarded => Err(Closed)
  }

  datatype Entry = Entry(p: nat, verdict: Verdict)

  /** Where a producer is.  `woken` records that it came from consuming a space token. */
  datatype Phase =
    | Begin
    | Locking(woken: bool)
    | Reserving(woken: bool)
    | Reserved
    | Sending
    | Releasing(closed: bool)
    | Signalling(closed: bool)
    | WaitSpace
    | WaitAck
    | Returned(outcome: Outcome)

  /** Queue lengths of the two priority lanes when `nextWrite` began. */
  datatype Poll = Poll(critical: nat, sync: nat)

  datatype Writer =
    | Idle
    | Poll2(began: Poll)
    | Poll3(began: Poll)
    | Taken(p: nat, began: Poll)
    | Freed(p: nat)
    | Handling(p: nat)
    | Writing(p: nat)
    | Acking(p: nat, verdict: Verdict)
    | Closing
    | Draining(lane: Lane)
    | DrainTaken(p: nat)
    | DrainFreed(p: nat)
    | Stopped

  /** One lane: the channel, the atomic counter, the token, and every request ever sent to it. */
  datatype Queue = Queue(items: seq<nat>, bytes: int, token: bool, sent: seq<nat>)

  datatype State = State(
    critical: Queue,
    sync: Queue,
    async: Queue,
    open: bool,
    serving: bool,
    cancelled: set<nat>,
    phases: seq<Phase>,
    acks: seq<Option<Outcome>>,
    writer: Writer,
    log: seq<Entry>)

  function Get(s: State, c: Lane): Queue {
    match c
    case Critical => s.critical
    case Sync => s.sync
    case Async => s.async
  }

  function Put(s: State, c: Lane, q: Queue): (r: State)
    ensures Get(r, c) == q
    ensures forall d :: d != c ==> Get(r, d) == Get(s, d)
    ensures r == s.(critical := r.critical, sync := r.sync, async := r.async)
  {
    match c
    case Critical => s.(critical := q)
    case Sync => s.(sync := q)
    case Async => s.(async := q)
  }

  const EMPTY := Queue([], 0, false, [])

  function Init(calls: seq<Call>): State {
    State(EMPTY, EMPTY, EMPTY, true, true, {},
          seq(|calls|, i => Begin), seq(|calls|, i => None), Idle, [])
  }

  // ---------------------------------------------------------------- producers

  /** How a blocked select resolves, when several of its cases are ready. */
  datatype Choice = Proceed | SeeCancel | SeeClosed

  /** Whether a producer in this phase holds the enqueue read lock. */
  predicate HoldsLock(k: Kind, ph: Phase) {
    || ph.Sending?
    || (NonBlocking(k) && (ph.Reserving? || ph.Releasing? || ph.Signalling?))
  }

  /** The part of the state one producer step can change. */
  datatype View = View(queue: Queue, phase: Phase)

  /**
  One atomic step of a producer running `call` as number `p`, seeing its lane's
  queue, its own phase, whether the connection is open, whether its context is
  cancelled, and its acknowledgement slot.  None when the step is not enabled.
  */
  function ProducerLocal(call: Call, p: nat, v: View, open: bool, cancelled: bool,
                         ack: Option<Outcome>, choice: Choice): Option<View>
  {
    var q := v.queue;
    match v.phase
    case Begin =>
      if !call.kind.Flush? && call.size > MAX_MESSAGE then
        Some(View(q, Returned(Err(if NonBlocking(call.kind) then Refused else TooLarge))))
      else if NonBlocking(call.kind) || call.kind.Flush? then
        Some(View(q, Locking(false)))
      else
        Some(View(q, Reserving(false)))
    case Locking(_) =>
      if !open then
        Some(View(q, Returned(Err(if call.kind.Flush? then Closed else Refused))))
      else
        Some(View(q, if call.kind.Flush? then Sending else Reserving(false)))
    case Reserving(_) =>
      if q.bytes <= MAX_QUEUED - Cost(call) then
        Some(View(q.(bytes := q.bytes + Cost(call)), if NonBlocking(call.kind) then Sending else Reserved))
      else
        Some(View(q, if NonBlocking(call.kind) then Returned(Err(Refused)) else WaitSpace))
    case Reserved =>
      Some(View(q, if open then Sending else Releasing(true)))
    case Sending =>
      if |q.items| < Slots(LaneOf(call.kind)) then
        Some(View(q.(items := q.items + [p], sent := q.sent + [p]),
                  if NonBlocking(call.kind) then Returned(Ok) else WaitAck))
      else
        Some(View(q, if call.kind.Flush? then WaitSpace else Releasing(false)))
    case Releasing(closed) =>
      Some(View(q.(bytes := q.bytes - Cost(call)), Signalling(closed)))
    case Signalling(closed) =>
      Some(View(q.(token := true),
                if NonBlocking(call.kind) then Returned(Err(Refused))
                else if closed then Returned(Err(Closed))
                else WaitSpace))
    case WaitSpace =>
      (match choice
       case Proceed =>
         if q.token then
           Some(View(q.(token := false), if call.kind.Flush? then Locking(true) else Reserving(true)))
         else None
       case SeeCancel => if cancelled then Some(View(q, Returned(Err(Cancelled)))) else None
       case SeeClosed => if !open then Some(View(q, Returned(Err(Closed)))) else None)
    case WaitAck =>
      (match choice
       case Proceed => if ack.Some? then Some(View(q, Returned(ack.value))) else None
       case SeeCancel => if cancelled then Some(View(q, Returned(Err(Cancelled)))) else None
       case SeeClosed => if !open then Some(View(q, Returned(Err(Closed)))) else None)
    case Returned(_) => None
  }

  /** One phase and one acknowledgement slot per producer. */
  predicate Shaped(calls: seq<Call>, s: State) {
    |s.phases| == |s.acks| == |calls|
  }

  function ProducerStep(calls: seq<Call>, s: State, p: nat, choice: Choice): (r: Option<State>)
    requires Shaped(calls, s)
    ensures r.Some? ==> Shaped(calls, r.value)
  {
    if p >= |calls| then None else
    var c := LaneOf(calls[p].kind);
    match ProducerLocal(calls[p], p, View(Get(s, c), s.phases[p]), s.open, p in s.cancelled, s.acks[p], choice)
    case None => None
    case Some(v) => Some(Put(s, c, v.queue).(phases := s.phases[p := v.phase]))
  }

  // ------------------------------------------------------------------- writer

  /** Which ready case a writer select takes; `Fail` is a transport write error. */
  datatype WriterChoice = Take(lane: Lane) | Quit | Default | Run | Fail

  function Dequeue(s: State, c: Lane, began: Poll): Option<State> {
    var q := Get(s, c);
    if q.items == [] then None
    else Some(Put(s, c, q.(items := q.items[1..])).(writer := Taken(q.items[0], began)))
  }

  function QuitStep(s: State): Option<State> {
    if !s.open || !s.serving then Some(s.(writer := Draining(Critical))) else None
  }

  function Log(s: State, p: nat, v: Verdict): State {
    s.(log := s.log + [Entry(p, v)], writer := Acking(p, v))
  }

  predicate LockFree(calls: seq<Call>, s: State)
    requires Shaped(calls, s)
  {
    forall i :: 0 <= i < |calls| ==> !HoldsLock(calls[i].kind, s.phases[i])
  }

  function WriterStep(calls: seq<Call>, s: State, choice: WriterChoice): (r: Option<State>)
    requires Shaped(calls, s)
    ensures r.Some? ==> Shaped(calls, r.value)
  {
    match s.writer
    case Idle =>
      (match choice
       case Take(Critical) => Dequeue(s, Critical, Poll(|s.critical.items|, |s.sync.items|))
       case Quit => QuitStep(s)
       case Default =>
         if s.critical.items == [] && s.open && s.serving then
           Some(s.(writer := Poll2(Poll(|s.critical.items|, |s.sync.items|))))
         else None
       case _ => None)
    case Poll2(began) =>
      (match choice
       case Take(Sync) => Dequeue(s, Sync, began)
       case Quit => QuitStep(s)
       case Default =>
         if s.sync.items == [] && s.open && s.serving then Some(s.(writer := Poll3(began))) else None
       case _ => None)
    case Poll3(began) =>
      (match choice
       case Take(c) => Dequeue(s, c, began)
       case Quit => QuitStep(s)
       case _ => None)
    case Taken(p, _) =>
      if p >= |calls| then None else
      var c := LaneOf(calls[p].kind);
      var q := Get(s, c);
      Some(Put(s, c, q.(bytes := q.bytes - Cost(calls[p]))).(writer := Freed(p)))
    case Freed(p) =>
      if p >= |calls| then None else
      var c := LaneOf(calls[p].kind);
      Some(Put(s, c, Get(s, c).(token := true)).(writer := Handling(p)))
    case Handling(p) =>
      if p >= |calls| then None else
      if p in s.cancelled then Some(Log(s, p, Skipped))
      else if calls[p].kind.Flush? then Some(Log(s, p, Flushed))
      else Some(s.(writer := Writing(p)))
    case Writing(p) =>
      (match choice
       case Run => Some(Log(s, p, Written))
       case Fail => Some(Log(s, p, Failed))
       case _ => None)
    case Acking(p, v) =>
      if p >= |calls| then None else
      var s1 := if NonBlocking(calls[p].kind) || s.acks[p].Some? then s
                else s.(acks := s.acks[p := Some(AckOf(v))]);
      Some(s1.(writer := if v.Failed? then Closing
                         else if v.Discarded? then Draining(LaneOf(calls[p].kind))
                         else Idle))
    case Closing =>
      if !s.open then Some(s.(writer := Draining(Critical)))
      else if LockFree(calls, s) then Some(s.(open := false, writer := Draining(Critical)))
      else None
    case Draining(c) =>
      var q := Get(s, c);
      if q.items != [] then
        Some(Put(s, c, q.(items := q.items[1..])).(writer := DrainTaken(q.items[0])))
      else
        Some(s.(writer := match c case Critical => Draining(Sync) case Sync => Draining(Async) case Async => Stopped))
    case DrainTaken(p) =>
      if p >= |calls| then None else
      var c := LaneOf(calls[p].kind);
      var q := Get(s, c);
      Some(Put(s, c, q.(bytes := q.bytes - Cost(calls[p]))).(writer := DrainFreed(p)))
    case DrainFreed(p) =>
      if p >= |calls| then None else
      var c := LaneOf(calls[p].kind);
      Some(Log(Put(s, c, Get(s, c).(token := true)), p, Discarded))
    case Stopped => None
  }

  // --------------------------------------------------------------- the system

  /** A step of a producer, of the writer, of any closer, or of the environment. */
  datatype Action =
    | Produce(p: nat, choice: Choice)
    | Write(wchoice: WriterChoice)
    | Close
    | StopServing
    | CancelCall(p: nat)

  function Next(calls: seq<Call>, s: State, a: Action): (r: Option<State>)
    requires Shaped(calls, s)
    ensures r.Some? ==> Shaped(calls, r.value)
  {
    match a
    case Produce(p, choice) => ProducerStep(calls, s, p, choice)
    case Write(choice) => WriterStep(calls, s, choice)
    case Close =>
      if !s.open then Some(s)
      else if LockFree(calls, s) then Some(s.(open := false))
      else None
    case StopServing => Some(s.(serving := false))
    case CancelCall(p) =>
      if p < |calls| && !calls[p].kind.WriteAsync? then Some(s.(cancelled := s.cancelled + {p})) else None
  }

  /** The state after a list of actions from `s`, or None when one of them was not enabled. */
  function Exec(calls: seq<Call>, s: State, actions: seq<Action>): (r: Option<State>)
    requires Shaped(calls, s)
    ensures r.Some? ==> Shaped(calls, r.value)
    decreases |actions|
  {
    if actions == [] then Some(s) else
    match Next(calls, s, actions[0])
    case None => None
    case Some(s') => Exec(calls, s', actions[1..])
  }

  /** `s` can be reached from a fresh connection by some schedule. */
  ghost predicate Reachable(calls: seq<Call>, s: State) {
    exists actions :: Exec(calls, Init(calls), actions) == Some(s)
  }
}
