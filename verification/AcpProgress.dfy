/**
Progress of the ACP write runtime: a producer that waits for space on an open,
served connection can always be woken by steps of the others alone.
*/
module AcpProgress {
  import opened Common
  import opened AcpWriter
  import opened AcpSafety

  /** How many steps an active producer is from posting a token, sending, or waiting again. */
  function Rank(ph: Phase): nat {
    match ph
    case Locking(woken) => if woken then 5 else 0
    case Reserving(woken) => if woken then 5 else 0
    case Reserved => 4
    case Sending => 3
    case Releasing(_) => 2
    case Signalling(_) => 1
    case _ => 0
  }

  function Ranks(calls: seq<Call>, phases: seq<Phase>, c: Lane): (r: seq<nat>)
    requires |phases| == |calls|
    ensures |r| == |calls|
  {
    seq(|calls|, i requires 0 <= i < |calls| => if LaneOf(calls[i].kind) == c then Rank(phases[i]) else 0)
  }

  /** How many steps the writer is from its next dequeue. */
  function WriterRank(w: Writer): nat {
    match w
    case Taken(_, _) => 7
    case Freed(_) => 6
    case Handling(_) => 5
    case Writing(_) => 4
    case Acking(_, _) => 3
    case Idle => 2
    case Poll2(_) => 1
    case _ => 0
  }

  function Total(s: State): nat {
    |s.critical.items| + |s.sync.items| + |s.async.items|
  }

  /** An active producer is never blocked, and each of its steps brings it closer. */
  lemma ActiveMoves(call: Call, p: nat, v: View, open: bool, cancelled: bool, ack: Option<Outcome>)
    requires PhaseOk(call, v.phase) && Active(v.phase)
    ensures var r := ProducerLocal(call, p, v, open, cancelled, ack, Proceed);
            r.Some? && Rank(r.value.phase) < Rank(v.phase)
  {
  }

  lemma ActiveStep(calls: seq<Call>, s: State, p: nat, c: Lane) returns (s': State)
    requires Shaped(calls, s) && Phases(calls, s) && IsActive(calls, s, p, c)
    ensures Shaped(calls, s') && Next(calls, s, Produce(p, Proceed)) == Some(s')
    ensures Sum(Ranks(calls, s'.phases, c)) < Sum(Ranks(calls, s.phases, c))
    ensures s'.writer == s.writer && s'.open == s.open && s'.serving == s.serving
    ensures forall i :: 0 <= i < |calls| && i != p ==> s'.phases[i] == s.phases[i]
  {
    var v := View(Get(s, c), s.phases[p]);
    ActiveMoves(calls[p], p, v, s.open, p in s.cancelled, s.acks[p]);
    s' := ProducerStep(calls, s, p, Proceed).value;
    assert Ranks(calls, s'.phases, c) == Ranks(calls, s.phases, c)[p := Rank(s'.phases[p])];
    SumUpdate(Ranks(calls, s.phases, c), p, Rank(s'.phases[p]));
  }

  /** The writer choice that leads to the next dequeue, without a write failure. */
  function Advance(s: State, c: Lane): WriterChoice {
    match s.writer
    case Idle => if s.critical.items != [] then Take(Critical) else Default
    case Poll2(_) => if s.sync.items != [] then Take(Sync) else Default
    case Poll3(_) => Take(c)
    case _ => Run
  }

  lemma PollAdvances(calls: seq<Call>, s: State, c: Lane)
    requires Shaped(calls, s) && s.open && s.serving && Get(s, c).items != []
    requires s.writer.Idle? || s.writer.Poll2? || s.writer.Poll3?
    ensures var r := WriterStep(calls, s, Advance(s, c));
            && r.Some? && MainLoop(r.value.writer) && r.value.open && r.value.serving
            && (Total(r.value) < Total(s)
                || (Total(r.value) == Total(s) && WriterRank(r.value.writer) < WriterRank(s.writer)))
  {
  }

  lemma HandAdvances(calls: seq<Call>, s: State, c: Lane)
    requires Shaped(calls, s) && WriterValid(calls, s) && s.open && s.serving && MainLoop(s.writer)
    requires !(s.writer.Idle? || s.writer.Poll2? || s.writer.Poll3?)
    ensures var r := WriterStep(calls, s, Advance(s, c));
            && r.Some? && MainLoop(r.value.writer) && r.value.open && r.value.serving
            && Total(r.value) == Total(s) && WriterRank(r.value.writer) < WriterRank(s.writer)
  {
  }

  /** A step of another producer, or of a writer whose writes succeed. */
  predicate Cooperative(a: Action, p: nat) {
    match a
    case Produce(q, choice) => q != p && choice.Proceed?
    case Write(choice) => !choice.Quit? && !choice.Fail?
    case _ => false
  }

  /** The three-part distance to a token on lane `c`. */
  ghost predicate Closer(calls: seq<Call>, s: State, s': State, c: Lane)
    requires Shaped(calls, s) && Shaped(calls, s')
  {
    var r, r' := Sum(Ranks(calls, s.phases, c)), Sum(Ranks(calls, s'.phases, c));
    || r' < r
    || (r' == r && Total(s') < Total(s))
    || (r' == r && Total(s') == Total(s) && WriterRank(s'.writer) < WriterRank(s.writer))
  }

  ghost predicate Runs(s: State) {
    s.open && s.serving && MainLoop(s.writer)
  }

  lemma WriterCloser(calls: seq<Call>, s: State, c: Lane) returns (s': State)
    requires Shaped(calls, s) && WriterValid(calls, s) && Runs(s)
    requires Get(s, c).items != [] || WriterOwes(calls, s.writer, c)
    ensures Shaped(calls, s') && Next(calls, s, Write(Advance(s, c))) == Some(s')
    ensures Runs(s') && s'.phases == s.phases && Closer(calls, s, s', c)
  {
    if s.writer.Idle? || s.writer.Poll2? || s.writer.Poll3? {
      PollAdvances(calls, s, c);
    } else {
      HandAdvances(calls, s, c);
    }
    s' := WriterStep(calls, s, Advance(s, c)).value;
    WriterFrame(calls, s, Advance(s, c), s');
  }

  lemma OneStepCloser(calls: seq<Call>, s: State, p: nat, c: Lane) returns (a: Action, s': State)
    requires Shaped(calls, s) && Phases(calls, s) && WriterValid(calls, s) && NoLostWakeup(calls, s, c)
    requires IsWaiting(calls, s, p, c) && !Get(s, c).token && Runs(s)
    ensures Shaped(calls, s') && Next(calls, s, a) == Some(s') && Cooperative(a, p)
    ensures IsWaiting(calls, s', p, c) && Runs(s') && Closer(calls, s, s', c)
  {
    if q :| IsActive(calls, s, q, c) {
      a := Produce(q, Proceed);
      s' := ActiveStep(calls, s, q, c);
    } else {
      a := Write(Advance(s, c));
      s' := WriterCloser(calls, s, c);
    }
  }

  /**
  Wake-up is always within reach: while the connection is open and served and
  the writer has not failed, some finite run of the other producers and the
  writer posts the token a waiting producer needs, and leaves it waiting for it.
  */
  lemma {:induction false} WakeupReached(calls: seq<Call>, s: State, p: nat, c: Lane)
    returns (path: seq<Action>, s': State)
    requires Inv(calls, s) && IsWaiting(calls, s, p, c) && Runs(s)
    ensures Exec(calls, s, path) == Some(s') && Shaped(calls, s')
    ensures Get(s', c).token && IsWaiting(calls, s', p, c)
    ensures forall a :: a in path ==> Cooperative(a, p)
    decreases Sum(Ranks(calls, s.phases, c)), Total(s), WriterRank(s.writer)
  {
    if Get(s, c).token {
      return [], s;
    }
    assert LaneInv(calls, s, c);
    var a, m := OneStepCloser(calls, s, p, c);
    StepKeepsInv(calls, s, a, m);
    var rest;
    rest, s' := WakeupReached(calls, m, p, c);
    path := [a] + rest;
    assert path[1..] == rest;
  }

  // ------------------------------------------------------ every fair schedule

  /** How many steps a producer can still take before it needs a token. */
  function Left(ph: Phase): nat {
    match ph
    case Begin => 8
    case Locking(_) => 7
    case Reserving(_) => 6
    case Reserved => 5
    case Sending => 4
    case Releasing(_) => 3
    case Signalling(_) => 2
    case WaitSpace => 1
    case WaitAck => 1
    case Returned(_) => 0
  }

  function StepsLeft(calls: seq<Call>, phases: seq<Phase>, c: Lane): (r: seq<nat>)
    requires |phases| == |calls|
    ensures |r| == |calls|
  {
    seq(|calls|, i requires 0 <= i < |calls| => if LaneOf(calls[i].kind) == c then Left(phases[i]) else 0)
  }

  /** One for every call that can still put a request into its channel. */
  function Unsent(phases: seq<Phase>): (r: seq<nat>)
    ensures |r| == |phases|
  {
    seq(|phases|, i requires 0 <= i < |phases| => if Done(phases[i]) then 0 else 1)
  }

  /** What the writer and the producers of lane `c` can still do without a token there. */
  function Budget(calls: seq<Call>, s: State, c: Lane): nat
    requires Shaped(calls, s)
  {
    Sum(StepsLeft(calls, s.phases, c)) + 8 * (Total(s) + Sum(Unsent(s.phases))) + WriterRank(s.writer)
  }

  /** An action that neither closes the connection nor lets a write fail. */
  predicate Steady(a: Action) {
    match a
    case Write(choice) => !choice.Quit? && !choice.Fail?
    case Close => false
    case StopServing => false
    case _ => true
  }

  /** An action of those who can wake a producer on lane `c`. */
  predicate Helps(calls: seq<Call>, a: Action, c: Lane) {
    match a
    case Write(_) => true
    case Produce(p, _) => p < |calls| && LaneOf(calls[p].kind) == c
    case _ => false
  }

  function Helpings(calls: seq<Call>, path: seq<Action>, c: Lane): nat {
    if path == [] then 0 else (if Helps(calls, path[0], c) then 1 else 0) + Helpings(calls, path[1..], c)
  }

  /** No state along the path has a token on lane `c`. */
  ghost predicate Tokenless(calls: seq<Call>, s: State, path: seq<Action>, c: Lane)
    requires Shaped(calls, s)
    decreases |path|
  {
    && !Get(s, c).token
    && (path != [] && Next(calls, s, path[0]).Some? ==> Tokenless(calls, Next(calls, s, path[0]).value, path[1..], c))
  }

  /** Without a token each step of a producer is one less it can take, and a send moves one call into the channel. */
  lemma ProducerSpends(call: Call, p: nat, v: View, open: bool, cancelled: bool, ack: Option<Outcome>, choice: Choice)
    ensures var r := ProducerLocal(call, p, v, open, cancelled, ack, choice);
            r.Some? ==>
              && (v.queue.token || Left(r.value.phase) < Left(v.phase))
              && |r.value.queue.items| + (if Done(r.value.phase) then 0 else 1) <= |v.queue.items| + (if Done(v.phase) then 0 else 1)
  {
  }

  lemma TotalAfterPut(s: State, c: Lane, q: Queue)
    ensures Total(Put(s, c, q)) == Total(s) - |Get(s, c).items| + |q.items|
  {
  }

  lemma ProducerBudget(calls: seq<Call>, s: State, p: nat, choice: Choice, s': State, c: Lane)
    requires Shaped(calls, s) && Next(calls, s, Produce(p, choice)) == Some(s') && !Get(s, c).token
    ensures Shaped(calls, s')
    ensures Budget(calls, s', c) + (if Helps(calls, Produce(p, choice), c) then 1 else 0) <= Budget(calls, s, c)
    ensures s'.writer == s.writer && s'.open == s.open && s'.serving == s.serving
  {
    hide ProducerLocal, Sum;
    var d := LaneOf(calls[p].kind);
    var v := View(Get(s, d), s.phases[p]);
    var v' := ProducerLocal(calls[p], p, v, s.open, p in s.cancelled, s.acks[p], choice).value;
    ProducerSpends(calls[p], p, v, s.open, p in s.cancelled, s.acks[p], choice);
    TotalAfterPut(s, d, v'.queue);
    assert Unsent(s'.phases) == Unsent(s.phases)[p := if Done(v'.phase) then 0 else 1];
    SumUpdate(Unsent(s.phases), p, if Done(v'.phase) then 0 else 1);
    if d == c {
      assert StepsLeft(calls, s'.phases, c) == StepsLeft(calls, s.phases, c)[p := Left(v'.phase)];
      SumUpdate(StepsLeft(calls, s.phases, c), p, Left(v'.phase));
    } else {
      assert StepsLeft(calls, s'.phases, c) == StepsLeft(calls, s.phases, c);
    }
  }

  lemma PollSpends(calls: seq<Call>, s: State, choice: WriterChoice, s': State)
    requires Shaped(calls, s) && Runs(s) && WriterStep(calls, s, choice) == Some(s') && !choice.Quit? && !choice.Fail?
    requires s.writer.Idle? || s.writer.Poll2? || s.writer.Poll3?
    ensures Runs(s') && s'.phases == s.phases
    ensures 8 * Total(s') + WriterRank(s'.writer) < 8 * Total(s) + WriterRank(s.writer)
  {
  }

  lemma HandSpends(calls: seq<Call>, s: State, choice: WriterChoice, s': State)
    requires Shaped(calls, s) && Runs(s) && WriterStep(calls, s, choice) == Some(s') && !choice.Quit? && !choice.Fail?
    requires !(s.writer.Idle? || s.writer.Poll2? || s.writer.Poll3?)
    ensures Runs(s') && s'.phases == s.phases
    ensures 8 * Total(s') + WriterRank(s'.writer) < 8 * Total(s) + WriterRank(s.writer)
  {
  }

  lemma StepSpends(calls: seq<Call>, s: State, a: Action, s': State, c: Lane)
    requires Shaped(calls, s) && Runs(s) && Next(calls, s, a) == Some(s') && Steady(a) && !Get(s, c).token
    ensures Shaped(calls, s') && Runs(s')
    ensures Budget(calls, s', c) + (if Helps(calls, a, c) then 1 else 0) <= Budget(calls, s, c)
  {
    hide ProducerStep, WriterStep, Sum, WriterRank;
    match a
    case Produce(p, choice) =>
      if p < |calls| {
        ProducerBudget(calls, s, p, choice, s', c);
      } else {
        NoSuchProducer(calls, s, p, choice);
      }
    case Write(choice) =>
      if s.writer.Idle? || s.writer.Poll2? || s.writer.Poll3? {
        PollSpends(calls, s, choice, s');
      } else {
        HandSpends(calls, s, choice, s');
      }
    case _ =>
  }

  lemma NoSuchProducer(calls: seq<Call>, s: State, p: nat, choice: Choice)
    requires Shaped(calls, s) && p >= |calls|
    ensures ProducerStep(calls, s, p, choice).None?
  {
  }

  /**
  However the steps are scheduled, the writer and the producers of a lane can
  take only so many of them while no token is posted there.
  */
  lemma {:induction false} HelpersBounded(calls: seq<Call>, s: State, path: seq<Action>, s': State, c: Lane)
    requires Shaped(calls, s) && Runs(s) && Exec(calls, s, path) == Some(s')
    requires (forall a :: a in path ==> Steady(a)) && Tokenless(calls, s, path, c)
    ensures Helpings(calls, path, c) <= Budget(calls, s, c)
    decreases |path|
  {
    hide Budget, Next, Runs;
    if path != [] {
      var m := Next(calls, s, path[0]).value;
      StepSpends(calls, s, path[0], m, c);
      HelpersBounded(calls, m, path[1..], s', c);
    }
  }

  /**
  Every fair schedule wakes a waiting producer: while it waits without a token,
  somebody who helps can take a step, and once those who help have taken more
  steps than the budget of the state, whatever the others did, a token has been
  posted.
  */
  lemma FairWakeup(calls: seq<Call>, s: State, p: nat, c: Lane, path: seq<Action>, s': State)
    requires Inv(calls, s) && IsWaiting(calls, s, p, c) && Runs(s)
    requires Exec(calls, s, path) == Some(s') && forall a :: a in path ==> Steady(a)
    ensures !Get(s, c).token ==> exists a :: Helps(calls, a, c) && Steady(a) && Next(calls, s, a).Some?
    ensures Helpings(calls, path, c) > Budget(calls, s, c) ==> !Tokenless(calls, s, path, c)
  {
    hide Budget, Next, Runs, Inv, Helpings, Exec, Tokenless;
    InvHere(calls, s, c);
    if !Get(s, c).token {
      var a := SomebodyHelps(calls, s, p, c);
    }
    if Tokenless(calls, s, path, c) {
      HelpersBounded(calls, s, path, s', c);
    }
  }

  lemma InvHere(calls: seq<Call>, s: State, c: Lane)
    requires Inv(calls, s)
    ensures Shaped(calls, s) && Phases(calls, s) && WriterValid(calls, s) && NoLostWakeup(calls, s, c)
  {
    assert LaneInv(calls, s, c);
  }

  lemma SomebodyHelps(calls: seq<Call>, s: State, p: nat, c: Lane) returns (a: Action)
    requires Shaped(calls, s) && Phases(calls, s) && WriterValid(calls, s) && NoLostWakeup(calls, s, c)
    requires IsWaiting(calls, s, p, c) && !Get(s, c).token && Runs(s)
    ensures Helps(calls, a, c) && Steady(a) && Next(calls, s, a).Some?
  {
    if q :| IsActive(calls, s, q, c) {
      a := Produce(q, Proceed);
      var s' := ActiveStep(calls, s, q, c);
    } else {
      a := Write(Advance(s, c));
      var s' := WriterCloser(calls, s, c);
    }
  }
}
