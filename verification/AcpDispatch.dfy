/**
Admission of incoming requests: the in-flight byte budget and the dispatch
slots, as an interleaved step system over any number of requests.
*/
module AcpDispatch {
  import opened Common

  const MAX_REQUESTS := 128
  const MAX_IN_FLIGHT := 16 * 1024 * 1024

  /**
  A request frame: not yet seen; bytes reserved; being served; served with its
  bytes given back; finished; no slot was free and its bytes must be given back;
  refused.
  */
  datatype Phase = Fresh | Holding | Serving | Credited | Finished | Backing | Refused

  datatype State = State(bytes: int, slots: int, phases: seq<Phase>)

  function Init(sizes: seq<nat>): State {
    State(0, 0, seq(|sizes|, i => Fresh))
  }

  /** One atomic step of request `i`: a counter update or a slot operation. */
  function Next(sizes: seq<nat>, s: State, i: nat): (r: Option<State>)
    requires |s.phases| == |sizes|
    ensures r.Some? ==> |r.value.phases| == |sizes|
  {
    if i >= |sizes| then None else
    match s.phases[i]
    case Fresh =>
      if sizes[i] > MAX_IN_FLIGHT || s.bytes > MAX_IN_FLIGHT - sizes[i] then
        Some(s.(phases := s.phases[i := Refused]))
      else
        Some(State(s.bytes + sizes[i], s.slots, s.phases[i := Holding]))
    case Holding =>
      if s.slots < MAX_REQUESTS then Some(State(s.bytes, s.slots + 1, s.phases[i := Serving]))
      else Some(s.(phases := s.phases[i := Backing]))
    case Serving => Some(State(s.bytes - sizes[i], s.slots, s.phases[i := Credited]))
    case Credited => Some(State(s.bytes, s.slots - 1, s.phases[i := Finished]))
    case Backing => Some(State(s.bytes - sizes[i], s.slots, s.phases[i := Refused]))
    case Finished => None
    case Refused => None
  }

  function Exec(sizes: seq<nat>, s: State, steps: seq<nat>): (r: Option<State>)
    requires |s.phases| == |sizes|
    ensures r.Some? ==> |r.value.phases| == |sizes|
    decreases |steps|
  {
    if steps == [] then Some(s) else
    match Next(sizes, s, steps[0])
    case None => None
    case Some(s') => Exec(sizes, s', steps[1..])
  }

  predicate Holds(ph: Phase) {
    ph.Holding? || ph.Serving? || ph.Backing?
  }

  predicate HasSlot(ph: Phase) {
    ph.Serving? || ph.Credited?
  }

  function ByteWeights(sizes: seq<nat>, phases: seq<Phase>): (w: seq<nat>)
    requires |phases| == |sizes|
    ensures |w| == |sizes|
  {
    seq(|sizes|, i requires 0 <= i < |sizes| => if Holds(phases[i]) then sizes[i] else 0)
  }

  function SlotWeights(phases: seq<Phase>): (w: seq<nat>)
    ensures |w| == |phases|
  {
    seq(|phases|, i requires 0 <= i < |phases| => if HasSlot(phases[i]) then 1 else 0)
  }

  ghost predicate Inv(sizes: seq<nat>, s: State) {
    && |s.phases| == |sizes|
    && s.bytes == Sum(ByteWeights(sizes, s.phases)) <= MAX_IN_FLIGHT
    && s.slots == Sum(SlotWeights(s.phases)) <= MAX_REQUESTS
  }

  lemma StepKeepsInv(sizes: seq<nat>, s: State, i: nat, s': State)
    requires Inv(sizes, s) && Next(sizes, s, i) == Some(s')
    ensures Inv(sizes, s')
  {
    var ph := s'.phases[i];
    var b := if Holds(ph) then sizes[i] else 0;
    var k := if HasSlot(ph) then 1 else 0;
    assert ByteWeights(sizes, s'.phases) == ByteWeights(sizes, s.phases)[i := b];
    assert SlotWeights(s'.phases) == SlotWeights(s.phases)[i := k];
    SumUpdate(ByteWeights(sizes, s.phases), i, b);
    SumUpdate(SlotWeights(s.phases), i, k);
  }

  lemma {:induction false} ExecKeepsInv(sizes: seq<nat>, s: State, steps: seq<nat>, s': State)
    requires Inv(sizes, s) && Exec(sizes, s, steps) == Some(s')
    ensures Inv(sizes, s')
    decreases |steps|
  {
    if steps != [] {
      var m := Next(sizes, s, steps[0]).value;
      StepKeepsInv(sizes, s, steps[0], m);
      ExecKeepsInv(sizes, m, steps[1..], s');
    }
  }

  /**
  Under every schedule the byte counter is the total size of the requests that
  still hold bytes, the slot count is the number still in a slot, and both stay
  within their limits; once every request is finished or refused both are zero.
  */
  lemma AdmissionConserved(sizes: seq<nat>, steps: seq<nat>, s: State)
    requires Exec(sizes, Init(sizes), steps) == Some(s)
    ensures s.bytes == Sum(ByteWeights(sizes, s.phases)) <= MAX_IN_FLIGHT
    ensures s.slots == Sum(SlotWeights(s.phases)) <= MAX_REQUESTS
    ensures (forall i :: 0 <= i < |sizes| ==> s.phases[i].Finished? || s.phases[i].Refused?)
              ==> s.bytes == 0 && s.slots == 0
  {
    var s0 := Init(sizes);
    assert forall i :: 0 <= i < |sizes| ==> s0.phases[i] == Fresh;
    SumZero(ByteWeights(sizes, s0.phases));
    SumZero(SlotWeights(s0.phases));
    ExecKeepsInv(sizes, s0, steps, s);
    if forall i :: 0 <= i < |sizes| ==> s.phases[i].Finished? || s.phases[i].Refused? {
      SumZero(ByteWeights(sizes, s.phases));
      SumZero(SlotWeights(s.phases));
    }
  }

  /** The state after up to `n` steps of request `i` alone, before it is served. */
  function Admit(sizes: seq<nat>, s: State, i: nat, n: nat): (r: State)
    requires |s.phases| == |sizes| && i < |sizes|
    ensures |r.phases| == |sizes|
    decreases n
  {
    if n == 0 || s.phases[i].Serving? then s else
    match Next(sizes, s, i)
    case None => s
    case Some(m) => Admit(sizes, m, i, n - 1)
  }

  /**
  Admitted alone, a request is served exactly when its bytes fit the budget that
  is left and a slot is free; otherwise it is refused and holds nothing.
  */
  lemma AdmittedIff(sizes: seq<nat>, s: State, i: nat)
    requires Inv(sizes, s) && i < |sizes| && s.phases[i].Fresh?
    ensures var s' := Admit(sizes, s, i, 3);
            if s.bytes + sizes[i] <= 16 * 1024 * 1024 && s.slots < 128 then
              s' == State(s.bytes + sizes[i], s.slots + 1, s.phases[i := Serving])
            else
              s' == s.(phases := s.phases[i := Refused])
  {
    var m := Next(sizes, s, i).value;
    if m.phases[i].Holding? {
      var k := Next(sizes, m, i).value;
      assert Admit(sizes, m, i, 2) == Admit(sizes, k, i, 1);
      if k.phases[i].Backing? {
        var r := Next(sizes, k, i).value;
        assert Admit(sizes, k, i, 1) == r;
        assert r.phases == s.phases[i := Refused];
      } else {
        assert k.phases == s.phases[i := Serving];
      }
    } else {
      assert Admit(sizes, m, i, 2) == m;
    }
  }
}
