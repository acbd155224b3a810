/**
What a step sends: the first prompt, the responses so far behind it, what step
preparation makes of them, and the step's own system prompt.  The prompt of a
step may share memory with the first prompt, so what one step overwrites, later
steps can find overwritten.
*/
module StepPrompts {
  import opened Common
  import StepContent
  import T = Transcript

  datatype PromptResult = Prompted(messages: seq<T.Message>) | InvalidArgument(why: string)

  /** The user turn of a prompt and its files. */
  function UserTurn(prompt: string, files: seq<T.Part>): T.Message {
    T.Message(T.User, [T.Text(prompt)] + files, None)
  }

  function SystemTurns(system: string): seq<T.Message> {
    if system == "" then [] else [T.Message(T.System, [T.Text(system)], None)]
  }

  /** What a run is called with; `system` is the agent's configured system prompt. */
  datatype Call = Call(system: string, prompt: string, messages: seq<T.Message>, files: seq<T.Part>)

  function CreatePrompt(system: string, call: Call): PromptResult {
    var last := if call.messages == [] then None else Some(call.messages[|call.messages| - 1].role);
    if call.prompt == "" && last.None? then InvalidArgument("prompt can't be empty when there are no messages")
    else if call.prompt == "" && call.files != [] then InvalidArgument("prompt can't be empty when there are files")
    else if call.prompt == "" && !last.value.User? && !last.value.Tool? then
      InvalidArgument("prompt can't be empty when the last message is not a user or tool message")
    else
      Prompted(SystemTurns(system) + call.messages + (if call.prompt == "" then [] else [UserTurn(call.prompt, call.files)]))
  }

  /** The call is accepted, which does not depend on the system prompt. */
  predicate Accepted(call: Call) {
    CreatePrompt(call.system, call).Prompted?
  }

  function PromptUnder(system: string, call: Call): (r: seq<T.Message>)
    requires Accepted(call)
    ensures r != []
  {
    CreatePrompt(system, call).messages
  }

  /** The first message under a system prompt: its system turn, or else whatever the call begins with. */
  function FirstUnder(system: string, call: Call): T.Message
    requires Accepted(call)
  {
    PromptUnder(system, call)[0]
  }

  ghost predicate Paired(msgs: seq<T.Message>) {
    T.WellPaired(T.ClientCalls, msgs)
  }

  lemma AppendQuiet(msgs: seq<T.Message>, m: T.Message)
    requires m.role.User? || m.role.System?
    ensures Paired(msgs + [m]) <==> Paired(msgs)
  {
    T.PairedAppend(T.ClientCalls, msgs, m);
  }

  lemma OpenBehindQuiet(m: T.Message, msgs: seq<T.Message>, i: nat)
    requires (m.role.User? || m.role.System?) && i <= |msgs|
    ensures T.OpenAt(T.ClientCalls, [m] + msgs, i + 1) == T.OpenAt(T.ClientCalls, msgs, i)
    ensures T.OpenAt(T.ClientCalls, [m] + msgs, 0) == []
  {
    hide T.CallIds;
    if i > 0 {
      assert ([m] + msgs)[i] == msgs[i - 1];
    }
  }

  lemma PrependQuiet(m: T.Message, msgs: seq<T.Message>)
    requires m.role.User? || m.role.System?
    ensures Paired([m] + msgs) <==> Paired(msgs)
  {
    hide T.CallIds, T.OpenAt, T.Follows;
    var all := [m] + msgs;
    forall i | 0 <= i <= |msgs| ensures T.OpenAt(T.ClientCalls, all, i + 1) == T.OpenAt(T.ClientCalls, msgs, i) {
      OpenBehindQuiet(m, msgs, i);
    }
    OpenBehindQuiet(m, msgs, 0);
    FirstFollows(m);
    assert forall i :: 0 <= i < |msgs| ==> all[i + 1] == msgs[i];
    if Paired(all) {
      forall i | 0 <= i < |msgs| ensures T.Follows(T.OpenAt(T.ClientCalls, msgs, i), msgs[i]) {
        assert T.Follows(T.OpenAt(T.ClientCalls, all, i + 1), all[i + 1]);
      }
    }
    if Paired(msgs) {
      forall i | 0 <= i < |all| ensures T.Follows(T.OpenAt(T.ClientCalls, all, i), all[i]) {
        if i > 0 {
          assert T.Follows(T.OpenAt(T.ClientCalls, msgs, i - 1), msgs[i - 1]);
        }
      }
    }
  }

  /** The prompt is well paired exactly when the given messages are. */
  lemma CreatePromptPaired(system: string, call: Call)
    requires Accepted(call)
    ensures Paired(PromptUnder(system, call)) <==> Paired(call.messages)
  {
    hide Paired;
    var spoken := SystemTurns(system) + call.messages;
    if system == "" {
      assert spoken == call.messages;
    } else {
      PrependQuiet(SystemTurns(system)[0], call.messages);
    }
    if call.prompt == "" {
      assert spoken + [] == spoken;
    } else {
      AppendQuiet(spoken, UserTurn(call.prompt, call.files));
    }
  }

  // --------------------------------------------- replacing the system prompt

  /** The client calls a message leaves for the next one to answer. */
  function Asks(m: T.Message): seq<T.Id> {
    if m.role.Assistant? then T.CallIds(T.ClientCalls, m.parts) else []
  }

  lemma SwapFollows(old0: seq<T.Id>, new0: seq<T.Id>, m: T.Message)
    requires T.Follows(old0, m)
    ensures T.Follows(new0, m) <==> multiset(new0) == multiset(old0)
  {
    if multiset(new0) == multiset(old0) {
      StepContent.MultisetEmpty(new0, old0);
    } else if !m.role.Tool? {
      assert new0 != old0;
    }
  }

  lemma OpenAfterSwap(msgs: seq<T.Message>, x: T.Message, i: nat)
    requires 0 < |msgs| && i <= |msgs|
    ensures T.OpenAt(T.ClientCalls, msgs[0 := x], i)
         == if i == 1 then Asks(x) else T.OpenAt(T.ClientCalls, msgs, i)
    ensures |msgs| >= 1 ==> T.OpenAt(T.ClientCalls, msgs, 1) == Asks(msgs[0])
  {
  }

  /**
  A step whose system prompt differs from the configured one overwrites the
  first message, whatever that is.  The prompt stays well paired exactly when
  the new first message asks what the old one asked.
  */
  lemma SwapFirstPaired(msgs: seq<T.Message>, x: T.Message)
    requires Paired(msgs) && msgs != [] && !x.role.Tool?
    ensures Paired(msgs[0 := x]) <==> multiset(Asks(x)) == multiset(Asks(msgs[0]))
  {
    hide T.Follows, Asks;
    var swapped := msgs[0 := x];
    forall i | 0 <= i <= |msgs|
      ensures T.OpenAt(T.ClientCalls, swapped, i) == if i == 1 then Asks(x) else T.OpenAt(T.ClientCalls, msgs, i)
      ensures T.OpenAt(T.ClientCalls, msgs, 1) == Asks(msgs[0])
    {
      OpenAfterSwap(msgs, x, i);
    }
    FirstFollows(x);
    if |msgs| == 1 {
      assert Asks(msgs[0]) == [];
      assert multiset(Asks(x)) == multiset([]) ==> |Asks(x)| == 0 by {
        assert |multiset(Asks(x))| == |Asks(x)|;
      }
    } else {
      assert T.Follows(T.OpenAt(T.ClientCalls, msgs, 1), msgs[1]);
      SwapFollows(Asks(msgs[0]), Asks(x), msgs[1]);
      assert swapped[1] == msgs[1];
      if T.Follows(Asks(x), msgs[1]) {
        forall i | 0 <= i < |swapped| ensures T.Follows(T.OpenAt(T.ClientCalls, swapped, i), swapped[i]) {
          if i > 1 {
            assert T.Follows(T.OpenAt(T.ClientCalls, msgs, i), msgs[i]);
          }
        }
      } else {
        assert !T.Follows(T.OpenAt(T.ClientCalls, swapped, 1), swapped[1]);
      }
    }
  }

  lemma FirstFollows(x: T.Message)
    requires !x.role.Tool?
    ensures T.Follows([], x)
  {
  }

  // ------------------------------------------------------------ step by step

  /**
  What step preparation does: `messages` replaces the messages of a step, or is
  absent where it leaves the slice it was given in place; `system` is the step's
  system prompt, if it sets one.  `spare` is the room behind the first prompt in
  the memory that holds it, which the language leaves open.
  */
  datatype Preparation = Preparation(
    spare: nat,
    messages: (nat, seq<T.Message>) -> Option<seq<T.Message>>,
    system: nat -> Option<string>)

  /** The system prompt of step `k` where it differs from the configured one. */
  function OwnSystem(call: Call, prep: Preparation, k: nat): Option<string> {
    if prep.system(k).Some? && prep.system(k).value != call.system then prep.system(k) else None
  }

  /** Step `k` overwrites the first message in the memory of the first prompt itself. */
  predicate WritesThrough(call: Call, prep: Preparation, initial: seq<T.Message>, responses: seq<T.Message>, k: nat) {
    && OwnSystem(call, prep, k).Some?
    && |responses| <= prep.spare
    && prep.messages(k, initial + responses).None?
  }

  /** What step `k` leaves of the first prompt. */
  function NextInitial(call: Call, prep: Preparation, initial: seq<T.Message>, responses: seq<T.Message>, k: nat)
    : (r: seq<T.Message>)
    requires Accepted(call) && initial != []
  {
    if WritesThrough(call, prep, initial, responses, k)
    then initial[0 := FirstUnder(OwnSystem(call, prep, k).value, call)]
    else initial
  }

  /** What step `k` sends. */
  function StepInput(call: Call, prep: Preparation, initial: seq<T.Message>, responses: seq<T.Message>, k: nat)
    : seq<T.Message>
    requires Accepted(call)
  {
    var prepared := prep.messages(k, initial + responses);
    var messages := if prepared.Some? then prepared.value else initial + responses;
    var own := OwnSystem(call, prep, k);
    if own.Some? && messages != [] then messages[0 := FirstUnder(own.value, call)] else messages
  }

  /** The responses before each step. */
  type Responses = nat -> seq<T.Message>

  /** The first prompt as step `k` finds it. */
  function InitialAt(call: Call, prep: Preparation, rs: Responses, k: nat): (r: seq<T.Message>)
    requires Accepted(call)
    ensures r != []
  {
    if k == 0 then PromptUnder(call.system, call)
    else NextInitial(call, prep, InitialAt(call, prep, rs, k - 1), rs(k - 1), k - 1)
  }

  /** What preparation of step `k` is given. */
  function GivenAt(call: Call, prep: Preparation, rs: Responses, k: nat): seq<T.Message>
    requires Accepted(call)
  {
    InitialAt(call, prep, rs, k) + rs(k)
  }

  /** What the model is sent at step `k`. */
  function PromptAt(call: Call, prep: Preparation, rs: Responses, k: nat): seq<T.Message>
    requires Accepted(call)
  {
    StepInput(call, prep, InitialAt(call, prep, rs, k), rs(k), k)
  }

  /** New memory for a prompt, with room behind it. */
  method Allocate(prompt: seq<T.Message>, spare: nat) returns (backing: array<T.Message>)
    ensures fresh(backing) && backing.Length == |prompt| + spare && backing[..|prompt|] == prompt
  {
    var none := T.Message(T.System, [], None);
    backing := new T.Message[|prompt| + spare](i requires 0 <= i < |prompt| + spare => if i < |prompt| then prompt[i] else none);
  }

  /** Appending to a slice: into the memory behind it while there is room, else into new memory. */
  method AppendTo(backing: array<T.Message>, n: nat, responses: seq<T.Message>) returns (view: array<T.Message>)
    requires n <= backing.Length
    modifies backing
    ensures n + |responses| <= view.Length && view[..n + |responses|] == old(backing[..n]) + responses
    ensures backing[..n] == old(backing[..n])
    ensures if n + |responses| <= backing.Length then view == backing else fresh(view)
  {
    if n + |responses| <= backing.Length {
      for i := 0 to |responses|
        invariant backing[..n + i] == old(backing[..n]) + responses[..i]
      {
        backing[n + i] := responses[i];
      }
      assert responses[..|responses|] == responses;
      assert backing[..n] == backing[..n + |responses|][..n];
      return backing;
    }
    var all := backing[..n] + responses;
    view := new T.Message[|all|](i requires 0 <= i < |all| => all[i]);
  }

  /** The prompt of one step; `backing` holds the first prompt and its spare room. */
  method PrepareInput(call: Call, prep: Preparation, backing: array<T.Message>, n: nat, responses: seq<T.Message>, k: nat)
    returns (prompt: seq<T.Message>)
    requires Accepted(call) && 0 < n && backing.Length == n + prep.spare
    modifies backing
    ensures prompt == StepInput(call, prep, old(backing[..n]), responses, k)
    ensures backing[..n] == NextInitial(call, prep, old(backing[..n]), responses, k)
  {
    hide CreatePrompt;
    ghost var initial := backing[..n];
    var view := AppendTo(backing, n, responses);
    var length := n + |responses|;
    var prepared := prep.messages(k, view[..length]);
    var stepSystem := if prep.system(k).Some? then prep.system(k).value else call.system;
    if prepared.Some? {
      prompt := prepared.value;
      if stepSystem != call.system && |prompt| > 0 {
        prompt := prompt[0 := PromptUnder(stepSystem, call)[0]];
      }
      return;
    }
    if stepSystem != call.system {
      view[0] := PromptUnder(stepSystem, call)[0];
      assert view[..length] == (initial + responses)[0 := view[0]];
      assert view == backing ==> backing[..n] == view[..length][..n];
    }
    prompt := view[..length];
  }

  // ------------------------------------------------------------------ pairing

  /**
  The system prompt whose first message stands in the first prompt before step
  `k`: that of the last earlier step that wrote through, or the configured one.
  */
  function StandingSystem(call: Call, prep: Preparation, rs: Responses, k: nat): string
    requires Accepted(call)
  {
    if k == 0 then call.system
    else if WritesThrough(call, prep, InitialAt(call, prep, rs, k - 1), rs(k - 1), k - 1) then
      OwnSystem(call, prep, k - 1).value
    else StandingSystem(call, prep, rs, k - 1)
  }

  lemma {:induction false} InitialStands(call: Call, prep: Preparation, rs: Responses, k: nat)
    requires Accepted(call)
    ensures InitialAt(call, prep, rs, k)
         == PromptUnder(call.system, call)[0 := FirstUnder(StandingSystem(call, prep, rs, k), call)]
  {
    hide CreatePrompt, OwnSystem;
    if k > 0 {
      InitialStands(call, prep, rs, k - 1);
    }
  }

  /**
  Another system prompt can take the first place: either both are set or
  neither is, or the call begins with a message that asks nothing.
  */
  predicate Fits(call: Call, system: string)
    requires Accepted(call)
  {
    (system == "") == (call.system == "") || Asks(FirstUnder("", call)) == []
  }

  lemma FirstsAsk(call: Call, system: string)
    requires Accepted(call) && Paired(call.messages)
    ensures !FirstUnder(system, call).role.Tool?
    ensures multiset(Asks(FirstUnder(system, call))) == multiset(Asks(FirstUnder(call.system, call))) <==> Fits(call, system)
  {
    hide Asks;
    var plain := FirstUnder("", call);
    assert call.messages != [] ==> T.Follows(T.OpenAt(T.ClientCalls, call.messages, 0), call.messages[0]);
    assert !plain.role.Tool?;
    QuietAsks(SystemTurns("x")[0]);
    if system != "" {
      QuietAsks(FirstUnder(system, call));
    }
    if call.system != "" {
      QuietAsks(FirstUnder(call.system, call));
    }
    EmptyIffSame(Asks(plain));
  }

  lemma QuietAsks(m: T.Message)
    ensures !m.role.Assistant? ==> Asks(m) == []
  {
  }

  lemma EmptyIffSame(ids: seq<T.Id>)
    ensures multiset(ids) == multiset([]) <==> ids == []
    ensures multiset([]) == multiset(ids) <==> ids == []
  {
    assert |multiset(ids)| == |ids|;
  }

  /** A slice whose first message was replaced, and replaced again, shows the last one. */
  lemma FirstReplaced(call: Call, msgs: seq<T.Message>, system: string)
    requires Accepted(call) && Paired(call.messages)
    requires Paired(msgs) && msgs != [] && msgs[0] == FirstUnder(call.system, call)
    ensures Paired(msgs[0 := FirstUnder(system, call)]) <==> Fits(call, system)
  {
    hide Paired, Asks, CreatePrompt, Fits;
    FirstsAsk(call, system);
    SwapFirstPaired(msgs, FirstUnder(system, call));
  }

  /** The system prompt whose first message stands in the prompt of step `k` where preparation replaces nothing. */
  function SystemAt(call: Call, prep: Preparation, rs: Responses, k: nat): string
    requires Accepted(call)
  {
    if OwnSystem(call, prep, k).Some? then OwnSystem(call, prep, k).value else StandingSystem(call, prep, rs, k)
  }

  /**
  Where the responses keep the contract, what a step is given keeps it exactly
  when the system prompt last written through fits; and what it sends, unless
  preparation replaces it, exactly when its own system prompt does or, where it
  has none, the one last written through.
  */
  lemma StepPromptPaired(call: Call, prep: Preparation, rs: Responses, k: nat)
    requires Accepted(call) && Paired(call.messages)
    requires Paired(PromptUnder(call.system, call) + rs(k))
    ensures Paired(GivenAt(call, prep, rs, k)) <==> Fits(call, StandingSystem(call, prep, rs, k))
    ensures prep.messages(k, GivenAt(call, prep, rs, k)).None? ==>
      (Paired(PromptAt(call, prep, rs, k)) <==> Fits(call, SystemAt(call, prep, rs, k)))
  {
    hide Paired, Asks, CreatePrompt, Fits, OwnSystem, InitialAt, StandingSystem;
    var base := PromptUnder(call.system, call) + rs(k);
    InitialStands(call, prep, rs, k);
    var standing := StandingSystem(call, prep, rs, k);
    FirstReplaced(call, base, standing);
    assert GivenAt(call, prep, rs, k) == base[0 := FirstUnder(standing, call)];
    if prep.messages(k, GivenAt(call, prep, rs, k)).None? {
      FirstReplaced(call, base, SystemAt(call, prep, rs, k));
      assert PromptAt(call, prep, rs, k) == base[0 := FirstUnder(SystemAt(call, prep, rs, k), call)];
    }
  }

  /** Preparation that keeps well-paired transcripts well paired, as the rewriting passes do. */
  ghost predicate PreparesPaired(prep: Preparation) {
    forall k, msgs :: prep.messages(k, msgs).Some? && Paired(msgs) ==> Paired(prep.messages(k, msgs).value)
  }

  /** The step's own system prompt, if any, takes the place of a first message that asks the same. */
  predicate OwnFits(call: Call, prep: Preparation, msgs: seq<T.Message>, k: nat)
    requires Accepted(call)
  {
    var own := OwnSystem(call, prep, k);
    own.Some? && msgs != [] ==> multiset(Asks(FirstUnder(own.value, call))) == multiset(Asks(msgs[0]))
  }

  /**
  Where preparation replaces the messages and keeps the contract, the step's own
  system prompt decides, as long as nothing unfitting was written through before.
  */
  lemma ReplacedPromptPaired(call: Call, prep: Preparation, rs: Responses, k: nat)
    requires Accepted(call) && Paired(call.messages) && PreparesPaired(prep)
    requires Paired(PromptUnder(call.system, call) + rs(k))
    requires Fits(call, StandingSystem(call, prep, rs, k))
    requires prep.messages(k, GivenAt(call, prep, rs, k)).Some?
    ensures Paired(PromptAt(call, prep, rs, k)) <==>
      OwnFits(call, prep, prep.messages(k, GivenAt(call, prep, rs, k)).value, k)
  {
    hide Paired, Asks, CreatePrompt, Fits, InitialAt, StandingSystem;
    StepPromptPaired(call, prep, rs, k);
    var msgs, own := prep.messages(k, GivenAt(call, prep, rs, k)).value, OwnSystem(call, prep, k);
    if own.Some? && msgs != [] {
      FirstsAsk(call, own.value);
      SwapFirstPaired(msgs, FirstUnder(own.value, call));
    }
  }

  /** A history that begins with a call, which a system prompt of one step alone overwrites for good. */
  const STARTS_WITH_CALL := Call("", "hi",
    [T.Message(T.Assistant, [T.Call(T.Id("c1"), "read", "", false)], None),
     T.Message(T.Tool, [T.Result(T.Id("c1"), T.TextOutput("text"), false)], None)], [])

  const SYSTEM_AT_FIRST_STEP := Preparation(0, (k, msgs) => None, k => if k == 0 then Some("X") else None)

  /**
  The first step sets a system prompt and the second sets none; yet the second
  prompt still carries the first one's system turn in the place of the call.
  */
  lemma OverwriteOutlivesStep(rs: Responses)
    requires rs(0) == []
    ensures Accepted(STARTS_WITH_CALL) && Paired(STARTS_WITH_CALL.messages)
    ensures var later := PromptAt(STARTS_WITH_CALL, SYSTEM_AT_FIRST_STEP, rs, 1);
            later[0] == SystemTurns("X")[0] && !Paired(later)
    ensures !Paired(PromptAt(STARTS_WITH_CALL, SYSTEM_AT_FIRST_STEP, rs, 0))
  {
    var call, prep := STARTS_WITH_CALL, SYSTEM_AT_FIRST_STEP;
    var msgs := call.messages;
    assert msgs[0].parts[..0] == [] && msgs[1].parts[..0] == [];
    assert T.CallIds(T.ClientCalls, msgs[0].parts) == [T.Id("c1")] && T.ResultIds(msgs[1].parts) == [T.Id("c1")];
    var later := PromptAt(call, prep, rs, 1);
    assert later == InitialAt(call, prep, rs, 1) + rs(1);
    assert later[1] == msgs[1];
    assert !T.Follows(T.OpenAt(T.ClientCalls, later, 1), later[1]);
    var first := PromptAt(call, prep, rs, 0);
    assert first[0] == SystemTurns("X")[0] && first[1] == msgs[1];
    assert !T.Follows(T.OpenAt(T.ClientCalls, first, 1), first[1]);
  }

  /**
  A step that asks for the configured system prompt, or for none, restores
  nothing: where an earlier step wrote another first message through, that one
  still stands.
  */
  lemma ConfiguredRestoresNothing(call: Call, prep: Preparation, rs: Responses, k: nat)
    requires Accepted(call) && (prep.system(k) == None || prep.system(k) == Some(call.system))
    requires prep.messages(k, GivenAt(call, prep, rs, k)).None?
    ensures SystemAt(call, prep, rs, k) == StandingSystem(call, prep, rs, k)
    ensures PromptAt(call, prep, rs, k) == GivenAt(call, prep, rs, k)
    ensures GivenAt(call, prep, rs, k)[0] == FirstUnder(StandingSystem(call, prep, rs, k), call)
  {
    hide CreatePrompt, StandingSystem;
    InitialStands(call, prep, rs, k);
  }
}
