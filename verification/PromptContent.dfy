/**
What the assembled prompt says, for every persisted history: which surviving
messages reach the model, in which order, and with what content.
*/
module PromptContent {
  import opened Common
  import opened Persisted
  import opened TextOps
  import opened Prompt
  import opened CanceledBranches
  import PromptPairing
  import D = PromptDelivery

  // ------------------------------------------------------- reading a message

  /** The first text part decides: there is none, or `t` is its text. */
  ghost predicate FirstText(parts: seq<Part>, t: string) {
    if exists i :: 0 <= i < |parts| && parts[i].TextPart? then
      exists i :: 0 <= i < |parts| && parts[i] == TextPart(t) && forall j :: 0 <= j < i ==> !parts[j].TextPart?
    else t == ""
  }

  ghost predicate FirstReasoning(parts: seq<Part>, r: Reasoning) {
    if exists i :: 0 <= i < |parts| && parts[i].ReasoningPart? then
      exists i :: 0 <= i < |parts| && parts[i] == ReasoningPart(r) && forall j :: 0 <= j < i ==> !parts[j].ReasoningPart?
    else r == Reasoning("", false)
  }

  ghost predicate FirstFinish(parts: seq<Part>, reason: string) {
    if exists i :: 0 <= i < |parts| && parts[i].FinishPart? then
      exists i :: 0 <= i < |parts| && parts[i] == FinishPart(reason) && forall j :: 0 <= j < i ==> !parts[j].FinishPart?
    else reason == ""
  }

  lemma {:induction false} ReadsFirst(parts: seq<Part>)
    ensures FirstText(parts, ContentText(parts))
    ensures FirstReasoning(parts, ReasoningContent(parts))
    ensures FirstFinish(parts, FinishReason(parts))
  {
    if parts != [] {
      ReadsFirst(parts[1..]);
      FirstTextStep(parts, ContentText(parts));
      FirstReasoningStep(parts, ReasoningContent(parts));
      FirstFinishStep(parts, FinishReason(parts));
    }
  }

  lemma FirstTextStep(parts: seq<Part>, t: string)
    requires parts != []
    requires if parts[0].TextPart? then t == parts[0].text else FirstText(parts[1..], t)
    ensures FirstText(parts, t)
  {
    if parts[0].TextPart? {
      assert parts[0] == TextPart(t);
    } else if i :| 0 <= i < |parts| && parts[i].TextPart? {
      assert parts[1..][i - 1].TextPart?;
      var k :| 0 <= k < |parts[1..]| && parts[1..][k] == TextPart(t) && forall j :: 0 <= j < k ==> !parts[1..][j].TextPart?;
      assert parts[k + 1] == TextPart(t);
      forall j | 0 <= j < k + 1 ensures !parts[j].TextPart? {
        assert j > 0 ==> parts[j] == parts[1..][j - 1];
      }
    }
  }

  lemma FirstReasoningStep(parts: seq<Part>, r: Reasoning)
    requires parts != []
    requires if parts[0].ReasoningPart? then r == parts[0].reasoning else FirstReasoning(parts[1..], r)
    ensures FirstReasoning(parts, r)
  {
    if parts[0].ReasoningPart? {
      assert parts[0] == ReasoningPart(r);
    } else if i :| 0 <= i < |parts| && parts[i].ReasoningPart? {
      assert parts[1..][i - 1].ReasoningPart?;
      var k :| 0 <= k < |parts[1..]| && parts[1..][k] == ReasoningPart(r)
               && forall j :: 0 <= j < k ==> !parts[1..][j].ReasoningPart?;
      assert parts[k + 1] == ReasoningPart(r);
      forall j | 0 <= j < k + 1 ensures !parts[j].ReasoningPart? {
        assert j > 0 ==> parts[j] == parts[1..][j - 1];
      }
    }
  }

  lemma FirstFinishStep(parts: seq<Part>, reason: string)
    requires parts != []
    requires if parts[0].FinishPart? then reason == parts[0].reason else FirstFinish(parts[1..], reason)
    ensures FirstFinish(parts, reason)
  {
    if parts[0].FinishPart? {
      assert parts[0] == FinishPart(reason);
    } else if i :| 0 <= i < |parts| && parts[i].FinishPart? {
      assert parts[1..][i - 1].FinishPart?;
      var k :| 0 <= k < |parts[1..]| && parts[1..][k] == FinishPart(reason)
               && forall j :: 0 <= j < k ==> !parts[1..][j].FinishPart?;
      assert parts[k + 1] == FinishPart(reason);
      forall j | 0 <= j < k + 1 ensures !parts[j].FinishPart? {
        assert j > 0 ==> parts[j] == parts[1..][j - 1];
      }
    }
  }

  lemma PartsStep(a: seq<Part>, p: Part, b: seq<Part>)
    requires a != []
    ensures a + [p] + b != [] && (a + [p] + b)[0] == a[0] && (a + [p] + b)[1..] == a[1..] + [p] + b
  {
  }

  lemma {:induction false} ReadsCalls(a: seq<Part>, p: Part, b: seq<Part>)
    ensures ToolCalls(a + [p] + b) == ToolCalls(a) + (if p.CallPart? then [p.call] else []) + ToolCalls(b)
    decreases |a|
  {
    if a == [] {
      assert a + [p] + b == [p] + b;
    } else {
      PartsStep(a, p, b);
      ReadsCalls(a[1..], p, b);
    }
  }

  lemma {:induction false} ReadsResults(a: seq<Part>, p: Part, b: seq<Part>)
    ensures ToolResults(a + [p] + b) == ToolResults(a) + (if p.ResultPart? then [p.result] else []) + ToolResults(b)
    decreases |a|
  {
    if a == [] {
      assert a + [p] + b == [p] + b;
    } else {
      PartsStep(a, p, b);
      ReadsResults(a[1..], p, b);
    }
  }

  lemma {:induction false} ReadsFiles(a: seq<Part>, p: Part, b: seq<Part>)
    ensures Binaries(a + [p] + b) == Binaries(a) + (if p.BinaryPart? then [p.binary] else []) + Binaries(b)
    decreases |a|
  {
    if a == [] {
      assert a + [p] + b == [p] + b;
    } else {
      PartsStep(a, p, b);
      ReadsFiles(a[1..], p, b);
    }
  }

  /** Calls, results and files are read part by part: each once, in order, and nothing else. */
  lemma ReadsAll(a: seq<Part>, p: Part, b: seq<Part>)
    ensures ToolCalls(a + [p] + b) == ToolCalls(a) + (if p.CallPart? then [p.call] else []) + ToolCalls(b)
    ensures ToolResults(a + [p] + b) == ToolResults(a) + (if p.ResultPart? then [p.result] else []) + ToolResults(b)
    ensures Binaries(a + [p] + b) == Binaries(a) + (if p.BinaryPart? then [p.binary] else []) + Binaries(b)
  {
    ReadsCalls(a, p, b);
    ReadsResults(a, p, b);
    ReadsFiles(a, p, b);
  }

  /** A turn counts as unfinished when it has no finish part, or the first one gives no reason or a cancellation. */
  lemma UnfinishedIff(m: Message)
    ensures Unfinished(m) <==>
              m.role.Assistant? && (FirstFinish(m.parts, "") || FirstFinish(m.parts, "canceled"))
  {
    ReadsFirst(m.parts);
    FirstFinishUnique(m.parts, FinishReason(m.parts), "");
    FirstFinishUnique(m.parts, FinishReason(m.parts), "canceled");
  }

  lemma FirstFinishUnique(parts: seq<Part>, a: string, b: string)
    requires FirstFinish(parts, a)
    ensures FirstFinish(parts, b) <==> a == b
  {
    if FirstFinish(parts, b) && exists i :: 0 <= i < |parts| && parts[i].FinishPart? {
      var i :| 0 <= i < |parts| && parts[i] == FinishPart(a) && forall j :: 0 <= j < i ==> !parts[j].FinishPart?;
      var k :| 0 <= k < |parts| && parts[k] == FinishPart(b) && forall j :: 0 <= j < k ==> !parts[j].FinishPart?;
      assert i == k;
    }
  }

  // --------------------------------------------------- what one message says

  datatype Kind = Thought | Words | Attachment | Request | Answer

  function KindOf(p: T.Part): Kind {
    match p
    case Reasoning(_, _) => Thought
    case Text(_) => Words
    case File(_, _, _) => Attachment
    case Call(_, _, _, _) => Request
    case Result(_, _, _) => Answer
  }

  function Place(k: Kind): nat {
    match k
    case Thought => 0
    case Words => 1
    case Attachment => 2
    case Request => 3
    case Answer => 4
  }

  /** The parts of one kind, in order. */
  function Only(k: Kind, parts: seq<T.Part>): seq<T.Part> {
    if parts == [] then [] else
    var p := parts[|parts| - 1];
    Only(k, parts[..|parts| - 1]) + (if KindOf(p) == k then [p] else [])
  }

  lemma {:induction false} OnlyConcat(k: Kind, a: seq<T.Part>, b: seq<T.Part>)
    ensures Only(k, a + b) == Only(k, a) + Only(k, b)
    decreases |b|
  {
    if b == [] {
      assert a + b == a;
    } else {
      assert (a + b)[..|a + b| - 1] == a + b[..|b| - 1];
      OnlyConcat(k, a, b[..|b| - 1]);
    }
  }

  predicate AllOf(k: Kind, parts: seq<T.Part>) {
    forall i :: 0 <= i < |parts| ==> KindOf(parts[i]) == k
  }

  lemma {:induction false} OnlyUniform(k: Kind, parts: seq<T.Part>, all: Kind)
    requires AllOf(all, parts)
    ensures Only(k, parts) == if k == all then parts else []
  {
    if parts != [] {
      OnlyUniform(k, parts[..|parts| - 1], all);
    }
  }

  /** Reasoning first, then text, then files, then calls. */
  predicate Ordered(parts: seq<T.Part>) {
    forall i, j :: 0 <= i < j < |parts| ==> Place(KindOf(parts[i])) <= Place(KindOf(parts[j]))
  }

  /** A text part for `t`, and none for an empty text. */
  function Said(t: string): seq<T.Part> {
    if t == "" then [] else [T.Text(t)]
  }

  ghost predicate SameFiles(files: seq<Binary>, parts: seq<T.Part>) {
    && |parts| == |files|
    && forall k :: 0 <= k < |files| ==> parts[k] == T.File(files[k].path, files[k].mime, files[k].data)
  }

  ghost predicate SameCalls(calls: seq<ToolCall>, parts: seq<T.Part>) {
    && |parts| == |calls|
    && forall k :: 0 <= k < |calls| ==>
         parts[k] == T.Call(calls[k].id, calls[k].name, calls[k].input, calls[k].providerExecuted)
  }

  /** What a user wrote, with the text attachments put into it. */
  function UserText(env: Env, m: Message): string {
    env.withAttachments(Trim(ContentText(m.parts)), Filter(Binaries(m.parts), true))
  }

  function Thinking(env: Env, m: Message): string {
    env.stripToolProtocol(ReasoningContent(m.parts).thinking)
  }

  function Reply(env: Env, m: Message): string {
    env.stripToolProtocol(Trim(ContentText(m.parts)))
  }

  /** The text of an assistant turn: its reply, or unsigned reasoning where there is nothing else. */
  function Uttered(env: Env, m: Message): string {
    if Reply(env, m) == "" && ToolCalls(m.parts) == [] && !ReasoningContent(m.parts).signed
    then Thinking(env, m) else Reply(env, m)
  }

  /** `parts` say what the persisted message says, and nothing else. */
  ghost predicate Says(env: Env, m: Message, parts: seq<T.Part>) {
    && Ordered(parts)
    && |parts| == |Only(Thought, parts)| + |Only(Words, parts)| + |Only(Attachment, parts)| + |Only(Request, parts)|
    && match m.role
       case System => parts == [T.Text(Trim(ContentText(m.parts)))]
       case User =>
         && Only(Words, parts) == Said(UserText(env, m))
         && SameFiles(Filter(Binaries(m.parts), false), Only(Attachment, parts))
         && Only(Thought, parts) == Only(Request, parts) == []
       case Assistant =>
         && Only(Thought, parts) == (if Thinking(env, m) == "" then [] else [T.Reasoning(Thinking(env, m), false)])
         && Only(Words, parts) == Said(Uttered(env, m))
         && SameCalls(ToolCalls(m.parts), Only(Request, parts))
         && Only(Attachment, parts) == []
       case Tool => false
  }

  /** Whether a surviving message is sent to the model. */
  predicate Sent(env: Env, m: Message) {
    match m.role
    case System => m.parts != [] && !env.isAutoMode(m) && Trim(ContentText(m.parts)) != ""
    case User => m.parts != []
    case Assistant =>
      && !HasPrefix(Trim(ContentText(m.parts)), "Service temporarily unavailable. Retrying")
      && (ToolCalls(m.parts) != [] || ContentText(m.parts) != "" || ReasoningContent(m.parts).thinking != "")
      && (ToolCalls(m.parts) != [] || Reply(env, m) != "" || Thinking(env, m) != "")
    case Tool => false
  }

  /** `ai` is what the persisted message becomes. */
  ghost predicate Shows(env: Env, m: Message, ai: T.Message) {
    ai.role == m.role && ai.options == None && Says(env, m, ai.parts)
  }

  lemma FilterFirst(ps: seq<Binary>, text: bool)
    requires ps != []
    ensures Filter(ps, text) == (if HasPrefix(ps[0].mime, "text/") == text then [ps[0]] else []) + Filter(ps[1..], text)
  {
    hide HasPrefix;
  }

  lemma FilterNone(text: bool)
    ensures Filter([], text) == []
  {
  }

  /** The text files go into the text and the others go as files, each in order. */
  lemma {:induction false} FilterSplits(a: seq<Binary>, p: Binary, b: seq<Binary>, text: bool)
    ensures Filter(a + [p] + b, text)
         == Filter(a, text) + (if HasPrefix(p.mime, "text/") == text then [p] else []) + Filter(b, text)
    decreases |a|
  {
    hide Filter, HasPrefix;
    var all := a + [p] + b;
    FilterFirst(all, text);
    if a == [] {
      assert all == [p] + b && all[1..] == b;
      FilterNone(text);
    } else {
      assert all[0] == a[0] && all[1..] == a[1..] + [p] + b;
      FilterFirst(a, text);
      FilterSplits(a[1..], p, b, text);
    }
  }

  /** Parts laid out kind by kind. */
  lemma LaidOut(k: Kind, thoughts: seq<T.Part>, words: seq<T.Part>, files: seq<T.Part>, calls: seq<T.Part>)
    requires AllOf(Thought, thoughts) && AllOf(Words, words) && AllOf(Attachment, files) && AllOf(Request, calls)
    ensures var parts := thoughts + words + files + calls;
            && Ordered(parts)
            && Only(k, parts) == match k
                                 case Thought => thoughts
                                 case Words => words
                                 case Attachment => files
                                 case Request => calls
                                 case Answer => []
  {
    hide Only;
    OnlyConcat(k, thoughts + words + files, calls);
    OnlyConcat(k, thoughts + words, files);
    OnlyConcat(k, thoughts, words);
    OnlyUniform(k, thoughts, Thought);
    OnlyUniform(k, words, Words);
    OnlyUniform(k, files, Attachment);
    OnlyUniform(k, calls, Request);
  }

  lemma KindsLaidOut(thoughts: seq<T.Part>, words: seq<T.Part>, files: seq<T.Part>, calls: seq<T.Part>)
    requires AllOf(Thought, thoughts) && AllOf(Words, words) && AllOf(Attachment, files) && AllOf(Request, calls)
    ensures var parts := thoughts + words + files + calls;
            && Ordered(parts)
            && Only(Thought, parts) == thoughts && Only(Words, parts) == words
            && Only(Attachment, parts) == files && Only(Request, parts) == calls
  {
    LaidOut(Thought, thoughts, words, files, calls);
    LaidOut(Words, thoughts, words, files, calls);
    LaidOut(Attachment, thoughts, words, files, calls);
    LaidOut(Request, thoughts, words, files, calls);
  }

  lemma SystemShown(env: Env, m: Message)
    requires !Skipped(m) && m.role.System? && Sent(env, m)
    ensures ToAIMessage(env, m) == [T.Message(T.System, [T.Text(Trim(ContentText(m.parts)))], None)]
    ensures Says(env, m, [T.Text(Trim(ContentText(m.parts)))])
  {
    hide ToolCalls, ContentText, ReasoningContent, Filter, Binaries, Only;
    var words := [T.Text(Trim(ContentText(m.parts)))];
    KindsLaidOut([], words, [], []);
    assert [] + words + [] + [] == words;
  }

  lemma UserShown(env: Env, m: Message)
    requires m.role.User?
    ensures |ToAIMessage(env, m)| == 1 && Shows(env, m, ToAIMessage(env, m)[0])
  {
    hide ToolCalls, ContentText, ReasoningContent, Filter, Binaries, Only, Ordered, AllOf;
    var words, files := Said(UserText(env, m)), FileParts(Filter(Binaries(m.parts), false));
    assert AllOf(Thought, []) && AllOf(Request, []) && AllOf(Words, words) && AllOf(Attachment, files) by {
      UniformParts(env, m);
    }
    KindsLaidOut([], words, files, []);
    assert [] + words + files + [] == words + files;
  }

  lemma UniformParts(env: Env, m: Message)
    ensures AllOf(Thought, []) && AllOf(Attachment, []) && AllOf(Request, [])
    ensures AllOf(Attachment, FileParts(Filter(Binaries(m.parts), false)))
    ensures AllOf(Request, CallParts(ToolCalls(m.parts)))
    ensures forall t :: AllOf(Words, Said(t))
    ensures forall t :: AllOf(Thought, [T.Reasoning(t, false)])
  {
    hide ToolCalls, Filter, Binaries;
  }

  lemma AssistantLaidOut(env: Env, m: Message)
    ensures AssistantParts(env, m)
         == (if Thinking(env, m) == "" then [] else [T.Reasoning(Thinking(env, m), false)])
            + Said(Uttered(env, m)) + [] + CallParts(ToolCalls(m.parts))
  {
    hide ToolCalls, ContentText, ReasoningContent;
  }

  lemma AssistantSays(env: Env, m: Message)
    requires m.role.Assistant?
    ensures Says(env, m, AssistantParts(env, m))
  {
    hide ToolCalls, ContentText, ReasoningContent, Only, Ordered, AllOf, AssistantParts;
    var thoughts := if Thinking(env, m) == "" then [] else [T.Reasoning(Thinking(env, m), false)];
    UniformParts(env, m);
    AssistantLaidOut(env, m);
    KindsLaidOut(thoughts, Said(Uttered(env, m)), [], CallParts(ToolCalls(m.parts)));
  }

  lemma AssistantShown(env: Env, m: Message)
    requires m.role.Assistant? && !Skipped(m)
    ensures if Sent(env, m) then |ToAIMessage(env, m)| == 1 && Shows(env, m, ToAIMessage(env, m)[0])
            else ToAIMessage(env, m) == []
  {
    hide ToolCalls, ContentText, ReasoningContent, Says, AssistantParts;
    AssistantLaidOut(env, m);
    AssistantSays(env, m);
  }

  /** One message that is not a tool turn: what is sent for it, and when. */
  lemma MessageShown(env: Env, m: Message)
    requires !Skipped(m)
    ensures if Sent(env, m) then |ToAIMessage(env, m)| == 1 && Shows(env, m, ToAIMessage(env, m)[0])
            else ToAIMessage(env, m) == []
  {
    hide Says, ToolCalls, ContentText, ReasoningContent, Filter, Binaries, AssistantParts;
    match m.role
    case System =>
      if Sent(env, m) {
        SystemShown(env, m);
      }
    case User =>
      UserShown(env, m);
    case Assistant =>
      AssistantShown(env, m);
    case Tool =>
  }

  /** A skipped message is not one that would be sent. */
  lemma SkippedNotSent(env: Env, m: Message)
    requires Skipped(m)
    ensures !Sent(env, m)
  {
  }

  // ------------------------------------------------------- the whole prompt

  /** The messages that are sent, in order. */
  function Heard(env: Env, msgs: seq<Message>): seq<Message> {
    if msgs == [] then [] else
    var m := msgs[|msgs| - 1];
    Heard(env, msgs[..|msgs| - 1]) + (if Sent(env, m) then [m] else [])
  }

  /** Everything in a prompt but the tool turns. */
  function Spoken(msgs: seq<T.Message>): seq<T.Message> {
    if msgs == [] then [] else
    var m := msgs[|msgs| - 1];
    Spoken(msgs[..|msgs| - 1]) + (if m.role.Tool? then [] else [m])
  }

  lemma SpokenAppend(msgs: seq<T.Message>, m: T.Message)
    ensures Spoken(msgs + [m]) == Spoken(msgs) + (if m.role.Tool? then [] else [m])
  {
    assert (msgs + [m])[..|msgs|] == msgs;
  }

  ghost predicate AllShown(env: Env, heard: seq<Message>, spoken: seq<T.Message>) {
    |spoken| == |heard| && forall k :: 0 <= k < |heard| ==> Shows(env, heard[k], spoken[k])
  }

  lemma AnswersUnspoken(history: seq<T.Message>, env: Env, a: Answers)
    ensures Spoken(history + ToolTurn(env, a)) == Spoken(history)
  {
    var turn := ToolTurn(env, a);
    if turn == [] {
      assert history + turn == history;
    } else {
      SpokenAppend(history, turn[0]);
      assert history + turn == history + [turn[0]];
    }
  }

  lemma StepSpeaks(env: Env, results: Index, p: Progress, m: Message)
    ensures var ai := if Sent(env, m) then ToAIMessage(env, m) else [];
            Spoken(Step(env, results, p, m).history) == Spoken(p.history) + ai
    ensures Sent(env, m) ==> |ToAIMessage(env, m)| == 1 && Shows(env, m, ToAIMessage(env, m)[0])
  {
    hide Spoken, Shows, ToAIMessage, AnswerAll, ToolTurn, Skipped, Sent;
    if Skipped(m) {
      SkippedNotSent(env, m);
    } else {
      MessageShown(env, m);
      var ai := ToAIMessage(env, m);
      if ai == [] {
        assert p.history + ai == p.history;
      } else {
        NotATurn(env, m, ai[0]);
        SpokenAppend(p.history, ai[0]);
        assert ai == [ai[0]];
      }
      if m.role.Assistant? {
        AnswersUnspoken(p.history + ai, env, AnswerAll(results, p.consumed, ToolCalls(m.parts)));
      }
    }
  }

  lemma NotATurn(env: Env, m: Message, ai: T.Message)
    requires Shows(env, m, ai)
    ensures !ai.role.Tool?
  {
  }

  lemma {:induction false} StepsSpeak(env: Env, results: Index, msgs: seq<Message>, n: nat)
    requires n <= |msgs|
    ensures AllShown(env, Heard(env, msgs[..n]), Spoken(Steps(env, results, msgs, n).history))
  {
    hide Shows, Step, Sent, ToAIMessage;
    if n > 0 {
      StepsSpeak(env, results, msgs, n - 1);
      StepSpeaks(env, results, Steps(env, results, msgs, n - 1), msgs[n - 1]);
      assert msgs[..n][..n - 1] == msgs[..n - 1];
    } else {
      NothingSpoken(env, results, msgs);
    }
  }

  lemma NothingSpoken(env: Env, results: Index, msgs: seq<Message>)
    ensures Heard(env, msgs[..0]) == [] && Spoken(Steps(env, results, msgs, 0).history) == []
  {
  }

  /**
  Nothing is lost and nothing is made up: apart from the tool turns, the prompt
  is one message for every surviving message that is sent, in the same order,
  each saying what the persisted one says.
  */
  lemma PromptSaysHistory(env: Env, persisted: seq<Message>)
    ensures AllShown(env, Heard(env, Trimmed(persisted)), Spoken(Assembled(env, Trimmed(persisted))))
  {
    hide Steps, Shows, Heard, Spoken, Trimmed;
    var msgs := Trimmed(persisted);
    StepsSpeak(env, IndexOf(msgs, |msgs|), msgs, |msgs|);
    assert msgs[..|msgs|] == msgs;
  }

  // ------------------------------------------------------------ user messages

  function NonEmpty(msgs: seq<Message>): seq<Message> {
    if msgs == [] then [] else
    var m := msgs[|msgs| - 1];
    NonEmpty(msgs[..|msgs| - 1]) + (if m.parts != [] then [m] else [])
  }

  function UserTurns(msgs: seq<T.Message>): seq<T.Message> {
    if msgs == [] then [] else
    var m := msgs[|msgs| - 1];
    UserTurns(msgs[..|msgs| - 1]) + (if m.role.User? then [m] else [])
  }

  lemma {:induction false} HeardUsers(env: Env, msgs: seq<Message>)
    ensures Users(Heard(env, msgs)) == NonEmpty(Users(msgs))
  {
    if msgs != [] {
      var front, m := msgs[..|msgs| - 1], msgs[|msgs| - 1];
      HeardUsers(env, front);
      if Sent(env, m) {
        UsersAppend(Heard(env, front), m);
      } else {
        assert Heard(env, msgs) == Heard(env, front);
      }
      if m.role.User? {
        assert (Users(front) + [m])[..|Users(front)|] == Users(front);
      } else {
        assert Users(msgs) == Users(front);
      }
    }
  }

  lemma UserTurnsAppend(msgs: seq<T.Message>, m: T.Message)
    ensures UserTurns(msgs + [m]) == UserTurns(msgs) + (if m.role.User? then [m] else [])
  {
    assert (msgs + [m])[..|msgs|] == msgs;
  }

  lemma {:induction false} SpokenUsers(msgs: seq<T.Message>)
    ensures UserTurns(Spoken(msgs)) == UserTurns(msgs)
  {
    if msgs != [] {
      var front, m := msgs[..|msgs| - 1], msgs[|msgs| - 1];
      SpokenUsers(front);
      UserTurnsAppend(Spoken(front), m);
      assert m.role.Tool? ==> Spoken(msgs) == Spoken(front);
    }
  }

  lemma {:induction false} UsersShown(env: Env, heard: seq<Message>, spoken: seq<T.Message>)
    requires AllShown(env, heard, spoken)
    ensures AllShown(env, Users(heard), UserTurns(spoken))
    decreases |heard|
  {
    hide Says;
    if heard != [] {
      var k := |heard| - 1;
      UsersShown(env, heard[..k], spoken[..k]);
      assert Shows(env, heard[k], spoken[k]);
    }
  }

  /**
  No request is lost: the user turns of the prompt are, in order and once each,
  the user messages of the whole persisted history that have any content, each
  with its text and its files.
  */
  lemma EveryRequestReachesModel(env: Env, persisted: seq<Message>)
    ensures AllShown(env, NonEmpty(Users(persisted)), UserTurns(Assembled(env, Trimmed(persisted))))
  {
    hide Steps, Shows, Heard, Spoken, Trimmed, Users, UserTurns;
    var msgs := Trimmed(persisted);
    PromptSaysHistory(env, persisted);
    UsersShown(env, Heard(env, msgs), Spoken(Assembled(env, msgs)));
    HeardUsers(env, msgs);
    SpokenUsers(Assembled(env, msgs));
    UsersSurvive(persisted);
  }

  // ------------------------------------------------------------------ answers

  /** `o` tells the model what the persisted result holds: an error, media, or a text. */
  predicate Conveys(env: Env, r: ToolResult, o: T.Output) {
    && (r.isError <==> o.ErrorOutput?)
    && (!r.isError && r.data != "" <==> o.MediaOutput?)
    && match o
       case ErrorOutput(message) => message == env.modelSafe(r)
       case MediaOutput(data, mime) => data == r.data && mime == r.mime
       case TextOutput(text) => text == env.modelSafe(r)
       case NoOutput => false
  }

  /**
  The answers the model is given for `id`, one for every call with it: the first
  ones convey the persisted results in order, the others say that the execution
  was interrupted.
  */
  lemma AnswersConveyResults(env: Env, persisted: seq<Message>, id: Id, k: nat)
    requires k < |D.OutputsFor(Assembled(env, Trimmed(persisted)), id)|
    ensures var msgs := Trimmed(persisted);
            var told := D.OutputsFor(Assembled(env, msgs), id);
            var results := PromptPairing.ResultsFor(msgs, |msgs|, id);
            && |told| == PromptPairing.CallCount(msgs, |msgs|, id)
            && (if k < |results| then Conveys(env, results[k], told[k])
                else told[k] == T.ErrorOutput("tool execution was interrupted before completion; verify the current state before continuing"))
  {
    hide Assembled, Trimmed, D.OutputsFor, PromptPairing.ResultsFor, PromptPairing.CallCount;
    D.ResultsDeliveredInOrder(env, persisted, id);
  }
}
