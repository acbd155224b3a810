/**
Assembly of the model prompt from a persisted history: every tool call gets its
answer directly after it, whatever order the results were persisted in.
*/
module Prompt {
  import opened Common
  import opened Persisted
  import opened TextOps
  import opened CanceledBranches

  const RETRY_NOTICE := "Service temporarily unavailable. Retrying"

  const INTERRUPTED :=
    "tool execution was interrupted before completion; verify the current state before continuing"

  /** Text rewriting that the assembly uses but does not depend on. */
  datatype Env = Env(
    stripToolProtocol: string -> string,
    isAutoMode: Message -> bool,
    withAttachments: (string, seq<Binary>) -> string,
    modelSafe: ToolResult -> string)

  // ---------------------------------------------------- one message at a time

  function OutputOf(env: Env, r: ToolResult): T.Output
  {
    if r.isError then T.ErrorOutput(env.modelSafe(r))
    else if r.data != "" then T.MediaOutput(r.data, r.mime)
    else T.TextOutput(env.modelSafe(r))
  }

  function AnswerPart(env: Env, r: ToolResult): T.Part
  {
    T.Result(r.id, OutputOf(env, r), false)
  }

  function AnswerParts(env: Env, rs: seq<ToolResult>): seq<T.Part>
  {
    seq(|rs|, i requires 0 <= i < |rs| => AnswerPart(env, rs[i]))
  }

  function CallParts(calls: seq<ToolCall>): seq<T.Part>
  {
    seq(|calls|, i requires 0 <= i < |calls| =>
      T.Call(calls[i].id, calls[i].name, calls[i].input, calls[i].providerExecuted))
  }

  predicate IsTextFile(p: Binary) {
    HasPrefix(p.mime, "text/")
  }

  function Filter(ps: seq<Binary>, text: bool): seq<Binary>
  {
    if ps == [] then []
    else (if IsTextFile(ps[0]) == text then [ps[0]] else []) + Filter(ps[1..], text)
  }

  function FileParts(ps: seq<Binary>): seq<T.Part>
  {
    seq(|ps|, i requires 0 <= i < |ps| => T.File(ps[i].path, ps[i].mime, ps[i].data))
  }

  /** The reasoning and text of an assistant turn; unsigned reasoning stands in for missing content. */
  function Preamble(env: Env, m: Message): seq<T.Part> {
    var reasoning := ReasoningContent(m.parts);
    var thinking := env.stripToolProtocol(reasoning.thinking);
    var stripped := env.stripToolProtocol(Trim(ContentText(m.parts)));
    var bare := stripped == "" && ToolCalls(m.parts) == [];
    var text := if thinking != "" && !reasoning.signed && bare then thinking else stripped;
    (if thinking != "" then [T.Reasoning(thinking, false)] else [])
    + (if text != "" then [T.Text(text)] else [])
  }

  function AssistantParts(env: Env, m: Message): seq<T.Part> {
    Preamble(env, m) + CallParts(ToolCalls(m.parts))
  }

  /** A turn that only announces a retry is not sent. */
  predicate IsRetryNotice(m: Message) {
    m.role.Assistant? && HasPrefix(Trim(ContentText(m.parts)), RETRY_NOTICE)
  }

  /** The messages one persisted message becomes. */
  function ToAIMessage(env: Env, m: Message): seq<T.Message> {
    match m.role
    case System =>
      var text := Trim(ContentText(m.parts));
      if env.isAutoMode(m) || text == "" then [] else [T.Message(T.System, [T.Text(text)], None)]
    case User =>
      var files := Binaries(m.parts);
      var text := env.withAttachments(Trim(ContentText(m.parts)), Filter(files, true));
      [T.Message(T.User, (if text != "" then [T.Text(text)] else []) + FileParts(Filter(files, false)), None)]
    case Assistant =>
      if IsRetryNotice(m) || AssistantParts(env, m) == [] then []
      else [T.Message(T.Assistant, AssistantParts(env, m), None)]
    case Tool =>
      [T.Message(T.Tool, AnswerParts(env, ToolResults(m.parts)), None)]
  }

  // ---------------------------------------------------- answering one turn

  /** Persisted results by call id, in persisted order. */
  type Index = map<Id, seq<ToolResult>>

  /** How many results, or synthetic errors, each id has had so far. */
  type Counter = map<Id, nat>

  function Lookup(results: Index, id: Id): seq<ToolResult> {
    if id in results then results[id] else []
  }

  function Consumed(consumed: Counter, id: Id): nat {
    if id in consumed then consumed[id] else 0
  }

  function AddResult(results: Index, tr: ToolResult): Index {
    results[tr.id := Lookup(results, tr.id) + [tr]]
  }

  function AddResults(results: Index, trs: seq<ToolResult>): Index {
    if trs == [] then results
    else AddResult(AddResults(results, trs[..|trs| - 1]), trs[|trs| - 1])
  }

  /** The lookup table of the first `n` messages. */
  function IndexOf(msgs: seq<Message>, n: nat): Index
    requires n <= |msgs|
  {
    if n == 0 then map[]
    else if msgs[n - 1].role.Tool? then AddResults(IndexOf(msgs, n - 1), ToolResults(msgs[n - 1].parts))
    else IndexOf(msgs, n - 1)
  }

  function Synthetic(id: Id): T.Part {
    T.Result(id, T.ErrorOutput(INTERRUPTED), false)
  }

  /** Real answers, synthetic answers, and the counters after them. */
  datatype Answers = Answers(grouped: seq<ToolResult>, missing: seq<T.Part>, consumed: Counter)

  /** One more call takes the next persisted result with its id, or a synthetic error. */
  function AnswerOne(results: Index, a: Answers, id: Id): Answers {
    var k := Consumed(a.consumed, id);
    var consumed := a.consumed[id := k + 1];
    if k < |Lookup(results, id)| then Answers(a.grouped + [Lookup(results, id)[k]], a.missing, consumed)
    else Answers(a.grouped, a.missing + [Synthetic(id)], consumed)
  }

  function AnswerAll(results: Index, consumed: Counter, calls: seq<ToolCall>): Answers {
    if calls == [] then Answers([], [], consumed)
    else AnswerOne(results, AnswerAll(results, consumed, calls[..|calls| - 1]), calls[|calls| - 1].id)
  }

  /** The tool turn that carries these answers, real ones first. */
  function ToolTurn(env: Env, a: Answers): seq<T.Message> {
    if a.grouped == [] && a.missing == [] then []
    else [T.Message(T.Tool, AnswerParts(env, a.grouped) + a.missing, None)]
  }

  // ------------------------------------------------------ the whole history

  /** Messages that leave no trace: empty ones, blank assistant turns, and persisted tool turns. */
  predicate Skipped(m: Message) {
    || m.parts == []
    || (m.role.Assistant? && ToolCalls(m.parts) == [] && ContentText(m.parts) == ""
        && ReasoningContent(m.parts).thinking == "")
    || m.role.Tool?
  }

  datatype Progress = Progress(history: seq<T.Message>, consumed: Counter)

  /** One more message of the history. */
  function Step(env: Env, results: Index, p: Progress, m: Message): Progress {
    if Skipped(m) then p else
    var history := p.history + ToAIMessage(env, m);
    if m.role.Assistant? then
      var a := AnswerAll(results, p.consumed, ToolCalls(m.parts));
      Progress(history + ToolTurn(env, a), a.consumed)
    else Progress(history, p.consumed)
  }

  function Steps(env: Env, results: Index, msgs: seq<Message>, n: nat): Progress
    requires n <= |msgs|
  {
    if n == 0 then Progress([], map[]) else Step(env, results, Steps(env, results, msgs, n - 1), msgs[n - 1])
  }

  function Assembled(env: Env, msgs: seq<Message>): seq<T.Message> {
    Steps(env, IndexOf(msgs, |msgs|), msgs, |msgs|).history
  }

  // ----------------------------------------------------------------- assembly

  method IndexResults(msgs: seq<Message>) returns (results: Index)
    ensures results == IndexOf(msgs, |msgs|)
  {
    results := map[];
    for i := 0 to |msgs|
      invariant results == IndexOf(msgs, i)
    {
      if msgs[i].role.Tool? {
        var trs := ToolResults(msgs[i].parts);
        ghost var before := results;
        for j := 0 to |trs|
          invariant results == AddResults(before, trs[..j])
        {
          assert trs[..j + 1][..j] == trs[..j];
          var tr := trs[j];
          results := results[tr.id := Lookup(results, tr.id) + [tr]];
        }
        assert trs[..|trs|] == trs;
      }
    }
  }

  /** Looks up an answer for each call of one turn. */
  method AnswerCalls(toolCalls: seq<ToolCall>, results: Index, consumed0: Counter)
    returns (grouped: seq<ToolResult>, missing: seq<T.Part>, consumed: Counter)
    ensures Answers(grouped, missing, consumed) == AnswerAll(results, consumed0, toolCalls)
  {
    grouped, missing, consumed := [], [], consumed0;
    for j := 0 to |toolCalls|
      invariant Answers(grouped, missing, consumed) == AnswerAll(results, consumed0, toolCalls[..j])
    {
      assert toolCalls[..j + 1][..j] == toolCalls[..j];
      var tc := toolCalls[j];
      var resultIndex := Consumed(consumed, tc.id);
      consumed := consumed[tc.id := resultIndex + 1];
      if resultIndex < |Lookup(results, tc.id)| {
        grouped := grouped + [Lookup(results, tc.id)[resultIndex]];
        continue;
      }
      missing := missing + [Synthetic(tc.id)];
    }
    assert toolCalls[..|toolCalls|] == toolCalls;
  }

  /** Emits the answers of one assistant turn, directly after it, and counts them as consumed. */
  method AppendToolResultsForAssistant(env: Env, history: seq<T.Message>, assistant: Message,
                                       results: Index, consumed0: Counter)
    returns (r: seq<T.Message>, consumed: Counter)
    ensures var a := AnswerAll(results, consumed0, ToolCalls(assistant.parts));
            r == history + ToolTurn(env, a) && consumed == a.consumed
  {
    var toolCalls := ToolCalls(assistant.parts);
    if |toolCalls| == 0 {
      return history, consumed0;
    }
    var grouped, missing;
    grouped, missing, consumed := AnswerCalls(toolCalls, results, consumed0);
    if |grouped| == 0 && |missing| == 0 {
      return history, consumed;
    }
    var toolMessages: seq<T.Message> := [];
    assert AnswerParts(env, []) + missing == missing;
    assert AnswerParts(env, grouped) + [] == AnswerParts(env, grouped);
    if |grouped| > 0 {
      toolMessages := [T.Message(T.Tool, AnswerParts(env, grouped), None)];
    }
    if |missing| > 0 {
      var n := |toolMessages|;
      if n > 0 {
        toolMessages := toolMessages[n - 1 := toolMessages[n - 1].(parts := toolMessages[n - 1].parts + missing)];
      } else {
        toolMessages := [T.Message(T.Tool, missing, None)];
      }
    }
    r := history + toolMessages;
  }

  /** Assembles the prompt of a persisted history. */
  method PreparePrompt(env: Env, persisted: seq<Message>) returns (history: seq<T.Message>)
    ensures history == Assembled(env, Trimmed(persisted))
  {
    var msgs := TrimCanceledPromptBranches(persisted);
    var results := IndexResults(msgs);
    var consumed: Counter := map[];
    history := [];
    for i := 0 to |msgs|
      invariant Progress(history, consumed) == Steps(env, results, msgs, i)
    {
      if Skipped(msgs[i]) {
        continue;
      }
      history := history + ToAIMessage(env, msgs[i]);
      if msgs[i].role.Assistant? {
        history, consumed := AppendToolResultsForAssistant(env, history, msgs[i], results, consumed);
      }
    }
  }
}
