/** Messages as the session store keeps them. */
module Persisted {
  import opened Common
  import T = Transcript

  type Role = T.Role
  type Id = T.Id

  datatype ToolCall = ToolCall(id: Id, name: string, input: string, providerExecuted: bool)

  datatype ToolResult = ToolResult(id: Id, name: string, content: string, data: string, mime: string, isError: bool)

  datatype Binary = Binary(path: string, mime: string, data: string)

  /** A reasoning block; `signed` stands for any provider metadata it carries. */
  datatype Reasoning = Reasoning(thinking: string, signed: bool)

  datatype Part =
    | TextPart(text: string)
    | ReasoningPart(reasoning: Reasoning)
    | BinaryPart(binary: Binary)
    | CallPart(call: ToolCall)
    | ResultPart(result: ToolResult)
    | FinishPart(reason: string)

  datatype Message = Message(role: Role, parts: seq<Part>, summary: bool)

  /** The first text part, or the empty text. */
  function ContentText(parts: seq<Part>): string {
    if parts == [] then ""
    else if parts[0].TextPart? then parts[0].text
    else ContentText(parts[1..])
  }

  /** The first reasoning part, or an empty one. */
  function ReasoningContent(parts: seq<Part>): Reasoning {
    if parts == [] then Reasoning("", false)
    else if parts[0].ReasoningPart? then parts[0].reasoning
    else ReasoningContent(parts[1..])
  }

  /** The reason of the first finish part; empty when the turn never finished. */
  function FinishReason(parts: seq<Part>): string {
    if parts == [] then ""
    else if parts[0].FinishPart? then parts[0].reason
    else FinishReason(parts[1..])
  }

  function ToolCalls(parts: seq<Part>): seq<ToolCall> {
    if parts == [] then []
    else (if parts[0].CallPart? then [parts[0].call] else []) + ToolCalls(parts[1..])
  }

  function ToolResults(parts: seq<Part>): seq<ToolResult> {
    if parts == [] then []
    else (if parts[0].ResultPart? then [parts[0].result] else []) + ToolResults(parts[1..])
  }

  function Binaries(parts: seq<Part>): seq<Binary> {
    if parts == [] then []
    else (if parts[0].BinaryPart? then [parts[0].binary] else []) + Binaries(parts[1..])
  }
}
