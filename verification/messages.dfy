/** The conversation as the kernel retains it. Serialized JSON is kept as text, as the kernel does. */
module Messages {
  import opened Wrappers

  const U64_MAX: nat := 0xFFFF_FFFF_FFFF_FFFF

  datatype StopReason = Stop | ToolUse | Length | Aborted | Cancelled | Error

  datatype Usage = Usage(
    input: Option<nat>,
    output: Option<nat>,
    reasoning: Option<nat>,
    cacheRead: Option<nat>,
    cacheWrite: Option<nat>,
    cost: Option<string>)

  datatype ToolCall = ToolCall(id: string, name: string, arguments: string)

  datatype Disposition = CancelledByHost | InvalidArguments | Recoverable | Retryable | Fatal

  datatype ToolFailure = ToolFailure(disposition: Disposition, signature: Option<string>, guidance: Option<string>)

  datatype Message =
    | User(id: nat, content: string)
    | Assistant(
        id: nat,
        content: string,
        calls: seq<ToolCall>,
        stopReason: Option<StopReason>,
        errorMessage: Option<string>)
    | ToolResult(
        id: nat,
        callId: string,
        toolName: string,
        content: string,
        details: Option<string>,
        usage: Option<Usage>,
        addedToolNames: seq<string>,
        terminate: bool,
        isError: bool,
        failure: Option<ToolFailure>)
}
