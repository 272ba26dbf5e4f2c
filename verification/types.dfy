/** The normalized message model shared by the client and the provider adapters. */
module Types {
  import opened Json

  const SIZE_MAX: int := 0xFFFF_FFFF_FFFF_FFFF

  /** A machine word: every arithmetic result of this type has to be shown in range. */
  type size = n: int | 0 <= n <= SIZE_MAX

  datatype Role = SystemRole | UserRole | AssistantRole | ToolRole

  /** Text and provider extensions are kept; media parts are opaque. */
  datatype Content =
    | Text(value: string)
    | Extension(provider: string, data: Json)
    | Media(kind: string, payload: Json)

  datatype ToolCall = ToolCall(
    id: string, name: string, arguments: Json, rawArguments: string, argumentsValid: bool, metadata: Json)

  datatype Message = Message(
    role: Role, contents: seq<Content>, calls: seq<ToolCall>,
    callId: string, toolName: string, isError: bool, metadata: Json)

  datatype TokenUsage = TokenUsage(
    input: Option<size>, output: Option<size>, total: Option<size>,
    cachedInput: Option<size>, cacheCreation: Option<size>, reasoning: Option<size>)

  const NO_USAGE := TokenUsage(None, None, None, None, None, None)

  datatype FinishReason =
    StopReason | ToolCallsReason | LengthReason | ContentFilterReason | RefusalReason | ErrorReason | UnknownReason

  datatype Response = Response(
    message: Message, finish: FinishReason, usage: TokenUsage, requiresContinuation: bool,
    modelRounds: nat, toolCalls: nat)

  /** The exceptions a generation can end with. `Thrown` is whatever the provider
      round itself throws. */
  datatype Failure =
    | InvalidArgument(what: string)
    | SessionInUse
    | Thrown(what: string)
    | WrongRole
    | ToolCallLimit
    | MissingIdOrName
    | DuplicateCallId(id: string)
    | UsageOverflow
    | MaxRounds

  const EMPTY_OBJECT := Obj(map[])

  function AssistantMessage(contents: seq<Content>, calls: seq<ToolCall>, metadata: Json): (message: Message)
  {
    Message(AssistantRole, contents, calls, "", "", false, metadata)
  }

  /** A tool result refuses an empty call id and an empty tool name. */
  function ToolMessage(id: string, name: string, contents: seq<Content>, isError: bool, metadata: Json)
    : (made: Result<Message, Failure>)
    ensures made.Ok? <==> id != [] && name != []
    ensures made.Ok? ==> made.value.role == ToolRole && made.value.callId == id && made.value.toolName == name
  {
    if id == [] then Err(InvalidArgument("tool call id must not be empty"))
    else if name == [] then Err(InvalidArgument("tool name must not be empty"))
    else Ok(Message(ToolRole, contents, [], id, name, isError, metadata))
  }
}
