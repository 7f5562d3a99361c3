/** The agent protocol's values, as far as the gateway inspects them. */
module A2A {
  import opened Prelude
  import opened Base64

  datatype TaskState =
    | Submitted | Working | Completed | Failed | Canceled
    | InputRequired | AuthRequired | Rejected
    | OtherState(name: string)

  /** `Data` holds the text that marshalling its JSON value gives; `Unsupported` is any other content. */
  datatype Part = Text(text: string) | Data(json: string) | Url(url: string) | Raw(bytes: seq<byte>) | Unsupported

  /** A nil part is None. */
  type Parts = seq<Option<Part>>

  datatype Message = Message(contextId: string, parts: Parts)

  datatype Status = Status(state: TaskState, message: Option<Message>)

  datatype Artifact = Artifact(parts: Parts)

  datatype Task = Task(id: string, contextId: string, status: Status, artifacts: seq<Option<Artifact>>)

  datatype Skill = Skill(tags: seq<string>)

  /** An agent's card; `streaming` is the capability it declares, and `rest` what the gateway only hands on. */
  datatype Card = Card(name: string, description: string, skills: seq<Skill>, streaming: bool, rest: string)

  /** What a tool hands back to its caller; at most one of the alternatives of SendMessageOutput is set. */
  datatype Output = TaskOutput(task: Task) | MessageOutput(message: Message)

  datatype AgentError = AuthError | DeadlineError | CancelError | OtherError(text: string)

  /** What sending a message comes back with. */
  datatype Reply =
    | SendFailed(error: AgentError) | TaskReply(task: Task) | MessageReply(message: Message) | UnrecognizedReply

  datatype StreamError =
    | StreamTimeout | ConnectionTimeout
    | Interrupted(cause: AgentError) | ConnectionFailed(cause: AgentError)
    | NoTerminalEvent

  /** Why a broadcast got no usable answer from an agent. */
  datatype Reason =
    | NotRegistered | RateLimited | NoClient(error: AgentError) | BadParts
    | NoAnswer(error: AgentError) | BrokenStream(how: StreamError)
    | TaskFailed(text: string) | TaskCanceled | TaskUnfinished(state: TaskState) | UnrecognizedFormat

  /** The error noted with a background result. */
  datatype Trouble =
    | NoTrouble | SendTrouble(error: AgentError) | PollDeadline | PollAborted | PollRefused(error: AgentError)
    | BroadcastTrouble(reason: Reason)
}
