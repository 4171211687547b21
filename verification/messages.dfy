/**
 * The message shapes the agent exchanges with the inference client
 * (the SDK's content blocks and message params) and the tool registry
 * entry (tools.ToolDefinition).
 */
module Messages {
  import opened Wrappers

  /** One content block of a message. */
  datatype Block =
    | Text(text: string)
    | ToolUse(id: string, name: string, input: string)
    | ToolResult(toolUseId: string, content: string, isError: bool)
      /** Any block type the agent loop does not act upon. */
    | OtherBlock(kind: string)

  datatype Role = User | Assistant

  datatype Message = Message(role: Role, content: seq<Block>)

  /**
   * A registered tool. `invoke` (the source's Function field) is the tool's behaviour on its raw JSON
   * input: a response string, or the message of the error it returns.
   */
  datatype ToolDefinition = ToolDefinition(
    name: string,
    description: string,
    inputSchema: string,
    invoke: string -> Result<string, string>)

  /** The user message built from one line of user input. */
  function UserInput(line: string): Message {
    Message(User, [Text(line)])
  }

  predicate IsUserInput(m: Message) {
    m.role == User && |m.content| == 1 && m.content[0].Text?
  }
}
