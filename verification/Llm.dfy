/** What the chat model's interface has in common for the agent's history, the stored file and
    the streamed completion. */
module Llm {
  datatype ToolCall = ToolCall(id: string, name: string, arguments: string)
}
