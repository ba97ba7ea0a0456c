/** The chat-completion request that server.js and src/lib/openai.js send to
    the model, and the instruction both use as the system message. The
    service itself is not modelled: the handlers receive its reply as a
    value. */
module Completion {

  /** The system message of server.js (line 33), which src/lib/openai.js
      (line 20) repeats as its default. */
  const DefaultSystemPrompt: string :=
    "You are a helpful programming assistant. Respond with clean, well-formatted code based on the user's request. Include only the code without explanations unless specifically asked."

  const DefaultModel: string := "gpt-4"
  const DefaultMaxTokens: int := 2048
  const DefaultTemperature: real := 0.2

  datatype Message = Message(role: string, content: string)

  /** The request body: the model, a system and a user message, the
      sampling temperature and the token limit. */
  datatype Request = Request(model: string, messages: seq<Message>, temperature: real, maxTokens: int)

  /** A request that carries `systemPrompt` as its instruction and `prompt`
      as the user's message, in that order. */
  function Conversation(systemPrompt: string, prompt: string): (m: seq<Message>)
    ensures |m| == 2 && m[0].role == "system" && m[1].role == "user"
    ensures m[0].content == systemPrompt && m[1].content == prompt
  {
    [Message("system", systemPrompt), Message("user", prompt)]
  }
}
