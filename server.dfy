/** server.js, the POST /api/generate handler: it rejects a request without
    a prompt, sends the prompt to the model, and answers with the code and
    language extracted from the reply, or with an error when the call
    fails. */
module Server {
  import opened Text
  import opened Completion
  import opened CodeFence

  /** The JSON answer: the generated code and its language, or an error. */
  datatype Body = Generated(code: string, language: string) | Failure(error: string)

  datatype Response = Response(status: nat, body: Body)

  /** What one request leads to: the completion request sent to the model,
      if any, and the answer. */
  datatype Outcome = Outcome(sent: Option<Request>, response: Response)

  const FallbackLanguage: string := "javascript"

  /** A prompt that `!prompt` rejects: absent (None) or the empty string. */
  predicate MissingPrompt(prompt: Option<string>) {
    prompt.None? || prompt.value == ""
  }

  /** The request the handler sends for a prompt: fixed model, instruction,
      temperature and token limit. */
  function RequestFor(prompt: string): (q: Request)
    ensures q.model == DefaultModel && q.maxTokens == DefaultMaxTokens
    ensures q.messages == Conversation(DefaultSystemPrompt, prompt)
  {
    Request(DefaultModel, Conversation(DefaultSystemPrompt, prompt), DefaultTemperature, DefaultMaxTokens)
  }

  /** The handler. `prompt` is the body's `prompt` field; `complete` stands
      for the model: it maps the request to the reply's text, or to None
      when the call throws (including a reply without text). */
  function Handle(prompt: Option<string>, complete: Request -> Option<string>): (o: Outcome)
    ensures o.response.status == 400 <==> MissingPrompt(prompt)
    ensures o.sent.None? <==> MissingPrompt(prompt)
    ensures o.response.status == 200 <==> o.response.body.Generated?
    ensures o.response.status in {200, 400, 500}
  {
    if MissingPrompt(prompt) then
      Outcome(None, Response(400, Failure("Prompt is required")))
    else
      var q := RequestFor(prompt.value);
      match complete(q)
      case None => Outcome(Some(q), Response(500, Failure("Failed to generate code")))
      case Some(reply) =>
        var x := Extract(reply, FallbackLanguage);
        Outcome(Some(q), Response(200, Generated(x.code, x.language)))
  }

  /** A missing or empty prompt is answered with 400 and the model is not
      called. */
  lemma RejectsMissingPrompt(prompt: Option<string>, complete: Request -> Option<string>)
    requires MissingPrompt(prompt)
    ensures Handle(prompt, complete) == Outcome(None, Response(400, Failure("Prompt is required")))
  {
  }

  /** With a prompt, exactly one request goes to the model, carrying the
      prompt as the user's message, and the answer is a 200 with the
      extraction of the reply, or a 500 when there is no reply. */
  lemma AnswersFromReply(prompt: string, complete: Request -> Option<string>)
    requires prompt != ""
    ensures Handle(Some(prompt), complete).sent == Some(RequestFor(prompt))
    ensures complete(RequestFor(prompt)).None? ==>
      Handle(Some(prompt), complete).response == Response(500, Failure("Failed to generate code"))
    ensures complete(RequestFor(prompt)).Some? ==>
      var x := Extract(complete(RequestFor(prompt)).value, FallbackLanguage);
      Handle(Some(prompt), complete).response == Response(200, Generated(x.code, x.language))
  {
  }

  /** A reply without a fenced block is answered with the whole trimmed
      reply as JavaScript. */
  lemma PlainReply(prompt: string, complete: Request -> Option<string>, reply: string)
    requires prompt != "" && complete(RequestFor(prompt)) == Some(reply)
    requires forall p: nat, t: nat, r: nat, e: nat :: !IsFence(Trim(reply), p, t, r, e)
    ensures Handle(Some(prompt), complete).response == Response(200, Generated(Trim(reply), FallbackLanguage))
  {
    ExtractWithoutFence(reply, FallbackLanguage);
  }

  /** A reply with a fenced block is answered with the first block's body,
      trimmed, and its tag, or JavaScript when it has none. */
  lemma FencedReply(prompt: string, complete: Request -> Option<string>, reply: string,
                    p: nat, t: nat, r: nat, e: nat)
    requires prompt != "" && complete(RequestFor(prompt)) == Some(reply)
    requires IsFirstFence(Trim(reply), p, t, r, e)
    ensures r + 1 <= e <= |Trim(reply)|
    ensures Handle(Some(prompt), complete).response == Response(200, Generated(
      Trim(Trim(reply)[r + 1..e]), if t == p + 3 then FallbackLanguage else Trim(reply)[p + 3..t]))
  {
    ExtractWithFence(reply, FallbackLanguage, p, t, r, e);
  }

  /** Every successful answer carries trimmed code and either "javascript"
      or a tag of [a-zA-Z0-9_+-] characters. */
  lemma GeneratedShape(prompt: Option<string>, complete: Request -> Option<string>)
    requires Handle(prompt, complete).response.status == 200
    ensures var b := Handle(prompt, complete).response.body;
      Trimmed(b.code) && (b.language == FallbackLanguage || IsTag(b.language))
  {
    ExtractShape(complete(RequestFor(prompt.value)).value, FallbackLanguage);
  }
}
