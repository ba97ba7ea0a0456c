/** src/lib/openai.js, generateCode(prompt, options): it fills the request
    from the options, with `||` defaults, and extracts code and language
    from the reply exactly as server.js does, except that the language to
    fall back on comes from the options. Every failure becomes one error. */
module OpenAiClient {
  import opened Text
  import opened Completion
  import opened CodeFence
  import Server

  /** The options object. An absent field is None; the temperature is an
      exact decimal. */
  datatype Options = Options(
    model: Option<string>,
    systemPrompt: Option<string>,
    temperature: Option<real>,
    maxTokens: Option<int>,
    language: Option<string>)

  const NoOptions: Options := Options(None, None, None, None, None)

  datatype Result<T> = Success(value: T) | Failure(error: string)

  /** `value || fallback` for a numeric field: absent and 0 are falsy. */
  function OrInt(value: Option<int>, fallback: int): (r: int)
    ensures value.Some? && value.value != 0 ==> r == value.value
    ensures value.None? || value.value == 0 ==> r == fallback
  {
    if value.Some? && value.value != 0 then value.value else fallback
  }

  function OrReal(value: Option<real>, fallback: real): (r: real)
    ensures value.Some? && value.value != 0.0 ==> r == value.value
    ensures value.None? || value.value == 0.0 ==> r == fallback
  {
    if value.Some? && value.value != 0.0 then value.value else fallback
  }

  /** The request generateCode sends. */
  function RequestFor(prompt: string, options: Options): (q: Request)
    ensures q.model != "" && q.temperature != 0.0 && q.maxTokens != 0
    ensures |q.messages| == 2 && q.messages[0].role == "system" && q.messages[0].content != ""
    ensures q.messages[1] == Message("user", prompt)
  {
    Request(
      OrString(options.model, DefaultModel),
      Conversation(OrString(options.systemPrompt, DefaultSystemPrompt), prompt),
      OrReal(options.temperature, DefaultTemperature),
      OrInt(options.maxTokens, DefaultMaxTokens))
  }

  /** The language used when the reply has no tag. */
  function FallbackLanguage(options: Options): string {
    OrString(options.language, Server.FallbackLanguage)
  }

  /** generateCode: `complete` stands for the model, as in the server. */
  function GenerateCode(prompt: string, options: Options, complete: Request -> Option<string>): (r: Result<Extracted>)
    ensures r.Failure? <==> complete(RequestFor(prompt, options)).None?
    ensures r.Failure? ==> r.error == "Failed to generate code"
  {
    match complete(RequestFor(prompt, options))
    case None => Failure("Failed to generate code")
    case Some(reply) => Success(Extract(reply, FallbackLanguage(options)))
  }

  /** Without options, and with options whose fields are all falsy, the
      request is the server's: model "gpt-4", the default instruction,
      temperature 0.2 and 2048 tokens. */
  lemma FalsyOptionsGiveDefaults(prompt: string, options: Options)
    requires options.model.None? || options.model == Some("")
    requires options.systemPrompt.None? || options.systemPrompt == Some("")
    requires options.temperature.None? || options.temperature == Some(0.0)
    requires options.maxTokens.None? || options.maxTokens == Some(0)
    ensures RequestFor(prompt, options) == Server.RequestFor(prompt)
  {
  }

  /** Each truthy option is used as given. */
  lemma TruthyOptionsUsed(prompt: string, options: Options)
    ensures options.model.Some? && options.model.value != "" ==>
      RequestFor(prompt, options).model == options.model.value
    ensures options.systemPrompt.Some? && options.systemPrompt.value != "" ==>
      RequestFor(prompt, options).messages[0].content == options.systemPrompt.value
    ensures options.maxTokens.Some? && options.maxTokens.value != 0 ==>
      RequestFor(prompt, options).maxTokens == options.maxTokens.value
    ensures RequestFor(prompt, options).messages[1] == Message("user", prompt)
  {
  }

  /** The language falls back to `options.language` when it is truthy and
      to "javascript" otherwise; a reply without a fenced block gives the
      trimmed reply in that language. */
  lemma PlainReply(prompt: string, options: Options, complete: Request -> Option<string>, reply: string)
    requires complete(RequestFor(prompt, options)) == Some(reply)
    requires forall p: nat, t: nat, r: nat, e: nat :: !IsFence(Trim(reply), p, t, r, e)
    ensures GenerateCode(prompt, options, complete) ==
      Success(Extracted(Trim(reply), OrString(options.language, "javascript")))
  {
    ExtractWithoutFence(reply, FallbackLanguage(options));
  }

  /** With a fenced block, the first block's body is returned trimmed; its
      tag overrides the fallback language and a block without a tag keeps
      it. */
  lemma FencedReply(prompt: string, options: Options, complete: Request -> Option<string>, reply: string,
                    p: nat, t: nat, r: nat, e: nat)
    requires complete(RequestFor(prompt, options)) == Some(reply)
    requires IsFirstFence(Trim(reply), p, t, r, e)
    ensures r + 1 <= e <= |Trim(reply)|
    ensures GenerateCode(prompt, options, complete).Success?
    ensures GenerateCode(prompt, options, complete).value.code == Trim(Trim(reply)[r + 1..e])
    ensures GenerateCode(prompt, options, complete).value.language ==
      if t == p + 3 then OrString(options.language, "javascript") else Trim(reply)[p + 3..t]
  {
    ExtractWithFence(reply, FallbackLanguage(options), p, t, r, e);
  }

  /** Called without options, generateCode returns what the server would
      answer for the same prompt and the same reply. */
  lemma AgreesWithServer(prompt: string, complete: Request -> Option<string>)
    requires prompt != ""
    ensures var r := GenerateCode(prompt, NoOptions, complete);
      var o := Server.Handle(Some(prompt), complete);
      (r.Failure? <==> o.response.status == 500) &&
      (r.Success? ==> o.response.body == Server.Generated(r.value.code, r.value.language))
  {
    FalsyOptionsGiveDefaults(prompt, NoOptions);
  }
}
