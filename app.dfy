/** public/App.js: the browser app's code generation. generateCode sends
    the prompt (with the project id, when there is one), shows the code the
    server returns or the default CSS, and records a history entry; a failed
    request shows the sample CSS and records nothing. Selecting a history
    entry puts its prompt, code, language and download link back. */
module App {
  import opened Text
  import opened History

  /** The CSS shown when a reply holds no code. */
  const DefaultCss: string :=
    "body {\n  background-color: #f0f0f0;\n  color: #333;\n  font-family: Arial, sans-serif;\n}"

  /** The CSS shown after a failed request. */
  const SampleCss: string := "/* Error occurred, but here is sample CSS */\n" + DefaultCss

  /** The error a response that is not ok is turned into. */
  const NotOkMessage: string := "Failed to generate code"

  /** The language state starts at, and the one an entry records when the
      reply names none. */
  const DefaultLanguage: string := "css"

  /** The two tabs. */
  datatype Tab = Generate | HistoryTab

  /** A history entry. `id` and `timestamp` come from the clock. */
  datatype Entry = Entry(
    id: int,
    prompt: string,
    code: string,
    language: string,
    timestamp: string,
    downloadUrl: Option<string>)

  /** What the fetch of /api/generate ends in: a response that is not ok,
      an exception with its message, or the reply's fields (absent as
      None). */
  datatype Reply =
    | NotOk
    | Thrown(message: string)
    | Data(code: Option<string>, language: Option<string>, downloadUrl: Option<string>)

  /** The body posted to /api/generate. */
  datatype GenerateRequest = GenerateRequest(prompt: string, projectId: Option<string>)

  /** The message `err.message` holds in the catch block. */
  function ErrorMessage(reply: Reply): (m: string)
    requires !reply.Data?
    ensures reply.NotOk? ==> m == NotOkMessage
    ensures reply.Thrown? ==> m == reply.message
  {
    if reply.NotOk? then NotOkMessage else reply.message
  }

  /** The entry a reply is recorded as. */
  function NewEntry(now: int, prompt: string, reply: Reply, timestamp: string): (e: Entry)
    requires reply.Data?
    ensures e.id == now && e.prompt == prompt && e.timestamp == timestamp
    ensures e.downloadUrl == reply.downloadUrl
    ensures Truthy(reply.code) ==> e.code == reply.code.value
    ensures !Truthy(reply.code) ==> e.code == DefaultCss
    ensures Truthy(reply.language) ==> e.language == reply.language.value
    ensures !Truthy(reply.language) ==> e.language == DefaultLanguage
  {
    Entry(now, prompt, OrString(reply.code, DefaultCss), OrString(reply.language, DefaultLanguage),
      timestamp, reply.downloadUrl)
  }

  /** A recorded entry always has code and a language to show. */
  lemma NewEntryNotEmpty(now: int, prompt: string, reply: Reply, timestamp: string)
    requires reply.Data?
    ensures NewEntry(now, prompt, reply, timestamp).code != ""
    ensures NewEntry(now, prompt, reply, timestamp).language != ""
  {
    assert |DefaultCss| > 0;
    assert |DefaultLanguage| > 0;
  }

  class App {
    var prompt: string
    var generatedCode: string
    var language: string
    var isLoading: bool
    var error: Option<string>
    var downloadUrl: Option<string>
    var history: seq<Entry>
    var activeTab: Tab

    /** The initial state; `savedHistory` is what local storage held. */
    constructor(savedHistory: seq<Entry>)
      ensures prompt == "" && generatedCode == "" && language == DefaultLanguage
      ensures !isLoading && error.None? && downloadUrl.None?
      ensures history == savedHistory && activeTab == Generate
    {
      prompt := "";
      generatedCode := "";
      language := DefaultLanguage;
      isLoading := false;
      error := None;
      downloadUrl := None;
      history := savedHistory;
      activeTab := Generate;
    }

    /** The prompt text area. */
    method SetPrompt(text: string)
      modifies this
      ensures prompt == text
      ensures generatedCode == old(generatedCode) && language == old(language)
      ensures history == old(history) && error == old(error)
      ensures isLoading == old(isLoading) && downloadUrl == old(downloadUrl) && activeTab == old(activeTab)
    {
      prompt := text;
    }

    /** generateCode: nothing happens for a blank prompt; otherwise the
        request is sent with `projectId` and the reply handled. */
    method GenerateCode(projectId: Option<string>, reply: Reply, now: int, timestamp: string)
      returns (sent: Option<GenerateRequest>)
      modifies this
      ensures sent.None? <==> Trim(old(prompt)) == []
      ensures sent.None? ==>
        && generatedCode == old(generatedCode) && error == old(error)
        && history == old(history) && isLoading == old(isLoading)
        && language == old(language) && downloadUrl == old(downloadUrl)
      ensures sent.Some? ==> sent.value == GenerateRequest(old(prompt), projectId) && !isLoading
      ensures sent.Some? && !reply.Data? ==>
        && error == Some(ErrorMessage(reply))
        && generatedCode == SampleCss && history == old(history)
        && language == old(language) && downloadUrl == old(downloadUrl)
      ensures sent.Some? && reply.Data? ==>
        && error.None?
        && generatedCode == OrString(reply.code, DefaultCss)
        && history == Push(NewEntry(now, old(prompt), reply, timestamp), old(history))
        && language == (if Truthy(reply.language) then reply.language.value else old(language))
        && downloadUrl == (if Truthy(reply.downloadUrl) then reply.downloadUrl else old(downloadUrl))
      ensures prompt == old(prompt) && activeTab == old(activeTab)
    {
      if Trim(prompt) == [] {
        return None;
      }
      isLoading := true;
      error := None;
      sent := Some(GenerateRequest(prompt, projectId));
      match reply {
        case NotOk =>
          error := Some(NotOkMessage);
          generatedCode := SampleCss;
        case Thrown(message) =>
          error := Some(message);
          generatedCode := SampleCss;
        case Data(code, lang, url) =>
          generatedCode := OrString(code, DefaultCss);
          if Truthy(url) {
            downloadUrl := url;
          }
          if Truthy(lang) {
            language := lang.value;
          }
          history := Push(NewEntry(now, prompt, reply, timestamp), history);
      }
      isLoading := false;
    }

    /** handleSelectHistoryItem: back to the generate tab with the entry's
        prompt, code, language and download link. */
    method HandleSelectHistoryItem(item: Entry)
      modifies this
      ensures activeTab == Generate
      ensures prompt == item.prompt && generatedCode == item.code
      ensures language == item.language && downloadUrl == item.downloadUrl
      ensures history == old(history) && error == old(error) && isLoading == old(isLoading)
    {
      activeTab := Generate;
      prompt := item.prompt;
      generatedCode := item.code;
      language := item.language;
      downloadUrl := item.downloadUrl;
    }
  }
}
