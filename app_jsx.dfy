/** src/components/App.jsx with the state of its useCodeGeneration hook. The
    hook's generateCode posts the prompt and stores the reply's code and
    language as they are; handleGenerateCode then records a history entry
    from the `code` and `language` of the render it was created in, which
    are the values from before the generation. */
module AppJsx {
  import opened Text
  import opened History
  import App

  /** The hook's error when the caught error has an empty message. */
  const FallbackError: string := "An error occurred while generating code"

  /** A history entry of this component: no download link. */
  datatype Entry = Entry(
    id: int,
    prompt: string,
    code: string,
    language: Option<string>,
    timestamp: string)

  /** The error the hook stores for a failed request:
      `err.message || 'An error occurred while generating code'`. */
  function HookError(reply: App.Reply): (m: string)
    requires !reply.Data?
    ensures m != ""
    ensures reply.NotOk? ==> m == App.NotOkMessage
    ensures reply.Thrown? && reply.message != "" ==> m == reply.message
    ensures reply.Thrown? && reply.message == "" ==> m == FallbackError
  {
    assert |App.NotOkMessage| > 0 && |FallbackError| > 0;
    if reply.NotOk? then App.NotOkMessage else OrString(Some(reply.message), FallbackError)
  }

  /** The history after handleGenerateCode, as written: an entry is added
      when the `code` the handler saw is truthy, holding that code and
      language with the handler's prompt. */
  function Recorded(history: seq<Entry>, prompt: string, seenCode: Option<string>,
                    seenLanguage: Option<string>, now: int, timestamp: string): (r: seq<Entry>)
    ensures !Truthy(seenCode) ==> r == history
    ensures Truthy(seenCode) ==> |r| >= 1 && r[0] == Entry(now, prompt, seenCode.value, seenLanguage, timestamp)
    ensures Truthy(seenCode) ==> |r| == (if |history| < Capacity - 1 then |history| + 1 else Capacity)
    ensures Truthy(seenCode) ==> r[1..] == history[..|r| - 1]
  {
    if Truthy(seenCode) then Push(Entry(now, prompt, seenCode.value, seenLanguage, timestamp), history)
    else history
  }

  /** The history the comment "Add to history if successful" asks for: an
      entry for the code this generation returned, when it returned some. */
  function RecordedIntended(history: seq<Entry>, prompt: string, reply: App.Reply,
                            now: int, timestamp: string): (r: seq<Entry>)
    ensures !(reply.Data? && Truthy(reply.code)) ==> r == history
    ensures reply.Data? && Truthy(reply.code) ==>
      && |r| == (if |history| < Capacity - 1 then |history| + 1 else Capacity)
      && r[0].prompt == prompt && Some(r[0].code) == reply.code && r[0].language == reply.language
      && r[1..] == history[..|r| - 1]
  {
    if reply.Data? && Truthy(reply.code) then
      Push(Entry(now, prompt, reply.code.value, reply.language, timestamp), history)
    else history
  }

  /** As written, the first generation of a session is never recorded, even
      when it returns code: the handler still sees the initial empty code. */
  lemma FirstGenerationLost(prompt: string, now: int, timestamp: string)
    ensures Recorded([], prompt, Some(""), Some(App.DefaultLanguage), now, timestamp) == []
    ensures RecordedIntended([], prompt, App.Data(Some("a {}"), Some("css"), None), now, timestamp)
      == [Entry(now, prompt, "a {}", Some("css"), timestamp)]
  {
  }

  /** As written, a later entry pairs the new prompt with the code of the
      generation before it. */
  lemma EntryPairsPromptWithPreviousCode(history: seq<Entry>, prompt: string, previous: string,
                                         generated: string, now: int, timestamp: string)
    requires previous != "" && generated != "" && previous != generated
    ensures Recorded(history, prompt, Some(previous), Some("css"), now, timestamp)[0].code == previous
    ensures RecordedIntended(history, prompt, App.Data(Some(generated), Some("css"), None), now, timestamp)[0].code
      == generated
  {
  }

  /** The two agree when the handler happens to see the values the
      generation returned, as when the same code comes back twice in a
      row. */
  lemma RecordedAgreesOnRepeat(history: seq<Entry>, prompt: string, code: Option<string>,
                               language: Option<string>, now: int, timestamp: string)
    ensures Recorded(history, prompt, code, language, now, timestamp)
      == RecordedIntended(history, prompt, App.Data(code, language, None), now, timestamp)
  {
  }

  class AppJsx {
    // The useCodeGeneration hook's state.
    var code: Option<string>
    var language: Option<string>
    var isLoading: bool
    var error: Option<string>
    // The component's own state.
    var history: seq<Entry>
    var activeTab: App.Tab

    constructor(savedHistory: seq<Entry>)
      ensures code == Some("") && language == Some(App.DefaultLanguage)
      ensures !isLoading && error.None?
      ensures history == savedHistory && activeTab == App.Generate
    {
      code := Some("");
      language := Some(App.DefaultLanguage);
      isLoading := false;
      error := None;
      history := savedHistory;
      activeTab := App.Generate;
    }

    /** The hook's generateCode: the reply's code and language are stored
        as they are, even when absent; a failure keeps them and stores the
        error. */
    method Generate(reply: App.Reply)
      modifies this
      ensures !isLoading
      ensures reply.Data? ==> code == reply.code && language == reply.language && error.None?
      ensures !reply.Data? ==> code == old(code) && language == old(language) && error == Some(HookError(reply))
      ensures history == old(history) && activeTab == old(activeTab)
    {
      isLoading := true;
      error := None;
      if reply.Data? {
        code := reply.code;
        language := reply.language;
      } else {
        error := Some(HookError(reply));
      }
      isLoading := false;
    }

    /** handleGenerateCode: generate, then record from the `code` and
        `language` read before the generation. */
    method HandleGenerateCode(prompt: string, reply: App.Reply, now: int, timestamp: string)
      modifies this
      ensures history == Recorded(old(history), prompt, old(code), old(language), now, timestamp)
      ensures reply.Data? ==> code == reply.code && language == reply.language && error.None?
      ensures !reply.Data? ==> code == old(code) && language == old(language) && error == Some(HookError(reply))
      ensures !isLoading && activeTab == old(activeTab)
    {
      var seenCode, seenLanguage := code, language;
      Generate(reply);
      if Truthy(seenCode) {
        history := Push(Entry(now, prompt, seenCode.value, seenLanguage, timestamp), history);
      }
    }

    /** handleGenerateCode as its comment intends: the entry is made from
        what this generation returned. */
    method HandleGenerateCodeIntended(prompt: string, reply: App.Reply, now: int, timestamp: string)
      modifies this
      ensures history == RecordedIntended(old(history), prompt, reply, now, timestamp)
      ensures reply.Data? ==> code == reply.code && language == reply.language && error.None?
      ensures !reply.Data? ==> code == old(code) && language == old(language) && error == Some(HookError(reply))
      ensures !isLoading && activeTab == old(activeTab)
    {
      Generate(reply);
      if reply.Data? && Truthy(code) {
        history := Push(Entry(now, prompt, code.value, language, timestamp), history);
      }
    }

    /** handleSelectHistoryItem: the generate tab, and a new generation from
        the entry's prompt; the history is not touched. Returns the prompt
        posted. */
    method HandleSelectHistoryItem(item: Entry, reply: App.Reply) returns (sent: string)
      modifies this
      ensures sent == item.prompt && activeTab == App.Generate
      ensures history == old(history) && !isLoading
      ensures reply.Data? ==> code == reply.code && language == reply.language && error.None?
      ensures !reply.Data? ==> code == old(code) && language == old(language) && error == Some(HookError(reply))
    {
      activeTab := App.Generate;
      sent := item.prompt;
      Generate(reply);
    }
  }
}
