# AutoCSS core, modelled in Dafny

AutoCSS generates CSS and code with a language model, previews a website at
device sizes and generates mobile CSS for it. This project models the parts
of the repository that are plain data logic, once the network replies are
given as values:

- **`extractCSSProperties`** (lib/utils.js). The `regex.exec` loop that
  collects `name: value;` declarations into an object (`CssProperties`,
  css_properties.dfy).
- **The `/api/generate` handler** (server.js) and **`generateCode`** in
  src/lib/openai.js. Both check the prompt or fill in option defaults, trim
  the model's reply and take the first fenced code block as the code and
  its tag as the language. The shared request is in `Completion`
  (completion.dfy). The fenced-block extractor is in `CodeFence`
  (code_fence.dfy); it reproduces the regular expression's leftmost,
  greedy and lazy choices. The handler and the client are in `Server` and
  `OpenAiClient`.
- **The mobile CSS generator** (public/MobileCSSGenerator.js). This covers
  `analyzeCss`, the target-device filter, the request it sends and the
  component's state changes (`MobileCss`, mobile_css.dfy). Global regex
  counts are modelled as the search that resumes after each match.
- **The device table** (public/DevicePresets.js): lookup by name with its
  default, the viewport meta content and the media query text
  (`DevicePresets`).
- **The two responsive previews** (public/ResponsivePreview.js and
  src/components/ResponsivePreview.jsx). This covers the iframe size, the
  device class, the optimisation verdict and the handlers, as classes whose
  fields are the components' state (`Preview`, `PreviewJsx`).
- **The two App components** (public/App.js, and src/components/App.jsx
  with its hook src/hooks/useCodeGeneration.js). This covers the
  generation state changes and the ten-entry history (`App`, `AppJsx`,
  `History`).

`Text` (text.dfy) holds the JavaScript primitives the rest relies on:
`trim` and the white space of `\s`, `includes`, decimal printing,
`parseInt`, and `||` on strings.

The model's conventions:
- A React state hook becomes a field of a class, and an event handler
  becomes a method that states the whole new state.
- The model's reply, the `fetch` outcome, the clock and what the iframe's
  document shows are parameters of the methods and functions that use them.

## Model

| member | source | states |
|---|---|---|
| Text.LeadingSpace | public/ResponsivePreview.js:53 | the white space `parseInt` skips before the number: all white space, and followed by a non-space |
| Text.SpaceEnd | public/MobileCSSGenerator.js:103 | where a greedy `\s*` starting at `i` stops: white space up to it, a non-space or the end at it |
| Text.SpaceRunEnds | public/MobileCSSGenerator.js:103 | a run of white space followed by a non-space (or the end) is exactly what `\s*` takes |
| Text.Trim | server.js:42 | `trim` gives a string no longer than the input that neither starts nor ends with white space |
| Text.TrimIsSlice | server.js:42 | the trimmed string is a contiguous slice of the input with only white space before and after it |
| Text.TrimEmpty | public/App.js:127 | `!prompt.trim()` holds exactly when the prompt is all white space |
| Text.TrimHasNo | lib/utils.js:65 | trimming adds no character: one absent from the input is absent from the result |
| Text.TrimOfTrimmed | server.js:54 | trimming an already trimmed string changes nothing |
| Text.TrimOfPadded | server.js:42 | trim removes exactly the white space around a trimmed core |
| Text.TrimIdempotent | server.js:42 | trimming twice is trimming once |
| Text.OrString | public/App.js:149 | `value \|\| fallback` on a string: the fallback when the value is absent or empty, the value otherwise |
| Text.Find | src/lib/openai.js:43 | the leftmost occurrence of a pattern at or after an index, or none anywhere after it |
| Text.Includes | public/MobileCSSGenerator.js:200 | `includes` answers exactly whether the pattern occurs somewhere in the string |
| Text.DecimalString | public/DevicePresets.js:133 | a number printed in a template string: digits only, no leading zero, denoting the number |
| Text.NumberString | public/DevicePresets.js:133 | an integer as a template string writes it: never empty, and starting with '-' exactly when the number is negative |
| Text.DigitRun | public/ResponsivePreview.js:53 | the longest prefix of digits `parseInt` reads: all digits, and the next character is not one |
| Text.ParseInt | public/ResponsivePreview.js:53 | `parseInt` gives NaN for empty text and for text whose first character is not white space, a sign or a digit; a leading digit (without a "0x" prefix in the one-argument call) gives a non-negative number |
| Text.ParseIntOr | public/ResponsivePreview.js:53 | `parseInt(v) \|\| fallback`: the parsed number when it is neither NaN nor 0, the fallback otherwise |
| Text.ParseIntOrExamples | public/ResponsivePreview.js:53 | a typed positive number is taken; "0" and an empty field give the fallback |
| Text.ParseDecimalString | src/components/ResponsivePreview.jsx:33 | `parseInt` reads back every number the decimal printer writes |
| Text.ParseNumberString | public/DevicePresets.js:133 | `parseInt` reads back every integer a template string writes, sign included, so the printed text denotes the number |
| Text.ParseIntStopsAtNonDigit | src/components/ResponsivePreview.jsx:33 | `parseInt` stops at the first character that is not a digit and returns the digits' value |
| CssProperties.NameEnd | lib/utils.js:61 | the greedy `[a-zA-Z-]+` run from an index: name characters up to it, none at it |
| CssProperties.NextSemicolon | lib/utils.js:61 | the first `;` at or after an index, or none after it; `[^;]+;` ends there |
| CssProperties.MatchAt | lib/utils.js:61 | a match attempted at index `i` starts at `i` and ends inside the text |
| CssProperties.MatchAtIsMatch | lib/utils.js:61 | what is found at an index is a match of `([a-zA-Z-]+)\s*:\s*([^;]+);`: a name, only white space up to ':', at least one character without ';', then ';' |
| CssProperties.MatchAtComplete | lib/utils.js:61 | every match of the pattern starting at an index is the one found there, so the pattern matches at `i` exactly when something is found at `i` |
| CssProperties.PiecesFormMatch | lib/utils.js:61 | a name run, white space, a colon, a non-empty run without `;` and a `;` form a match |
| CssProperties.FirstMatch | lib/utils.js:64 | `exec` from a cursor returns a match starting at or after the cursor |
| CssProperties.FirstMatchIsLeftmost | lib/utils.js:64 | the match `exec` returns is a match of the pattern, and no match of the pattern starts between the cursor and it |
| CssProperties.NoMatchAfter | lib/utils.js:64 | when `exec` returns null, no match of the pattern starts at or after the cursor |
| CssProperties.Exec | lib/utils.js:64 | the scanning loop of one `exec` call returns exactly the leftmost match after `lastIndex` |
| CssProperties.FirstMatchAfterMisses | lib/utils.js:64 | indices where the pattern does not match can be skipped without changing what `exec` finds |
| CssProperties.ExtractCssProperties | lib/utils.js:59-69 | the cursor loop builds exactly the object of writing every match in order, name to trimmed value |
| CssProperties.MatchesOrdered | lib/utils.js:64 | matches are found left to right and do not overlap: each starts at or after the previous one's end |
| CssProperties.MatchesAreMatches | lib/utils.js:61-64 | every match the loop sees is a match of the pattern in the sense above |
| CssProperties.MatchHoldsOneSemicolon | lib/utils.js:61-64 | a match holds exactly one `;`, its last character, so each `;` ends at most one declaration |
| CssProperties.SemicolonOfMatch | lib/utils.js:61 | within any match of the pattern, the only `;` is the final one |
| CssProperties.NoSemicolonNoProperties | lib/utils.js:61-68 | text without `;` yields the empty object |
| CssProperties.NoSemicolonAfter | lib/utils.js:61-64 | once no `;` follows the cursor, `exec` finds nothing more |
| CssProperties.RecordKeys | lib/utils.js:65 | writing matches adds exactly their names to the object's keys |
| CssProperties.PropertiesKeys | lib/utils.js:60-65 | the object's keys are exactly the matched names, nothing else |
| CssProperties.PropertiesKeysAreNames | lib/utils.js:61-65 | every key is a non-empty run of ASCII letters and `-`, as written |
| CssProperties.PropertiesValuesTrimmed | lib/utils.js:61-65 | every value is trimmed and contains no `;` |
| CssProperties.CaptureHasNoSemicolon | lib/utils.js:61 | the value group `[^;]+` never holds a `;` |
| CssProperties.ValuesFromMatches | lib/utils.js:65 | every value in the object is the trimmed value of some match with that name |
| CssProperties.RecordLastWins | lib/utils.js:64-65 | the last write to a name decides its value |
| CssProperties.RecordUntouched | lib/utils.js:65 | a name no match writes keeps its presence and value |
| CssProperties.LastOccurrenceWins | lib/utils.js:64-65 | for a repeated property name, the object holds the value of its last occurrence |
| Completion.Conversation | server.js:30-36 | the messages are the instruction as "system" followed by the prompt as "user" |
| CodeFence.OpenAt | server.js:49 | backtracking `\s*`: the last newline from which the lazy body reaches a closing fence, and that first fence |
| CodeFence.FenceAt | server.js:49 | a match attempted at `p` starts at `p`, with the tag before the opening newline and a body of at least one character |
| CodeFence.FenceAtSound | server.js:49 | what is found at `p` is a match of the pattern, and its tag is a non-empty run of `[a-zA-Z0-9_+-]` |
| CodeFence.FenceAtComplete | server.js:49 | every match at `p` is found, and the one chosen has the last usable newline and then the first closing fence |
| CodeFence.FirstFence | server.js:50 | `match` reports the leftmost index where the pattern matches, and no match before it |
| CodeFence.FirstFenceIs | server.js:49-50 | the regular expression's choice among all matches (leftmost start, last newline, first close) is what FirstFence finds |
| CodeFence.Extract | server.js:42-55 | the code both handlers return is trimmed and never longer than the reply |
| CodeFence.ExtractWithoutFence | server.js:45-50 | with no fenced block, the code is the whole trimmed reply and the language the fallback |
| CodeFence.ExtractWithFence | server.js:49-54 | with a fenced block, the code is the chosen body trimmed and the language its tag, or the fallback without a tag |
| CodeFence.ExtractOfFirst | server.js:52-55 | the extraction uses the first block's body and tag |
| CodeFence.ExtractShape | server.js:45-57 | the code is always trimmed and the language is the fallback or a tag of `[a-zA-Z0-9_+-]` |
| Server.RequestFor | server.js:28-39 | the completion request has model gpt-4, 2048 tokens, and the fixed instruction followed by the prompt |
| Server.Handle | server.js:20-62 | status 400 exactly for a missing or empty prompt, and then no model call; 200 exactly with code and language; otherwise 500 |
| Server.RejectsMissingPrompt | server.js:22-26 | a missing or empty prompt is answered 400 "Prompt is required" before any model call |
| Server.AnswersFromReply | server.js:28-61 | with a prompt, one request goes to the model; a reply gives 200 with its extraction, a failure 500 "Failed to generate code" |
| Server.PlainReply | server.js:42-50 | a reply without a fenced block is answered with the whole trimmed reply as "javascript" |
| Server.FencedReply | server.js:49-57 | a fenced reply is answered with the first block's trimmed body and its tag, or "javascript" without a tag |
| Server.GeneratedShape | server.js:57 | every 200 answer carries trimmed code and either "javascript" or a tag |
| OpenAiClient.OrInt | src/lib/openai.js:32 | `maxTokens \|\| 2048`: absent and 0 give the default, anything else is used |
| OpenAiClient.OrReal | src/lib/openai.js:31 | `temperature \|\| 0.2`: absent and 0 give the default, anything else is used |
| OpenAiClient.RequestFor | src/lib/openai.js:22-33 | the request never carries a falsy model, temperature or token limit; the system message is non-empty and the user message is the prompt |
| OpenAiClient.GenerateCode | src/lib/openai.js:18-56 | fails exactly when the model call fails, and then always with "Failed to generate code" |
| OpenAiClient.FalsyOptionsGiveDefaults | src/lib/openai.js:20-32 | absent or falsy options give model gpt-4, the default instruction, temperature 0.2 and 2048 tokens |
| OpenAiClient.TruthyOptionsUsed | src/lib/openai.js:23-32 | a truthy model, instruction or token limit is used as given, and the prompt is the user message |
| OpenAiClient.PlainReply | src/lib/openai.js:36-40 | with no fence, the code is the trimmed reply and the language `options.language` when truthy, else "javascript" |
| OpenAiClient.FencedReply | src/lib/openai.js:43-48 | the first fence's body is returned trimmed; a tag overrides the fallback language and no tag keeps it |
| OpenAiClient.AgreesWithServer | src/lib/openai.js:18-56 | without options the client fails exactly when the server answers 500, and otherwise returns the server's code and language |
| DevicePresets.Flip | public/ResponsivePreview.js:66 | toggling always gives the other orientation |
| DevicePresets.Oriented | public/MobileCSSGenerator.js:41-43 | portrait keeps (width, height) and landscape exchanges them |
| DevicePresets.FlipOriented | public/ResponsivePreview.js:66 | toggling twice is the identity; after a toggle the shown size is exchanged |
| DevicePresets.PresetsWellFormed | public/DevicePresets.js:4-111 | eleven presets with pairwise distinct names and positive sizes; index 2 is "Mobile L", 425 by 812 |
| DevicePresets.FindByName | public/DevicePresets.js:120 | `find` returns the first device with exactly that name, or none has it |
| DevicePresets.GetDeviceByName | public/DevicePresets.js:119-121 | the result is always a preset; the named one when it exists, "Mobile L" otherwise |
| DevicePresets.GetDeviceByNameOfPreset | public/DevicePresets.js:119-120 | looking a preset up by its own name returns that preset |
| DevicePresets.GetViewportMetaForDevice | public/DevicePresets.js:124-126 | the viewport content contains "width=device-width" |
| DevicePresets.QuerySize | public/DevicePresets.js:129-131 | the query uses (width, height) only for "portrait" and exchanges them for any other orientation |
| DevicePresets.QueryBody | public/DevicePresets.js:133 | the text after the height starts with "px", so the height's digits end there, and the rule ends with its closing brace |
| DevicePresets.QueryBodyNames | public/DevicePresets.js:133 | the rule's comment names the device and the orientation argument |
| DevicePresets.MediaQuery | public/DevicePresets.js:128-134 | a complete max-width rule: it starts with "@media (max-width: " and ends with the closing brace |
| DevicePresets.MediaQueryLimits | public/DevicePresets.js:129-134 | reading the numbers back out of the query gives the device's size in that orientation |
| DevicePresets.NumberAfterOf | public/DevicePresets.js:133 | a label followed by digits and a non-digit reads back as those digits' value and the rest |
| DevicePresets.MediaQueryOrientation | public/DevicePresets.js:129-131 | an omitted orientation is "portrait"; any other string gives the landscape size |
| MobileCss.MatchEndAt | public/MobileCSSGenerator.js:99-108 | a match of `@media` or `display\s*:\s*V` starting at `i` ends after `i` and within the text |
| MobileCss.DisplayMatchExactly | public/MobileCSSGenerator.js:103 | a match is found at `i` exactly when `display`, white space, `:`, white space and the value occur there, and it ends after the value |
| MobileCss.MatchEnds | public/MobileCSSGenerator.js:99-108 | one entry per index, each match ending after its start |
| MobileCss.MatchEndsAt | public/MobileCSSGenerator.js:99-108 | the entry at each index is where the match starting there ends |
| MobileCss.NextMatch | public/MobileCSSGenerator.js:99 | a global search finds the leftmost match at or after the cursor, or there is none |
| MobileCss.MatchCount | public/MobileCSSGenerator.js:99-100 | the count `match(...g)` gives is 0 exactly when nothing matches, and at most the text's length |
| MobileCss.CountIsStarts | public/MobileCSSGenerator.js:99-104 | when matches cannot overlap, the global count is the number of places the pattern occurs |
| MobileCss.MediaNoOverlap | public/MobileCSSGenerator.js:99 | two occurrences of "@media" never overlap |
| MobileCss.FlexNoOverlap | public/MobileCSSGenerator.js:103 | two matches of `display\s*:\s*flex` never overlap |
| MobileCss.MediaCountIsOccurrences | public/MobileCSSGenerator.js:99-100 | the media-query count is the number of occurrences of "@media" |
| MobileCss.FlexCountIsOccurrences | public/MobileCSSGenerator.js:103-104 | the flexbox count is the number of places a `display : flex` declaration starts |
| MobileCss.GridMatchesCanOverlap | public/MobileCSSGenerator.js:107-108 | grid matches can overlap: "display:gridisplay:grid" has two match starts but counts one |
| MobileCss.HasTouchProperties | public/MobileCSSGenerator.js:111 | the touch test holds exactly when the text contains touch-action, tap-highlight-color or user-select |
| MobileCss.UnitFromWitness | public/MobileCSSGenerator.js:114 | when the unit scan succeeds, there is a digit followed by white space and a unit |
| MobileCss.UnitFromReaches | public/MobileCSSGenerator.js:114 | a digit followed by white space and a unit makes the scan succeed |
| MobileCss.HasViewportUnitsExactly | public/MobileCSSGenerator.js:114 | the unit test holds exactly when a digit is followed, after white space, by vw, vh, vmin or vmax |
| MobileCss.Classify | public/MobileCSSGenerator.js:116-126 | excellent iff many media queries, flex or grid, touch and units; basic iff no media, flex or grid; good otherwise; never perfect |
| MobileCss.YesNo | public/MobileCSSGenerator.js:134-135 | 'Yes' exactly for true and 'No' exactly for false |
| MobileCss.AnalyzeCss | public/MobileCSSGenerator.js:97-137 | counts for media, flex and grid, Yes/No for touch and units; basic iff all three counts are 0; excellent iff more than 3 media, more than 2 flex or more than 1 grid, touch and units; never perfect |
| MobileCss.StatusMessage | public/MobileCSSGenerator.js:117-125 | every status has a non-empty message |
| MobileCss.AnalyzeCssReports | public/MobileCSSGenerator.js:97-137 | the analysis reports the @media and flex occurrence counts, a grid count, and Yes/No for touch properties and units |
| MobileCss.NoLayoutIsBasic | public/MobileCSSGenerator.js:123-126 | text with no @media and no flex or grid declaration is rated basic |
| MobileCss.MobileDevices | public/MobileCSSGenerator.js:199-204 | the filter keeps exactly the devices whose name contains Mobile, iPhone, Pixel or Samsung |
| MobileCss.MobileDevicesOfConcat | public/MobileCSSGenerator.js:199-204 | filtering keeps table order: the kept devices of a prefix come before those of the rest |
| MobileCss.AllMobileKept | public/MobileCSSGenerator.js:199-204 | a list of mobile-named devices is kept whole |
| MobileCss.NoMobileDropped | public/MobileCSSGenerator.js:199-204 | a list with no mobile-named device is filtered to nothing |
| MobileCss.TargetDevices | public/MobileCSSGenerator.js:199-204 | the generator offers the first seven presets in table order |
| MobileCss.NotMobile | public/MobileCSSGenerator.js:199-204 | a name lacking the letters M, h, x and u is not offered |
| MobileCss.Endpoint | public/MobileCSSGenerator.js:59 | the project endpoint exactly when the project id is truthy, the URL endpoint otherwise |
| MobileCss.RequestFor | public/MobileCSSGenerator.js:41-56 | the request names the device and sends its size in the chosen orientation |
| MobileCss.FailureMessage | public/MobileCSSGenerator.js:68-90 | the error shown for a failure is never empty |
| MobileCss.ApplyCssEffect | public/MobileCSSGenerator.js:140-166 | style text is written exactly with CSS and a reachable document, and then the error is cleared; no CSS or no frame keeps the error; an unreachable document sets the CORS error |
| MobileCss.PreviousCssApplied | public/MobileCSSGenerator.js:82-84 | with the captured CSS, a first generation writes nothing into the preview and a later one writes the previous CSS, unlike applying the CSS just received |
| MobileCss.Generator.constructor | public/MobileCSSGenerator.js:5-12 | no CSS, analysis or error; "Mobile L", portrait, standard level |
| MobileCss.Generator.SelectDevice | public/MobileCSSGenerator.js:208 | only the device changes |
| MobileCss.Generator.SetOrientation | public/MobileCSSGenerator.js:223-227 | only the orientation changes |
| MobileCss.Generator.SetOptimizationLevel | public/MobileCSSGenerator.js:238-246 | only the level changes |
| MobileCss.Generator.GenerateMobileCss | public/MobileCSSGenerator.js:15-94 | no request exactly for an optimised site at the minimal level (then perfect, N/A); else the request for the device, then the CSS and its analysis, with applyCSS run on the CSS shown before the request (its style text and error), or the failure message |
| MobileCss.Generator.GenerateMobileCssIntended | public/MobileCSSGenerator.js:74-84 | as GenerateMobileCss, but the preview receives exactly the CSS just generated when its document is reachable |
| MobileCss.Generator.ApplyCss | public/MobileCSSGenerator.js:140-166 | applyCSS's effect on the error and the preview's style text; CSS, analysis and selections unchanged |
| MobileCss.Generator.Start | public/MobileCSSGenerator.js:16-19 | generating, with no error, CSS or analysis |
| MobileCss.Generator.ShowAlreadyOptimized | public/MobileCSSGenerator.js:23-35 | the fixed CSS with the perfect analysis, no longer generating |
| MobileCss.Generator.ShowCss | public/MobileCSSGenerator.js:74-79 | the returned CSS with its own analysis |
| MobileCss.Generator.Finish | public/MobileCSSGenerator.js:68-93 | CSS from the back end is shown with its analysis; otherwise no CSS and the failure message; never generating afterwards |
| Preview.IframeDimensions | public/ResponsivePreview.js:80-94 | the custom size in custom mode, the device's otherwise, exchanged in landscape |
| Preview.DimensionsAfterToggle | public/ResponsivePreview.js:65-94 | toggling exchanges the iframe's width and height; toggling twice restores the size |
| Preview.DeviceTypeClass | public/ResponsivePreview.js:239-245 | mobile iff width < 600, tablet iff 600 <= width < 1024, desktop iff width >= 1024 |
| Preview.DeviceTypeMonotone | public/ResponsivePreview.js:239-245 | a wider iframe never gets a smaller class |
| Preview.PresetClasses | public/ResponsivePreview.js:236-245 | the phones are mobile, the iPads tablets, laptop and desktop desktops; "Mobile L" sideways is a tablet |
| Preview.OptimizationVerdict | public/ResponsivePreview.js:127-161 | optimised iff the viewport content contains width=device-width and there is media, framework or flex+grid+rem evidence; no verdict when the meta has no content |
| Preview.VerdictMonotone | public/ResponsivePreview.js:159-161 | more responsive evidence never turns an optimised verdict negative |
| Preview.PresetViewportPasses | public/ResponsivePreview.js:127 | a page with the viewport content of getViewportMetaForDevice and media rules is judged optimised |
| Preview.VerdictAfterCheck | public/ResponsivePreview.js:116-173 | no iframe, or an iframe seen as not loaded, keeps the verdict; so do a throw and a missing content; otherwise the page's verdict |
| Preview.LoadCheckSeesNotLoaded | public/ResponsivePreview.js:193 | a check that sees the iframe as not loaded leaves an optimised page unjudged, where one that sees it loaded judges it optimised |
| Preview.Preview.constructor | public/ResponsivePreview.js:17-31 | "Mobile L" upright at 425 by 812, not custom, not loaded, no verdict |
| Preview.Preview.HandleDeviceChange | public/ResponsivePreview.js:35-49 | the device shown upright, custom mode off, verdict and error flag cleared, nothing else changed |
| Preview.Preview.HandleCustomWidthChange | public/ResponsivePreview.js:52-56 | only the width changes, to the parsed value or the previous width for NaN or 0; custom mode on |
| Preview.Preview.HandleCustomHeightChange | public/ResponsivePreview.js:58-62 | only the height changes, to the parsed value or the previous height for NaN or 0; custom mode on |
| Preview.Preview.SelectCustom | public/ResponsivePreview.js:289-292 | custom mode on, so the iframe shows the custom size |
| Preview.Preview.ToggleOrientation | public/ResponsivePreview.js:65-77 | the other orientation, the iframe's size exchanged, verdict and error flag cleared |
| Preview.Preview.CheckMobileOptimization | public/ResponsivePreview.js:116-173 | the verdict after the check, given the `iframeLoaded` its render saw; nothing else changes |
| Preview.Preview.HandleIframeLoad | public/ResponsivePreview.js:187-194 | loaded and without error; the scheduled check sees `iframeLoaded` from before the load, so after a first load or a reload the verdict is unchanged |
| Preview.Preview.HandleIframeLoadIntended | public/ResponsivePreview.js:187-194 | loaded and without error, and the page's verdict is stored whenever the page gives one |
| Preview.Preview.HandleIframeError | public/ResponsivePreview.js:197-201 | error and loaded both set |
| Preview.Preview.ReloadIframe | public/ResponsivePreview.js:204-210 | with an iframe, loaded and error both cleared; without one, nothing changes |
| PreviewJsx.FieldValue | src/components/ResponsivePreview.jsx:33 | `parseInt(value, 10) \|\| 0`: the parsed number, or 0 when it does not parse |
| PreviewJsx.FieldValueExamples | src/components/ResponsivePreview.jsx:33 | a typed number is taken as it is, and an empty field gives 0, not the previous value |
| PreviewJsx.PreviewJsx.constructor | src/components/ResponsivePreview.jsx:4-18 | preset index 2, "Mobile L" 425 by 812, custom size 425 by 812, portrait, not custom |
| PreviewJsx.PreviewJsx.HandleDeviceChange | src/components/ResponsivePreview.jsx:22-26 | the device shown upright, custom mode off, the custom size kept |
| PreviewJsx.PreviewJsx.HandleCustomSizeChange | src/components/ResponsivePreview.jsx:29-35 | only the named field changes; custom mode, orientation and device stay |
| PreviewJsx.PreviewJsx.ToggleOrientation | src/components/ResponsivePreview.jsx:38-40 | the other orientation, so the iframe's width and height are exchanged |
| PreviewJsx.PreviewJsx.SelectCustom | src/components/ResponsivePreview.jsx:110-111 | custom mode on, so the iframe shows the custom size |
| History.Newest | public/App.js:171 | the first ten entries, or all when there are fewer |
| History.Push | public/App.js:171 | the new entry first, then the old entries up to a total of at most ten |
| History.PushIsNewest | public/App.js:171 | pushing keeps the ten newest of the new entry followed by the old history |
| History.PushKeepsOrder | src/components/App.jsx:25 | surviving entries keep their order, shifted by one; only entries past index 8 are dropped |
| History.NewestOfNewest | public/App.js:171 | cutting to ten before prepending changes nothing once cut to ten again |
| History.PushAllIsNewest | public/App.js:171 | after any number of pushes the history is the ten newest entries, newest first |
| App.ErrorMessage | public/App.js:144-173 | a response that is not ok gives "Failed to generate code"; a thrown error its own message |
| App.NewEntry | public/App.js:161-169 | the entry holds the prompt and the reply's link; a missing code gives the default CSS, a missing language "css" |
| App.NewEntryNotEmpty | public/App.js:165-166 | a recorded entry always has code and a language |
| App.App.constructor | public/App.js:9-26 | empty prompt and code, language "css", the saved history, the generate tab |
| App.App.SetPrompt | public/App.js:241 | only the prompt changes: code, language, loading, error, link, history and tab are kept |
| App.App.GenerateCode | public/App.js:126-179 | a blank prompt sends nothing and keeps code, language, link, error, loading and history; a failure shows the sample CSS and records nothing; a reply is shown and pushed into the history; language and link change only when given |
| App.App.HandleSelectHistoryItem | public/App.js:181-187 | the entry's prompt, code, language and link restored, on the generate tab |
| AppJsx.HookError | src/hooks/useCodeGeneration.js:30-39 | the error stored for a failure: "Failed to generate code", the thrown message, or the fallback for an empty one |
| AppJsx.Recorded | src/components/App.jsx:12-27 | as written: an entry only when the code the handler saw is non-empty, pairing the prompt with that code and language |
| AppJsx.RecordedIntended | src/components/App.jsx:15-25 | corrected: an entry exactly when this generation returned code, holding that code and language |
| AppJsx.FirstGenerationLost | src/components/App.jsx:16 | as written, the first generation of a session is never recorded, though the corrected rule records it |
| AppJsx.EntryPairsPromptWithPreviousCode | src/components/App.jsx:16-23 | as written, an entry holds the previous generation's code, not the one just returned |
| AppJsx.RecordedAgreesOnRepeat | src/components/App.jsx:16-25 | the two rules agree when the handler's values are the ones just returned |
| AppJsx.AppJsx.constructor | src/hooks/useCodeGeneration.js:8-11 | code "", language "css", not loading, no error |
| AppJsx.AppJsx.Generate | src/hooks/useCodeGeneration.js:17-43 | a reply's code and language are stored as they are, even when absent; a failure keeps them and stores the error |
| AppJsx.AppJsx.HandleGenerateCode | src/components/App.jsx:12-27 | the history is updated from the code and language seen before the generation |
| AppJsx.AppJsx.HandleGenerateCodeIntended | src/components/App.jsx:15-25 | corrected handler: the history records what this generation returned |
| AppJsx.AppJsx.HandleSelectHistoryItem | src/components/App.jsx:29-33 | the generate tab and a new generation from the entry's prompt: not loading afterwards, the reply's code and language with no error, or the old ones with the hook's error; the history is not touched |

## Left out

- The model calls (server.js:28-39, src/lib/openai.js:22-33) and every `fetch` are network I/O. Their results are parameters: a function from request to reply, or a reply value.
- The back end for project upload, analysis and zip download is not part of this model. It is in no file of the repository.
- Express and multer routing, the upload handlers, drag-and-drop, and the other UI files are left out. They contain no data logic.
- Preview scale fitting and the device pixel ratio are left out. Both are floating point.
- The temperature option is an exact decimal.
- The DOM detectors of `checkMobileOptimization` are inputs, not modelled. So is the stylesheet probing; only the verdict drawn from them is modelled.
- The CSS download and the clipboard are left out. They are DOM side effects. Of `applyCSS`, only the text it writes into the preview's style element and the error it sets are modelled; the frame is a parameter.
- Timers (`setTimeout`, the temporary notification) are left out. The short cut's timer and the load handler's check are taken as having fired, with no other event in between.
- `Date.now()` and `toISOString()` are parameters.
- `localStorage` is left out. The saved history is a constructor parameter, and writing it back is not modelled.
- Text.ParseInt: values are exact integers. JavaScript's `parseInt` returns a double, so a run of digits above 2^53 is rounded there and not here.
- White space is the ECMAScript set that `trim` and `\s` share. No other Unicode property is modelled.
- JSON fields that are not strings (numbers, objects) are not modelled. A reply field is a string or absent.
- Strings in component state are modelled as datatypes: `'portrait'`/`'landscape'` as `Orientation`, the tab as `Tab` and the level as `Level`. The state never holds other values.
- MobileCss.AnalyzeCssReports: the grid count is stated only as a count, not as the number of `display : grid` occurrences. Grid matches can overlap ("grid" ends in the 'd' of a following "display"), so the global count can be lower than the occurrences; GridMatchesCanOverlap exhibits this.
- MobileCss.Analysis: the `message` field is not stored, since it is fixed by the status. StatusMessage gives it.
- Preview.OptimizationVerdict: the verdict is modelled by its truthiness. The source can store `null` or a non-boolean value, and the component only tests it.
- AppJsx.AppJsx.Generate: `isLoading` is stated only after the call. It is true only while the request is in flight.
- PreviewJsx.PreviewJsx.HandleCustomSizeChange: an input `name` other than "width" or "height" would add a new key. The form has only these two inputs, so `Field` has two values.

## Findings

| source | as written | input that shows it | evidently intended | confidence | as-written member | corrected member |
|---|---|---|---|---|---|---|
| src/components/App.jsx:16-23 | after `await generateCode(prompt)` the handler tests and records the `code` and `language` of the render it was created in, that is, the values from before the generation | the first generation of a session returns "a {}": the handler still sees `code === ''` and records nothing; a later generation records the new prompt with the previous reply's code | record the code and language this generation returned ("Add to history if successful") | high, not executed | AppJsx.Recorded (shown by AppJsx.FirstGenerationLost and AppJsx.EntryPairsPromptWithPreviousCode) | AppJsx.RecordedIntended (used by AppJsx.AppJsx.HandleGenerateCodeIntended) |
| public/MobileCSSGenerator.js:82-84 | after a successful generation `applyCSS()` writes `generatedCSS` into the preview, but that is the value of the render the click happened in: the CSS from before this request | the first generation returns "a {}": `generatedCSS` is still '' and applyCSS returns at once; the second writes the first generation's CSS | write the CSS just received into the preview | high, not executed | MobileCss.Generator.GenerateMobileCss (shown by MobileCss.PreviousCssApplied) | MobileCss.Generator.GenerateMobileCssIntended |
| public/ResponsivePreview.js:187-194 | `setTimeout(checkMobileOptimization, 1000)` schedules the check of the render the load event fired in, whose `iframeLoaded` is still false, so the check returns at line 117 | the first load (or any load after `reloadIframe`) of a page with a device-width viewport and media rules: the check does nothing and `isAlreadyOptimized` stays false | judge the page once it has loaded | high, not executed | Preview.Preview.HandleIframeLoad (shown by Preview.LoadCheckSeesNotLoaded) | Preview.Preview.HandleIframeLoadIntended |
