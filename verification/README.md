# RelationAI client core, modelled in Dafny

RelationAI is a browser client that gives Japanese university students advice through
one chat-completion backend. This project models the logic inside its single React
source file. The JSX rendering is not part of the model. The model covers:

- **`askClaude`** (module `Gateway`). It builds the message list posted to the proxy:
  the system instruction goes first, and only when it is non-empty. It reads the reply
  out of the response envelope. `fetch` and `res.json()` become an `Outcome`: either a
  decoded `Envelope` or `Failed`.
- **The conversation tabs** (module `Conversation`). `ChatTab` and `StudyTab` share one
  `Session` of turns, input field and `loading` flag. `send` is split in two halves:
  - `Send` is the synchronous accept phase. It picks `text || input` and trims it. It
    ignores blank text and any send while a call is outstanding. Otherwise it appends
    the user turn, clears the input, raises `loading`, and hands the gateway every turn
    after the greeting.
  - `Settle` runs once the call settles. The chat tab appends the reply, or its fixed
    fallback turn on failure. The study tab has no `catch`, so on failure it appends
    nothing. Both lower `loading`.
  - Runs of events (`Submit`, `Type`, `Complete`) are modelled too. Over any run the
    model proves that the greeting stays first and that calls issued and calls settled
    balance, so at most one call is ever outstanding. In the chat tab, turns always
    alternate.
- **The phrasing tab** (module `Phrase`).
  - The prompt template, where an empty situation becomes `特になし`. A parser shows the
    prompt loses nothing else.
  - The JSON candidate taken from the reply. When the reply has a match of
    `/\{[\s\S]*\}/`, the candidate is the span from the first `{` through the last `}`.
    The model proves this is exactly the leftmost-longest regex match.
  - Otherwise, one left-to-right pass of `replace(/```json|```/g, "")` followed by
    `trim`. The model proves no "```" survives the pass.
  - `JSON.parse` is a parameter `parse: string -> Option<V>`. Whatever it accepts is
    stored as the result. A rejection, or a failed call, stores the error marker.
- **`addPerson`** (module `RelationMap`). With a blank trimmed name nothing changes.
  Otherwise the form (name untrimmed) plus the given id is appended, and the form is
  reset and closed. The id that `Date.now()` supplies is a parameter.
- `JsString` holds ECMAScript `trim` with its exact white-space set, and `indexOf` /
  `lastIndexOf` on one character.

Points where the code's behaviour is easy to misread:

- The JSON extraction does not check for the `polite`, `normal`, `casual` and `tips`
  fields. Any value the parser accepts is stored.
- Fence stripping happens whenever no `}` follows the first `{`. This includes text that
  has a `{` but no later `}`, not only text with no `{` at all.
- On a failed call the study tab appends no turn at all, not a fallback turn.
  `FailureThenSend` shows the effect: two user turns end up side by side.
- The gateway receives the history without its first turn (the greeting), not the
  full history.
- An envelope with missing levels gives the reply `""`. A body that is not JSON, or is
  JSON `null`, makes `askClaude` reject instead: that is `Failed` in the model.

## Model

| member | source | states |
|---|---|---|
| Gateway.BuildMessages | src/App.jsx:4-7 | the posted list is the caller's messages, unchanged and in order, preceded by exactly one system turn carrying the instruction when it is non-empty and by nothing when it is empty |
| Gateway.SplitBuildRoundTrip | src/App.jsx:5-7 | the instruction and the history are both recoverable from the posted list (when the history does not itself start with a system turn) |
| Gateway.BuildSplitRoundTrip | src/App.jsx:5-7 | conversely, every list whose leading system turn is non-empty is what the builder makes of its instruction and its remainder |
| Gateway.Reply | src/App.jsx:15 | the reply is non-empty exactly when the first choice's message content is present and non-empty, and then it is that content; every missing level gives "" rather than a failure |
| Gateway.ReplyOfWrap | src/App.jsx:15 | a well-formed envelope around any text yields that text as the reply |
| Gateway.ReplyIgnoresLaterChoices | src/App.jsx:15 | choices after the first never affect the reply |
| Gateway.Ask | src/App.jsx:9-15 | the call rejects exactly when the round trip fails; a delivered body resolves to exactly the reply read out of its envelope, which is "" or the first choice's content |
| JsString.Trim | src/App.jsx:90 | `trim` yields the slice left after dropping ECMAScript white space at both ends; it is empty exactly when the text is all white space |
| JsString.TrimIdempotent | src/App.jsx:90 | trimming twice is trimming once |
| Conversation.Send | src/App.jsx:88-100 | a send is ignored (state unchanged) exactly when a call is outstanding or `text \|\| input` is blank; otherwise exactly one user turn with the trimmed text is appended, earlier turns are kept, the input is cleared, `loading` is raised, and the gateway history is the new list without its first element |
| Conversation.Settle | src/App.jsx:101-110 | settling lowers `loading`, keeps the input and every earlier turn, and appends the reply on success; on failure the chat tab appends the fixed fallback turn and the study tab appends nothing |
| Conversation.InitialIsWellFormed | src/App.jsx:74-81 | a fresh tab holds only its greeting, an empty input, no outstanding call, and satisfies both invariants |
| Conversation.SendKeepsWellFormed | src/App.jsx:90-95 | a send keeps the greeting first, adds no system turn, and adds only non-empty trimmed user turns; while loading, the last turn is a user turn |
| Conversation.SettleKeepsWellFormed | src/App.jsx:101-110 | settling preserves the same invariant |
| Conversation.AcceptedRequest | src/App.jsx:97-101 | on an accepted send the gateway receives the tab's instruction first, then every turn after the greeting in order, ending with the new user turn |
| Conversation.AcceptedRequestWith | src/App.jsx:95-101 | for a history free of system turns and any non-empty instruction, an accepted send posts that instruction first, then every turn after the first in order, ending with the new trimmed user turn |
| Conversation.ChatSendKeepsAlternating | src/App.jsx:90-95 | in the chat tab a send preserves the assistant/user alternation, with `loading` raised exactly when a user turn is last |
| Conversation.ChatSettleKeepsAlternating | src/App.jsx:101-110 | in the chat tab settling, on success or failure, restores the alternation with an assistant turn last |
| Conversation.RunKeepsWellFormed | src/App.jsx:88-113 | no sequence of sends, edits and completions breaks the invariant |
| Conversation.ChatRunKeepsAlternating | src/App.jsx:88-113 | no sequence of events in the chat tab breaks the alternation of user and assistant turns |
| Conversation.CallsBalance | src/App.jsx:91-109 | over any run, calls issued plus the initial outstanding call equal completions plus the final outstanding call |
| Conversation.RunPrefix | src/App.jsx:91-109 | every prefix of a valid run is valid and balances in the same way |
| Conversation.AtMostOneOutstanding | src/App.jsx:91 | from an idle tab, at every point of any run the accepted sends exceed the completions by at most one |
| Conversation.FailureThenSend | src/App.jsx:362-375 | after a send, a failed call and another send, the study tab holds two adjacent user turns, where the chat tab holds its fallback turn between them |
| Phrase.PromptRoundTrip | src/App.jsx:196 | relation, request and situation are recoverable from the prompt (an empty situation reads back as the placeholder) when relation and request contain no line break |
| Phrase.MenuPromptRoundTrip | src/App.jsx:183-196 | every relation and request the menus offer satisfies that condition, so every prompt the tab builds round-trips |
| Phrase.InitialPromptRoundTrip | src/App.jsx:187-196 | the tab opens with no result, not loading, on the first entries of both menus, and the prompt built from that state reads back as those entries with the placeholder situation |
| Phrase.BraceSpan | src/App.jsx:200 | the span found opens with `{`, closes with `}` and lies inside the text |
| Phrase.BraceSpanIsRegexMatch | src/App.jsx:200 | the span exists exactly when `/\{[\s\S]*\}/` matches, and it is the leftmost match and the longest one starting there |
| Phrase.StripFences | src/App.jsx:201 | the pass never lengthens the text, keeps only characters of the text, and keeps the first character unless a fence starts there |
| Phrase.StripFencesKeepsCleanPrefix | src/App.jsx:201 | a prefix with no "```" that does not end in a backtick passes through untouched and the pass continues on the rest |
| Phrase.StripFencesDeletesMarker | src/App.jsx:201 | after such a prefix, a "```json" marker, or a "```" marker not followed by `json`, is deleted outright and nothing else changes |
| Phrase.StripFencesDropsClosingFence | src/App.jsx:201 | text without "```" followed by a closing "```" comes back as the text alone |
| Phrase.NoFenceSurvives | src/App.jsx:201 | after the pass the text contains no "```", even where deletions bring backticks together |
| Phrase.StripFencesOfClean | src/App.jsx:201 | text without "```" passes through unchanged |
| Phrase.StripFencesKeepsNoMatch | src/App.jsx:201 | the pass keeps surviving characters in order, so it creates no `{ ... }` match |
| Phrase.FallbackIsClean | src/App.jsx:201 | the trimmed, fence-stripped fallback of text without a brace match contains neither a fence nor a brace match |
| Phrase.Candidate | src/App.jsx:200-201 | with a brace match the candidate is exactly that span (starting with `{`, ending with `}`); without one it is exactly the trimmed result of the fence-stripping pass, and contains no fence and no brace match; it is never longer than the reply |
| Phrase.CandidateOfFencedText | src/App.jsx:200-201 | a reply of "```json", fence-free text without a brace match, and "```" yields that text trimmed |
| Phrase.CandidateIdempotent | src/App.jsx:200-201 | extracting from an extracted candidate returns it unchanged |
| Phrase.CandidateFindsPayload | src/App.jsx:200-201 | a JSON object surrounded by text with no `{` before it and no `}` after it, such as a code fence, is extracted exactly |
| Phrase.Interpret | src/App.jsx:198-205 | the result is a parsed value exactly when the call succeeds and the parser accepts the candidate, and then it is the parser's value; otherwise it is the error marker |
| Phrase.InterpretFencedReply | src/App.jsx:198-203 | a reply that wraps a parseable object in a fence yields that object's parsed value |
| Phrase.StartGenerate | src/App.jsx:193-198 | starting clears the result and raises `loading`; the request is the phrasing instruction followed by one user turn whose prompt reads back as the tab's inputs |
| Phrase.PromptRequest | src/App.jsx:196-198 | for any non-empty instruction the posted list is that instruction then one user turn, whose prompt reads back as relation, request and situation |
| Phrase.FinishGenerate | src/App.jsx:197-208 | finishing stores a result and lowers `loading` while keeping the inputs; the result is the error marker exactly when the call failed or the parser rejected the candidate, and otherwise it is the value the parser returned for the candidate of the reply |
| RelationMap.AddPerson | src/App.jsx:283-288 | a blank trimmed name leaves the whole state unchanged; otherwise exactly one entry carrying the untrimmed form fields and the given id is appended after the unchanged earlier entries, and the form is reset to its defaults and closed |
| RelationMap.RunKeepsPrefix | src/App.jsx:285 | no sequence of form events removes, changes or reorders an existing entry |
| RelationMap.RunAddsIds | src/App.jsx:285 | the ids after a run are the ids before it followed by the ids of the accepted additions, in order |
| RelationMap.RunKeepsConsistent | src/App.jsx:279-286 | the seed entries stay first, and every later entry has a non-blank name and the default category, closeness and memo, since the form edits only the name |
| RelationMap.InitialMapIsConsistent | src/App.jsx:274-279 | the seeded list and the blank form satisfy that invariant |

## Left out

- The proxy in `api/groq.js` is not part of this model. It forwards the list to the provider with a credential and rejects non-POST requests with 405. It is pure I/O.
- `fetch`, `res.json()` and `JSON.parse` are not modelled internally. They become the `Outcome` value and the `parse` parameter.
- Gateway.Reply: the content field is modelled as a string or absent. Non-string values are not modelled: a truthy number would be returned as is, and `false` or `0` would become "".
- `MapTab.getAdvice` is left out. It only builds an advice prompt, makes a gateway call and sets a per-person loading marker, with nothing further to state.
- Rendering, design tokens, scroll effects, tab switching in `App` and the buttons' `disabled` wiring are left out. They are UI. As a result `StartGenerate` does not model the disabled button that prevents a second generation while one is pending.
- React's asynchronous state updates and stale closures are left out. `Settle` appends to the turn list as it stands when the call settles. While a call is outstanding, only the input field can change, so this list equals the list the send captured.
- Uniqueness of `Date.now()` ids is not claimed. The id is a parameter.
- Conversation.Settle requires an outstanding call: in the client, settling only ever continues an accepted send.
