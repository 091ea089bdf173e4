# Journaling app core, modelled in Dafny

The app is a small React journaling tool. Users keep three kinds of session records:
- action-1: a topic, a core question and notes;
- action-2: an observation and its analysis;
- action-3: a problem and a list of reframes.

Records are kept as one JSON document in local storage. A chat screen asks a hosted language model to interview the user and produce the record as JSON, and the app validates that JSON before it is saved. Other screens do the following:
- render model replies with a tiny inline-markup reader;
- refine a stored record through a second chat;
- compose references to records into a draft;
- edit the action-3 form;
- keep a user profile.

This project models that logic as pure functions over immutable datatypes and proves its properties.

Modules, one or more per part of the program:

- `Wrappers`, `Seqs`, `Text` (`wrappers.dfy`, `seqs.dfy`, `text.dfy`): the following JavaScript operations over Dafny sequences:
  - `Option`/`Result`;
  - `map`, `filter` and `slice(0, n)`;
  - `trim`;
  - `split` on a set of separator characters;
  - `join`.
- `JsonModel` (`json.dfy`): parsed JSON values and JavaScript truthiness, `typeof`, property reads and `String(...)` on them. The JSON codec (`JSON.parse`/`JSON.stringify`) is a pair of uninterpreted functions. `Faithful` states the round trip that some lemmas assume.
- `Types` (`types.dfy`): the three session variants, the stored JSON form of each, and a decoder that inverts it.
- `Storage` (`storage.dfy`): load, save, add, filter by action, clear, export and import, over the text in the store's key. Entries are raw JSON because nothing on the load or import path checks their shape.
- `StorageAliasing` (`storage_aliasing.dfy`): the store as written, where the shared default state can be mutated (see Findings).
- `CaptureRules` (`capture_rules.dfy`): the chat-capture checks:
  - per-action validation;
  - extraction of a JSON candidate from a reply;
  - the review-error list;
  - prompt construction.
- `CaptureMachine` (`capture_machine.dfy`): the capture screen as a state machine. Each user event is followed by React commits, and the validation effect and the auto-save effect run on each commit until nothing changes.
- `Markdown` (`markdown.dfy`): `renderRich`. It rewrites `""x""`, splits the text into paragraphs and scans each line into tokens.
- `ChatContext` (`chat_context.dfy`): the record-refinement chat.
- `Compose` (`compose.dfy`): selection toggling and the reference block.
- `ActionThree` (`action_three.dfy`): the action-3 form.
- `Profile` (`profile.dfy`): profile loading, saving, editing and the expertise list.

What is not modelled, or comes from outside:
- Replies of the language model are event parameters.
- Identifiers and timestamps are parameters.
- `getSessionById` is a parameter, and so is the local-storage text. Writes to local storage return the new text.

## Model

| member | source | states |
|---|---|---|
| Types.Encode | app/src/lib/types.ts:3-26 | every stored session is a truthy object carrying `id`, `actionId` (its variant's tag) and `createdAt` |
| Types.DecodeEncode | app/src/lib/types.ts:1-28 | a stored session reads back as exactly the same variant with the same fields, so the union is closed and lossless |
| Types.ActionOfTag | app/src/lib/types.ts:1 | a tag names an action exactly when it is one of the three tags |
| Storage.SessionsOf | app/src/lib/storage.ts:19 | a parsed document yields a list exactly when its `sessions` field is an array |
| Storage.LoadState | app/src/lib/storage.ts:14-24 | missing or empty text, unparseable text, a falsy value or one without a `sessions` array loads as the empty list; otherwise the stored entries come back unfiltered |
| Storage.LoadSave | app/src/lib/storage.ts:14-28 | with a faithful codec, what `saveState` writes is what `loadState` returns |
| Storage.AddSessionPrepends | app/src/lib/storage.ts:30-34 | after `addSession(s)` the list is `s` followed by the old list: `s` first, length plus one, the rest unchanged |
| Storage.OfAction | app/src/lib/storage.ts:42 | the filtered list holds only entries of the action, and every such entry of the store |
| Storage.OfActionAppend | app/src/lib/storage.ts:42 | filtering by action keeps stored order |
| Storage.GetSessions | app/src/lib/storage.ts:36-43 | without an action it returns all entries; with one, it returns exactly the entries of that action, and it fails iff a `null` entry makes the property read throw |
| Storage.GetSessionsTyped | app/src/lib/storage.ts:40-43 | on a store of typed sessions, `getSessions(a)` is exactly the sessions of action `a` in stored order |
| Storage.ClearAllEmpties | app/src/lib/storage.ts:45-47 | the corrected `clearAll` leaves a store that loads as empty |
| Storage.ImportState | app/src/lib/storage.ts:53-62 | a parse failure or a value without a `sessions` array is an error that leaves the store untouched; otherwise the truthy entries replace the store and their number is reported |
| Storage.ImportStores | app/src/lib/storage.ts:59-61 | after a successful import the store loads as the truthy entries in order, and the reported count is its length |
| Storage.ExportImport | app/src/lib/storage.ts:49-62 | exporting and importing reproduces the stored list and its count when no entry is falsy |
| StorageAliasing.LoadStateAsWritten | app/src/lib/storage.ts:14-24 | a fallback hands out the shared default array; on a fresh page this agrees with `Storage.LoadState` |
| StorageAliasing.AddSessionAsWritten | app/src/lib/storage.ts:30-34 | `unshift` on a fallback load also grows the shared default array |
| StorageAliasing.ClearAllAsWritten | app/src/lib/storage.ts:45-47 | `clearAll` writes whatever the shared default array holds |
| StorageAliasing.ClearAllKeepsSession | app/src/lib/storage.ts:5-47 | on an empty store, `addSession(s)` then `clearAll()` leaves `[s]` stored, and so does a second `clearAll()` |
| CaptureRules.Validate | app/src/features/shared/ChatCapture.tsx:100-119 | a falsy or non-object value yields exactly the format issue; otherwise each issue appears iff its condition holds, in check order, at most three |
| CaptureRules.ValidateIsDetermined | app/src/features/shared/ChatCapture.tsx:100-119 | any issue list in check order with the same members as `validate`'s result equals it |
| CaptureRules.OrderedUnique | app/src/features/shared/ChatCapture.tsx:101-118 | two issue lists in check order with the same members are equal |
| CaptureRules.ValidateReframeCount | app/src/features/shared/ChatCapture.tsx:113-116 | `{"problem":"p","reframes":["a","b"]}` yields only the count issue, and a third reframe clears it |
| CaptureRules.ExtractTrailing | app/src/features/shared/ChatCapture.tsx:86-90 | a candidate exists iff the reply ends with `}` and contains `{`; it is the suffix from the first `{` |
| CaptureRules.ExtractBlock | app/src/features/shared/ChatCapture.tsx:151-153 | a candidate exists iff some `{` precedes some `}`; it runs from the first `{` to the last `}` |
| CaptureRules.TrailingIsBlock | app/src/features/shared/ChatCapture.tsx:86-151 | when the reply yields a trailing candidate, the block extraction yields the same text |
| CaptureRules.ExtractFixed | app/src/features/shared/ChatCapture.tsx:86-151 | an extracted candidate is its own block and its own trailing match |
| CaptureRules.ReviewErrors | app/src/features/shared/ChatCapture.tsx:121-126 | no errors for an empty candidate, exactly one parse error when it does not parse, otherwise `validate`'s issues in order |
| CaptureRules.NoReviewErrors | app/src/features/shared/ChatCapture.tsx:121-126 | a non-empty candidate has no errors iff it parses to data that passes validation |
| CaptureRules.BuildPrompt | app/src/features/shared/ChatCapture.tsx:43-55 | every prompt opens with the system prompt and the rules; the first asks for one question; a later one carries the history and ends with the user line and the request for the next reply |
| CaptureRules.InitialPromptFixed | app/src/features/shared/ChatCapture.tsx:51-53 | the opening prompt does not depend on history or user text |
| CaptureRules.AutoFixPrompt | app/src/features/shared/ChatCapture.tsx:138-145 | the auto-fix prompt names the action's tag and constraints and ends with the parse error or the re-serialised candidate |
| CaptureMachine.ReplyText | app/src/features/shared/ChatCapture.tsx:84-92 | an answer is shown as sent; a failure shows its message when it has one, and the fixed error text exactly when its message is empty |
| CaptureMachine.Round | app/src/features/shared/ChatCapture.tsx:121-134 | one commit changes only the error list and the auto-save flag; the flag ends set iff it was set or the guard held; when the guard holds the commit hands the parsed candidate to `onSave`, or shows the parse alert when it does not parse, and otherwise emits nothing; with the guard reading current errors every payload validates |
| CaptureMachine.Settle | app/src/features/shared/ChatCapture.tsx:121-134 | commits end settled; only the error list and the flag change; a guard holding on entry makes auto-save fire, and when it fires the parsed candidate (or the parse alert) is among the effects; at most one auto-saved payload, none once fired; with the guard reading current errors every payload validates |
| CaptureMachine.FreshSettleSaves | app/src/features/shared/ChatCapture.tsx:128-134 | with the guard reading current errors, a state whose guard holds hands exactly one payload to `onSave`: the parsed candidate, which passes validation |
| CaptureMachine.StartChat | app/src/features/shared/ChatCapture.tsx:57-70 | starting sets `started` and replaces the history with exactly one model turn showing the reply; the one request sent is the opening prompt, whatever the earlier history |
| CaptureMachine.SendMessage | app/src/features/shared/ChatCapture.tsx:72-94 | a blank input changes nothing; otherwise the user turn then the model turn are appended, the box is cleared, and the screen moves to review with the candidate iff the reply has one |
| CaptureMachine.RunAutoFix | app/src/features/shared/ChatCapture.tsx:136-157 | the reply's block replaces the candidate; with no block or a failed call the candidate stays and an alert is shown; nothing is saved |
| CaptureMachine.SaveClicked | app/src/features/shared/ChatCapture.tsx:158-230 | outside review or with errors the button does nothing; in review with no errors it hands the parsed candidate to `onSave` when the candidate parses, and shows the parse alert when it does not |
| CaptureMachine.Apply | app/src/features/shared/ChatCapture.tsx:57-232 | only the save button saves, and only the checkbox touches the auto-save flag; unchecking resets it |
| CaptureMachine.StepOf | app/src/features/shared/ChatCapture.tsx:129-232 | after any event other than unchecking, auto-save hands over at most one payload, and none once fired |
| CaptureMachine.SendBlank | app/src/features/shared/ChatCapture.tsx:74-75 | sending a blank message changes nothing |
| CaptureMachine.SendAppends | app/src/features/shared/ChatCapture.tsx:76-90 | the user turn precedes the model turn; the prompt uses the earlier history; a candidate moves the screen to review |
| CaptureMachine.AutoFixReplaces | app/src/features/shared/ChatCapture.tsx:151-153 | after auto-fix the candidate is the reply's block, or unchanged with an alert |
| CaptureMachine.NoKeyAlerts | app/src/features/shared/ChatCapture.tsx:58-137 | without an API key the model-calling buttons only alert |
| CaptureMachine.AutoSaveAtMostOnce | app/src/features/shared/ChatCapture.tsx:129-232 | over any run in which the checkbox is never unchecked, auto-save fires at most once, and not at all if it already had |
| CaptureMachine.FreshSavesValid | app/src/features/shared/ChatCapture.tsx:121-134 | with the guard reading the current candidate's errors, every payload handed to `onSave` passes validation, over any run |
| CaptureMachine.StaleGuardSavesInvalid | app/src/features/shared/ChatCapture.tsx:121-134 | from a settled review state with auto-save on and an empty candidate, pasting `{}` auto-saves `{}`, which fails validation; the corrected guard saves nothing |
| CaptureMachine.ClearedReviewReachable | app/src/features/shared/ChatCapture.tsx:57-232 | that review state is reached from the initial screen by starting the chat, typing, sending, ticking auto-save and clearing the candidate |
| Markdown.MatchWrapped | app/src/components/Markdown.tsx:19-33 | a delimited match is found iff one exists, and it is the only one |
| Markdown.NextToken | app/src/components/Markdown.tsx:18-41 | bold is taken if it matches, else italic, else code, else one plain character; contents are non-empty and free of their delimiter; the token's text is a prefix of the line |
| Markdown.NextTokenPriority | app/src/components/Markdown.tsx:18-41 | conversely, the first of bold, italic, code that matches is the token read |
| Markdown.Tokenize | app/src/components/Markdown.tsx:16-42 | re-serialising the tokens reproduces the line exactly, and each token consumes at least one character |
| Markdown.TokenizePlain | app/src/components/Markdown.tsx:39-41 | a line without `*` or a backquote is read one plain character at a time |
| Markdown.TokenizeBold | app/src/components/Markdown.tsx:19-24 | a bold span at the start is one token, and scanning continues after it |
| Markdown.RewriteQuotes | app/src/components/Markdown.tsx:10 | the rewrite keeps the length; text with no `""` pair, or whose first pair is not closed by a second, is unchanged |
| Markdown.RewriteOnlyStars | app/src/components/Markdown.tsx:10 | every character is kept except `"` characters turned into `*` |
| Markdown.RewriteLeftmostPair | app/src/components/Markdown.tsx:10 | the leftmost `""` pair and the next pair after it enclose the first match, which is wrapped in `**`, and the scan resumes after the closing pair |
| Markdown.RewriteQuotedSpan | app/src/components/Markdown.tsx:10 | `""x""` becomes `**x**` |
| Markdown.SplitRuns | app/src/components/Markdown.tsx:13 | at least one paragraph, none containing a newline, interior ones non-empty |
| Markdown.SplitRunsJoin | app/src/components/Markdown.tsx:13 | splitting inverts joining with single newlines |
| Markdown.JoinSplitRuns | app/src/components/Markdown.tsx:13 | joining the paragraphs gives the text with newline runs collapsed |
| Markdown.Paragraphs | app/src/components/Markdown.tsx:9-44 | one token list per paragraph, each re-serialising to its paragraph |
| Markdown.ParagraphsRender | app/src/components/Markdown.tsx:9-44 | re-serialising all paragraphs, one newline apart, gives the rewritten text with newline runs collapsed |
| ChatContext.SystemContextOf | app/src/features/chat/ChatWithContext.tsx:24-35 | the context starts with the action's heading and ends with notes, analysis, or the reframes joined by `; ` |
| ChatContext.SplitReframes | app/src/features/chat/ChatWithContext.tsx:71 | the pieces are non-empty, trimmed and free of newline, `;` and `•` |
| ChatContext.SplitReframesAt | app/src/features/chat/ChatWithContext.tsx:71 | pieces come out in reply order |
| ChatContext.RefinementPatch | app/src/features/chat/ChatWithContext.tsx:66-73 | the patch sets `notes` for action-1, `analysis` for action-2 and the split reframes for action-3 |
| ChatContext.ContextReframesRefine | app/src/features/chat/ChatWithContext.tsx:31-71 | refining with the reframe text the context shows restores the list, for trimmed separator-free entries |
| ChatContext.LastModelTurn | app/src/features/chat/ChatWithContext.tsx:62 | none iff there is no model turn; otherwise the text of a model turn with no model turn after it |
| ChatContext.ApplyRefinement | app/src/features/chat/ChatWithContext.tsx:60-76 | no selection or no stored record does nothing; no model turn alerts; otherwise the stored record's one field for its action is patched |
| ChatContext.RefineUsesLatest | app/src/features/chat/ChatWithContext.tsx:62 | the newest model turn is used, whatever user turns follow it |
| ChatContext.Send | app/src/features/chat/ChatWithContext.tsx:37-58 | a missing key alerts, a blank input does nothing, a missing selection alerts; otherwise the trimmed input and then the reply are appended and the box is cleared |
| ChatContext.SendThenRefine | app/src/features/chat/ChatWithContext.tsx:45-76 | refining right after a send patches the record with the reply just received |
| Compose.Toggle | app/src/features/history/Compose.tsx:11-13 | an absent id is appended; a present id is removed wherever it occurs and nothing else changes |
| Compose.ToggleTwice | app/src/features/history/Compose.tsx:12 | toggling an absent id twice restores the selection |
| Compose.ToggleNoDup | app/src/features/history/Compose.tsx:12 | toggling keeps a selection free of repetitions |
| Compose.ReferenceOf | app/src/features/history/Compose.tsx:17-22 | each reference starts with its action marker and ends with notes, analysis, or reframes joined by ` • ` |
| Compose.Selected | app/src/features/history/Compose.tsx:16 | exactly the stored sessions whose id is selected |
| Compose.SelectedAppend | app/src/features/history/Compose.tsx:16 | references come in store order |
| Compose.SelectedIgnoresOrder | app/src/features/history/Compose.tsx:16 | the order of ticking does not matter |
| Compose.InjectReferences | app/src/features/history/Compose.tsx:15-25 | the old draft is a prefix, followed by a blank line when it was non-empty, and the reference block ends the text |
| Compose.InjectIgnoresOrder | app/src/features/history/Compose.tsx:15-25 | the inserted text does not depend on the order of ticking |
| Compose.InjectSingle | app/src/features/history/Compose.tsx:15-25 | one selected session inserts exactly its reference |
| ActionThree.UpdateReframe | app/src/features/action3/ActionThree.tsx:12-14 | the length is kept, only index `idx` changes, and an out-of-range index changes nothing |
| ActionThree.UpdateReframeTwice | app/src/features/action3/ActionThree.tsx:13 | the second write to a field wins |
| ActionThree.AddReframe | app/src/features/action3/ActionThree.tsx:16-18 | exactly one empty field is appended |
| ActionThree.SubmittedReframes | app/src/features/action3/ActionThree.tsx:27 | only non-blank entries, untrimmed, and every non-blank entry |
| ActionThree.SubmittedAppend | app/src/features/action3/ActionThree.tsx:27 | submitted reframes keep form order |
| ActionThree.SubmittedIgnoresAdded | app/src/features/action3/ActionThree.tsx:17-27 | an added field left empty is not submitted |
| ActionThree.SubmittedMayBeShort | app/src/features/action3/ActionThree.tsx:27 | no minimum is enforced: one filled field of three is stored alone |
| ActionThree.Submit | app/src/features/action3/ActionThree.tsx:20-55 | with the required problem empty nothing is submitted and the form is kept; otherwise the form resets to an empty problem and three empty fields, and with a faithful codec the store loads as the new session followed by the old list |
| ActionThree.SubmitNeedsProblem | app/src/features/action3/ActionThree.tsx:55 | an empty problem leaves the store and the form as they were |
| ActionThree.SubmitPrepends | app/src/features/action3/ActionThree.tsx:22-29 | the new session heads the store and reads back with the form's problem and filled reframes |
| ActionThree.Recent | app/src/features/action3/ActionThree.tsx:36 | fails iff a `null` entry makes the property read throw; otherwise a prefix of the action-3 entries in store order, of length three or all of them when there are fewer |
| ActionThree.RecentTyped | app/src/features/action3/ActionThree.tsx:36 | on typed sessions, the recent list is the first three action-3 sessions |
| ActionThree.SubmitShowsFirst | app/src/features/action3/ActionThree.tsx:29-36 | a submitted session heads the recent list, followed by the two newest earlier ones |
| Profile.Normalise | app/src/lib/profile.ts:20-30 | `name` is the string form of a truthy stored name and empty otherwise; `expertise` is present iff the stored value is an array, with each element converted; `useInPrompts` is always a boolean |
| Profile.TextField | app/src/lib/profile.ts:22-28 | an optional text field is present iff the stored value is truthy, and is then its string form |
| Profile.LoadProfile | app/src/lib/profile.ts:15-34 | a missing key, empty or unparseable text, or `null` gives `{ name: '' }`; otherwise the normalised object, whose `useInPrompts` is defined |
| Profile.LoadSaved | app/src/lib/profile.ts:15-38 | saving and loading keeps name and expertise, drops empty text fields, and turns `useInPrompts` into a boolean |
| Profile.LoadSaveNormal | app/src/lib/profile.ts:15-38 | a profile whose text fields are non-empty and whose flag is defined survives save and load unchanged |
| Profile.SavedLoadsNormal | app/src/lib/profile.ts:15-38 | whatever is saved loads back in that normal shape |
| Profile.SecondRoundStable | app/src/lib/profile.ts:15-38 | from the second save on, save then load is the identity |
| Profile.FirstRoundMayDiffer | app/src/lib/profile.ts:18-29 | the fallback `{ name: '' }` comes back from one save with `useInPrompts: false` |
| Profile.Update | app/src/features/profile/Profile.tsx:10-12 | `update(k, v)` sets field `k` to `v` and leaves every other field unchanged |
| Profile.UpdatesCommute | app/src/features/profile/Profile.tsx:10-12 | edits of different fields commute |
| Profile.UpdateSame | app/src/features/profile/Profile.tsx:10-12 | writing a field's own value back changes nothing |
| Profile.ParseExpertise | app/src/features/profile/Profile.tsx:52 | parsed entries are non-empty, trimmed and comma-free |
| Profile.ExpertiseRoundTrip | app/src/features/profile/Profile.tsx:52 | showing a list joined by `, ` and parsing it back is the identity for trimmed, non-empty, comma-free entries |
| Profile.ExpertiseEditStable | app/src/features/profile/Profile.tsx:52 | typing the shown expertise text back leaves the profile unchanged |
| Text.Trim | app/src/features/shared/ChatCapture.tsx:74 | the result is trimmed, is the input with leading and trailing spaces removed, and is empty iff the input is blank |
| Text.SplitTrimmedJoin | app/src/features/profile/Profile.tsx:52 | joining with a separator and a space and then splitting, trimming and dropping empty pieces is the identity on clean entries |

## Left out

- Calls to the language model: a reply is an event parameter, either an answer or a failure message. `busy` flags, the asynchrony of the calls and the scroll effects are left out.
- `JSON.parse` and `JSON.stringify` are uninterpreted functions over the JSON datatype. Round-trip lemmas assume `Faithful`.
- JSON numbers are integers. The app does no arithmetic on parsed values, and only their truthiness and `String(...)` form matter.
- Local-storage exceptions, the API-key storage effect, `FileReader`/`Blob` import and export, the clipboard, `window.open` and the dev.to upload in Compose.tsx (lines 27-41) are browser I/O.
- `generateId` and `new Date()` use randomness and the clock, so identifiers and timestamps are parameters.
- `getSessionById`, `updateSessionById` and `deleteSessionById` are imported but not defined in storage.ts.
  - The session found by id is a parameter of `ChatContext.ApplyRefinement`.
  - The update is returned as the patch it would receive.
  - Deletion is not modelled.
- The action-4 branches in ChatWithContext.tsx:32,72 and Compose.tsx:21, and ActionFour.tsx, WeightChart.tsx and Meditation.tsx. There is no fourth session variant in types.ts, the weight screens use floating point, and the meditation screen uses timers and notifications.
- The `Preview` card of ChatCapture.tsx (lines 242-271) and all React rendering.
- `ChatContext.SystemContextOf` and `Compose.ReferenceOf` take typed sessions. `importState` stores any truthy entry (app/src/lib/storage.ts:59-60), so the source can meet an action-3 entry without a reframe list: ChatWithContext.tsx:31 then falls back to an empty list and Compose.tsx:19 throws on `s.reframes.join`. Entries that do not decode as a session, and the source's behaviour on them, are not modelled.
- `Markdown.Tokenize`: strings are sequences of Unicode scalar values. The source indexes `line[i]`, a UTF-16 code unit (app/src/components/Markdown.tsx:40), so a character outside the Basic Multilingual Plane, such as an emoji, becomes two plain spans each holding a lone surrogate, where the model reads one plain token.
- `CaptureMachine.Apply` accepts every event in every step. Which controls are shown and enabled is not modelled: the start button only before starting, the message box only in the ask step after starting (ChatCapture.tsx:191-203), auto-fix only while there are errors (ChatCapture.tsx:212-219), and the send button disabled while busy.
- Profile.LoadSaveNormal: normalisation is idempotent only from the second save on, not from the first. `{ name: '' }` gains `useInPrompts: false`, and a truthy non-string text field such as `[]` can become `""` and then disappear. `Profile.SecondRoundStable` proves the idempotence that does hold, and `Profile.FirstRoundMayDiffer` shows the first-round difference.
- `Storage.ClearAll` is the corrected `clearAll`. The code as written is `StorageAliasing.ClearAllAsWritten` (see Findings).

## Findings

| source | as written | input that shows it | evidently intended | confidence | as-written member | corrected member |
|---|---|---|---|---|---|---|
| app/src/lib/storage.ts:5-47 | `loadState` returns the shared `defaultState` object on fallback. `addSession` then `unshift`s into it, and `clearAll` saves that same object. | empty store, `addSession(s)`, then `clearAll()`: the store still holds `[s]` | `clearAll` leaves an empty store; `addSession` does not change the default | high, not executed | StorageAliasing.ClearAllKeepsSession | Storage.ClearAllEmpties |
| app/src/features/shared/ChatCapture.tsx:121-134 | The auto-save effect reads the `errors` of the committed render. The validation effect of the same commit has not yet recomputed them for a new `jsonText`. | start the chat, type, send a reply ending in `{}`, tick auto-save, clear the candidate to `""` (so no errors), then paste `{}` for action-1: `onSave({})` fires although `{}` misses topic and coreQuestion | auto-save fires only for a candidate that passes validation | medium, not executed | CaptureMachine.StaleGuardSavesInvalid | CaptureMachine.FreshSavesValid |
