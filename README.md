# Chat session controller, modelled in Dafny

This project models the session controller of a single-page chat client
(`frontend/src/App.jsx`). The page keeps three pieces of state: the form data
whose field `q` is the draft, the `isSubmitting` flag, and the transcript of
`{ role, content }` messages. `handleChange` writes a typed value into the form.
`handleSubmit` sets the flag and checks the trimmed draft. For a non-blank
draft it appends the user message, resets the form and posts the draft to
`/api/generate`. After the `await` it appends one bot message: either the value
at `result.response.Candidates[0].Content.Parts[0]` or a fixed fallback text.
A `finally` then clears the flag.

Files and modules:

- `wrappers.dfy` (`Wrappers`): the `Option` datatype.
- `js_value.dfy` (`JsValue`): JavaScript values as `response.json()` produces them,
  plus `undefined`. It defines property access `Get`, which throws on null and
  undefined, and the chained access `GetPath`. Array indices are canonical
  numerals (`x[0]` reads key `"0"`).
- `js_string.dfy` (`JsString`): `String.prototype.trim`, with the white-space set
  of ECMA-262.
- `reply.dfy` (`Reply`): how a request can end (`Outcome`), the extraction at
  line 40 (`ReplyText`) and the content of the bot message (`BotReply`).
- `session.dfy` (`ChatSession`): the class `Session` with fields `form`,
  `pending`, `messages` and `inFlight`. The last field stands for the
  `handleSubmit` call suspended at its `await`, identified by the prompt it
  sent. `handleSubmit` is split at the `await` into `HandleSubmit` and
  `Complete`. `Press` models the submit button. The object invariant `Valid()`
  says the transcript alternates. It starts with a prompt, every user message
  is a non-blank string, user and bot messages alternate, and the last message
  is the in-flight prompt exactly when a request is in flight.
- `scenarios.dfy` (`ChatScenarios`): whole runs from a fresh session.

Four behaviours of the code are modelled as written:

- A whitespace-only draft is not a no-op. The flag is set at line 20, before
  the check at line 22, and the `finally` that clears it sits inside the `if`
  (lines 45-48). Such a draft leaves the flag up with nothing in flight
  (`Session.Locked`), and the button stays disabled from then on.
- Nothing in `handleSubmit` checks the flag. Only the disabled button
  (line 98) stops a second submission, so `HandleSubmit` requires the flag
  down and `Press` is the no-op.
- An empty `Parts` array or a non-string part is appended as the bot content:
  `Parts[0]` is then `undefined` or that value. `BotReply` returns it
  unchanged.
- The completely empty draft never reaches `handleSubmit`, because the textarea
  is `required` (line 94). `Press` models this.

## Model

| member | source | states |
|---|---|---|
| `JsValue.Get` | frontend/src/App.jsx:40 | reading a property throws exactly when the value is null or undefined; only strings, arrays and objects yield anything but `undefined` |
| `JsValue.ArrayIndex` | frontend/src/App.jsx:40 | a key names an array element only as a canonical numeral at most 2^32 - 2, and the numeral of the index it names is the key itself |
| `JsValue.NumeralIsIndex` | frontend/src/App.jsx:40 | conversely, the numeral of every admissible index (such as `[0]`, read as key `"0"`) names that index |
| `JsValue.ZeroIsIndex` | frontend/src/App.jsx:40 | the key `"0"` that `Candidates[0]` and `Parts[0]` read names the first array element |
| `JsValue.GetPathConcat` | frontend/src/App.jsx:40 | a chain of property reads (`GetPath`) is evaluated left to right: reading `p` then `q` is reading the joined chain, and a throw inside `p` ends the whole chain |
| `JsValue.GetPathThrowsIff` | frontend/src/App.jsx:40 | a chain of property reads throws if and only if some prefix of the chain completes and yields null or undefined |
| `JsString.TrimStart` | frontend/src/App.jsx:22 | the result is a suffix of the input; everything removed is white space and the result does not start with white space |
| `JsString.TrimEnd` | frontend/src/App.jsx:22 | the result is a prefix of the input; everything removed is white space and the result does not end with white space |
| `JsString.Trim` | frontend/src/App.jsx:22 | the trimmed draft is empty if and only if every character is white space; otherwise it starts and ends with a kept character |
| `Reply.BotReply` | frontend/src/App.jsx:35-43 | on every failure path (transport failure, non-ok status, unreadable body, line 40 throwing) the reply is the fixed fallback text; otherwise it is exactly the value line 40 read |
| `Reply.BotReplyOfParts` | frontend/src/App.jsx:39-41 | on a body shaped `response.Candidates[0].Content.Parts` line 40 does not throw, and an ok response appends the first part, or `undefined` when `Parts` is empty |
| `Reply.ReplyText` | frontend/src/App.jsx:40 | the reply expression throws if and only if one of its six property reads is taken from null or undefined |
| `Reply.NonOkFallsBack` | frontend/src/App.jsx:35-36 | a status outside 200-299 (`response.ok` false, `IsOk`) ends the cycle with the fallback text, whatever the body holds |
| `Reply.FailsIff` | frontend/src/App.jsx:35-43 | `Fails`, the catch path, is taken if and only if the request fails, the status is not ok, the body is not JSON, or one of the body, `response`, `Candidates`, the first candidate, `Content` or `Parts` is null or missing |
| `ChatSession.TrimsToEmpty` | frontend/src/App.jsx:22 | the check `formData.q.trim() !== ''` fails exactly when every character of the draft is white space |
| `ChatSession.AppendPrompt` | frontend/src/App.jsx:23 | appending the non-blank draft to a transcript of completed exchanges leaves it alternating, with that prompt last and in flight |
| `ChatSession.AppendReply` | frontend/src/App.jsx:41-43 | appending a bot message after the in-flight prompt leaves the transcript alternating, with every exchange completed |
| `ChatSession.Session.constructor` | frontend/src/App.jsx:6-8 | a session starts with form `{q: ''}`, flag down, empty transcript and nothing in flight |
| `ChatSession.Session.HandleChange` | frontend/src/App.jsx:10-15 | the named field becomes exactly the typed value (the draft, for `q`); flag, transcript and in-flight request are untouched |
| `ChatSession.Session.HandleSubmit` | frontend/src/App.jsx:18-33 | the flag is always set. A blank draft sends nothing, keeps form and transcript, and leaves the session locked. A non-blank draft appends one user message with the untrimmed draft, resets the form to `{q: ''}` and sends that same text |
| `ChatSession.Session.Complete` | frontend/src/App.jsx:35-47 | exactly one bot message (`BotReply` of the outcome) is appended after the earlier ones, the flag is cleared on every path, and the draft typed meanwhile is kept |
| `ChatSession.Session.Press` | frontend/src/App.jsx:94-98 | with the flag up, or an empty draft, nothing changes and nothing is sent; otherwise it behaves as `HandleSubmit` |
| `ChatSession.Session.SubmitAndComplete` | frontend/src/App.jsx:18-49 | a cycle from a non-blank draft appends exactly the prompt and then the reply, resets the form to `{q: ''}`, ends with the flag down, and sends the untrimmed draft |
| `ChatScenarios.HelloExchange` | frontend/src/App.jsx:18-47 | typing "Hello" and receiving parts `["Hi there!"]` yields the transcript `[user "Hello", bot "Hi there!"]` with the flag down |
| `ChatScenarios.EmptyPartsExchange` | frontend/src/App.jsx:39-41 | an ok answer with an empty `Parts` yields a bot message whose content is `undefined` |
| `ChatScenarios.ServerErrorExchange` | frontend/src/App.jsx:35-36 | an HTTP 500 answer yields the fallback bot message and the flag down |
| `ChatScenarios.MissingCandidatesExchange` | frontend/src/App.jsx:40-43 | the body `{"response":{}}` makes line 40 throw and yields the fallback bot message |
| `ChatScenarios.BlankDraftLocks` | frontend/src/App.jsx:20-22 | a draft of two spaces appends nothing, sends nothing, and leaves the flag up; a later click with the draft `Hello` also sends nothing, and the draft stays `Hello` |

## Left out

- The JSX rendering, Markdown rendering, icons and CSS classes (App.jsx lines 51-110) are presentation. Only the `required` textarea (line 94) and the disabled button (line 98) are modelled, in `Press`.
- `fetch`, `response.json()` and `JSON.stringify` (lines 27-33, 39) are foreign I/O. The request is the text returned as `sent`, and the result is an `Outcome` value: a transport failure, or a status with a parsed body or a body that failed to parse.
- `console.error` (line 44) is a log with no effect on the state.
- React's asynchronous, batched `setState` is not modelled. Each update is a sequential assignment. The copy of `messages` that line 23 reads from the closure equals the current transcript, because nothing else changes it before the click.
- Only one `handleSubmit` call can be suspended at a time, because the model requires the flag down to start one. Nothing in the code itself prevents a second call if the button were bypassed.
- JavaScript numbers are modelled as integers. No decision depends on them, but a non-integral number at `Parts[0]` is outside the model.
- String indexing works on Unicode scalar values, not UTF-16 code units.
- `length` and properties inherited from prototypes, such as methods, are not modelled. Line 40 reads none of them.
- backend/main.go is not part of this model. It is a thin wrapper over the HTTP server, the environment and the generation client, with no logic of its own to state.
