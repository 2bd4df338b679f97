# A Dafny model of the Deno custom runtime's handler and control-plane logic

The repository is a minimal custom runtime for a serverless function, written
in TypeScript for Deno. It polls the runtime API for the next invocation. It
hands the event to a handler that reverses the `words` field of the request
body. It posts the handler's JSON response back. When the runtime API
variable is not set, it runs the handler once on a local `event.json`
instead.

This project models the pure logic of `src/function/main.ts`:

- the handler's response record `{original, reversed, meta}`;
- the reversal `words.split('').reverse().join('')`, one function per step, on
  UTF-16 code units;
- the control-plane URLs: the base, `/next`, and `/<id>/response`;
- the choice between the polling loop and the CLI run;
- the building of the handler's inputs from a polled event.

Modules, one file each:

- `Wrappers` (`wrappers.dfy`): `Option` stands for the source's `null`. `Result` stands for a JavaScript exception.
- `Utf16` (`utf16.dfy`): a JavaScript string is a `seq<CodeUnit>`, where a code unit is 0..0xFFFF. It also has the surrogate ranges.
- `JsValues` (`js_value.dfy`): decoded JSON values and property access. Reading a property of `null` or `undefined` throws a `TypeError`.
- `Reversal` (`reversal.dfy`): `Split`, `Reverse` and `Join`, their composition `ReverseUnits`, and the reversal lemmas.
- `Handler` (`handler.dfy`): the handler as a pure function of the decoded body and the caller context.
- `HandlerExamples` (`handler_examples.dfy`): the worked "hello" request.
- `Runtime` (`runtime.dfy`): URLs, mode selection, context extraction and one loop iteration.

Behaviour of the code a reader may not expect:

- **A non-string `words`.** `reversed` is `null` exactly when `words` is not a string, for example when it is missing, a number or an array. Reversing an actual string never fails, whatever code units it holds.
- **A `null` body.** A body that decodes to `null` makes the read of `body.words` (line 40) throw. That read is outside the `try`, so the handler itself throws in this case. The polling loop catches the exception and logs it. `Handler.Handle` returns a `Failure` here.
- **The mode guard tests truthiness, not presence.** A variable set to the empty string selects the CLI run, not the polling loop.
- **A missing invocation-id header.** The header lookup then yields `null`, and `+` turns it into the text "null". The post URL becomes `<base>/null/response`.
- **The metadata is echoed whatever its type.** `sourceIp` and `userAgent` are copied as they are, so the model carries them as arbitrary JSON values.

## Model

| member | source | states |
|---|---|---|
| JsValues.GetProperty | src/function/main.ts:40 | reading `v.key` throws exactly when `v` is null or undefined; otherwise it gives the own property, or undefined when there is none |
| JsValues.GetPropertyReadsStoredValue | src/function/main.ts:40 | reading a key of an object that stores a value under it gives that value back |
| Reversal.Split | src/function/main.ts:48 | `split('')` yields one single-code-unit string per code unit, in order |
| Reversal.Reverse | src/function/main.ts:48 | `reverse()` keeps the length and puts element `|a|-1-i` at index `i` |
| Reversal.Join | src/function/main.ts:48 | `join('')` of strings one code unit long each gives exactly those code units, in order |
| Reversal.JoinSplit | src/function/main.ts:48 | `join('')` undoes `split('')` |
| Reversal.ReverseUnits | src/function/main.ts:48 | the whole expression keeps the length of `words` and maps index `i` to code unit `|words|-1-i` |
| Reversal.ReverseUnitsIsReverse | src/function/main.ts:48 | the split/reverse/join pipeline equals reversing the code units directly |
| Reversal.ReverseInvolution | src/function/main.ts:48 | reversing twice gives the original sequence |
| Reversal.ReverseUnitsInvolution | src/function/main.ts:48 | reversing `reversed` gives back `original` |
| Reversal.ReverseUnitsEmpty | src/function/main.ts:48 | the empty string reverses to the empty string |
| Reversal.SurrogatePairBroken | src/function/main.ts:48 | a surrogate pair comes out as low-then-high, which is no longer a pair |
| Reversal.CombiningMarkMovesFirst | src/function/main.ts:48 | "e" followed by a combining acute accent reverses to the accent followed by "e" |
| Handler.TryReverse | src/function/main.ts:47-49 | the guarded reversal is present exactly when `words` is a string; it then has the same length and the mirrored code units |
| Handler.Handle | src/function/main.ts:35-52 | the handler fails exactly on a null or undefined body; otherwise `original` is `body.words` unchanged, `meta` echoes the context, `reversed` is present exactly when `original` is a string, and reversing it gives `original` back |
| Handler.HandleReversesWords | src/function/main.ts:38-49 | for a string `words`, `original` is that string and `reversed` is its reversal, of the same length |
| Handler.HandleMissingWords | src/function/main.ts:38-49 | a body without `words` gets `reversed: null`, an undefined `original` and the echoed metadata, without an error |
| Handler.HandleSeparatesInputs | src/function/main.ts:38-45 | the metadata does not depend on `words`; success, `original` and `reversed` do not depend on the context |
| Handler.HandleEmptyWords | src/function/main.ts:40-48 | an empty `words` gives an empty `original` and an empty `reversed` |
| HandlerExamples.HandleHelloScenario | src/function/main.ts:35-52 | `{"words":"hello"}` gets `original` "hello", `reversed` "olleh" and the caller's metadata |
| Runtime.BaseUrl | src/function/main.ts:57 | the base URL is "http://", then the host, then "/2018-06-01/runtime/invocation" |
| Runtime.BaseUrlInjective | src/function/main.ts:57 | different hosts give different base URLs |
| Runtime.NextUrl | src/function/main.ts:62 | the poll URL is the base URL followed by "/next" |
| Runtime.IdText | src/function/main.ts:68-77 | the id text is the header value, or "null" when the header is missing |
| Runtime.ResponseUrl | src/function/main.ts:77 | the post URL splits into the base, a slash, the id text and "/response" |
| Runtime.ResponseUrlRoundTrip | src/function/main.ts:77 | the invocation id can be read back from the post URL |
| Runtime.ResponseUrlInjective | src/function/main.ts:77 | distinct invocation ids are posted to distinct URLs |
| Runtime.MissingIdPostsToNull | src/function/main.ts:68-77 | a missing id header posts to the same URL as the id "null" |
| Runtime.NextUrlIsNotResponseUrl | src/function/main.ts:62-77 | the poll URL never equals a post URL |
| Runtime.UrlsStartWithBase | src/function/main.ts:57-77 | both URLs start with "http://" + host + "/2018-06-01/runtime/invocation" |
| Runtime.Truthy | src/function/main.ts:93 | the guard on `Deno.env.get` (JavaScript `ToBoolean` of the lookup) holds exactly when the variable is set to a non-empty string |
| Runtime.StartedModes | src/function/main.ts:92-98 | exactly one mode starts: the polling loop when the variable is a non-empty string, the CLI run when it is unset or empty |
| Runtime.InvocationContext | src/function/main.ts:69-74 | the context can be built exactly when the event, `requestContext` and `http` are not null or undefined; `sourceIp` and `userAgent` are then `http`'s fields |
| Runtime.InvocationContextReadsEventShape | src/function/main.ts:69-74 | an event `{requestContext: {http: {sourceIp, userAgent}}}` yields the context holding exactly that `sourceIp` and `userAgent` |
| Runtime.Invoke | src/function/main.ts:67-83 | an iteration posts exactly when the context can be built and the body is not null; it posts to the response URL of the invocation id, from which the id reads back, and the posted record is the handler's response, whose `meta` holds the event's `http` fields and whose `original` holds `body.words` |

The CLI run at src/function/main.ts:103-112 builds the handler's inputs from
`json_input` by the same property paths as the loop does at lines 69-74.
`Runtime.InvocationContext` therefore models both.

## Left out

- Network I/O (lines 62-66, 77-85) is not modelled. This covers the `fetch` calls, the request headers, the case-insensitive lookup of the `Lambda-Runtime-Aws-Request-Id` header and the `resp.ok` check. The header's value is an input to `Runtime.Invoke`.
- The `while (true)` loop with its catch-and-log (lines 60-89) is not modelled. It never terminates and is driven by I/O. `Runtime.Invoke` models one iteration after the poll returns, and a `Failure` stands for the logged exception.
- `JSON.parse` and `JSON.stringify` (lines 37, 51, 67, 100) are library serialisation. The handler takes the decoded body, and it returns the record rather than its JSON text. A body that fails to parse would throw before line 38; that case is not modelled. So is the dropping of fields whose value is undefined when the record is serialised: `original` when `words` is missing, and `ip_addr` or `user_agent` when the event lacks `sourceIp` or `userAgent`.
- `Deno.env.get`, `Deno.readFileSync`, `TextDecoder` and `console` (lines 56, 93, 98-100, 115) are environment and file I/O. The variable's value is an input to `Runtime.StartedModes`.
- `async`/`await` and the unawaited `lambda_main_loop()` call carry no meaning here, because every step is sequential.
- JavaScript numbers are modelled as integers. The runtime only echoes them, so their floating-point nature does not matter.
- JsValues.GetProperty: does not model the properties JavaScript supplies beyond the JSON map. These are inherited ones such as `toString` and `constructor`, and the own `length` and index properties of strings and arrays. None of the property names the runtime reads (`words`, `requestContext`, `http`, `sourceIp`, `userAgent`) is one of them.
- Runtime.BaseUrl: takes the host as a string. The text "undefined" that `+` would produce for an unset variable is never reached, because the loop only starts when the variable is truthy.
