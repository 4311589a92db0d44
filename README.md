# Response sanitisation of the Gemini proxy endpoints

The Express server exposes two endpoints that pass user source code to the Gemini model and
then sanitise whatever text comes back.

- `POST /api/gemini/review` checks for an API key and for non-blank `code`. It clips the source
  to 12000 code units and appends a visible truncation marker. It then pulls a JSON analysis out
  of the model's free-text reply:
  - strip a Markdown fence and trim;
  - try a strict parse;
  - otherwise parse the block from the first `{` to the last `}`;
  - otherwise use a fixed default analysis.
- `POST /api/gemini/annotate` checks for a key and non-empty `code`. It splits the source on `\n`
  and sends at most the first 500 lines upstream. It parses the reply the same best-effort way,
  without fence stripping, using the greedy `/\{[\s\S]*\}/` match as the fallback. Then it
  normalises every annotation in `lines`:
  - drop items whose `line` is not a number between 1 and the line count;
  - clip `issue`, `hint` and `suggestion` to 180, 160 and 180 code units;
  - force `severity` into `info`/`warning`/`error`;
  - keep at most 8 explanation steps of at most 160 code units each;
  - report `truncated` when the source has more than 500 lines.

The model covers this logic as pure Dafny functions over values.

- JavaScript strings are sequences of UTF-16 code units (`JsStrings.JsString`), so every length
  and every slice counts the way JavaScript counts.
- A parsed JSON value is `Json.Json`.
- Three things are parameters of the functions that need them:
  - `JSON.parse` is `parse: JsString -> Option<Json>`, where `None` means it threw;
  - the formatting of a finite double by `String(x)` is `finiteToString`;
  - the Gemini call is `upstream`, a function from the text that leaves the process to the
    reply text.
- `String(x)` is spelled out for every other kind of value.
- A rejected request is one whose response does not depend on `upstream`. That is how the model
  states that the gate runs before the network call.

Modules:

| file | module | contents |
|---|---|---|
| `wrappers.dfy` | `Wrappers` | `Option` and `Result` |
| `js_strings.dfy` | `JsStrings` | code units, `slice`, `indexOf`/`lastIndexOf`, `trim`, `split`/`join`, the brace-block selection |
| `json.dfy` | `Json` | parsed values, truthiness, property lookup, JavaScript comparisons, `String(x)` |
| `requests.dfy` | `Requests` | the key check and the `code` field of a request body |
| `review.dfy` | `Review` | the review endpoint |
| `annotate.dfy` | `Annotate` | the annotate endpoint |

## Model

| member | source | states |
|---|---|---|
| Review.Snippet | server.js:39-40 | source of at most 12000 code units is sent unchanged; longer source is exactly its first 12000 code units followed by `"\n... (truncated)"`; the result never exceeds 12000 plus the marker's length |
| Review.ReviewGate | server.js:28-36 | 401 with `Gemini API key missing…` exactly when the key is missing or empty; with a key, 400 with `No code provided` exactly when `code` is absent, not a string, or white space only; success exactly when neither applies, and then the snippet of `code` is what goes upstream |
| Review.Cleaned | server.js:86 | the fence-stripped, trimmed text is a piece (infix) of the reply |
| Review.StripLeadingFence | server.js:86 | an opening fence at the very start is removed, with a `json` tag in any case right after it when there is one; text without an opening fence is unchanged; the result is a suffix |
| Review.StripTrailingFence | server.js:86 | a closing fence at the very end is removed, and text without one is unchanged; the result is a prefix |
| Review.ExtractJson | server.js:83-99 | empty text gives null; a strict parse of the cleaned text wins; when it throws and a `{`…`}` block exists, the result is the parse of that block; with neither the result is null; any value returned is the parse of some piece of the reply |
| Review.Analysis | server.js:101-106 | the analysis is always truthy, and is either the default analysis or the parse of a piece of the reply |
| Review.ReviewEndpoint | server.js:26-108 | the response is a rejection exactly when the gate fails, and it is the gate's rejection (status and message); otherwise it echoes the upstream reply as `raw` next to the extracted analysis |
| Review.RejectionPrecedesUpstream | server.js:28-36 | a rejected review request gives the same rejection whatever the upstream model would answer |
| Review.BlankCodeRejected | server.js:34-35 | white-space-only code is refused with 400 `No code provided` |
| Review.CleanedUnchanged | server.js:86 | text without a backtick or white space at either end is parsed as it is |
| Review.TaggedFenceStripped | server.js:86 | a reply fenced as ```` ```json … ``` ```` is unwrapped to exactly its body |
| Review.UntaggedFenceStripped | server.js:86 | a reply fenced as ```` ``` … ``` ```` is unwrapped to exactly its body, unless that body itself starts with `json` in some case |
| Review.TaggedFenceCleaned | server.js:86 | a reply fenced as ```` ```json … ``` ```` is cleaned to its body with the surrounding white space trimmed |
| Review.UntaggedFenceCleaned | server.js:86 | a reply fenced as ```` ``` … ``` ```` is cleaned to its body, trimmed, unless that body starts with `json` in some case |
| Review.StrictParseWins | server.js:87-88 | a cleaned reply that parses to a truthy value is the analysis |
| Review.BlockParseWins | server.js:89-96 | when the cleaned reply does not parse but its brace block parses to a truthy value, that value is the analysis |
| Review.BlockFailureGivesDefault | server.js:89-106 | when the cleaned reply does not parse and there is no brace block, or the block does not parse to a truthy value, the analysis is the default |
| Review.UnparsableReplyGivesDefault | server.js:89-106 | when no piece of the reply parses, the analysis is the default `{issues: [], improvements: [], complexity: {time: "N/A", space: "N/A"}, hints: []}` |
| Review.FalsyParseGivesDefault | server.js:87-88 | a reply that strictly parses to a falsy value is not retried on its brace block, and the default is used |
| Review.AnalysisShapeUnchecked | server.js:101-108 | a reply that parses to a number is passed on as the analysis: the requested schema is not enforced |
| Review.NotJsonScenario | server.js:33-108 | code `System.out.println(1)` with reply `not json` gives the default analysis and echoes `not json` |
| JsStrings.BraceBlock | server.js:91-94 | the first-`{`-to-last-`}` slice exists exactly when some `{` comes before some `}`; it is the leftmost-longest match of `/\{[\s\S]*\}/` and a piece of the text |
| JsStrings.IndexOf | server.js:91 | `-1` exactly when the unit is absent; otherwise the first position holding it |
| JsStrings.LastIndexOf | server.js:92 | `-1` exactly when the unit is absent; otherwise the last position holding it |
| JsStrings.Trim | server.js:34 | `trim()` removes white space only, and only before and after the result; the result neither starts nor ends with white space, and is empty exactly when the text is all white space |
| JsStrings.TrimStart | server.js:34 | the longest suffix not starting with white space; everything removed is white space |
| JsStrings.TrimEnd | server.js:34 | the longest prefix not ending with white space; everything removed is white space |
| JsStrings.TrimIdempotent | server.js:86 | trimming twice is trimming once |
| JsStrings.Take | server.js:40 | `slice(0, n)` is the prefix of length `min(len, n)`, and the whole sequence when it fits |
| JsStrings.Split | server.js:126 | `split('\n')` gives at least one piece, and no piece holds a line feed |
| JsStrings.JoinSplit | server.js:126-128 | joining the split pieces with `\n` gives the text back |
| JsStrings.SplitJoin | server.js:126-128 | splitting pieces free of `\n` after joining them gives the pieces back |
| JsStrings.SplitLength | server.js:126 | the number of lines is the number of line feeds plus one |
| JsStrings.JoinTakeIsPrefix | server.js:128 | joining the first n pieces gives a prefix of joining them all |
| Json.ToJsString | server.js:185 | `String(x)` of a string is that string |
| Json.BetweenIsFinite | server.js:182 | a number that passes both `>= lo` and `<= hi` is finite and in `[lo, hi]` |
| Requests.CodeField | server.js:33 | `code` is defined exactly when the body is an object with its own `code` property, and is then that property's value |
| Json.Get | server.js:178-189 | a property read gives a value exactly for an own key of an object, and then that key's value |
| Annotate.AnnotateGate | server.js:118-124 | every rejection is a 400; the `Gemini API key missing` message exactly when the key is missing, and `code required` for every other rejection; success exactly when the key is set and `code` is a non-empty string, which is what is processed |
| Annotate.PromptCode | server.js:126-128 | the prompt's code splits into exactly the first 500 source lines, is a prefix of the source, and is the whole source when it has at most 500 lines |
| Annotate.TruncatedCountsLineFeeds | server.js:126-128 | `truncated` holds exactly when the source has at least 500 line feeds |
| Annotate.ParseReply | server.js:170-177 | a truthy strict parse wins; otherwise the parse of the brace block, when there is one; otherwise the first, non-truthy, result stays; any value is the parse of a piece of the reply |
| Annotate.ReplyItems | server.js:178 | a batch is read exactly when the parsed reply is truthy and its `lines` property is an array, and the items are that array's elements |
| Annotate.LineFilterExact | server.js:182 | the filter keeps exactly the items whose `line` is a finite number between 1 and the full line count; fractions pass |
| Annotate.Coerced | server.js:185-188 | a missing or falsy field becomes the empty string, and a string stays as it is |
| Annotate.Kept | server.js:181-182 | the kept items are a subsequence of the reply's items, in their order; each in-range item occurs as often as in the reply, and every other item is dropped |
| Annotate.SeverityOf | server.js:187 | a valid severity name is kept, and every other value becomes `info` |
| Annotate.Steps | server.js:189-191 | at most 8 steps of at most 160 code units each, the clipped `String()` of the first input elements; a non-array gives `[]` |
| Annotate.NormaliseItem | server.js:183-192 | the line is passed through; `issue`, `hint` and `suggestion` are the 180/160/180-unit prefixes of `String(x` or `'')`; severity and steps as above; the result is within every bound |
| Annotate.Normalise | server.js:181-192 | a `null` item makes the pipeline throw; otherwise item k of the batch is the normalisation of kept item k, and every item is within bounds |
| Annotate.AnnotateEndpoint | server.js:116-198 | rejection exactly when the gate fails, and then the gate's rejection; the 500 exactly when the parsed `lines` holds `null`; without a usable `lines` the batch is empty, and otherwise it is the normalisation of the reply's items; `truncated` is `lines.length > 500` on every batch; every emitted annotation is within bounds |
| Annotate.RejectionPrecedesUpstream | server.js:118-124 | a rejected annotate request does not depend on the upstream model |
| Annotate.UnusableReplyGivesEmptyBatch | server.js:178-179 | a reply without a usable `lines` array gives the empty batch, with `truncated` still computed |
| Annotate.EmittedLinesExist | server.js:181-182 | every emitted annotation names a line between 1 and the number of source lines |
| Annotate.ItemRoundTrip | server.js:183-192 | serialising a normalised annotation and normalising it again gives it back |
| Annotate.KeptAll | server.js:182 | a list whose items are all in range passes the filter whole |
| Annotate.NormaliseIdempotent | server.js:181-192 | normalising an already normalised batch again gives the same batch |
| Annotate.NormaliseWhole | server.js:181-192 | an in-range list without `null` normalises item by item |
| Annotate.NormaliseSingle | server.js:181-192 | a one-item list whose item is in range normalises to that item's annotation |
| Annotate.EmptyCodeRejected | server.js:122-123 | the empty string is refused with 400 `code required` |
| Annotate.BlankCodeAccepted | server.js:122-124 | white-space-only code is accepted on this endpoint |
| Annotate.BadSeverityItemNormalised | server.js:183-192 | `{line: 3, issue: "unused variable", severity: "BAD"}` normalises to line 3, that issue, severity `info`, and empty hint, suggestion and steps |
| Annotate.InvalidSeverityScenario | server.js:170-193 | over a five-line source, a reply holding that item gives exactly one annotation with severity `info` and `truncated` false |
| Annotate.LineOnlyItemNormalised | server.js:182-192 | an item with only `line: 550` is in range over 600 lines and normalises to an annotation with empty texts |
| Annotate.AnnotationPastCapKept | server.js:126-128 | over a 600-line source the prompt holds 500 lines, yet an annotation for line 550 is kept and `truncated` is true |

Where the code's behaviour differs from what its own prompts ask for (server.js:41-48, 129-146), or may surprise a caller, the model follows the code.

- The review analysis is not checked against the schema requested in the prompt (`Review.AnalysisShapeUnchecked`).
- The annotation filter bounds `line` by the full line count, not by the 500 lines sent upstream (`Annotate.AnnotationPastCapKept`).
- The annotate endpoint accepts white-space-only code (`Annotate.BlankCodeAccepted`).
- A missing key is a 401 on the review endpoint and a 400 on the annotate endpoint.

## Left out

- Express routing, `cors`, `dotenv`, the health, compile and 404 handlers, and the listen call: HTTP plumbing.
- The `fetch` calls to Gemini, relaying a non-OK upstream status, and the reads of `resp.json()` and of the `candidates` path at server.js:59-81 and 153-168: network I/O. The reply text is the `upstream` parameter, and a missing text path (`|| ''`) is an empty reply.
- The prompt wording, the `language` field and the `temperature` setting: text and parameters sent to an external model. Only the code that goes into the prompt is modelled.
- The catch-all handlers at server.js:109-112 and 194-196, apart from the `null`-item 500 of the annotate endpoint (`Annotate.AnnotateFailed`): exception plumbing.
- `JSON.parse` internals: a parameter.
- The printing of finite numbers by `String(x)`: a parameter.
- Objects whose `toString` is an own property: a parsed object's `String(x)` is always `[object Object]`.
- The demo-mode compile output, the React front end, `useMediaQuery.js`, `constants.js` and `test-api.js`: UI and scripts with no sanitisation logic.
- The order of keys in JSON objects: maps carry no order.
- Json.ToJsString: only the string case is stated as a contract; the other cases are spelled out in its body, and finite-number formatting is a parameter.
