# Local translation server — a Dafny model

This project models the logic of a small Express server that translates text
with the NLLB-200 model. The model, the network, the clock and the browser
are outside the model. What is modelled:

- **The model loader of `server.js`** (`loadModel`). Five module-level
  variables move between the phases Idle, Loading, Ready and Failed.
  - Class: `ServerLoader.ServerModel`.
  - Specification function: `ServerLoader.Load`.
  - Each attempt is given its acquisition outcome as a parameter.
- **Its twin in `utils/model-loader.js`** (`loadTranslationModel` and its
  three getters).
  - Class: `ModelLoader.TranslationModelLoader`.
  - Specification function: `ModelLoader.LoadTranslation`.
- **The language catalog** (`languageMap`): 29 (key, model code, name)
  entries in declaration order, with the lookups the handlers make in it
  (`Catalog`).
- **The handlers** `/api/translate`, `/api/translate-all`, `/api/languages`
  and `/api/status` (`Handlers`, `Catalog.LanguageList`).
  - A handler that changes state is a method, proved against a function
    giving its answer from the loader's variables before the call.
  - The translation call is an abstract `Success(text) | Failure(message)`
    function.
- **The fan-out of `/api/translate-all`** (`FanOut`): a loop over the
  catalog in which each failing language keeps a failure message in its
  own slot.
- **The bounded request log** (`RequestLog`): push, then shift past 100
  entries, a 50-character preview, and the newest ten shown by
  `/api/status`.
- **`formatUptime` and the empty-input guard of `public/app.js`**
  (`Uptime`, `ClientGuard`).

Modules:

- `Common`: shared value types.
- `Catalog`, `ServerLoader`, `ModelLoader`, `RequestLog`, `FanOut`, `Uptime`: the parts above.
- `Handlers`: the HTTP handlers, using the modules above.
- `ClientGuard`: the page's guard, connected to what the server accepts.

Behaviour of the code that the model keeps:

- When `sourceLang` is not a catalog key, nothing is skipped, so the
  fan-out has 29 slots.
- A failed attempt is retried by the next request.
- utils/model-loader.js returns the pipeline itself, or null after
  catching its own error. server.js:65-66 reads `{translator, name, host}`
  from that result. `ServerLoader.Load` models `loadModel` against a loader
  that returns that object: each attempt's outcome is a parameter carrying
  its host failure list. `ServerLoader.LoadWired` models the two files as
  they are wired together, and the second row of ## Findings records the
  difference.

## Model

| member | source | states |
|---|---|---|
| ServerLoader.InitialIsIdle | server.js:31-35 | The initial variables are coherent and in the Idle phase. |
| ServerLoader.Begin | server.js:51-52 | Starting an attempt enters the Loading phase with an empty failure list, leaving the error and the source as they were. |
| ServerLoader.Finish | server.js:65-84 | Success sets the translator, `modelSource = {name, host}` and a null error. Failure clears the translator and the source, records the message, and sets the failures to `error.failures` or `[]`. Either way the loading flag ends lowered. |
| ServerLoader.Load | server.js:42-86 | Ready returns the loaded translator and starts nothing. Loading starts nothing and changes nothing. Idle or Failed start an attempt whose new state is `Finish(Begin(s), a)`, and whose outcome decides Ready or Failed. The result is always the translator left behind. Coherence of the variables is preserved. |
| ServerLoader.RetryAfterFailure | server.js:42-86 | A failed attempt leaves the Failed phase, and the next call then behaves as if the failure had never happened: failure is not memoised. |
| ServerLoader.Run | server.js:42-86 | A sequence of calls yields one result per call. |
| ServerLoader.FirstSuccess | server.js:65-68 | Locates the first successful acquisition; every outcome before it failed. |
| ServerLoader.ReadyStaysReady | server.js:43 | Once a translator is loaded, every later call returns it, starts no acquisition and changes nothing. |
| ServerLoader.AcquiresUntilFirstSuccess | server.js:42-86 | Starting from no translator, every call up to and including the first success starts exactly one acquisition and returns null until then. From that point on every call returns that translator, and `modelSource` names its host. |
| ServerLoader.FinishWired | server.js:54-84 | With the value utils/model-loader.js resolves to, no translator is ever published and the flag is lowered. A loaded pipeline publishes as the source whatever `name` and `host` properties the pipeline object carries (a parameter, since the library's object decides them), no error, and the failure list unchanged. A null result leaves the TypeError's message as the error, no source and no failures. |
| ServerLoader.LoadWired | server.js:42-86 | From Idle or Failed, `loadModel` as wired starts an attempt whose new state is `FinishWired`, and it returns the translator that attempt leaves. |
| ServerLoader.WiredNeverReady | server.js:65-66 | As wired, an attempt never reaches Ready and returns null. A successful load leaves a source without a translator, and the next call starts another attempt that also returns null. |
| ServerLoader.ServerModel.constructor | server.js:31-35 | The variables start in the initial state. |
| ServerLoader.ServerModel.BeginAttempt | server.js:51-52 | The fields become `Begin` of the old state. |
| ServerLoader.ServerModel.FinishAttempt | server.js:65-84 | The fields become `Finish` of the old state and the outcome. |
| ServerLoader.ServerModel.LoadModel | server.js:42-86 | The new fields and the returned translator are those of `Load` on the old state; coherence is kept. |
| ModelLoader.LoadTranslation | utils/model-loader.js:11-34 | A memoised translator is returned without calling `pipeline`. A call during an attempt does not call it. Otherwise `pipeline` is called: success stores the pipeline and clears the error; failure is caught, the message is stored and null is returned. The loading flag ends lowered and coherence is preserved. |
| ModelLoader.FailureIsRetried | utils/model-loader.js:26-31 | After a failed attempt the next call calls `pipeline` again, and a success then leaves a loaded translator with no error. |
| ModelLoader.SuccessIsMemoised | utils/model-loader.js:12 | After a successful attempt every call returns that pipeline and never calls `pipeline` again, whatever its outcome would be. |
| ModelLoader.TranslationModelLoader.constructor | utils/model-loader.js:7-9 | The variables start null, false and null. |
| ModelLoader.TranslationModelLoader.BeginAttempt | utils/model-loader.js:20 | Only the loading flag is raised. |
| ModelLoader.TranslationModelLoader.FinishAttempt | utils/model-loader.js:21-32 | Success stores the pipeline with no error; failure stores the message with no translator. The flag is lowered. |
| ModelLoader.TranslationModelLoader.LoadTranslationModel | utils/model-loader.js:11-34 | The new fields and the returned value are those of `LoadTranslation` on the old state. |
| ModelLoader.TranslationModelLoader.GetModel | utils/model-loader.js:41 | Returns the current translator, read-only. A translator is never reported while loading or alongside an error. |
| ModelLoader.TranslationModelLoader.IsModelLoading | utils/model-loader.js:42 | Returns the current loading flag, read-only. |
| ModelLoader.TranslationModelLoader.GetModelLoadError | utils/model-loader.js:43 | Returns the current error, read-only. |
| Catalog.KeysDistinctRows0 | server.js:89-90 | The keys of the first two entries occur nowhere later. |
| Catalog.KeysDistinctRows2 | server.js:91-92 | The keys of entries 2-3 occur nowhere later. |
| Catalog.KeysDistinctRows4 | server.js:93-94 | The keys of entries 4-5 occur nowhere later. |
| Catalog.KeysDistinctRows6 | server.js:95-96 | The keys of entries 6-7 occur nowhere later. |
| Catalog.KeysDistinctRows8 | server.js:97-98 | The keys of entries 8-9 occur nowhere later. |
| Catalog.KeysDistinctRows10 | server.js:99-100 | The keys of entries 10-11 occur nowhere later. |
| Catalog.KeysDistinctRows12 | server.js:101-102 | The keys of entries 12-13 occur nowhere later. |
| Catalog.KeysDistinctRows14 | server.js:103-117 | The keys of entries 14-28 are pairwise distinct. |
| Catalog.KeysNotEmpty | server.js:88-118 | No key is the empty string, so every key is truthy. |
| Catalog.CatalogWellFormed | server.js:88-118 | `languageMap` has 29 entries and pairwise distinct keys. |
| Catalog.Find | server.js:145 | Finds the first entry with the key, and finds none exactly when no entry has it. |
| Catalog.Lookup | server.js:145 | The own-key lookup of `languageMap[k]`: found exactly for the catalog keys, and it is an entry carrying that key. For inherited property names, see ## Findings. |
| Catalog.LookupIsUnique | server.js:88-118 | Looking up any entry's key yields that very entry. |
| Catalog.SourceCode | server.js:160 | A source key resolves to its own entry's model code; an unknown key resolves to 'eng_Latn'. |
| Catalog.DefaultSourceIsFallback | server.js:129 | The default source 'en' is a catalog key whose code is 'eng_Latn', the same code an unknown source falls back to. |
| Catalog.TargetCode | server.js:161 | A known target key resolves to its own entry's model code. |
| Catalog.LanguageList | server.js:120-126 | One option per catalog entry, with its key and display name, in catalog order. |
| Catalog.ListedCodesResolve | server.js:120-126 | Every listed code is a non-empty catalog key whose lookup yields the displayed name. |
| Handlers.Truthy | server.js:140 | JavaScript truthiness of a string field, as in `!text` and `!targetLang`: an absent field is falsy, and a present one is truthy exactly when it is non-empty. |
| Handlers.TargetCheckPassesAsWritten | server.js:145 | The target check as written, `!languageMap[targetLang]`: every catalog key passes, and so does every name inherited from `Object.prototype`. |
| Handlers.LogStatusFor | server.js:141-175 | The status the handler leaves on its log entry is never pending, and it is success exactly for a 200 answer. |
| Handlers.Validate | server.js:129-148 | A missing text throws. An empty text or a missing or empty target gives "missing parameters". A target outside the catalog gives "unsupported". Otherwise the request is accepted with the source defaulting to 'en'. All these cases hold in both directions. |
| Handlers.PrototypeNamesAreNotKeys | server.js:88-118 | None of the twelve names inherited from `Object.prototype` is a catalog key. |
| Handlers.AsWrittenCheckDiffersOnPrototypeNames | server.js:145 | The check as written passes a non-catalog name exactly when it is one of the names inherited from `Object.prototype`. |
| Handlers.PrototypeNamePassesTargetCheck | server.js:145 | 'constructor' passes `!languageMap[targetLang]` as written, although it is no catalog key; `Validate` rejects it as unsupported. |
| Handlers.TranslateOutcome | server.js:128-182 | The answer is a throw exactly for a missing text, and a 400 exactly when validation rejects, without loading. A 503 carrying the loader's error comes exactly when an accepted request finds no translator. A 200 requires an accepted request, a Ready loader and a successful call on the resolved codes. For an accepted request the answer is exactly `AcceptedOutcome`: 200 with the call's translation, or 500 with its message. |
| Handlers.AcceptedOutcome | server.js:150-181 | For an accepted request: 503 exactly when loading leaves no translator. Otherwise 200 with the call's translation or 500 with its message. |
| Handlers.Respond | server.js:150-181 | The loader fields become `Load` of the old state, and the answer is `AcceptedOutcome`. |
| Handlers.HandleTranslate | server.js:128-182 | Returns `TranslateOutcome`. The loader changes only for accepted requests. When text is present, exactly one fresh entry is appended, holding the 50-character preview and the target; its status is success exactly for a 200. A missing text leaves the log untouched. |
| Handlers.TranslateAllOutcome | server.js:184-231 | 400 exactly for a missing or empty text, without loading. 503 with the loader's error exactly when no translator results. Otherwise the fan-out over the catalog with the resolved source code: 28 slots when the source is a catalog key, 29 otherwise. |
| Handlers.HandleTranslateAll | server.js:184-231 | Returns `TranslateAllOutcome`. The loader changes only when the text is truthy. |
| Handlers.Status | server.js:233-247 | `modelLoaded` and `modelLoading` reflect the Ready and Loading phases. A loaded model reports no error, a source and no failures. `totalRequests` is the log length, at most 100. The recent logs are the newest ten. The uptime is the elapsed time in seconds, rounded down. `status` is "running", `modelId` is the NLLB model id, and `modelError`, `modelSource` and `modelFailures` are the loader's own variables, so a Failed phase exposes its diagnostics. |
| RequestLog.LastN | server.js:138 | The result is the suffix of the input of length min(n, length). |
| RequestLog.Preview | server.js:133 | The preview is the prefix of the text of length min(50, length). |
| RequestLog.Appended | server.js:137-138 | After a push the log holds at most 100 entries and ends with the new one. Below capacity nothing is dropped; at capacity exactly the oldest is dropped. |
| RequestLog.AppendAll | server.js:137-138 | Any number of pushes keep the log within 100 entries. |
| RequestLog.LastNOfLongTail | server.js:138 | The last n of a concatenation whose tail has at least n elements lie within that tail. |
| RequestLog.LastNAfterTrim | server.js:138 | Dropping the oldest elements first does not change which newest n remain. |
| RequestLog.LogKeepsNewest | server.js:137-138 | However many requests arrive, the log is exactly the newest 100 entries ever pushed, oldest first. |
| RequestLog.LogEntry.constructor | server.js:131-136 | A new entry holds the 50-character preview, the target, and status pending. |
| RequestLog.RequestLog.constructor | server.js:37 | The log starts empty. |
| RequestLog.RequestLog.Append | server.js:137-138 | The entries become `Appended` of the old entries, and the capacity bound is kept. |
| RequestLog.RequestLog.Recent | server.js:245 | `slice(-10)`: the newest min(10, length) entries, oldest first, all taken from the log. |
| RequestLog.Records | server.js:245 | One serialised record per entry, in order, with its current status. |
| RequestLog.RecentRecords | server.js:245 | The serialised newest min(10, length) entries in order, each with its text, target and current status. |
| FanOut.Slot | server.js:211-219 | A slot carries its language's key and name. |
| FanOut.FanOutOver | server.js:203-221 | The fan-out has one slot per catalog position whose key is not the source. |
| FanOut.Kept | server.js:203-204 | The kept positions are no more than the catalog size and all lie within it. |
| FanOut.KeptIsExact | server.js:203-204 | The kept positions are strictly increasing, are exactly the positions whose key differs from the source, and include every such position. |
| FanOut.FanOutFollowsCatalog | server.js:203-221 | Slot j holds the j-th non-source language and the slot built from that language's own call, in catalog order. |
| FanOut.KeptCount | server.js:203-204 | Kept positions plus occurrences of the source key equal the catalog size. |
| FanOut.OccurrencesOfUniqueKey | server.js:88-118 | With distinct keys a key occurs once if present and never otherwise. |
| FanOut.FanOutShape | server.js:203-221 | Over distinct keys, the output has one slot fewer than the catalog when the source is a key, and as many otherwise. Its keys are exactly the other catalog keys, each once. |
| FanOut.CatalogFanOut | server.js:88-118 | On `languageMap`: 28 slots when the source is a key, 29 otherwise. The slot keys are distinct catalog keys other than the source. |
| FanOut.FailureIsolated | server.js:206-220 | A slot depends only on its own language's call. A failure yields the name and "翻译失败: " + message in that slot, and the number of slots does not depend on which calls fail. |
| FanOut.TranslateEach | server.js:203-221 | The loop builds exactly `FanOutOver` of the catalog. |
| FanOut.TranslateAll | server.js:200-221 | Resolves the source code, then builds the fan-out over `languageMap`. |
| Uptime.UptimeSeconds | server.js:234 | `Math.floor(ms / 1000)`: the whole seconds with s·1000 ≤ ms < s·1000 + 1000. |
| Uptime.DigitChar | public/app.js:85 | A digit character whose value is the digit. |
| Uptime.Decimal | public/app.js:85-87 | A number prints as non-empty decimal digits, with no leading zero, and as "0" exactly for 0. |
| Uptime.DecimalRoundTrip | public/app.js:85-87 | Reading the printed digits back gives the number. |
| Uptime.DigitSpan | public/app.js:85-87 | The longest all-digit prefix is followed by a non-digit, if anything. |
| Uptime.Breakdown | public/app.js:84-88 | Below 60, the seconds themselves. Below 3600, minutes in 1..59 with m·60 ≤ s < m·60 + 60. Otherwise hours ≥ 1 and minutes in 0..59 with h·3600 + m·60 ≤ s < h·3600 + m·60 + 60. |
| Uptime.FormatUptime | public/app.js:84-88 | The text is the rendering of the breakdown of the seconds. |
| Uptime.DigitSpanOfDecimal | public/app.js:85-87 | A printed number followed by a non-digit splits back into the number and that text. |
| Uptime.SingleUnitRoundTrip | public/app.js:85-86 | "N秒" and "N分钟" read back as N in that unit. |
| Uptime.HoursMinutesRoundTrip | public/app.js:87 | "H小时 M分钟" reads back as H and M. |
| Uptime.RenderRoundTrip | public/app.js:84-88 | Every rendering reads back as its reading, so distinct readings never print the same text. |
| Uptime.FormattedUptimeReadsBack | public/app.js:84-88 | What the page shows for a server uptime reads back to the breakdown of its whole seconds. |
| ClientGuard.IsTrimmable | public/app.js:91 | The whitespace and line terminators `trim()` removes include space, tab, line feed and carriage return, and never a letter or a digit. |
| ClientGuard.TrimStart | public/app.js:91 | The result is a suffix whose dropped characters are all whitespace and which does not start with whitespace. |
| ClientGuard.TrimEnd | public/app.js:91 | The result is a prefix whose dropped characters are all whitespace and which does not end with whitespace. |
| ClientGuard.Lead | public/app.js:91 | Counts the leading whitespace characters. |
| ClientGuard.TrimmableTailOfSuffix | public/app.js:91 | Trailing whitespace of a suffix is trailing whitespace of the whole text. |
| ClientGuard.TrailingTrimmable | public/app.js:91 | Everything after the trimmed part is whitespace. |
| ClientGuard.Trim | public/app.js:91 | `trim()` keeps the infix between the leading and trailing whitespace, and it neither starts nor ends with whitespace. |
| ClientGuard.TrimEmptyIff | public/app.js:91-97 | The trimmed text is empty exactly when every character is whitespace. |
| ClientGuard.TranslateToSelected | public/app.js:90-112 | No request exactly when the input is all whitespace; otherwise the trimmed text, the chosen target and source 'en'. |
| ClientGuard.TranslateToAll | public/app.js:129-153 | A request exactly when the user confirms and the input has a non-whitespace character; it carries the trimmed text and source 'en'. |
| ClientGuard.SelectedRequestIsAccepted | public/app.js:90-112 | A request built with a language offered by `/api/languages` always passes the server's validation. |
| ClientGuard.AllRequestIsNotRejected | public/app.js:129-153 | A request built by `translateToAll` is never rejected for its text, and its source 'en' is a catalog key. When the server translates it, the answer has 28 slots. |

## Left out

- Express plumbing: routing, JSON parsing, static files, `res.status().json()`, `app.listen` and the startup banner. Handlers are functions and methods returning a response variant.
- The Windows console code-page fix (server.js:5-26): platform I/O.
- Console logging in every handler and loader: output only.
- Timestamps (`toISOString`) and the clock (`Date.now()`). `Status` takes the elapsed milliseconds as a parameter.
- ServerLoader.ServerModel.LoadModel: the busy-wait of a caller that arrives while an attempt is in flight is one step that starts nothing and returns the current (null) translator. The model does not capture the caller waiting until the flag drops and then returning whatever translator that attempt left. Real interleaving of requests is not modelled.
- ModelLoader.TranslationModelLoader.LoadTranslationModel: the same single-step simplification of the busy-wait at utils/model-loader.js:13-18.
- The `@xenova/transformers` pipeline and inference: acquisition and translation are abstract. A call is a deterministic function of pipeline, text and codes, so two calls with the same arguments agree. A reply with no `result[0]` throws and counts as a `Failure`. A reply whose `result[0]` has no `translation_text` is not modelled: the server answers 200 with no translation, and the fan-out slot's translation is undefined.
- ServerLoader.Load: assumes the loader resolves to `{translator, name, host}` with a translator, as server.js:65-66 reads it. utils/model-loader.js resolves to the pipeline itself or to null. With that loader the server never reaches Ready: every request starts a new attempt and is answered 503 with `details: null` or a TypeError message. `ReadyStaysReady` and `AcquiresUntilFirstSuccess` hold for the intended loader only. `LoadWired` and `WiredNeverReady` model the pairing as it is (second row of ## Findings).
- Handlers.HandleTranslate: a missing `text` ends in `Threw`. Nothing after the TypeError of server.js:133 is modelled. Under Express 4 the rejected promise of the async handler goes unhandled, so the request hangs and Node 15 or later exits. Under Express 5 it becomes a 500.
- The `onHostAttempt`/`onHostFailure` callbacks and the mirror walker. server.js reads `.translator`, `.name` and `.host` from the loader's result, but utils/model-loader.js returns the pipeline itself. The server model therefore takes the acquisition outcome as a parameter. Neither server.js nor utils/model-loader.js contains a mirror walk or host normalisation.
- scripts/download-models.js is not part of this model: it is console output and process exit only.
- The outer `catch` of `/api/translate-all` (server.js:224-230): every per-language failure is caught inside the loop and `loadModel` catches its own errors, so in the model that branch is unreachable.
- Request bodies whose fields are not strings (numbers, objects, `null` versus absent): a field is either an absent value or a string. A `null` `sourceLang` is treated like an absent one, although JavaScript's default applies only to `undefined`.
- RequestLog.Preview: Dafny characters are Unicode scalar values, while `substring` counts UTF-16 code units. A text with characters outside the Basic Multilingual Plane, such as emoji, can give a different cut.
- Uptime.FormatUptime: JavaScript prints numbers of 1e21 and above in exponent notation; the model prints every number in plain decimal.
- The DOM, `fetch`, alerts, timers and the other page functions of public/app.js. `confirm` is a boolean parameter of `TranslateToAll`.

## Findings

| source | as written | input that shows it | evidently intended | confidence | as-written member | corrected member |
|---|---|---|---|---|---|---|
| server.js:145 | `!languageMap[targetLang]` also finds the properties an object literal inherits, such as `constructor`, `toString` and `__proto__`, so the unsupported-language check lets them through | `{"text": "Hello", "targetLang": "constructor"}` passes the 400 check and reaches the model call with an undefined target code | only the 29 catalog keys are supported targets (answered 400 otherwise) | not executed | Handlers.TargetCheckPassesAsWritten | Handlers.Validate |
| server.js:65-66 | `loadModel` reads `result.translator`, `result.name` and `result.host`, but utils/model-loader.js resolves to the pipeline itself, or to null after catching its own error | a successful load: `result.translator` is undefined, so no translator is stored and the next request starts another attempt, which utils/model-loader.js answers from its own cache; a failed load: `result.translator` on null throws a TypeError whose message replaces the loader's error | the loader resolves to `{translator, name, host}`, so a success is memoised and the server reaches Ready | not executed | ServerLoader.WiredNeverReady | ServerLoader.Load |
