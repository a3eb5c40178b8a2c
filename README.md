# AI character dress-up: a verified model of the request/response core

The system lets a user upload a character image and a clothing image, type an
instruction, and get back one composite image produced by a generative model.
Below its user interface there are four pieces of decision logic. This
project models them in Dafny and proves what they promise:

- **The composite proxy** (`api/gemini-dress.ts`, and its Node-style twin
  `api_backup/api/gemini-dress.ts`). It checks the method (405), then the
  API key (500), then the body (400). It then makes one three-part request
  to the model provider and scans the nested, optional response for the
  first inline `image/` part (200, else 502 `NO_IMAGE_RETURNED`). Anything
  thrown inside its `try` becomes a 500. `Proxy.Respond` states the whole
  chain as one function. `EdgeProxy.Handler` returns a response value;
  `NodeProxy.Handler` writes into a `VercelResponse` object. Both are
  methods proved to produce exactly what `Respond` says. So the two versions
  agree on status, body and outbound calls once the body has been read
  into the same `BodyRead` (`NodeProxy.SameAsEdge`). The
  nested `for...of` search is `Proxy.FindImage`, a method with two loops.
  It is proved equal to the recursive `Proxy.FirstImage`, which in turn is
  proved to return the first qualifying part in candidate-then-part order.
- **The upload validator** (`ImageUploader.handleFileChange` in
  `src/App.tsx`). It checks the type against a three-entry allow-list, then
  checks the 4 MiB size limit, then takes `split(',')[1]` of the data URL.
- **The client service** (`src/geminiService.ts`). It resolves the API base
  and builds the request URL. It classifies the reply into a `data:` URI,
  a `GENERATION_FAILED:` error or a `NO_IMAGE_RETURNED` error. Otherwise it
  passes on unchanged the error of a rejected `fetch` or `response.json()`.
- **The app** (`src/App.tsx`). It holds the `t` lookup with its English
  fallback, the `canGenerate` gate, the preview URIs, and the mapping of
  errors to messages. `handleGenerate` is a method on the component state.

The model uses these JavaScript semantics: `trim` removes the ECMAScript
whitespace and line-terminator set (`Text.IsWhitespace`); truthiness of a
string is "present and non-empty"; `split` on one character; and
`String.prototype.replace` with a string pattern replaces only the first
match and expands `$$`, `$&`, `` $` `` and `$'` in the replacement. That
last point matters because the error detail spliced into
`errorGenerationFailed` is server text.

A cross-component fact is proved in `Pipeline`: the proxy's 502
`NO_IMAGE_RETURNED` reaches the app as `GENERATION_FAILED:NO_IMAGE_RETURNED`.
It is therefore shown through `errorGenerationFailed`, never through
`errorNoImage`. No answer of this proxy ever selects `errorNoImage`.

I/O becomes plain values:
- The provider is a `Proxy.GeminiModel` object whose `reply` function is its
  behaviour. Its ghost `requests` log records every `generateContent` call.
- `process.env.GEMINI_API_KEY` is a parameter.
- Reading the inbound body is a `Proxy.BodyRead` value, either the parsed
  fields or a thrown error.
- `fetch` is a function from the client's request to a `Service.Delivery`.
- `localStorage` and `import.meta.env` values are parameters.
- The `FileReader` is represented by the data URL it produces.

Three details of the code that the model keeps exactly:
- A part qualifies only when its `inlineData.data` is non-empty and its
  `mimeType` starts with `image/` (api/gemini-dress.ts:53).
- The uploader keeps `split(',')[1]` of the data URL, the piece between its
  first and second comma (src/App.tsx:59).
- A caught error's 500 body is its message when that is a string, and
  `Unknown error` otherwise (api/gemini-dress.ts:62-63).

## Model

| member | source | states |
|---|---|---|
| Text.TrimStart | api/gemini-dress.ts:25 | the result is a suffix of the input, everything dropped is whitespace, and the result does not start with whitespace |
| Text.TrimEnd | api/gemini-dress.ts:25 | the result is a prefix of the input, everything dropped is whitespace, and the result does not end with whitespace |
| Text.Trim | api/gemini-dress.ts:25 | `trim()` gives a string no longer than the input that neither starts nor ends with whitespace |
| Text.TrimIsSlice | api/gemini-dress.ts:25 | `trim()` keeps a slice of the input and drops only whitespace on either side of it |
| Text.TrimEmptyIffBlank | src/App.tsx:197 | `trim()` gives the empty string exactly when every character is whitespace |
| Text.Split | src/App.tsx:59 | `split` gives at least one piece and no piece contains the separator |
| Text.SplitJoin | src/App.tsx:59 | joining the pieces with the separator rebuilds the string |
| Text.SplitHasSecondPiece | src/App.tsx:59 | `split` yields a second piece exactly when the separator occurs in the string |
| Text.SplitNoSeparator | src/App.tsx:59 | a string without the separator splits into itself alone |
| Text.SplitAtFirst | src/App.tsx:59 | the first piece ends at the first separator |
| Text.Piece | src/App.tsx:59 | `split(sep)[k]` is undefined exactly when k is at least the number of pieces; index 0 is always defined; a defined piece is the k-th piece and holds no separator |
| Text.IndexFrom | src/App.tsx:215-216 | the index found is an occurrence, no earlier index is one, and "not found" means no occurrence at all |
| Text.PrefixFoundAtZero | src/App.tsx:214-215 | a pattern the string starts with is first found at index 0 |
| Text.Substitute | src/App.tsx:216 | a replacement without `$` is inserted literally |
| Text.ReplaceFirst | src/App.tsx:215-216 | `replace` with a string pattern: when the pattern occurs and the replacement has no `$`, the length changes by the replacement's length less the pattern's |
| Text.ReplaceAbsent | src/App.tsx:216 | `replace` with a pattern that does not occur changes nothing |
| Text.ReplaceLiteral | src/App.tsx:216 | with a `$`-free replacement, `replace` splices it in place of the first occurrence only |
| Text.ReplaceByMatchUnchanged | src/App.tsx:216 | a replacement of `$&` re-inserts the matched text, so the string comes back unchanged whenever the pattern occurs |
| Text.ReplacePrefixByEmpty | src/App.tsx:215 | removing the `GENERATION_FAILED:` prefix leaves exactly the text after it |
| Images.DataUri | src/geminiService.ts:26 | `data:${mimeType};base64,${base64}` starts with `data:` and ends with the base64 text |
| Images.DataUriRecoversMimeType | src/App.tsx:284 | the MIME type stands between `data:` and `;base64,` |
| Images.DataUriSecondPiece | src/App.tsx:59 | splitting a data URI on "," and taking index 1 gives back the base64 text when neither part has a comma |
| Proxy.HasKey | api/gemini-dress.ts:19-20 | defines the key check: `GEMINI_API_KEY` is set and non-empty; stated by `Proxy.MissingKeyRejected` and `Proxy.CalledIffAccepted` |
| Proxy.HasBase64 | api/gemini-dress.ts:25 | defines one image check of the input test: the field is present and its `base64` is non-empty; stated by `Proxy.InvalidInputRejected` |
| Proxy.ValidBody | api/gemini-dress.ts:25 | defines the input check the handler requires: both images carry non-empty `base64` and the prompt is present and not all whitespace; stated by `Proxy.InvalidInputRejected` and `Proxy.CalledIffAccepted` |
| Proxy.FaultMessage | api/gemini-dress.ts:62 | defines the caught error's text: its `message` when that is a string, else `Unknown error`; stated by `Proxy.FaultsAre500` |
| Proxy.Fault | api/gemini-dress.ts:61-64 | defines the 500 response carrying that text; stated by `Proxy.FaultsAre500` |
| Proxy.CandidatesOf | api/gemini-dress.ts:49 | defines `result?.response?.candidates ?? []`: a missing level gives no candidates |
| Proxy.PartsOf | api/gemini-dress.ts:51 | defines `c?.content?.parts ?? []`: a missing level gives no parts |
| Proxy.Qualifies | api/gemini-dress.ts:53 | defines the test of a part: its `inlineData.data` is non-empty and its `mimeType` starts with `image/` |
| Proxy.ImageOf | api/gemini-dress.ts:53-54 | a qualifying part yields non-empty data and an `image/` MIME type |
| Proxy.FirstInParts | api/gemini-dress.ts:51-56 | what the scan of one candidate returns has non-empty data and an `image/` type |
| Proxy.FirstImage | api/gemini-dress.ts:49-57 | what the scan over all candidates returns has non-empty data and an `image/` type |
| Proxy.FirstInPartsIsFirstMatch | api/gemini-dress.ts:52-56 | the part scan returns the image of the lowest-index qualifying part, and nothing exactly when no part qualifies |
| Proxy.FirstImageIsFirstMatch | api/gemini-dress.ts:49-57 | the scan returns the first qualifying part in candidate-then-part order; missing levels count as empty; nothing exactly when no part qualifies |
| Proxy.FindImage | api/gemini-dress.ts:49-57 | the nested loop search with early return computes `FirstImage` of `result?.response?.candidates ?? []` |
| Proxy.BuildRequest | api/gemini-dress.ts:29-46 | defines the outbound `generateContent` request; its properties are stated by `Proxy.OutboundRequestShape` |
| Proxy.Respond | api/gemini-dress.ts:13-65 | defines the handler's decision chain as a function of request, key and provider; its properties are stated by the `Proxy` lemmas below and it is the specification of `EdgeProxy.Handler` and `NodeProxy.Handler` |
| Proxy.Deliver | api/gemini-dress.ts:54-60 | defines the answer after the scan: 200 JSON with the selected image, or 502 `NO_IMAGE_RETURNED`; stated by `Proxy.SuccessIsFirstImage`, `Proxy.ImageFoundIs200` and `Proxy.NoImageIs502` |
| Proxy.Calls | api/gemini-dress.ts:35-46 | the calls an outcome records: none or one; the call logs of `EdgeProxy.Handler` and `NodeProxy.Handler` are proved to equal them |
| Proxy.GeminiModel.constructor | api/gemini-dress.ts:29-32 | a fresh client has made no calls |
| Proxy.GeminiModel.GenerateContent | api/gemini-dress.ts:35-46 | each call is logged and answered by the provider's behaviour for that request |
| Proxy.NonPostRejected | api/gemini-dress.ts:14-16 | any non-POST method gives 405 `Method Not Allowed` whatever the key or body, with no outbound call |
| Proxy.MissingKeyRejected | api/gemini-dress.ts:19-22 | a missing or empty key gives 500 `Missing GEMINI_API_KEY`, with no outbound call |
| Proxy.MissingKeyIgnoresBody | api/gemini-dress.ts:19-24 | without a key neither the body nor the provider affects the outcome: the body is not read |
| Proxy.InvalidInputRejected | api/gemini-dress.ts:24-27 | a missing or empty `character.base64` or `clothing.base64`, or a missing or all-whitespace prompt, gives 400 `Invalid input` with no outbound call |
| Proxy.CalledIffAccepted | api/gemini-dress.ts:14-35 | the provider is called exactly when the method, key and all three inputs pass; this is both directions |
| Proxy.OutboundRequestShape | api/gemini-dress.ts:29-46 | the call uses the key and `gemini-1.5-flash`; it has one user message with three parts: the directive followed by the literal prompt, the character's inline data, the clothing's inline data |
| Proxy.SuccessIsFirstImage | api/gemini-dress.ts:49-54 | a 200 carries exactly the data and MIME type of the first qualifying part, and no earlier part qualifies |
| Proxy.ImageFoundIs200 | api/gemini-dress.ts:49-55 | when the provider returns and some part qualifies, the answer is 200 with the data and MIME type of the first qualifying part, at or before that one |
| Proxy.NoImageIs502 | api/gemini-dress.ts:59-60 | when the provider returns and no part qualifies, the answer is 502 `NO_IMAGE_RETURNED` |
| Proxy.FaultsAre500 | api/gemini-dress.ts:61-64 | an error thrown reading the body or by the provider gives 500 with its string message, else `Unknown error` |
| Proxy.ResponseShape | api/gemini-dress.ts:13-65 | every path answers with one of 200, 400, 405, 500, 502; only 200 has a JSON body, and that body names non-empty `image/` data |
| Proxy.SecondCandidateSecondPart | api/gemini-dress.ts:49-57 | when only the second part of the second candidate is an `image/png` part, that part is returned |
| EdgeProxy.Handler | api/gemini-dress.ts:13-65 | the edge handler answers as `Respond` specifies and calls the provider exactly as `Respond` records |
| NodeProxy.VercelResponse.constructor | api_backup/api/gemini-dress.ts:11 | a fresh response has status 200 and nothing sent |
| NodeProxy.VercelResponse.Status | api_backup/api/gemini-dress.ts:13 | `res.status(code)` sets the status and sends nothing |
| NodeProxy.VercelResponse.Send | api_backup/api/gemini-dress.ts:13 | `res.send(text)` sends one text body with the current status |
| NodeProxy.VercelResponse.Json | api_backup/api/gemini-dress.ts:48 | `res.json(...)` sends one JSON body with the current status |
| NodeProxy.Handler | api_backup/api/gemini-dress.ts:11-58 | every path sends exactly one response, the one `Respond` specifies, and calls the provider as `Respond` records |
| NodeProxy.SameAsEdge | api_backup/api/gemini-dress.ts:11-58 | both versions give the same status and body, and make the same outbound calls: exactly the call `Respond` records, if any |
| Service.ApiBase | src/geminiService.ts:9-10 | a non-empty stored `API_BASE` wins, else `VITE_API_BASE`, else the empty string |
| Service.BuildRequest | src/geminiService.ts:9-15 | defines the client's POST request; its properties are stated by `Service.RequestShape` |
| Service.IsOk | src/geminiService.ts:17 | defines `response.ok`: a status from 200 to 299; stated by `Service.NotOkIsGenerationFailed` and `Service.SuccessIsDataUri` |
| Service.FailureDetail | src/geminiService.ts:18-19 | the detail is the body text when it is non-empty, else the status text, also when the body cannot be read |
| Service.Classify | src/geminiService.ts:17-26 | success happens only for a 2xx reply and is a `data:` URI; a non-2xx reply is an `Error` whose message starts with `GENERATION_FAILED:`; a rejected `fetch` is passed on unchanged |
| Service.GenerateDressUpImage | src/geminiService.ts:4-27 | one request built from the stored and configured base; success is a `data:` URI, and a non-2xx answer is a `GENERATION_FAILED:` error |
| Service.RequestShape | src/geminiService.ts:11-15 | the URL is the API base followed by `/api/gemini-dress`; the request is a JSON POST carrying the three inputs unchanged |
| Service.NotOkIsGenerationFailed | src/geminiService.ts:17-20 | a non-2xx reply throws `GENERATION_FAILED:` followed by the body text, or by the status text when the body is empty or unreadable |
| Service.ProxyNoImageIsGenerationFailed | src/geminiService.ts:17-20 | a 502 `NO_IMAGE_RETURNED` becomes `GENERATION_FAILED:NO_IMAGE_RETURNED`, never the bare message |
| Service.NoImageOnlyFromOkReply | src/geminiService.ts:22-25 | the bare `NO_IMAGE_RETURNED` arises exactly from a 2xx reply lacking a non-empty `imageBase64` or `mimeType`, or from a rejection carrying that message |
| Service.SuccessIsDataUri | src/geminiService.ts:22-26 | success is exactly a 2xx reply with both fields non-empty, and its value is the data URI built from them |
| Uploader.Validate | src/App.tsx:45-53 | a file is accepted exactly when its type is on the allow-list and it has at most 4194304 bytes; only an allowed type can be too large |
| Uploader.StripPrefix | src/App.tsx:59 | `split(',')[1]` is defined exactly when the data URL contains a comma, and the piece contains none |
| Uploader.ImageUploader.constructor | src/App.tsx:33-35 | the uploader starts with no error, no reads and no uploads |
| Uploader.ImageUploader.HandleFileChange | src/App.tsx:41-63 | no file changes nothing; a bad type sets `fileTypeError` and reads nothing; an oversized file sets `fileSizeError` and reads nothing; otherwise the error is cleared, the file is read, and the callback receives `split(',')[1]` of the result with the file's type |
| Uploader.TypeCheckedFirst | src/App.tsx:45-53 | a type outside the allow-list gets the type error, whatever the size |
| Uploader.SizeLimit | src/App.tsx:50-53 | for an allowed type, more than 4194304 bytes is too large and exactly 4194304 passes |
| Uploader.UploadRecoversBase64 | src/App.tsx:56-60 | for an accepted file, the callback receives exactly the base64 text of `data:<type>;base64,<b64>` |
| App.Translate | src/App.tsx:175-177 | `t` gives either the English entry or the current language's own entry, and never an empty text when the English entry is non-empty |
| App.TranslateFallsBack | src/App.tsx:175-177 | `t` gives the current language's entry when present and non-empty, else the English entry |
| App.AlertFor | src/App.tsx:210-220 | `errorNoImage` is chosen only for exactly `NO_IMAGE_RETURNED`, and `errorGenerationFailed` only for an `Error` whose message starts with `GENERATION_FAILED:` |
| App.AlertText | src/App.tsx:211-216 | defines the text for each choice: the looked-up message, with `{message}` replaced by the detail for a generation failure; stated by `App.GenerationFailedText` |
| App.ErrorMessage | src/App.tsx:209-220 | defines the message the `catch` block computes from the thrown value; stated by `App.AlertCases` and `App.GenerationFailedText` |
| App.AlertCases | src/App.tsx:210-220 | exactly `NO_IMAGE_RETURNED` selects `errorNoImage`; a `GENERATION_FAILED:` message selects `errorGenerationFailed` with the text after the prefix; anything else, or a non-Error value, selects `errorGeneric` |
| App.GenerationFailedText | src/App.tsx:214-216 | a `$`-free detail replaces the first `{message}` of the template; a template without it is shown unchanged |
| App.DollarDetailShowsPlaceholder | src/App.tsx:214-216 | for a template containing `{message}`, the failure `GENERATION_FAILED:$&` is shown as the template unchanged, placeholder included |
| App.CanGenerate | src/App.tsx:197 | defines the gate; stated by `App.CanGenerateIff` |
| App.CanGenerateIff | src/App.tsx:197 | `canGenerate` holds exactly when both images are set, the prompt is not all whitespace, and nothing is loading |
| App.Preview | src/App.tsx:284-290 | a preview exists exactly when the image is set, and is a `data:` URI |
| App.PreviewRecoversBase64 | src/App.tsx:284-290 | splitting a preview URI on "," and taking index 1 gives back the stored base64 text when neither it nor the type has a comma |
| App.AppState.constructor | src/App.tsx:163-169 | the component starts with no images, an empty prompt, no result, no error, not loading, in Korean |
| App.AppState.HandleCharacterUpload | src/App.tsx:189-191 | sets the character image and nothing else |
| App.AppState.HandleClothingUpload | src/App.tsx:193-195 | sets the clothing image and nothing else |
| App.AppState.HandleGenerate | src/App.tsx:199-225 | with the gate closed nothing changes; otherwise one request is sent and the state is as `Generated` describes |
| App.AppState.Generate | src/App.tsx:202-207 | one request is sent with the current inputs; afterwards loading is over and the inputs are unchanged; the result image or the mapped error is set, and the other is cleared |
| App.AppState.Settle | src/App.tsx:206-224 | success sets the image, failure sets the mapped message, and loading ends on both paths |
| Pipeline.ProxyAnswerAtClient | src/geminiService.ts:17-26 | a proxy 200 becomes the data URI of the selected image; any other proxy answer becomes `GENERATION_FAILED:` plus its text, or plus the status text when the text is empty |
| Pipeline.NoImageShownAsGenerationFailed | src/App.tsx:212-216 | the proxy's 502 `NO_IMAGE_RETURNED` is shown with `errorGenerationFailed`, its `{message}` replaced by `NO_IMAGE_RETURNED` |
| Pipeline.ProxyNeverShowsNoImage | src/App.tsx:210-220 | no answer of this proxy selects `errorNoImage`; each failure selects `errorGenerationFailed` with the proxy's text as detail |

## Left out

- The Gemini SDK itself (`GoogleGenerativeAI`, `getGenerativeModel`, the real `generateContent`) is foreign code. The model replaces it with `GeminiModel.reply`, the provider's answer for each request.
- HTTP plumbing is not modelled: `Request`, `Response`, `fetch`, the Vercel request and response objects, and JSON parsing. The proxy answers `(status, body)` values. The client sees a `Delivery`, and `Pipeline.Carries` states what the transport preserves. `statusText` is a parameter.
- JSON values of the wrong type are not modelled, such as a numeric `prompt` (its `trim` call throws, giving a 500), a non-string `mimeType` in the provider's answer, or a `candidates` value that is not iterable. Body and response fields are strings or absent. An error raised while reading the body is represented only as `ParseThrew`.
- Base64 encoding is not modelled. `FileReader` and its asynchronous callback are reduced to the data URL they yield; a failed read (`result` is `null`) makes the callback throw and upload nothing. The byte-level round trip of the encoding is not visible in the source either.
- Several side effects are not part of the model: `localStorage` persistence and the `apiBase` input (src/App.tsx:170-173, 183-187, 265-272), `document.documentElement.lang` (src/App.tsx:179-181), the language switcher and prompt text area setters, and all JSX rendering. Stored values and the language enter as parameters or fields.
- The texts of the translation tables are left out. `App.Catalog` holds any two tables whose English table defines every key, which the source's constant tables do. Under that condition `t` never yields `undefined`.
- React's asynchronous state updates are not modelled. Only the state after `handleGenerate` finishes is modelled; the loading phase in between is not. So is a language change while the request is in flight, where the source would use the stale `t`. When the gate is closed because a generation is already loading, `isLoading` stays true until that earlier run ends.
- How each runtime reads the HTTP body is not modelled. The edge version parses it with `await req.json()` (api/gemini-dress.ts:24). The Node version destructures the runtime's `req.body` (api_backup/api/gemini-dress.ts:22). Both handlers receive the same `BodyRead`, so `NodeProxy.SameAsEdge` assumes the two runtimes turn one HTTP body into the same fields, or into the same error and message.
- JavaScript strings are UTF-16; here they are sequences of Unicode characters.
- Concurrency between requests in the hosting runtime is not modelled. Each request is independent. The edge `config` export and the Vite configuration files are build settings.
