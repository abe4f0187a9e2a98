# Image relay of list-o-mate, modelled in Dafny

list-o-mate is a prototype mobile app for photographing equipment nameplates. Its backend
relay takes an uploaded photo and sends it to a vision provider for text and label
detection. It then checks that the labels suggest equipment identification, asks a chat
model to turn the recognised text into a structured record, and answers with one JSON
envelope. The repository holds two versions of this relay:

- the live one under `server/`;
- an older one under `scripts/`.

The model covers both versions and how they differ.

- `wrappers.dfy` (`Wrappers`): `Option` for a JavaScript value that may be null or
  undefined, and `Result` for a settled promise.
- `ascii.dfy` (`Ascii`): `toLowerCase`, restricted to ASCII letters. It keeps the length,
  lowers each character in place, is idempotent, and leaves lower-case text unchanged.
- `providers.dfy` (`Providers`): what the two external providers answer, treated as inputs
  (oracles). Each request the relay makes is a `Call`. The JavaScript error values are a
  `Failure`, and `Failure.Message` gives `error.message`.
- `http.dfy` (`Http`): the Express response object as a class `Response`.
  - `Status` and `Json` update it in place.
  - Every `res.json` call is recorded as an attempt.
  - A call throws when its body cannot be serialised, or when a response has already gone
    out.
  - `sent` is what reached the client. `HeadersSent` is `res.headersSent`.
  - `Envelope` maps a settled pipeline to its response.
- `recognizer.dfy` (`Recognizer`): the live `annotateImage`, `validateResponse` (always
  true) and `formatResponse` (guards its input, takes the first choice).
- `relay.dfy` (`Relay`): the live `/process-image` handler.
  - `Handle` is its pure specification. `HandleWith` does the same with the validator as a
    parameter, so the model can state what a rejection would do.
  - `ProcessImage` is the imperative handler on a `Response`. It takes the validator as a
    parameter, is proved equal to `HandleWith` for that validator, and makes exactly one
    `res.json` call per request. Because the validator is a parameter, the rejection
    branch is proved as well.
  - The `headersSent` guard in the catch never changes the outcome. Before the catch runs,
    no `res.json` call has been made, so nothing has gone out. The handler without the
    guard satisfies the same contract.
- `legacy_recognizer.dfy` (`LegacyRecognizer`): the older `anotateImage` (no text guard),
  the strict vocabulary validator, and `formatResponse` (no guard, takes the last choice).
- `legacy_relay.dfy` (`LegacyRelay`): the older handler, with its double-send path, and a
  corrected handler.
- `versions.dfy` (`Versions`): the two versions compared on the same inputs.

A request is modelled by three inputs:

- whether an upload is present, and its bytes;
- the vision provider's answer;
- the chat provider's answer.

Its outcome is a `Run`, which holds:

- every `res.json` attempt, with the status in force at the time;
- the text given to `formatResponse`, if it was called;
- the provider requests, in order;
- any error that escaped the handler.

## Model

| member | source | states |
|---|---|---|
| Ascii.LowerChar | server/recognizer.js:40 | lower-casing one character leaves no ASCII capital; a capital moves down by 32; any other character is unchanged |
| Ascii.ToLower | server/recognizer.js:40 | `toLowerCase` keeps the length, lowers each character in place, and leaves no capital |
| Ascii.ToLowerAll | server/recognizer.js:39-41 | `labels.map(l => l.toLowerCase())`: same length and order, each label lower-cased, none with a capital left |
| Ascii.ToLowerFixesLower | server/recognizer.js:52-54 | lower-casing labels that are already lower case (as the validator does to the annotator's output) changes nothing |
| Ascii.ToLowerIdempotent | server/recognizer.js:52-54 | lower-casing twice is lower-casing once |
| Providers.Failure.Message | server/server.js:51 | `error.message`: a thrown or provider message passes through unchanged; a TypeError, a cyclic-JSON error or ERR_HTTP_HEADERS_SENT has a fixed non-empty text |
| Http.Envelope | server/server.js:38-53 | status 200 exactly for a fulfilled pipeline, with `{success, data}` holding its value; a rejection becomes 500 with "Error processing image" and the error's message as `details` |
| Http.JsonFailure | scripts/server.js:27-38 | `res.json` throws exactly when the body is cyclic or a response already went out; a cyclic body fails at serialisation first |
| Http.FirstDelivered | server/server.js:47-48 | once a response went out it stays the one sent; what went out is an attempt that was made |
| Http.Response.HeadersSent | server/server.js:48 | `res.headersSent` holds exactly when a response has gone out, that is, when some earlier `res.json` call did not throw |
| Http.Response.constructor | server/server.js:18 | a fresh response has status 200, no attempt and nothing sent |
| Http.Response.Status | server/server.js:49 | `res.status(code)` sets the status and nothing else |
| Http.Response.Json | server/server.js:40-43 | `res.json(body)` records the attempt with the current status; it throws as `JsonFailure` says, sends only when it does not throw, and keeps "sent is the first attempt that did not throw" |
| Recognizer.AnnotateImage | server/recognizer.js:14-44 | an absent buffer fails with "No image buffer provided" before any provider request (an empty one goes ahead); a provider error passes its message through; no `fullTextAnnotation` fails with "No text found in image"; success happens exactly otherwise, with the text unchanged (possibly empty) and the labels lower-cased one for one in provider order |
| Recognizer.ValidateResponse | server/recognizer.js:46-58 | accepts every input, array or not |
| Recognizer.JsonRequest | server/recognizer.js:65-76 | the request holds exactly two system messages: the fixed directive, then the text itself |
| Recognizer.FormatResponse | server/recognizer.js:60-85 | absent or empty text fails with "No text provided for formatting" and makes no request; otherwise one request of exactly two messages, the directive and then the text verbatim; success exactly when the model returned a choice, and the result is the first choice; provider errors pass through; no choice is a TypeError |
| Relay.HandleWith | server/server.js:18-55 | one request with a given validator: exactly one response attempt and no escaping error; status 400 exactly when there is no upload; provider requests exactly when there is an upload, at most two |
| Relay.Handle | server/server.js:30-53 | the live handler answers every upload with 200 or 500, never 400, and formats every successful annotation |
| Relay.ProcessImage | server/server.js:18-55 | the handler run on a fresh response, with any validator, does what `HandleWith` says: the same attempts, formatter input and provider requests, exactly one `res.json` call, and that call is what went out |
| Relay.ExactlyOneResponse | server/server.js:38-53 | for any validator and any provider answers, exactly one response attempt, it is delivered, and no error escapes |
| Relay.MissingFileRefused | server/server.js:20-24 | no upload gives a 400 with "No image file received", no provider request and no formatter call |
| Relay.FormatterOnlyAfterAcceptance | server/server.js:30-37 | the formatter is called only after annotation succeeded and the validator accepted its labels, and then with the recognised text unaltered |
| Relay.AnnotationFailureStops | server/server.js:30-53 | a failed annotation gives one vision request, no formatter call, and a 500 whose `details` is the provider's message or "No text found in image" |
| Relay.RejectionIsServerError | server/server.js:33-53 | a rejection by the validator becomes a 500 with "Invalid image content" in `details`, not a 400, and the formatter is not called |
| Relay.EveryAnnotationIsFormatted | server/server.js:31-36 | with the live validator, every successful annotation reaches the formatter with its text |
| Relay.SuccessReply | server/server.js:38-44 | status 200 happens exactly when an upload is present, the text is non-empty and the model returned a choice; the response is then `{success: true, data: <first choice>}` |
| Relay.ChatErrorPassesThrough | server/server.js:45-53 | a chat provider error gives a 500 with the provider's message in `details`, after the vision request and the chat request |
| Relay.EmptyTextNeverReachesModel | server/recognizer.js:60-63 | empty recognised text reaches `formatResponse`, which refuses it without a chat request; the client gets a 500 with "No text provided for formatting" |
| Relay.ProviderRequestOrder | server/server.js:30-37 | at most two provider requests: the vision request on the uploaded bytes comes first, and a chat request only second, after a formatter call |
| LegacyRecognizer.AnotateImage | scripts/recognizer.js:11-24 | an absent buffer fails on `toString` before any request; a provider error passes through; no `fullTextAnnotation` is a TypeError reading `text` of null; success happens exactly otherwise, with the text unchanged and the labels lower-cased one for one in order |
| LegacyRecognizer.ValidateResponse | scripts/recognizer.js:26-34 | accepts exactly when some label equals "label", "material property", "signage" or "nameplate" |
| LegacyRecognizer.ValidateDependsOnlyOnSet | scripts/recognizer.js:27-33 | the verdict depends only on which labels occur, not on their order or repetition |
| LegacyRecognizer.ValidateMonotone | scripts/recognizer.js:29-33 | adding labels never turns an acceptance into a rejection |
| LegacyRecognizer.ValidateRejectsCapitalised | scripts/recognizer.js:27-33 | matching is exact: labels that each contain an ASCII capital are always rejected |
| LegacyRecognizer.ValidateIsCaseSensitive | scripts/recognizer.js:26-34 | matching is exact: "Nameplate" and "Signage" are rejected, "nameplate" is accepted |
| LegacyRecognizer.AnnotatedMatchingIgnoresCase | scripts/recognizer.js:20-34 | applied to the annotator's output, the validator accepts exactly when some provider description lower-cases to a vocabulary word |
| LegacyRecognizer.YamlRequest | scripts/recognizer.js:37-44 | the request holds exactly two system messages: the fixed directive, then the text itself |
| LegacyRecognizer.FormatResponse | scripts/recognizer.js:36-52 | every text, the empty one too, gives one request of two messages, the directive and then the text verbatim; success exactly when a choice came back, and the result is the last choice; provider errors pass through |
| LegacyRelay.Handle | scripts/server.js:14-40 | one request to the older handler: with an upload, the first attempt always goes out; an error escapes exactly when there is no upload or three attempts were made; three attempts mean no formatter call and only the vision request |
| LegacyRelay.ProcessImage | scripts/server.js:14-40 | the handler run on a fresh response does what `Handle` says: the same attempts, formatter input, provider requests and escaping error |
| LegacyRelay.RejectionSendsThreeTimes | scripts/server.js:19-39 | on rejected content: three `res.json` attempts; only the 400 "Invalid image content" goes out; no formatter call; an error escapes the catch |
| LegacyRelay.MissingFileEscapes | scripts/server.js:15-17 | no upload: a TypeError reading `buffer` escapes the handler before any provider request, and the handler sends nothing |
| LegacyRelay.AcceptedContentReply | scripts/server.js:17-32 | accepted content: the formatter gets the text verbatim and the requests are vision then chat; exactly one response: 200 with the last choice, 500 with the provider's message, or, when no choice came back, 500 with the TypeError of reading `message` of undefined |
| LegacyRelay.AnnotationFailureReply | scripts/server.js:33-39 | a failed annotation is answered once with 500: the provider's message, or the TypeError of reading `text` of null |
| LegacyRelay.HandleCorrected | scripts/server.js:19-23 | the older handler with the rejection branch ending the chain: every upload gets one attempt and no error escapes; rejected content gets the single 400 "Invalid image content" |
| LegacyRelay.CorrectedRespondsOnce | scripts/server.js:19-23 | the corrected handler answers every upload exactly once, and the client sees the same response, formatter input and provider requests as with the handler as written |
| Versions.SingleChoiceVersionsAgree | server/server.js:30-44 | when the strict validator accepts, the text is non-empty and one choice comes back, both versions hand the formatter the same text, ask the providers in the same order and send the same single 200 |
| Versions.ChoiceSelectionDiffers | server/recognizer.js:82-84 | with two choices, the live relay sends the first and the older one sends the last |
| Versions.LiveFormatsWhatLegacyRejects | server/recognizer.js:46-58 | content the strict validator rejects still reaches the live formatter, but never the older one |
| Versions.NameplateRoundTrip | server/server.js:30-44 | a photo labelled "nameplate" and "building" with text "RECAIR 6E\nTK1" gets a single 200 from both versions, carrying the model output, and the formatter sees exactly that text |

## Findings

| source | as written | input that shows it | evidently intended | confidence | as-written member | corrected member |
|---|---|---|---|---|---|---|
| scripts/server.js:19-31 | the rejection branch returns `res` into the next `.then`, which calls `res.json({success: true, data: res})`; that throws on the cyclic object, and the catch's `res.json` then throws because the 400 already went out | an upload whose labels are `["tree", "sky"]` and whose text is present | send the single 400 "Invalid image content" and stop | high; not executed | LegacyRelay.RejectionSendsThreeTimes | LegacyRelay.CorrectedRespondsOnce |

## How the two versions differ

Below, "live" means the version under `server/` and "older" the one under `scripts/`.

- Validation. The live `validateResponse` returns true for every input; the comment at
  server/recognizer.js:56-57 calls this permissive, "for testing". The older one is the
  strict vocabulary gate at scripts/recognizer.js:26-34.
- Which choice is kept. The live formatter keeps the first choice
  (server/recognizer.js:83). The older one keeps the last (scripts/recognizer.js:51).
- Rejected content. The older relay answers it with a 400 (scripts/server.js:19-23). The
  live relay throws at server/server.js:33-34, so rejected content would get a 500
  (`Relay.RejectionIsServerError`). With the live validator this path is never taken.
- Empty images. Neither version refuses an empty image. The live guard at
  server/recognizer.js:16-18 refuses only an absent buffer. An empty Buffer goes to the
  provider.
- Missing text. The live annotator fails with "No text found in image"
  (server/recognizer.js:33-35). The older one fails on reading `.text`
  (scripts/recognizer.js:21).
- Empty text. The live formatter refuses empty text before asking the model
  (server/recognizer.js:61-63). The older formatter has no guard, so it sends a chat
  request even for empty text (`LegacyRecognizer.FormatResponse`).
- Case. The older validator does not lower-case; it relies on the annotator having done
  so (scripts/recognizer.js:22).
- Missing upload. The live relay answers it with a 400 (server/server.js:20-24). The older
  one reads `req.file.buffer` unchecked (scripts/server.js:15).
- Number of responses. The live relay answers every request once. The older relay attempts
  three responses on rejected content (see Findings).

## Left out

- App.js (the map, pins and zoom UI) is not part of this model.
- The vision and chat providers are not modelled. Their answers are inputs, and their
  requests are recorded as `Call` values. Client construction, credentials, model names
  and the base64 encoding of the image in the older version are left out. The directive
  strings are kept as constants, but their wording has no effect in the model.
- Express, multer, cors, `app.listen`, the port and console logging are left out. So is
  the static `/health` route.
- Express's default error handler is left out. `Run.uncaught` records that an error
  escaped, not the page Express then sends. Node's reaction to the unhandled rejection in
  the older version is left out too.
- Promise scheduling is left out. Each chain is modelled as steps run in sequence.
- Relay.ProcessImage: it takes the upload and its buffer together. So the synchronous
  throw of `annotateImage` on an absent buffer cannot happen in the handler, and that
  escape path outside the promise chain is not modelled. `Recognizer.AnnotateImage`
  alone models the guard.
- The older loading glue is left out: the self-invoking block that calls an undefined
  `describeEquipment`, the commented-out clients, and `require('recognizer.js')` without
  `./` exporting `anotateImage` under another name. The older handler calls the older
  recognizer's functions as if loading had worked.
- `toLowerCase` covers ASCII letters only. The full Unicode mapping is not modelled.
- A provider result without `labelAnnotations`, labels that are not strings, and a
  `message.content` of null are not modelled. Labels and choice contents are always strings.
- TypeError messages follow V8's wording. For the cyclic-JSON error only its first line
  is kept.
