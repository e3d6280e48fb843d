# processMedicalFiles — a verified model of the upload-to-PDF request handler

This project models `processMedicalFiles`, an HTTP function. It:

- accepts an authenticated multipart upload of medical documents;
- forwards the files to an external conversion wrapper;
- stores the PDF it gets back in Cloud Storage under the caller's uid, with a download token;
- records a timeline entry in Firestore that points at the PDF;
- answers with the entry id and the download URL.

The model covers four parts.

- **Header checks** (`checks.dfy`, module `RequestChecks`).
  - `requireAuth` matches `/^Bearer (.+)$/`. The match is case-sensitive and needs exactly one space. The token is the whole rest of the header, which must be non-empty and hold no line terminator.
  - `assertMultipart` makes three ordered tests:
    - the ASCII-lower-cased Content-Type starts with `multipart/form-data`;
    - it contains `boundary=`;
    - a raw body is present.
- **The upload accumulator of `readMultipartFiles`** (`upload.dfy`, module `Upload`; `upload_trace.dfy`, module `UploadTrace`).
  - The parser's callbacks are a sequential trace of events: `file`, `data`, `limit`, stream `error`, `end`, parser `error`, `finish`.
  - `ReadMultipartFiles` runs them in a loop against the shared `files` list, the per-part promise states and the per-part chunk lists.
  - It is proved equal to the state-machine function `Replay`.
  - `UploadTrace` restates what that state means per stream:
    - which streams are uploads;
    - each stream's chunks;
    - how each part promise first settled;
    - the expected `files` list.
  - It then proves how the call settles.
- **The handler** (`handler.dfy`, module `Handler`).
  - The method checks the HTTP method, authenticates, parses the upload and reads the secret.
  - It builds the form in a loop, posts it, checks the answer, stores the PDF, writes the timeline entry and replies.
  - Every call to the outside world is recorded in an ordered effect log. Its contract states:
    - which reply each stage produces;
    - which calls were made, with exactly which arguments;
    - that each call is made once the guards before it have passed.
- **Artifact references** (`artifact.dfy`, module `Artifact`; `uri.dfy`, module `UriComponent`; `strings.dfy`, module `Strings`).
  - The storage path is `users/<uid>/medical_outputs/medical_<ms>.pdf`.
  - `encodeURIComponent` follows section 15.1.3.4 of ECMA-262 5.1: UTF-8 bytes as in RFC 3629, upper-case `%XX` escapes as in section 2.1 of RFC 3986. `decodeURIComponent` is its reference inverse.
  - The download URL is read back by a parser, and the round trip is proved.
  - The `originalFiles` summary is modelled.

Code outside the handler is modelled as parameters and outcomes gathered in `Handler.Platform`:

- the token verifier;
- the multipart parser (how its constructor went, and the events it emitted);
- the secret;
- the wrapper POST;
- `Date.now()` and `randomUUID()`;
- the Storage `save`;
- the Firestore `add`.

Points where the code does something other than a reader of its comments and names might expect, all modelled as written:

- Entries of `files` are appended when a part ends, so their order is end order, not stream order.
- The storage path has a `users/` prefix.
- Only the presence of `rawBody` is checked, not that it is non-empty.
- Authentication runs before the multipart checks.
- An invalid token is answered with whatever the verifier throws. That is 500 when the error carries no `status`, not 401.
- Once `finish` has fired, the call rejects with the first part rejection `Promise.all` sees. For parts already rejected when `finish` fires, that is the first in `filePromises` order. After that, it is the first part to reject in time. Pending sibling parts are not awaited.
- Nothing rejects an eleventh file.
- A failed Firestore write leaves the stored PDF in place. The model has no compensating delete.

## Model

| member | source | states |
|---|---|---|
| RequestChecks.BearerTokenMatches | functions/src/index.ts:40-42 | The header (absent read as "") yields token t if and only if it is exactly "Bearer " + t, with t non-empty and free of line terminators |
| RequestChecks.RequireAuth | functions/src/index.ts:39-46 | A header without the bearer form throws 401 "Missing Authorization header"; otherwise the result is the verifier's answer for exactly the header's token |
| RequestChecks.AssertMultipart | functions/src/index.ts:48-63 | The three ordered outcomes, each with its 400 message: not a multipart/form-data prefix (ignoring ASCII case), then no `boundary=` substring, then no raw body; Pass exactly when all three hold |
| RequestChecks.LowerPrefix | functions/src/index.ts:50-52 | startsWith on the lower-cased header holds if and only if the header matches the prefix letter by letter ignoring ASCII case |
| RequestChecks.LowerContains | functions/src/index.ts:50-55 | includes on the lower-cased header holds if and only if the substring occurs somewhere ignoring ASCII case |
| Strings.Contains | functions/src/index.ts:55 | The substring test holds if and only if the substring occurs at some position |
| Upload.FirstRejected | functions/src/index.ts:134-137 | The first rejected part promise among those awaited: it is rejected, and none before it is |
| Upload.ReadMultipartFiles | functions/src/index.ts:70-147 | The loop over the callbacks leaves the settlement `Replay` defines; a failed header check or a throwing parser constructor rejects with that error before any callback |
| Upload.OnEvent | functions/src/index.ts:86-130 | One callback's effect on the shared lists is exactly the state machine's step: a `file` event adds a drained stream or an accepted one with default-filled name and type; `data` appends a chunk; `limit` and `error` reject a pending part with 413 or 400; `end` appends an entry and resolves a pending part; a parser error rejects the unsettled call; the first `finish` fixes the awaited list |
| UploadTrace.AwaitAllFulfilled | functions/src/index.ts:134-135 | `Promise.all` resolves only once `finish` has fixed the awaited list and every awaited part has resolved, and then with the files collected so far |
| UploadTrace.AwaitAllFailed | functions/src/index.ts:134-137 | `Promise.all` rejects only with the reason of the first rejected awaited part |
| UploadTrace.ReplayAgrees | functions/src/index.ts:86-123 | After any trace, the state holds one stream per `file` event. A non-`files` stream is drained. An accepted stream has the default-filled name and type, the chunks that arrived after it opened, and its first settlement. `files` holds one entry per `end` of an upload stream, in end order, with the concatenated chunks. The awaited list is the streams opened before `finish` |
| UploadTrace.SettledIsFinal | functions/src/index.ts:126-138 | Once the call has resolved or rejected, no later callback changes the outcome |
| UploadTrace.ResolvedAt | functions/src/index.ts:132-135 | For a resolved call, the callback that resolved it: the call was unsettled just before it and resolved with the given files just after it |
| UploadTrace.FulfilledMeansAllEnded | functions/src/index.ts:132-135 | A resolved call has seen `finish`, and every upload part awaited then has resolved. At the callback that resolved it, the awaited list was the same, every awaited upload part had already resolved, and the files were exactly the expected entries up to that callback |
| UploadTrace.ResolvingEnd | functions/src/index.ts:112-118 | For a resolved upload part, the callback that resolved it: an `end` of that part, with the part opened and still pending just before it |
| UploadTrace.EntryOf | functions/src/index.ts:112-119 | An upload part that resolved has an entry among the expected files, with the part's name and type |
| UploadTrace.EntryOfAtEnd | functions/src/index.ts:112-118 | That entry is the one appended by the `end` that resolved the part: it comes right after the entries of the earlier callbacks, and its buffer is the concatenation of the chunks the part delivered before that `end` |
| UploadTrace.EntryOfInjective | functions/src/index.ts:112-119 | Two different resolved upload parts have their entries at different positions |
| UploadTrace.FulfilledHoldsEveryPart | functions/src/index.ts:112-135 | The files a resolved call gives hold, for every upload part awaited, the entry appended at the `end` that resolved the part, with its name, its type and the concatenation of its chunks before that `end` |
| UploadTrace.RejectedPartFails | functions/src/index.ts:101-137 | If an awaited upload part was rejected, the call is rejected |
| UploadTrace.FateRejection | functions/src/index.ts:101-110 | A rejected part carries 413 "File too large: <name>" for its own default-filled name, or 400 |
| UploadTrace.FailureStatus | functions/src/index.ts:101-130 | Any rejection that comes from the callbacks is 400, or 413 "File too large: <name>" for some upload stream |
| UploadTrace.ParserErrorFails | functions/src/index.ts:125-130 | A parser error before the call settles rejects it with 400 "Busboy error: <detail>", whatever follows |
| UploadTrace.QuietUntilFinish | functions/src/index.ts:132-139 | Without `finish` or a parser error the call never settles, however the parts end |
| UploadTrace.CleanTraceFulfills | functions/src/index.ts:86-139 | When every upload part resolves and `finish` comes last, the call resolves with exactly the expected entries |
| UriComponent.EscapeAll | functions/src/index.ts:250 | Escaping n bytes gives 3n characters, all `%` or unreserved |
| UriComponent.Encode | functions/src/index.ts:250 | The encoded component holds only unreserved characters and `%` |
| UriComponent.EscapeRoundTrip | functions/src/index.ts:250 | Reading back one `%XX` escape gives the byte |
| UriComponent.EscapeAllRoundTrip | functions/src/index.ts:250 | Reading back n escapes gives the n bytes, whatever follows |
| UriComponent.Utf8RoundTrip | functions/src/index.ts:250 | The UTF-8 form of any scalar value is 1 to 4 bytes, announced by its lead byte, and decodes back to the value |
| UriComponent.DecodeEscapedSequence | functions/src/index.ts:250 | The escapes of one well-formed UTF-8 sequence decode to its character, followed by the decoding of the rest |
| UriComponent.DecodeEncodedChar | functions/src/index.ts:250 | Decoding one encoded character followed by anything gives the character before the decoding of the rest |
| UriComponent.DecodeEncode | functions/src/index.ts:250 | decodeURIComponent(encodeURIComponent(s)) == s for every string |
| Strings.Decimal | functions/src/index.ts:232 | The decimal rendering is non-empty, all digits, with no leading zero unless the number is 0 |
| Strings.DecimalRoundTrip | functions/src/index.ts:232 | Parsing the decimal rendering gives back the number |
| Strings.DecimalInjective | functions/src/index.ts:232 | Different numbers render differently |
| Artifact.EncodedHasNoQuery | functions/src/index.ts:250-251 | The encoded path contains no `?`, so the query starts where the URL template puts it |
| Artifact.DownloadUrlRoundTrip | functions/src/index.ts:250-251 | For a bucket without `/`, parsing the download URL gives back the bucket, the decoded storage path and the token |
| Artifact.AppDownloadUrlRoundTrip | functions/src/index.ts:250-251 | With the app's bucket, the URL the handler stores and returns reads back to the stored path and to the token written into the object's metadata |
| Artifact.BucketHasNoSlash | functions/src/index.ts:14 | The configured bucket name has no `/` |
| Artifact.StoragePathInjective | functions/src/index.ts:232-233 | Two different owners or timestamps never share a storage path, whatever characters the uids hold |
| Artifact.FileNameInjective | functions/src/index.ts:232 | Different timestamps give different file names |
| Artifact.Summaries | functions/src/index.ts:269-273 | One summary per file, in order, with its filename, type and byte count |
| Handler.ErrorReply | functions/src/index.ts:284-289 | The catch-all status is the thrown one unless absent or 0, and is never 0. The message is the thrown one unless absent or empty, and is never empty. Without a non-zero thrown status the reply is 500, and without a non-empty message the error is "Internal error" |
| Handler.ProcessMedicalFiles | functions/src/index.ts:157-290 | Non-POST gives 405 with no call made. A header without the bearer form gives 401 with no call made. Any call made starts with the verification of the header's token. Upload failures go through the catch-all. No files gives 400. A missing secret gives 500, checked only after there are files. Once every guard has passed the wrapper is called, with one form part per file in order and the secret. A thrown POST, a non-2xx status (502 with that status) and a PDF under 100 bytes each stop before storage, and an accepted PDF of at least 100 bytes is always stored, at `StoragePath(uid, now)` with the uuid as token. The timeline entry is written exactly when the save succeeded; it has the fixed title, event type and `aiProcessed`, and carries the object's path, name, token, the download URL and the file summaries. Success happens exactly when all four calls ran and the entry write succeeded, and the reply then carries the entry id and the same URL |
| Handler.ProcessMedicalFilesSucceeds | functions/src/index.ts:157-283 | A request that passes every guard, against a wrapper that accepts with a large enough PDF, a save that succeeds and an entry write that succeeds, makes all four calls and is answered 200 with the entry id and the download URL of the PDF stored under the caller's uid |
| Handler.ForwardToWrapper | functions/src/index.ts:186-228 | The form has one part per file, in order. A thrown POST goes to the catch-all. A non-2xx status is a 502 with that status. A body under 100 bytes is a 502. A PDF is passed on exactly when the status is 2xx and the body has at least 100 bytes, and it is the body |
| Handler.StoreAndRecord | functions/src/index.ts:230-283 | The first call saves the PDF at `StoragePath(uid, now)` with type, cache control and the uuid as download token. A failed save stops there, and a successful one is always followed by the entry write. The entry write has title "AI Medical Summary", event type "document" and `aiProcessed` set, and carries the path, name, token, `DownloadUrl` of the stored path and token, and the file summaries. A failed entry write goes to the catch-all and leaves the object stored. Success replies 200 with the entry id and the entry's own URL |

## Left out

- Busboy's byte-level multipart decoding and its enforcement of `files: 10` and of the 20 MB `fileSize` limit are library code. The model takes the events the parser emits as input.
- Whether the `Busboy(...)` constructor throws is an input (`ParserStart`). `bb.end(rawBody)` throwing synchronously is not modelled.
- Firebase initialisation, global options and the `onRequest` options (memory, timeout, CORS, secrets) are platform configuration.
- `verifyIdToken`, the axios POST with its FormData wire encoding, Storage `save` and Firestore `add` are foreign calls. They are modelled as functions from their arguments to an outcome. The wrapper's answer is taken as a status and body bytes.
- `Date.now()` and `randomUUID()` are parameters (`Platform.now`, `Platform.uuid`).
- Firestore's `createdAt` server timestamp is not part of the timeline entry model.
- Logging has no effect on the reply and is left out.
- Callback and microtask timing:
  - The callbacks are a sequential trace.
  - Pending promise reactions are assumed to run before the next callback, so `Promise.all`'s verdict is checked after every event.
  - A repeated `finish` is a no-op.
  - When the call never settles, the handler gives `NoReply`; the platform's timeout is not modelled.
- The `files` array is handed to `resolve` by reference, and later `end` callbacks could still push to it. The model takes the list as it is when the call resolves. In the code, `files.map` for `originalFiles` runs only after the wrapper POST and the Storage `save`. So a late `end` from a part opened after `finish` could make `originalFiles` longer than the form that was sent. In the model both are built from the same list.
- `e?.message || e` for stream and parser errors is taken as the detail string the model receives.
- RequestChecks.AssertMultipart: `toLowerCase` is modelled on ASCII letters only. The only non-ASCII characters that lower-case to ASCII letters are U+0130 (to "i" plus a combining dot) and U+212A (to "k"). Neither can complete `multipart/form-data` or `boundary=` without the ASCII letter also being present, so the verdict is the same.
- Upload.Handle: a stream `error` on a part whose field is not `files` is a no-op in the model. The code attaches no `error` listener to such a drained stream, so in Node the error is thrown from the emitter as an uncaught exception; where that surfaces depends on the parser's internals and the runtime's crash handling, which are not modelled.
- UriComponent.Encode: characters are Unicode scalar values, so the URIError that `encodeURIComponent` raises on a lone surrogate cannot arise.
- Handler.ProcessMedicalFiles: the round trip of the returned URL is stated as "the entry's URL is `DownloadUrl(Bucket, path, token)`", and `Artifact.AppDownloadUrlRoundTrip` proves that such a URL reads back to that path and token.
