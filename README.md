# Podio classification pipeline, modelled in Dafny

The repository turns change notifications from the Podio record service into
classification write-backs. The model covers the decision logic of its parts:

- **Notification gateway** (`podio-webhook/server.js`). It handles the verification
  handshake. It deduplicates notifications with an in-memory `seen` map that has a
  60-second TTL, then queues the filler exactly once per admitted notification.
- **Job intake hook** (`supabase/functions/hook/index.ts`). It has a shared-secret
  guard and a handshake validated against Podio. It reads the item and app ids through
  `??` fallback chains and inserts one `queued` job.
- **Worker** (`supabase/functions/worker/index.ts`).
  - It claims the oldest queued job, resolves text fields by normalised external id or
    label, and writes back the non-empty outputs whose role resolved.
  - It upserts the result and marks the job `done`.
  - On any error it moves every `processing` job to `error`.
- **Command-line pipeline** (`podio-cli/src/run.js` with `podio.js`, `pdf.js`,
  `supabase.js` and `openai.js`).
  - It sorts images first and downloads each file, with a fallback link.
  - It routes each file as an image (upload URL, or a `data:` URL per section 3 of
    RFC 2397 whose base64 follows section 4 of RFC 4648) or as a PDF (bounded,
    whitespace-normalised and truncated text). Other files are ignored.
  - It builds the classifier's content blocks and writes a payload of safelisted text
    fields.
- **Other webhook entry points**. `podio-cli/src/server.js` echoes the handshake code,
  skips files that fail to download and maps the result onto item fields. The root
  `server.js` answers 400 when the item id is missing.

External effects become parameters of the model:

- HTTP replies, the database client, storage, the language model, pdfjs, `Date.now`
  and `mime.getType` are values or total functions in an environment datatype
  (`HookEnv`, `WorkerEnv`, `RunEnv`, `FillerEnv`, `FileEnv`).
- A thrown exception is a `Failure` of `Wrappers.Result`.
- JSON values are `Js.JsVal`. Its functions give JavaScript's meaning to truthiness,
  `||`, `??`, optional and strict property reads, `String(...)`, `join`, `split`
  and `trim`.

State that the code updates in place is modelled as classes:

- `DedupGateway.DedupCache` holds the `seen` map.
- `Jobs.JobStore` holds the jobs table (a sequence of rows, with the next id) and the
  results table (a map from job id).

Loops follow the code's own loops, as methods proved against specification functions:

- `FieldResolver.BuildIndexes` and `FieldResolver.Pick`
- `PdfText.GatherPages`
- `ClassifierRequest.AppendInputs`
- `RunOnce.ProcessFiles`
- `FillerServer.CollectFiles`

Behaviour a reader might not expect:

- The dedup key's sentinels are `nohook`, `noid` and `norev`.
- The gateway answers a handshake with `Verification ping OK`; it does not echo the code.
- In the command-line pipeline a failed download or upload aborts the whole run
  (`RunOnce.FoldFailurePersists`). Only `podio-cli/src/server.js` skips a file that
  fails to download.
- The worker always classifies an empty file list. Its OpenAI client is never
  declared, so every claimed job fails (see Findings).
- Error texts follow V8: reading a property of `null` or `undefined` fails with
  `Cannot read properties of null (reading 'k')`. The `TypeError: ` prefix appears
  only where the code renders the error with `String(e)` (`podio-cli/src/server.js`),
  not where it takes `e.message` (the worker and `run.js`).
- A JSON object with its own `toString` key cannot be converted to a string, so a
  template that embeds it throws (`Js.ToStrChecked`). The gateway's catch then answers
  200 `ok`, and the root `server.js` answers 500.

The rows below for lemmas also stand for the functions they are about, which have no
row of their own: `FillerServer.PodioHook`, `FillerServer.DebugItemFiles`,
`DedupGateway.MakeKey`, `IntakeHook.Decide`, `PodioClient.DownloadFileBytes`,
`ClassifierRequest.ClassifyInputs` and `RunOnce.RunSpec`.

## Model

| member | source | states |
|---|---|---|
| Js.GetStrict | podio-cli/src/run.js:112 | A strict property read fails iff the value is nullish, with V8's `Cannot read properties of null\|undefined (reading 'k')`; otherwise it is the optional read. |
| Js.ToStrChecked | podio-webhook/server.js:24 | `String(v)` fails with `Cannot convert object to primitive value` iff `v` is an object with its own `toString` key, or an array holding such a value; otherwise it is `ToStr(v)`. |
| Js.DecimalStringIsNumber | supabase/functions/worker/index.ts:151 | `Number` of a decimal string, with or without a leading zero, is its value; the same as `Number` of the number itself, which prints back as the string. |
| DedupGateway.MakeKeyParts | podio-webhook/server.js:20-25 | The key is `hook:id:rev`. Falsy hook and item ids fall back to `nohook`/`noid` (the id is `item_id`, else `itemId`); only a nullish revision falls back to `norev`. Making the key throws iff a part that is used cannot be converted to a string. |
| DedupGateway.MakeKeyKeepsRevisionZero | podio-webhook/server.js:23-24 | For any body whose revision is 0, a key that is made ends in `:0`, not `:norev`, because `??` is not `\|\|`. |
| DedupGateway.Evict | podio-webhook/server.js:29 | Exactly the entries at most TTL old survive, with their timestamps unchanged. |
| DedupGateway.Check | podio-webhook/server.js:26-34 | Duplicate iff the key holds a non-zero timestamp younger than the TTL. No stale entry survives. A duplicate does not refresh the timestamp; otherwise the key is recorded at `now` and every other survivor is unchanged. |
| DedupGateway.DedupCache.IsDuplicate | podio-webhook/server.js:26-34 | The loop that deletes stale entries, then the lookup and `seen.set`. The answer and the new map are those of `Check`. |
| DedupGateway.ExactlyTtlOldIsFresh | podio-webhook/server.js:18-31 | An entry exactly TTL old is neither evicted nor a duplicate, and it is re-recorded at `now`. |
| DedupGateway.ExpiredKeyIsAdmitted | podio-webhook/server.js:29-32 | A key last seen at least TTL ago is admitted and stamped with `now`. |
| DedupGateway.StaysDuplicate | podio-webhook/server.js:29-32 | Once recorded at `t0`, every later call for the key within TTL of `t0` is a duplicate. |
| DedupGateway.AtMostOneAdmissionPerWindow | podio-webhook/server.js:18-34 | Over calls with non-decreasing clocks, two admissions of the same key are at least TTL apart. |
| DedupGateway.RouteOf | podio-webhook/server.js:53-66 | The routing: handshake iff `type == "hook.verify"` with a truthy code; empty probe iff the body is falsy or has no keys; missing id iff `item_id` and `itemId` are both falsy; otherwise a candidate carrying the truthy `item_id`, else `itemId`. |
| DedupGateway.KeyedIdConverts | podio-webhook/server.js:69-76 | Once the key is made, `String(itemId)` in the 202 answer cannot throw. |
| DedupGateway.UnconvertibleIdThrows | podio-webhook/server.js:22-24 | An item id that is an object with its own `toString` makes the key template throw. |
| DedupGateway.HandlePodioHook | podio-webhook/server.js:50-84 | Handshake, probe and missing-id bodies get 200 and leave `seen` alone, with no spawn. A key template that throws is caught: 200 `ok`, `seen` unchanged, no spawn. A duplicate key gets 200 `duplicate` with no spawn; a fresh one gets 202 `{status:"queued", itemId: String(itemId)}` and exactly one spawn. Either way `seen` becomes that of `Check`. |
| IntakeHook.ForbiddenIff | supabase/functions/hook/index.ts:23-28 | 403 iff a non-empty secret is configured and differs from header-secret `\|\|` URL secret. |
| IntakeHook.UnguardedWithoutSecret | supabase/functions/hook/index.ts:26 | With no secret configured, or an empty one, no request is forbidden. |
| IntakeHook.HeaderSecretWins | supabase/functions/hook/index.ts:25-26 | A non-empty header secret decides alone; the query secret is then ignored. |
| IntakeHook.UnparsableBodyRejected | supabase/functions/hook/index.ts:30-31 | A body that is not JSON is `{}` and gets 400 `Missing item_id`. |
| IntakeHook.HandshakeNeverEnqueues | supabase/functions/hook/index.ts:39-60 | A handshake never inserts a job. |
| IntakeHook.HandshakeVerifiedIff | supabase/functions/hook/index.ts:39-59 | The answer is `{verified:true}` iff the hook id (`body.hook_id \|\| header`) is truthy, the token is obtained and the validate call answers ok. |
| IntakeHook.ItemIdTopLevelFirst | supabase/functions/hook/index.ts:62-63 | The first non-nullish path wins: a present top-level `item_id` is used. |
| IntakeHook.ItemIdFromData | supabase/functions/hook/index.ts:62-63 | With the top-level and `item` paths nullish, `data.item_id` is used. |
| IntakeHook.ZeroItemIdHidesNested | supabase/functions/hook/index.ts:62-65 | For any permitted, non-handshake request whose body has `item_id: 0`, the item id is 0 whatever the nested ids are, and the answer is 400 "Missing item_id". |
| IntakeHook.AppIdDefaultsToNull | supabase/functions/hook/index.ts:64 | Without any app id in the body, the stored app id is `null`. |
| IntakeHook.EnqueueIff | supabase/functions/hook/index.ts:23-77 | A job is inserted iff the request is not forbidden, the client is created, the body is not a handshake and the item id is truthy. |
| IntakeHook.EnqueueCarriesBody | supabase/functions/hook/index.ts:71-72 | The inserted job carries the truthy resolved item id and the whole body as its payload. |
| IntakeHook.HandleHook | supabase/functions/hook/index.ts:20-84 | Each early answer leaves the table unchanged. An insert error gives 500 with its message and no row. Otherwise exactly one `queued`/`podio` row is appended under the next id, the id counter advances by one, and `{job_id, status:"queued"}` is answered. |
| Jobs.JobStore.InsertQueued | supabase/functions/hook/index.ts:71-73 | Appends one queued row under the next id and advances the id counter by one; the results are unchanged. |
| Jobs.JobStore.SetStatus | supabase/functions/worker/index.ts:141 | The rows become `SetStatusById` of the old rows. |
| Jobs.JobStore.FailAllProcessing | supabase/functions/worker/index.ts:176 | The rows become `FailProcessing` of the old rows. |
| Jobs.JobStore.UpsertResult | supabase/functions/worker/index.ts:165-169 | The result is stored under its job id, replacing any earlier one. |
| Jobs.OldestQueued | supabase/functions/worker/index.ts:132-140 | None iff no job is queued. Otherwise a queued job with the smallest `created_at`, and the first such one. |
| Jobs.SetStatusById | supabase/functions/worker/index.ts:141 | Exactly the rows with the id get the new status; the others are unchanged. |
| Jobs.FailProcessing | supabase/functions/worker/index.ts:176 | Exactly the `processing` rows become `error` with the message; the others are unchanged. |
| Jobs.AdvancesTransitive | supabase/functions/worker/index.ts:141-176 | The status order queued → processing → done/error is transitive. |
| Jobs.FinalStatesAreFinal | supabase/functions/worker/index.ts:171-176 | `done` and `error` advance only to themselves. |
| FieldResolver.Norm | supabase/functions/worker/index.ts:53-58 | `norm(undefined)` is `""`. The result is trimmed and has no upper-case letter. |
| FieldResolver.NormIsTrimmedName | supabase/functions/worker/index.ts:53-58 | The key is the lower-cased name from its first to its last non-whitespace character, and only whitespace follows it. |
| FieldResolver.NormIgnoresCase | supabase/functions/worker/index.ts:53-58 | A name and its lower-cased form have the same key. |
| FieldResolver.NormIgnoresPadding | supabase/functions/worker/index.ts:53-58 | Whitespace before and after a name does not change its key. |
| FieldResolver.NormIdempotent | supabase/functions/worker/index.ts:53-58 | Normalising twice is normalising once. |
| FieldResolver.NormOfNormal | supabase/functions/worker/index.ts:53-58 | A string with no space and no upper-case letter is its own norm. |
| FieldResolver.BuildIndexes | supabase/functions/worker/index.ts:62-67 | The loop fills `byExt` and `byLabel` with `Index` of the fields, by external id and by label. |
| FieldResolver.IndexSound | supabase/functions/worker/index.ts:64-67 | Every indexed field is one of the fields and has the normalised key. |
| FieldResolver.IndexLastWins | supabase/functions/worker/index.ts:64-67 | When several fields share a key, the last of them is indexed. |
| FieldResolver.FindTextFirstHit | supabase/functions/worker/index.ts:68-69 | The result is the first candidate, in list order, whose lookup (external id, else label) is a text field. |
| FieldResolver.FindTextNone | supabase/functions/worker/index.ts:68-69 | Unresolved iff no candidate's lookup is a text field. |
| FieldResolver.FirstTextIsFirstHit | supabase/functions/worker/index.ts:69 | `find` over the looked-up fields returns the first text field. |
| FieldResolver.FirstTextNone | supabase/functions/worker/index.ts:69 | `find` returns nothing iff no looked-up field is text. |
| FieldResolver.ExternalIdShadowsLabel | supabase/functions/worker/index.ts:69 | A non-text external-id match hides a text label match, so the candidate resolves to nothing. |
| FieldResolver.RolesOf | supabase/functions/worker/index.ts:71-76 | Each of the four roles is unresolved or a text field. |
| FieldResolver.Pick | supabase/functions/worker/index.ts:61-77 | The roles are `RolesOf(fields)`, each unresolved or text. |
| Worker.PlannedWritesSound | supabase/functions/worker/index.ts:152-163 | At most four writes. Each has a truthy value and the job's item id, and is the output of one role written to that role's resolved field. |
| Worker.PlannedWritesComplete | supabase/functions/worker/index.ts:152-163 | Every truthy output whose role resolved is written to that role's field. |
| Worker.ApplyWritesStopsAtFirstFailure | supabase/functions/worker/index.ts:152-163 | The writes made are a prefix of the plan, all of them succeeded; a failure is the answer of the next planned write. |
| Worker.ApplyWritesMakesPlannedCalls | supabase/functions/worker/index.ts:152-163 | Only planned writes are made. |
| Worker.WriteBack | supabase/functions/worker/index.ts:151-163 | The four conditional `putField` calls make `ApplyWrites` of the planned writes, for the item `Number(job.podio_item_id)`. |
| Worker.Process | supabase/functions/worker/index.ts:143-172 | Processing a claimed job completes or fails that job. A `null` classifier output fails with `Cannot read properties of null (reading 'fraccion_arancelaria')`, the bare message the catch stores. |
| Worker.WritesNameClaimedItem | supabase/functions/worker/index.ts:151-163 | Every write made names the claimed job's item, as `Number` reads it. |
| Worker.ServeKeepsIds | supabase/functions/worker/index.ts:141-176 | Both updates keep every row, in place, with its id. |
| Worker.InvocationsOnlyAdvance | supabase/functions/worker/index.ts:128-183 | Over any sequence of invocations the rows and ids are kept, every status only advances, and a `done` or `error` job keeps its status. |
| Worker.Fail | supabase/functions/worker/index.ts:173-181 | Every `processing` row becomes `error` with the message; the answer is 500 `{error}`. |
| Worker.Serve | supabase/functions/worker/index.ts:128-183 | The jobs, results, response and writes are those of `ServeOutcome` of the old table. |
| Worker.ServeIdle | supabase/functions/worker/index.ts:130-140 | A non-POST request gets 405; with no queued job the answer is `No queued jobs`. Either way both tables are unchanged. |
| Worker.ServeClaimsOldest | supabase/functions/worker/index.ts:132-141 | A POST settles the oldest queued job. |
| Worker.ServeSettlesClaimedJob | supabase/functions/worker/index.ts:141-176 | The claimed job ends `done`, or `error` with the message. No other row changes unless it was `processing`. |
| Worker.ServeUpsertsResult | supabase/functions/worker/index.ts:165-169 | On success the result `{job_id, "gpt-4o-mini", out}` is upserted under the job id. On failure the results are unchanged. |
| Worker.ServeAdvancesStatuses | supabase/functions/worker/index.ts:141-176 | Every row's status only advances. |
| Worker.FailureResetsEveryProcessingJob | supabase/functions/worker/index.ts:176 | On failure every `processing` row, claimed or not, becomes `error`. |
| Worker.ServeLeavesNoneProcessing | supabase/functions/worker/index.ts:141-176 | Starting with no `processing` row, none remains after a request. |
| Worker.WritesOnlyResolvedTextFields | supabase/functions/worker/index.ts:146-163 | Every write has a truthy value and targets a resolved text field of the app. |
| Worker.WriteBackWritesOwnRoles | supabase/functions/worker/index.ts:152-163 | The writes made by write-back target resolved text fields, with truthy values. |
| Worker.OwnRoleIsResolvedText | supabase/functions/worker/index.ts:152-163 | A write of some role targets that role's resolved text field. |
| Worker.AsWrittenClaimedJobAlwaysFails | supabase/functions/worker/index.ts:112 | As written, with `openai` undeclared, every claimed job fails with `openai is not defined` and writes nothing. |
| Worker.DeclaredClientCompletes | supabase/functions/worker/index.ts:112-172 | With a working client and successful writes, the claimed job completes with the classifier's output and the planned writes. |
| PdfText.DefaultSettings | podio-cli/src/pdf.js:3 | The defaults are 20000 characters, 3 pages and 10000 ms. |
| PdfText.PageCount | podio-cli/src/pdf.js:18 | The count is at most the document's pages and at most `max(1, maxPages)`, and it is one of those two bounds, so it is their minimum; it is at least 1 for a non-empty document. |
| PdfText.ReadUntilUnique | podio-cli/src/pdf.js:19 | The two-part loop guard determines the number of pages read. |
| PdfText.GatherPages | podio-cli/src/pdf.js:17-26 | Pages `1..k` are read, stopping at the page cap or once the text reaches the threshold; the text is their page texts, each followed by a newline. |
| PdfText.CollapseSingleSpaced | podio-cli/src/pdf.js:29 | After collapsing, no two whitespace characters are adjacent. |
| PdfText.CollapseKeepsContent | podio-cli/src/pdf.js:29 | Collapsing keeps every non-whitespace character, in order. |
| PdfText.NormalizeSpec | podio-cli/src/pdf.js:29 | The normalised text has no leading or trailing whitespace, no whitespace run, and the same non-whitespace characters. |
| PdfText.TruncateSpec | podio-cli/src/pdf.js:30 | Short text is kept. Longer text becomes its first `maxChars` characters plus ` ...(truncated)...`. The length is at most `maxChars + 18`. |
| PdfText.ExtractPdfText | podio-cli/src/pdf.js:3-37 | A timeout fails with `pdf-timeout`, a load error passes through, and otherwise the result is the truncated normalised text of the pages read. |
| PodioClient.CheckedJsonSpec | podio-cli/src/podio.js:33-34 | `getJson`, like `postJson` at lines 13-14, succeeds iff the status is 2xx and the body is empty or parses. An empty body is `{}`. A non-2xx status fails with `path -> ...`. |
| PodioClient.AppAuthNeedsAllCredentials | podio-cli/src/podio.js:19 | A missing credential fails with `Missing Podio app credentials`, whatever the server would answer. |
| PodioClient.GetItemFiles | podio-cli/src/podio.js:40-42 | `item.files` when it is an array, else `[]`. |
| PodioClient.AltLinkForString | podio-cli/src/podio.js:66 | The fallback is `link&download=1` when the link has a `?`, else `link?download=1`. |
| PodioClient.RawDownloadWins | podio-cli/src/podio.js:59-64 | An ok raw download with bytes is returned as is; metadata and the fallback are never consulted. |
| PodioClient.NoLinkFails | podio-cli/src/podio.js:65-67 | With no usable raw bytes and no link, the download fails with `No download link for file <id>`. |
| PodioClient.DownloadComesFromOkResponse | podio-cli/src/podio.js:57-73 | A successful download is the raw reply's bytes, or the bytes of an ok fallback reply, each with its content type. |
| PodioClient.SetItemValues | podio-cli/src/podio.js:76-87 | The update fails iff the request fails or the status is not 2xx. |
| StorageKeys.SanitizeShape | podio-cli/src/supabase.js:23 | The sanitised name has the same UTF-16 length as the original, and every character is in `[a-zA-Z0-9._-]`. |
| StorageKeys.SanitizeKeepsAllowed | podio-cli/src/supabase.js:23 | A name made only of allowed characters is unchanged. |
| StorageKeys.SanitizeIdempotent | podio-cli/src/supabase.js:23 | Sanitising twice is sanitising once. |
| StorageKeys.MakeKeyShape | podio-cli/src/supabase.js:21-25 | The key is `podio/<item>/<now>_<i>_` followed by the sanitised name, which has no `/`. |
| StorageKeys.MakeKeyDefaultOrdinal | podio-cli/src/supabase.js:21 | The ordinal defaults to 0. |
| StorageKeys.SafeName | podio-cli/src/supabase.js:22-23 | Fails iff the file is nullish (reading `name` throws, with V8's message) or its name is truthy and not a string (`extname` throws first). |
| StorageKeys.UnnamedFileFallback | podio-cli/src/supabase.js:22-23 | A falsy name of a non-nullish file gives `file_<i>`, since the extension of `''` is `''`; a nullish file throws on reading `name`. |
| StorageKeys.EnsureContentType | podio-cli/src/supabase.js:27-31 | A string `mimetype` (even `""`) is used as is. Otherwise the name-based guess is used, else `application/octet-stream`, so the result is then never empty. |
| Base64.EncodeLength | podio-cli/src/run.js:25 | The encoding has `4 * ceil(n / 3)` characters. |
| Base64.EncodeAlphabet | podio-cli/src/run.js:25 | Every character is in the base64 alphabet or is `=`. |
| Base64.DecodeEncode | podio-cli/src/run.js:25 | Decoding the encoding gives back the bytes. |
| RunOnce.DataUrlRoundTrip | podio-cli/src/run.js:24-27 | Parsing `asDataUrl(buffer, mime)` gives back the type (`application/octet-stream` for an empty one) and the bytes. |
| RunOnce.AccessTokenChoice | podio-cli/src/run.js:29-37 | A configured token is used as is. Otherwise a missing client id fails before any request. |
| RunOnce.ImagesFirstSpec | podio-cli/src/run.js:45-49 | The sorted files have every image before every other file. They are a permutation of the files, and each group keeps its order. |
| RunOnce.StableSortUnique | podio-cli/src/run.js:45-49 | Any ordering with images first and each group's order kept is the one the sort yields. |
| RunOnce.EffectiveTypeChoice | podio-cli/src/run.js:63-65 | The type is the downloaded content type when non-empty, else `ensureContentType(f)`. |
| RunOnce.StepEffect | podio-cli/src/run.js:61-92 | A file whose download fails ends the loop with that failure; otherwise it is routed by its effective type. |
| RunOnce.RouteEffect | podio-cli/src/run.js:68-91 | An image adds exactly one input (its upload URL, or its data URL without storage). A PDF adds no image and exactly the extracted text when extraction succeeds with a non-empty text, and nothing otherwise. Other types change nothing. With storage, each image or PDF is uploaded under the next key and the ordinal moves on by one. |
| RunOnce.PdfErrorSwallowed | podio-cli/src/run.js:82-90 | A failed extraction is swallowed: whether routing succeeds does not depend on the extractor, and a failed extraction adds no text. |
| RunOnce.FoldFailurePersists | podio-cli/src/run.js:61-92 | The first throw in the loop is the loop's result. |
| RunOnce.FoldCounts | podio-cli/src/run.js:58-79 | There is one image input per routed image. The ordinal counts the uploads: images plus PDFs with storage, 0 without. |
| RunOnce.FoldTexts | podio-cli/src/run.js:82-90 | There is at most one text per routed PDF, and no text is empty. |
| RunOnce.HandleFile | podio-cli/src/run.js:62-91 | One loop body computes `Step` of the gathered state. |
| RunOnce.ProcessFiles | podio-cli/src/run.js:60-92 | The loop computes `FoldFiles` over the sorted files. |
| RunOnce.AltLines | podio-cli/src/run.js:112 | `alternativas.map` fails iff an entry is nullish; otherwise it gives one `- fraccion: motivo` line per entry. |
| RunOnce.PayloadFailsOnNullishAlternative | podio-cli/src/run.js:112 | Building the payload throws iff `alternativas` is an array with a nullish entry. |
| RunOnce.PayloadFields | podio-cli/src/run.js:106-117 | The payload has exactly the nine text field ids; `fecha` is absent because `date` is null. |
| RunOnce.TextFieldsAreSafe | podio-cli/src/run.js:7-22 | The nine ids exclude the image, date, app and category fields. |
| RunOnce.MissingValuesAreEmpty | podio-cli/src/run.js:107-115 | A nullish result value becomes `''`. |
| RunOnce.ArbolJoined | podio-cli/src/run.js:111 | An `arbol` array is joined with `"\n- "`. |
| RunOnce.AlternativasLines | podio-cli/src/run.js:112 | An `alternativas` array splits back on `\n` into one `- fraccion: motivo` line per entry. |
| RunOnce.Run | podio-cli/src/run.js:40-122 | The outcome and the uploads made are those of `RunSpec`; a throw carries the bare `e.message`, with V8's texts for nullish reads. |
| RunOnce.NoFilesReturnsEarly | podio-cli/src/run.js:50-53 | An item without files returns before any download, upload, classification or write. |
| RunOnce.NoInputsNoClassification | podio-cli/src/run.js:95-98 | With no image and no text, the run returns without classifying or writing. |
| RunOnce.MissingKeyThrows | podio-cli/src/run.js:94 | Without an OpenAI key the run throws `Missing OPENAI_API_KEY` after the file loop. |
| RunOnce.WrittenOnlyTextFields | podio-cli/src/run.js:105-120 | A written payload has exactly the nine text field ids and is built from a classifier result. |
| ClassifierRequest.RequestSchemaRequiresExactlyTwo | podio-cli/src/openai.js:21-54 | The request sent is `gpt-4o` at temperature 0 with the built content, and its schema `clasificacion_tigie` requires exactly `fraccion` and `justificacion`, both declared string properties. |
| ClassifierRequest.OnlyTheRequestMatters | podio-cli/src/openai.js:3-57 | Two calls that build the same request get the same result. |
| ClassifierRequest.NonBlankIsTrimmedNonEmpty | podio-cli/src/openai.js:15 | A text counts iff its trim is non-empty. |
| ClassifierRequest.NonBlankIndicesIncreasing | podio-cli/src/openai.js:14-16 | The texts used are taken in input order. |
| ClassifierRequest.NonBlankIndicesMembers | podio-cli/src/openai.js:14-16 | Exactly the non-blank texts are used. |
| ClassifierRequest.AppendInputs | podio-cli/src/openai.js:13-19 | The two `forEach` loops append `Inputs`: the text blocks, then the image blocks. |
| ClassifierRequest.BuildContent | podio-cli/src/openai.js:6-19 | The content is the instruction block followed by `Inputs`; missing lists are empty. |
| ClassifierRequest.InputsShape | podio-cli/src/openai.js:14-19 | There is one `PDF_<i+1>` block per non-blank text, labelled with its original index, then one `image_url` block per URL in order. The count is their sum. |
| ClassifierRequest.BlankTextsAddNothing | podio-cli/src/openai.js:15 | Blank or whitespace texts add no block. |
| ClassifierRequest.BlankTextsSendNothingMore | podio-cli/src/openai.js:3-19 | Classifying with only blank texts is classifying with none. |
| ClassifierRequest.MissingContentDefaults | podio-cli/src/openai.js:56 | A reply without choices yields `'{}'`. |
| FillerServer.MetasOf | podio-cli/src/server.js:70-75 | The map fails iff a listed file is nullish (reading its `file_id` throws); otherwise there is one meta per listed file. |
| FillerServer.ListedMimetype | podio-cli/src/server.js:73 | The mimetype is `mimetype \|\| mime_type \|\| ""`. |
| FillerServer.FileInfoDefaults | podio-cli/src/server.js:84-88 | The filename defaults to `file-<id>` and the mime to `application/octet-stream`; the buffer is the raw download. |
| FillerServer.CollectedInOrder | podio-cli/src/server.js:131-139 | The collected files are the successful downloads, in list order. |
| FillerServer.AllFetchedAllCollected | podio-cli/src/server.js:131-139 | When every download succeeds, every file is collected. |
| FillerServer.CollectFiles | podio-cli/src/server.js:131-139 | The loop with its per-file try/catch computes `Collected`. |
| FillerServer.DropUndefined | podio-cli/src/server.js:117 | `JSON.stringify` drops exactly the `undefined` properties. |
| FillerServer.UpdateFieldsMapping | podio-cli/src/server.js:93-108 | `notas` goes to `notas_clasificador` and `dudas` to `dudas_cliente`. `alternativas` is text, and `fecha` is the first 10 characters of the ISO date. |
| FillerServer.AlternativasAsText | podio-cli/src/server.js:99-101 | An array is joined with `"\n"` (objects render as `[object Object]`); a missing value is `String(undefined)`. |
| FillerServer.UndefinedFieldsNotSent | podio-cli/src/server.js:93-117 | A missing `fraccion` is not sent. |
| FillerServer.ClassifyPodioItem | podio-cli/src/server.js:127-147 | The result and the payload sent are those of `ClassifySpec`; an error text is `String(e)`, with V8's `TypeError: Cannot read properties of ...` for nullish reads. |
| FillerServer.RejectedUpdateIsNotAnError | podio-cli/src/server.js:120-123 | A non-ok update is only logged: the outcome is a success, as if the update were accepted. |
| FillerServer.HandshakeEchoesCode | podio-cli/src/server.js:196-199 | A handshake gets 200 with the code as the body, and nothing is classified. |
| FillerServer.ClassifiesIff | podio-cli/src/server.js:210-221 | Without a truthy `item_id` the answer is `{ok:true}`. With one, the item is classified, and the answer is 200 iff the classification succeeds. |
| FillerServer.DebugNeedsItemId | podio-cli/src/server.js:161-163 | Without `item_id` the answer is 400 `{ok:false, error:"Falta item_id"}`, whatever the service would answer. |
| LegacyServer.PodioHook | server.js:9-43 | Every answer is 200, 400 or 500; a handshake gets exactly 200 "Verification ping OK" and an empty probe exactly 200 "Verification OK". |
| LegacyServer.FailsIff | server.js:33-41 | 500 iff the body is a candidate whose item id cannot be converted to a string for the log template. |
| LegacyServer.RejectsIff | server.js:27-31 | 400 iff the body is a non-empty, non-handshake body with neither `item_id` nor `itemId` truthy. |
| LegacyServer.EchoesItemId | server.js:27-38 | An accepted body whose id converts gets `{status:"ok", itemId}` with `item_id`, else `itemId`. |
| LegacyServer.ContrastWithGateway | server.js:12-38 | The probes get the same texts as from the gateway (200 "Verification ping OK" and 200 "Verification OK"); a missing id gets 400 where the gateway answers 200, and an accepted body 200 where the gateway answers 202. |

## Left out

- HTTP transport: express, body-parser, `serve`/`Deno.serve` and `listen`. Only what the handlers decide is modelled; a response is a status with a text or JSON body, and headers are not modelled.
- Network calls and OAuth token acquisition: each fetch, Podio call and `get-podio-token` answer is a parameter, so URL building and `encodeURIComponent` are not modelled.
- The Supabase client, storage uploads and database queries: the tables are an in-memory `JobStore`. The worker's read-then-update claim is modelled sequentially; concurrent workers are not modelled.
- The OpenAI calls and `JSON.parse` are oracles. `openai-v2.js` is not part of this model, so `classifyInputsV2` is a parameter of `FillerEnv`.
- pdfjs is not modelled: a document is a given sequence of pages of text items, and `destroy` is left out.
- The timer that races the extraction is a boolean saying whether the timeout fired.
- `child_process.spawn`: only the fact that the filler is spawned once, with its item id, is modelled.
- `Date.now` and `new Date().toISOString()` are parameters. In `RunOnce`, `clock(i)` is the time at which the key with ordinal `i` is made.
- `mime.getType` is an oracle.
- FieldResolver.Norm: `normalize("NFKD")` and `\p{Diacritic}` stripping are not modelled, and `toLowerCase` maps only ASCII letters. Whitespace for `trim` and `\s` is JavaScript's full set.
- JavaScript strings are sequences of characters. `StorageKeys` counts UTF-16 units for the sanitised length; elsewhere lengths count characters.
- JSON numbers are integers: no fractions, NaN or Infinity.
- RunOnce.ImagesFirstSpec: the comparator throws on a truthy non-string `mimetype` (it calls `startsWith`); the model treats such a file as a non-image instead.
- RunOnce.Run: uploads made before a throw are not reported, since the outcome is then the throw alone.
- RunOnce: the `download` oracle stands for `PodioClient.DownloadFileBytes`, and `pdfText` for `PdfText.ExtractPdfText` with `{maxPages: 3, timeoutMs: 10000}`. The composition is not restated.
- The `/healthz`, `/debug/classify-v2` and `/debug/token` routes of `podio-cli/src/server.js` only probe or forward, and are left out.
- The `/healthz` and `/debug/item-files` routes of `podio-webhook/server.js` are left out: the latter imports `helpers/podio.js`, which is not part of this model.
- Js.ToStr: only the gateway key and the root `server.js` log line model a throwing conversion. Elsewhere (the storage key's template, `join` in `podio-cli/src/server.js` and `run.js`) an object with its own `toString` is rendered `[object Object]` instead of throwing.
- Worker.WriteBack: `Number` is modelled on integers. A string with a fraction, an exponent, a hex prefix or `Infinity` is taken as `NaN`, and so is an object, even one whose conversion would throw.
- All `console` logging.
- `supabase/functions/diag/index.ts`, `podio-cli/src/index.js` and `podio-cli/src/config.js` are configuration and I/O, and are not modelled; `RunEnv` takes their settings directly.

## Findings

| source | as written | input that shows it | evidently intended | confidence | as-written member | corrected member |
|---|---|---|---|---|---|---|
| supabase/functions/worker/index.ts:112 | `classify` calls `openai.chat.completions.create`, but no `openai` is declared or imported in the file. Every call throws a ReferenceError, so every claimed job goes to `error`. | Any POST with a queued job, once the token and the app's fields are fetched. | A declared OpenAI client, so that a claimed job is classified, written back and marked `done`. | not executed | Worker.AsWrittenClaimedJobAlwaysFails | Worker.DeclaredClientCompletes |
