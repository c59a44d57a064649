# Portal Malvinas — a verified model of the submission and moderation core

Portal Malvinas is a Spanish-language site where people submit *relatos*
(written stories with a DNI photo and a banner image) and *Portal de la
Memoria* entries (a description with one image). Submissions are validated and
sanitised in the browser, their images are checked, compressed and stored, and
the record is created as `pending`. An administrator, admitted only when the
sign-in provider's custom claims say `admin`, approves or rejects each one.
Approved submissions appear in the public listings: a carousel of the five
stories with the greatest document ids, a paged grid with search, and a gallery.

This Dafny project models that core and proves what each part promises:

- **Validation and sanitisation** (`validation_schemas.dfy`). The schemas are
  lists of field checks. `SafeParse` produces the issue list. Beside it sit the
  error-map helpers and `sanitizeString`, `sanitizePhone` and
  `sanitizeFormData`.
- **Images** (`image_processing.dfy`, `image_service.dfy`).
  - Both validators and both file-name generators.
  - The compress-if-needed decisions.
  - The aspect-preserving clamp over reals. Decoding, the canvas and the blob
    are an `ImageEnv` oracle that may fail.
  - The batch loops.
- **Error vocabulary and retry** (`firebase_errors.dfy`).
  - The recovery-strategy table.
  - Placeholder substitution.
  - Code precedence.
  - `retryWithBackoff` as a loop over an attempt-indexed oracle `fn`.
- **Document service** (`firebase_service.dfy`). `FirebaseService` is a class
  over three maps:
  - the relato collection;
  - the portal collection;
  - the storage objects.

  Each method takes its clock value `now` and an optional `fault` (the value
  the platform call would throw) as parameters.
- **Upload slots** (`use_firebase_upload.dfy`). The three-slot state machine
  with its derived `isAnyUploading` flag, and the single-slot hook.
- **Admin gate** (`use_auth.dfy`, `protected_route.dfy`). The listener and
  sign-in transitions, `withAuth`, the `ProtectedRoute` render decision and
  `useRequireAdmin`.
- **Moderation panel and submission form** (`admin_panel.dfy`,
  `enhanced_relato_form.dfy`).
- **Public listings** (`carrousel.dfy`, `listing.dfy`, `relatos_display.dfy`,
  `portal_memoria_gallery.dfy`, `relatos_main_content.dfy`).

Shared modules:

- `wrappers.dfy`: Option and Result.
- `text.dfy`: JavaScript string operations on `seq<char>`, namely `trim`,
  `toLowerCase`, `indexOf`, `replace` of the first match, `split(...).pop()`
  and decimal rendering.
- `sorting.dfy`: `Array.prototype.sort` as insertion sort on sequences under a
  strict order, and `filter` as `Select`.
- `firebase_types.dfy`: the document shapes, the status enum and the size
  constants of `src/types/firebase.types.ts`.

A React component becomes a class whose fields are its state cells. Each
handler or effect is a method that states its whole new state. What the
component renders is a function of those fields.

## Model

| member | source | states |
|---|---|---|
| ValidationSchemas.CheckMessages | src/lib/validation.schemas.ts:39-56 | a string passes a field iff no check fails; every message reported belongs to a failing check |
| ValidationSchemas.FieldMessages | src/lib/validation.schemas.ts:39-83 | a text field that is missing or not a string reports "required"; an image field that is not a file reports the not-a-file message; otherwise the field's own checks decide |
| ValidationSchemas.SafeParse | src/lib/validation.schemas.ts:155-164 | the issue list is empty iff every field of the schema accepts its value, and every issue has a one-key path |
| ValidationSchemas.SafeParseIsBlocks | src/lib/validation.schemas.ts:155-164 | the issue list is every field's messages laid end to end in schema order, each under its field's key |
| ValidationSchemas.SafeParseLength | src/lib/validation.schemas.ts:155-164 | the list holds exactly as many issues as the fields have messages |
| ValidationSchemas.SafeParseLayout | src/lib/validation.schemas.ts:155-164 | the `j`-th message of field `i` is the issue at that field's offset (the message count of the fields before it) plus `j`, under the field's key |
| ValidationSchemas.SafeParseIssueOwner | src/lib/validation.schemas.ts:155-164 | every issue sits under the key of some field of the schema and carries one of that field's messages |
| ValidationSchemas.ValidateRelatoSubmission | src/lib/validation.schemas.ts:86-99 | a relato submission is accepted iff all seven fields are accepted |
| ValidationSchemas.ValidatePortalMemoriaSubmission | src/lib/validation.schemas.ts:102-111 | a portal submission is accepted iff all six fields are accepted |
| ValidationSchemas.PersonNameAccepted | src/lib/validation.schemas.ts:40-50 | name and surname are accepted iff 2 to 50 characters long and every character is an ASCII letter, one of áéíóúÁÉÍÓÚñÑ, or whitespace |
| ValidationSchemas.RemoveWhitespace | src/lib/validation.schemas.ts:52-55 | the phone transform keeps exactly the non-whitespace characters |
| ValidationSchemas.PhoneAccepted | src/lib/validation.schemas.ts:6-55 | a phone is accepted iff it is 10 to 15 ASCII digits, and the space-stripping transform then leaves it unchanged |
| ValidationSchemas.TextBoundsInclusive | src/lib/validation.schemas.ts:87-106 | title 5 to 100, content 50 to 10000 and description 10 to 1000 characters, bounds included |
| ValidationSchemas.ImageAccepted | src/lib/validation.schemas.ts:59-83 | an image is accepted iff its size is positive, its type is jpeg, jpg, png or webp, and it is at most 5 MiB (DNI) or 10 MiB (banner, portal image) |
| ValidationSchemas.FormatValidationErrors | src/lib/validation.schemas.ts:183-192 | the loop builds the same map as the fold over the issues |
| ValidationSchemas.FormattedErrorsLastWins | src/lib/validation.schemas.ts:183-192 | a key is present iff some issue's dot-joined path is that key, and it holds the message of the last such issue |
| ValidationSchemas.FindFieldIssue | src/lib/validation.schemas.ts:197-203 | the index of the first issue whose path is exactly the field, or none when no issue has that path |
| ValidationSchemas.GetFieldError | src/lib/validation.schemas.ts:197-203 | a message exists iff some issue has path exactly the field, and it is the first such issue's message |
| ValidationSchemas.HasValidationErrors | src/lib/validation.schemas.ts:208-210 | a non-empty issue list; no contract of its own, its meaning is stated by HasErrorsIffSomeFieldRejected |
| ValidationSchemas.HasErrorsIffSomeFieldRejected | src/lib/validation.schemas.ts:208-210 | there are errors iff some field of the schema rejects its value |
| Sorting.Select | src/lib/validation.schemas.ts:215-227 | the result keeps exactly the elements that pass, and is no longer than the input |
| Sorting.SelectIdempotent | src/lib/validation.schemas.ts:215-227 | filtering twice is filtering once |
| ValidationSchemas.Collapse | src/lib/validation.schemas.ts:215-220 | no two adjacent whitespace characters, every whitespace character is a space, nothing new appears except spaces, and the result is empty or starts with whitespace exactly when the input is |
| ValidationSchemas.CollapseRun | src/lib/validation.schemas.ts:219 | a non-empty whitespace run on its own becomes one space |
| ValidationSchemas.CollapseNoSpace | src/lib/validation.schemas.ts:219 | text without whitespace is unchanged |
| ValidationSchemas.CollapseConcat | src/lib/validation.schemas.ts:219 | collapsing two pieces whose join does not split a whitespace run is collapsing each piece |
| ValidationSchemas.CollapseRunBetween | src/lib/validation.schemas.ts:219 | between text that does not end and text that does not start with whitespace, a whitespace run of any length becomes exactly one space and each side collapses on its own |
| ValidationSchemas.CollapseKeepsText | src/lib/validation.schemas.ts:215-220 | collapsing whitespace leaves the non-whitespace text as it was |
| ValidationSchemas.SanitizeString | src/lib/validation.schemas.ts:215-220 | the output has no `<` or `>`, every whitespace character in it is a single space, and no two spaces are adjacent |
| ValidationSchemas.SanitizeStringKeepsText | src/lib/validation.schemas.ts:215-220 | apart from whitespace, the output is the trimmed input without brackets |
| ValidationSchemas.SanitizeStringNotTrimmed | src/lib/validation.schemas.ts:215-220 | trimming runs before the brackets are removed, so `"a <"` sanitises to `"a "` and the output need not be trimmed |
| ValidationSchemas.SanitizePhone | src/lib/validation.schemas.ts:225-227 | the output is ASCII digits only, as long as the input's count of digits, and holds exactly the digit characters the input holds |
| ValidationSchemas.SanitizePhoneIdempotent | src/lib/validation.schemas.ts:225-227 | the output is a subsequence of the input holding each digit as many times as the input does, so it is the input's digits in their order; sanitising twice is sanitising once, and an all-digit phone is unchanged |
| Sorting.SelectCount | src/lib/validation.schemas.ts:226 | filtering keeps every occurrence of a passing element and none of a failing one |
| ValidationSchemas.SanitizedValue | src/lib/validation.schemas.ts:232-247 | non-strings are kept; `phone` gets the phone sanitiser; every other string gets the string sanitiser |
| ValidationSchemas.SanitizeFormData | src/lib/validation.schemas.ts:232-247 | the loop keeps the key set and sanitises each value by its key |
| ImageProcessing.ValidateImageFile | src/lib/image-processing.ts:20-48 | valid iff the type is allowed and 0 < size <= limit; precedence is type, then too large, then empty; a file of exactly the limit passes |
| ImageProcessing.ValidImpliesImageFile | src/lib/image-processing.ts:264-266 | every file the validator accepts has a type starting with `image/` |
| ImageProcessing.GetFileExtension | src/lib/image-processing.ts:257-259 | the result has no dot; it is the whole name lowercased when there is no dot, and empty after a trailing dot |
| ImageProcessing.GetFileExtensionIsLastPart | src/lib/image-processing.ts:257-259 | the extension is the lowercased dot-free suffix of the name that is either the whole name or preceded by a dot, i.e. the part after the last dot |
| ImageProcessing.GetFileExtensionAfterLastDot | src/lib/image-processing.ts:257-259 | for a name `a.b` with no dot in `b`, the extension is `b` lowercased |
| ImageProcessing.ExtensionOrJpg | src/lib/image-processing.ts:56 | `jpg` when the extension is empty and the extension itself otherwise; never empty and without a dot |
| ImageProcessing.GenerateUniqueFileName | src/lib/image-processing.ts:53-58 | `<timestamp>_<token>.<ext>` with the clock and random token as parameters; no contract of its own, its promise is stated by GeneratedNameExtension |
| ImageProcessing.GeneratedNameExtension | src/lib/image-processing.ts:53-58 | the generated name's extension is the original's (lowercased) or `jpg` |
| ImageProcessing.Factor | src/lib/image-processing.ts:81-91 | the scale factor lies in [0, 1], brings the size within the limit, and is 1 when the size already fits |
| ImageProcessing.ClampDimensions | src/lib/image-processing.ts:81-91 | width <= maxWidth and height <= maxHeight, the ratio is preserved, and dimensions already within both limits are unchanged |
| ImageProcessing.TwoStepsScale | src/lib/image-processing.ts:83-91 | the width step followed by the height step lands within both limits, keeps the ratio, and changes nothing within the limits |
| ImageProcessing.StepFactor | src/lib/image-processing.ts:83-86 | one step multiplies both sides by a factor in [0, 1], brings its side within the limit, and is the identity when the side fits |
| ImageProcessing.ClampReachesLimit | src/lib/image-processing.ts:81-91 | an image over a limit is scaled no further than needed: the result reaches the width limit or the height limit |
| ImageProcessing.ScaleDown | src/lib/image-processing.ts:83-86 | one `if` of the computation reassigns the pair to the step of the rule |
| ImageProcessing.Resize | src/lib/image-processing.ts:81-91 | the step-by-step reassignment of width and height computes the clamp |
| ImageProcessing.CompressImage | src/lib/image-processing.ts:63-130 | fails with the load, canvas or compression message when the oracle fails at that step; otherwise it returns a file of the requested format on a canvas of the clamped size |
| ImageProcessing.ShouldCompressImage | src/lib/image-processing.ts:194-221 | true when the size in MB exceeds the limit; otherwise true iff a side exceeds the maximum dimension; true when the dimensions cannot be read |
| ImageProcessing.SmartCompressImage | src/lib/image-processing.ts:226-239 | returns the input file itself when no compression is needed, and the compressed file otherwise |
| ImageProcessing.SmallImageKeptAsIs | src/lib/image-processing.ts:232-236 | a file within the size limit and within 1920 pixels on both sides is returned as it is |
| ImageProcessing.ProcessedOrOriginal | src/lib/image-processing.ts:276-285 | an item whose processing fails is replaced by the original file |
| ImageProcessing.BatchProcessImages | src/lib/image-processing.ts:271-289 | same length and order as the input, each item processed or the original |
| ImageService.RoundMiB | src/lib/image.service.ts:46-47 | the limit in MiB rounded to the nearest integer |
| ImageService.ValidateImageFile | src/lib/image.service.ts:24-57 | missing gives `file-required`; a type outside jpeg, png and webp gives `invalid-file-type` (so `image/jpg` is rejected); a size over the limit gives `file-too-large`; there is no empty-file check |
| ImageService.SizeLimit | src/types/firebase.types.ts:163-166 | 5 MiB for DNI, 10 MiB for banner and portal images |
| ImageService.ValidateFor | src/lib/image.service.ts:62-78 | each wrapper validates against its type's limit |
| ImageService.ServiceValidationFacts | src/lib/image.service.ts:24-57 | the limits read as 5 and 10 MB; a zero-byte png passes; `image/jpg` is an invalid type |
| ImageService.StripExtension | src/lib/image.service.ts:90 | removes a final dot and the non-empty run after it when that run has no dot or slash, and nothing otherwise |
| ImageService.Underscored | src/lib/image.service.ts:91 | every character outside `[A-Za-z0-9]` becomes `_`, and the others are kept |
| ImageService.CleanName | src/lib/image.service.ts:89-92 | at most 20 characters, all alphanumeric or `_`: the underscored stem cut to 20 |
| ImageService.ServiceUniqueFileName | src/lib/image.service.ts:83-95 | `<timestamp>_<token>_<clean>.<ext>`; no contract of its own, its promise is stated by CleanName and ServiceNameExtension |
| ImageService.ServiceNameExtension | src/lib/image.service.ts:83-95 | the generated name ends with the original extension lowercased, or `jpg` |
| ImageService.ServiceShouldCompress | src/lib/image.service.ts:200-211 | false whenever size <= threshold; above it, true iff width > 1920, height > 1080, or the dimensions are unreadable |
| ImageService.ServiceCompressImage | src/lib/image.service.ts:100-161 | fails with the canvas, load or compression error when the oracle fails at that step; otherwise returns a file of the clamped size |
| ImageService.CompressionThreshold | src/lib/image.service.ts:240-243 | half the DNI limit for DNI, half the banner limit otherwise |
| ImageService.UploadCompression | src/lib/image.service.ts:247-253 | 800×600 for DNI and 1920×1080 otherwise, quality 0.8, JPEG |
| ImageService.ProcessImageForUpload | src/lib/image.service.ts:216-261 | an invalid file fails with the validator's code (`invalid-file-type` by default); a valid one is returned as it is when no compression is needed or compression fails, and compressed otherwise |
| ImageService.OversizedUploadMessage | src/lib/image.service.ts:235-237 | an oversized DNI image fails with code `file-too-large` and the too-large user message |
| ImageService.Partition | src/lib/image.service.ts:299-332 | valid plus invalid counts equal the input; every valid file passes; every invalid file fails and carries the validator's message or "Archivo inválido"; every input file lands in one of them |
| ImageService.PartitionValidIsFilter | src/lib/image.service.ts:306-329 | the valid list is exactly the input filtered by the validator |
| ImageService.PartitionInvalidIsFilter | src/lib/image.service.ts:306-329 | the invalid list's files are exactly the input filtered by the validator's negation |
| ImageService.PartitionKeepsOrder | src/lib/image.service.ts:306-329 | both lists keep the input order |
| ImageService.ValidateMultipleImages | src/lib/image.service.ts:299-332 | the loop pushing into the two lists computes the partition |
| FirebaseErrors.GetErrorRecoveryStrategy | src/lib/firebase.errors.ts:79-99 | retryable iff the code is one of the six listed; 3 retries if retryable, else 0; backoff 1000 ms; retry button and local save equal retryable; offline message iff `network-error` |
| FirebaseErrors.FormatErrorMessage | src/lib/firebase.errors.ts:104-115 | the loop over the parameters computes the fold that replaces each `{key}` once |
| FirebaseErrors.FormattedWithoutPlaceholders | src/lib/firebase.errors.ts:104-115 | with no placeholder of any parameter in the template (in particular with no parameters), the template comes back unchanged |
| FirebaseErrors.FormattedReplacesFirstOnly | src/lib/firebase.errors.ts:110-112 | for every template, key and value: with no placeholder the template is unchanged; otherwise the text before the first placeholder and after it is kept around the value, and every later occurrence of the placeholder is still there, shifted |
| FirebaseErrors.TemplateFor | src/lib/firebase.errors.ts:6-62 | a listed code gets its template and any other code the `unknown-error` one |
| FirebaseErrors.CreateFirebaseError | src/lib/firebase.errors.ts:120-135 | keeps the code verbatim; the user message is the formatted template; the message is the original error's message if present, else the user message |
| FirebaseErrors.ErrorCodeOf | src/lib/firebase.errors.ts:140-155 | code precedence: `error.code`, then NetworkError gives `network-error`, then TimeoutError gives `timeout`, else `unknown-error` |
| FirebaseErrors.HandleFirebaseError | src/lib/firebase.errors.ts:140-155 | code by that precedence, user message from its template, message the error's own if present |
| FirebaseErrors.RetryWithBackoff | src/lib/firebase.errors.ts:160-190 | the loop's result, call count and delays are those of the recursive definition |
| FirebaseErrors.RetryFromFacts | src/lib/firebase.errors.ts:167-186 | from any attempt: bounded calls, the deciding call is the last one, earlier failures were retryable, delays double |
| FirebaseErrors.RetryFacts | src/lib/firebase.errors.ts:160-190 | at most maxRetries + 1 calls; the first success is returned; every failure before the last was retryable; delay k is baseDelayMs·2^k; giving up throws the handled last error |
| FirebaseErrors.RetryAsWrittenGivesUpOnRetryableCode | src/lib/firebase.errors.ts:178 | classifying by `toString()` makes one call for an error whose code `unavailable` is retryable |
| FirebaseErrors.RetryByCodeRetriesRetryableCode | src/lib/firebase.errors.ts:160-190 | classifying by code retries the same error four times with delays 1000, 2000 and 4000 |
| FirebaseErrors.RetryByCodeExhaustsAttempts | src/lib/firebase.errors.ts:167-186 | classifying by code, an oracle that always fails retryably is called exactly maxRetries + 1 times |
| DocumentService.HandleServiceError | src/lib/firebase.service.ts:63-91 | code defaults to `unknown` and message to "Error desconocido"; four codes get their own user message and every other value the connection message |
| DocumentService.ValidationFailureLooksLikeConnectionError | src/lib/firebase.service.ts:99-120 | a validation failure thrown as a plain Error reaches the caller as code `unknown` with the connection message |
| DocumentService.NewRelato | src/lib/firebase.service.ts:151-168 | the new record is pending, with created_at == updated_at == now, no approval fields, and the submitted fields |
| DocumentService.NewPortalMemoria | src/lib/firebase.service.ts:173-197 | pending, created_at == updated_at, the submitted fields, metadata `web_form` with an empty IP and the user agent |
| DocumentService.Approve | src/lib/firebase.service.ts:226-245 | status approved, approved_by, approved_at and updated_at set; every other field unchanged; no precondition on the current status |
| DocumentService.Reject | src/lib/firebase.service.ts:250-270 | status rejected, admin_notes, approved_by and updated_at set; approved_at untouched; every other field unchanged |
| DocumentService.NewerThanIsStrictOrder | src/lib/firebase.service.ts:208-209 | ordering by created_at descending is a strict order |
| DocumentService.Capped | src/lib/firebase.service.ts:283-285 | capped at limitCount only when it is truthy (absent or 0 means no cap); always a prefix |
| DocumentService.CappedKeepsNewest | src/lib/firebase.service.ts:275-326 | a capped approved query holds only approved records of the collection, newest first, and no record left out is newer than one kept |
| DocumentService.ScanMembers | src/lib/firebase.service.ts:206-216 | one scan step adds the document iff it has the status |
| DocumentService.ScanStep | src/lib/firebase.service.ts:206-216 | one scan step preserves the loop invariant of the status query |
| DocumentService.SelectByStatus | src/lib/firebase.service.ts:202-221 | the loop over the collection returns exactly its records of the status, newest first |
| DocumentService.UploadOptions | src/lib/firebase.service.ts:105-110 | 1200×1200 when the path contains `dni`, otherwise 1920×1080, quality 0.8, JPEG |
| DocumentService.UploadRouting | src/lib/firebase.service.ts:127-146 | each upload kind's storage path and MB limit as in the routing table, and the DNI cap exactly for the paths containing `dni` |
| DocumentService.ObjectFileName | src/lib/firebase.service.ts:53-58 | the service's own name generator, keeping the text after the last dot as it is; no contract of its own, its promise is stated by ObjectFileNameExtension |
| DocumentService.ObjectFileNameExtension | src/lib/firebase.service.ts:53-58 | the stored object keeps the original name's last extension |
| DocumentService.PrepareUpload | src/lib/firebase.service.ts:96-122 | the validate, compress and name steps of `uploadImage` before the store is written; no contract of its own, its outcome is stated by PrepareUploadOutcome |
| DocumentService.PrepareUploadOutcome | src/lib/firebase.service.ts:96-122 | a rejected file throws the validator's message; a valid file that needs no compression is stored unchanged; otherwise it succeeds exactly when compression does, storing the compressed file under a name ending with the original extension lowercased (or `jpg`), or throws the compression error; the object path is the storage path, `/` and the generated name, and keeps the stored file's extension |
| DocumentService.ObjectPathExtension | src/lib/firebase.service.ts:113-114 | the object path ends with the stored name's extension |
| DocumentService.FirebaseService.constructor | src/lib/firebase.service.ts:37-48 | empty collections and storage |
| DocumentService.FirebaseService.FreshId | src/lib/firebase.service.ts:162 | an id in neither collection, leaving the store unchanged |
| DocumentService.FirebaseService.CreateRelato | src/lib/firebase.service.ts:151-168 | on success exactly one new pending relato under a fresh id and nothing else changes; a fault leaves the store unchanged and returns the handled error |
| DocumentService.FirebaseService.CreatePortalMemoria | src/lib/firebase.service.ts:173-197 | the same for portal entries |
| DocumentService.FirebaseService.GetPendingSubmissions | src/lib/firebase.service.ts:202-221 | exactly the pending records of that collection, newest first, or the handled fault |
| DocumentService.FirebaseService.GetApproved | src/lib/firebase.service.ts:275-326 | the approved records newest first, capped when limitCount is truthy, or the handled fault |
| DocumentService.FirebaseService.GetById | src/lib/firebase.service.ts:331-368 | null iff no record has that id, else that record |
| DocumentService.FirebaseService.ApproveSubmission | src/lib/firebase.service.ts:226-245 | the record with that id is replaced by its approved form and nothing else changes; a missing id or a fault changes nothing and returns the handled error |
| DocumentService.FirebaseService.RejectSubmission | src/lib/firebase.service.ts:250-270 | the same with the rejected form |
| DocumentService.FirebaseService.UploadImage | src/lib/firebase.service.ts:96-122 | the prepared object is stored and its path returned; a validation, compression or storage failure stores nothing and returns the handled error |
| DocumentService.FirebaseService.Upload | src/lib/firebase.service.ts:127-146 | each kind's upload goes through its path and limit |
| UploadHooks.Merge | src/hooks/useFirebaseUpload.ts:42-47 | each field given replaces the slot's; the others are kept |
| UploadHooks.TickValue | src/hooks/useFirebaseUpload.ts:64-66 | a tick gives min(p + 10, 90): never above 90, and strictly rising below 90 |
| UploadHooks.TicksClimbToNinety | src/hooks/useFirebaseUpload.ts:192-195 | k ticks from p give min(p + 10k, 90) |
| UploadHooks.TicksAsWrittenStuck | src/hooks/useFirebaseUpload.ts:64-66 | with the progress captured by the callback, any number of ticks gives one tick past the captured value |
| UploadHooks.ThreeTicksDiffer | src/hooks/useFirebaseUpload.ts:64-66 | three ticks from 0 show 10 as written and 30 as intended |
| UploadHooks.TicksAfterFailure | src/hooks/useFirebaseUpload.ts:192-218 | a timer still firing after a failure moves the bar from 0 to 10 after one tick and to 90 after nine |
| UploadHooks.FailureMessage | src/hooks/useFirebaseUpload.ts:79-87 | the error's user message, or the slot's default text |
| UploadHooks.MultiUpload.constructor | src/hooks/useFirebaseUpload.ts:27-38 | every slot initial, nothing uploading |
| UploadHooks.MultiUpload.UpdateUploadState | src/hooks/useFirebaseUpload.ts:42-57 | only the named slot changes, by the given fields, and `isAnyUploading` is the disjunction of the three slots afterwards |
| UploadHooks.MultiUpload.Start | src/hooks/useFirebaseUpload.ts:60 | uploading, progress 0, no error, previous url kept |
| UploadHooks.MultiUpload.Tick | src/hooks/useFirebaseUpload.ts:64-66 | the slot's progress takes one tick of its current value |
| UploadHooks.MultiUpload.TickAsWritten | src/hooks/useFirebaseUpload.ts:64-66 | the slot's progress takes one tick of the value captured when the callback was made |
| UploadHooks.MultiUpload.Succeed | src/hooks/useFirebaseUpload.ts:71-76 | not uploading, progress 100, the url, no error |
| UploadHooks.MultiUpload.Fail | src/hooks/useFirebaseUpload.ts:79-87 | not uploading, progress 0, url unchanged, the failure message |
| UploadHooks.MultiUpload.Upload | src/hooks/useFirebaseUpload.ts:58-157 | progress climbs to min(10·ticks, 90) while uploading; success gives progress 100 with the url; failure gives progress 0, the old url and the failure message; the outcome is returned or rethrown; other slots unchanged |
| UploadHooks.MultiUpload.UploadAsWritten | src/hooks/useFirebaseUpload.ts:58-91 | while uploading the progress shown is one tick past the value captured before it began; after a failure the uncleared timer keeps writing that value, so the slot shows it next to the error once a tick has fired |
| UploadHooks.MultiUpload.ResetUpload | src/hooks/useFirebaseUpload.ts:158-164 | one slot back to its initial state, the others unchanged |
| UploadHooks.MultiUpload.ResetAllUploads | src/hooks/useFirebaseUpload.ts:165-167 | every slot initial and nothing uploading |
| UploadHooks.FileUpload.UploadFile | src/hooks/useFirebaseUpload.ts:182-222 | progress climbs to min(10·ticks, 90); success stores the url; failure clears the url and sets the message or "Error al subir archivo", and the uncleared timer then takes the progress to min(10·k, 90) after k more ticks |
| UploadHooks.FileUpload.ResetUpload | src/hooks/useFirebaseUpload.ts:223-225 | back to the initial state |
| AuthHook.CheckAdminStatus | src/hooks/useAuth.tsx:40-48 | admin iff the `admin` claim is present and truthy (a failed claims lookup counts as absent) |
| AuthHook.ConvertToAuthUser | src/hooks/useAuth.tsx:51-63 | keeps uid, email and display name and sets isAdmin from the claims |
| AuthHook.ListenerState | src/hooks/useAuth.tsx:137-181 | no user: signed out with no error; non-admin: unauthenticated with the permissions error; failure: unauthenticated with the verification error; authenticated iff the user is an admin, with no error |
| AuthHook.NotAdminErrorText | src/hooks/useAuth.tsx:77-82 | the non-admin sign-in error is `permission-denied` with the permission template as message and user message |
| AuthHook.SignInMessage | src/hooks/useAuth.tsx:88-108 | a fixed text for each of the four auth codes, else the error's message, else "Error al iniciar sesión" |
| AuthHook.NonAdminSignInMessage | src/hooks/useAuth.tsx:77-108 | a non-admin sign-in ends with the permission-denied text |
| AuthHook.AuthGate.constructor | src/hooks/useAuth.tsx:30-35 | the initial loading state |
| AuthHook.AuthGate.OnAuthStateChanged | src/hooks/useAuth.tsx:137-181 | the state becomes the listener's state for that event |
| AuthHook.AuthGate.SignIn | src/hooks/useAuth.tsx:66-112 | user and authentication are left to the listener; success leaves the state loading, with no error, until the listener fires; a failed sign-in sets the mapped error and is rethrown; a non-admin sign-out that succeeds throws the permission-denied error, and one that fails rethrows its own error with its mapped message |
| AuthHook.AuthGate.SignOut | src/hooks/useAuth.tsx:115-129 | success leaves the listener to finish; failure sets the sign-out error and rethrows |
| AuthHook.AuthGate.ClearError | src/hooks/useAuth.tsx:132-134 | only the error changes, to none |
| AuthHook.WithAuth | src/hooks/useAuth.tsx:210-237 | the loading view, then the unauthorized view, then the component |
| AuthHook.ComponentOnlyForAdmins | src/hooks/useAuth.tsx:155-160 | the wrapped component is rendered only for an admin user |
| ProtectedRoute.RenderRoute | src/components/admin/ProtectedRoute.tsx:11-74 | loading regardless of the rest; then the fallback or login form; then access denied for a non-admin; else the children |
| ProtectedRoute.AccessDeniedUnreachable | src/components/admin/ProtectedRoute.tsx:44-70 | in every state the listener produces, the access-denied branch never renders, and the children render iff an admin is signed in |
| ProtectedRoute.RequireAdmin | src/components/admin/ProtectedRoute.tsx:79-87 | throws iff not loading and not authenticated or not admin |
| ProtectedRoute.GuardAgreesWithRoute | src/components/admin/ProtectedRoute.tsx:11-87 | on listener states the guard passes iff the route renders its children |
| AdminPanel.Tagged | src/components/admin/AdminPanel.tsx:40-52 | each document tagged with its type, in order |
| AdminPanel.PendingNewerIsStrictOrder | src/components/admin/AdminPanel.tsx:54-58 | created_at descending with a missing time as 0 is a strict order |
| AdminPanel.MergedFacts | src/components/admin/AdminPanel.tsx:40-58 | the merged list is sorted newest first and holds exactly the tagged entries of both lists |
| AdminPanel.MergedLoads | src/components/admin/AdminPanel.tsx:30-58 | merging the two pending queries gives exactly the pending records of both collections, tagged |
| AdminPanel.RemoveId | src/components/admin/AdminPanel.tsx:76 | removes exactly the entries with that id |
| AdminPanel.RemoveIdKeepsOrder | src/components/admin/AdminPanel.tsx:76 | removal keeps order and so keeps the list sorted |
| AdminPanel.OfKind | src/components/admin/AdminPanel.tsx:145 | the entries of one type |
| AdminPanel.TabCountsAddUp | src/components/admin/AdminPanel.tsx:199-209 | the two tab counts add up to the pending count |
| AdminPanel.Panel.constructor | src/components/admin/AdminPanel.tsx:16-24 | the initial state cells |
| AdminPanel.Panel.Visible | src/components/admin/AdminPanel.tsx:145 | only entries of the active tab's type |
| AdminPanel.Panel.LoadPendingSubmissions | src/components/admin/AdminPanel.tsx:30-67 | with both queries succeeding, the pending list is loaded from the two collections; if either fails, the error is set and the list unchanged |
| AdminPanel.Panel.BeginAction | src/components/admin/AdminPanel.tsx:71 | actionLoading holds the id |
| AdminPanel.Panel.HandleApprove | src/components/admin/AdminPanel.tsx:69-87 | success removes exactly that id and clears the selection; failure sets the error and leaves the list; actionLoading is none afterwards |
| AdminPanel.Panel.HandleReject | src/components/admin/AdminPanel.tsx:89-118 | blank notes set the error without a service call; success removes the entry, clears the selection and the notes; failure sets the error |
| AdminPanel.Panel.OpenModal | src/components/admin/AdminPanel.tsx:120-125 | selects the submission and clears notes and error |
| AdminPanel.Panel.CloseModal | src/components/admin/AdminPanel.tsx:127-132 | clears selection, notes and error |
| AdminPanel.Panel.SetRejectionNotes | src/components/admin/AdminPanel.tsx:89-93 | only the notes change |
| AdminPanel.Panel.SetActiveTab | src/components/admin/AdminPanel.tsx:145 | only the tab changes |
| RelatoForm.ToFormData | src/components/formularios-relato/EnhancedRelatoForm.tsx:103-108 | the seven fields the schema reads, under their keys |
| RelatoForm.SanitizedFormAgrees | src/components/formularios-relato/EnhancedRelatoForm.tsx:103-111 | sanitising the form record is sanitising its form data key by key |
| RelatoForm.ValidatedFormIsAccepted | src/components/formularios-relato/EnhancedRelatoForm.tsx:97-136 | every field of the form validation accepted, once sanitised, satisfies its schema; in particular the phone is 10 to 15 digits |
| RelatoForm.Updated | src/components/formularios-relato/EnhancedRelatoForm.tsx:72-79 | only that field is set |
| RelatoForm.Payload | src/components/formularios-relato/EnhancedRelatoForm.tsx:169-177 | the record carries the form's name, surname, phone and title, the editor content and the two uploaded URLs |
| RelatoForm.ErrorText | src/components/formularios-relato/EnhancedRelatoForm.tsx:194-200 | the error's message, or the default text |
| RelatoForm.SpacedPhoneStoredRaw | src/components/formularios-relato/EnhancedRelatoForm.tsx:123-177 | with the phone "11 2345 6789", the as-written record's phone is rejected by the schema and the validated record's is accepted |
| RelatoForm.SpacedPhoneRejected | src/lib/validation.schemas.ts:52-55 | the spaced phone is rejected as typed |
| RelatoForm.SpacedPhoneSanitised | src/lib/validation.schemas.ts:225-227 | the spaced phone is accepted once sanitised |
| RelatoForm.EnhancedRelatoForm.constructor | src/components/formularios-relato/EnhancedRelatoForm.tsx:33-49 | empty form, no errors, idle submission |
| RelatoForm.EnhancedRelatoForm.UpdateField | src/components/formularios-relato/EnhancedRelatoForm.tsx:72-79 | sets only that field, and blanks that field's error if one was set |
| RelatoForm.CheckForm | src/components/formularios-relato/EnhancedRelatoForm.tsx:102-130 | accepts iff the schema finds no issue in the sanitised record; then no errors and the sanitised form with the raw content, otherwise the formatted issues |
| RelatoForm.EnhancedRelatoForm.ValidateForm | src/components/formularios-relato/EnhancedRelatoForm.tsx:97-136 | returns true iff the sanitised form is accepted, then clearing the errors and storing the sanitised form; on failure stores the formatted errors, or the general error when the editor fails |
| RelatoForm.EnhancedRelatoForm.CreateFrom | src/components/formularios-relato/EnhancedRelatoForm.tsx:155-201 | without both URLs, the wait error and no create; with them, exactly one new relato built from the payload and the success state, or the error text |
| RelatoForm.EnhancedRelatoForm.HandleSubmit | src/components/formularios-relato/EnhancedRelatoForm.tsx:138-203 | a no-op while submitting or uploading; a rejected form gives the fix-errors state without a create, with the formatted issues (or the general validation error when the editor throws) as the field errors; an accepted one stores the validated values |
| RelatoForm.EnhancedRelatoForm.HandleSubmitAsWritten | src/components/formularios-relato/EnhancedRelatoForm.tsx:138-203 | the record built is the form as it was before validation sanitised it |
| RelatoForm.EnhancedRelatoForm.ResetForm | src/components/formularios-relato/EnhancedRelatoForm.tsx:205-222 | empty form, no errors, idle submission, every upload slot initial |
| Carousel.Rem | src/components/relatos/Carrousel.tsx:8-14 | JavaScript `%`: truncated toward zero, NaN for an empty list |
| Carousel.NextIndex | src/components/relatos/Carrousel.tsx:8-10 | `(prev + 1) % stories.length` with JavaScript's `%`; no contract of its own, its promise is stated by ArrowsStayInRange, ArrowsInverse and NextPressesRotate |
| Carousel.PrevIndex | src/components/relatos/Carrousel.tsx:12-14 | `(prev - 1 + stories.length) % stories.length`; no contract of its own, its promise is stated by ArrowsStayInRange and ArrowsInverse |
| Carousel.ArrowsStayInRange | src/components/relatos/Carrousel.tsx:8-14 | for n > 0 both arrows keep the index in [0, n) and step by one with wrap-around; on an empty list both give NaN |
| Carousel.ArrowsInverse | src/components/relatos/Carrousel.tsx:8-14 | prev(next(i)) = i and next(prev(i)) = i in range |
| Carousel.NextPressesRotate | src/components/relatos/Carrousel.tsx:9 | m presses of next move m places round the ring |
| Carousel.FullTurn | src/components/relatos/Carrousel.tsx:9 | n presses of next return to the start |
| Carousel.Position | src/components/relatos/Carrousel.tsx:20-33 | each card is current, previous, next or hidden, with that precedence |
| Carousel.TwoCards | src/components/relatos/Carrousel.tsx:20-33 | with two cards the other is previous |
| Carousel.OneCard | src/components/relatos/Carrousel.tsx:20-33 | with one card only current occurs |
| Carousel.AtMostThreeShown | src/components/relatos/Carrousel.tsx:20-33 | at most three cards are not hidden |
| Carousel.Carrousel.constructor | src/components/relatos/Carrousel.tsx:6 | the index starts at 0 |
| Carousel.Carrousel.NextStory | src/components/relatos/Carrousel.tsx:8-10 | the index becomes next, staying in range |
| Carousel.Carrousel.PrevStory | src/components/relatos/Carrousel.tsx:12-14 | the index becomes prev, staying in range |
| Carousel.Carrousel.GoToStory | src/components/relatos/Carrousel.tsx:16-18 | the index becomes k |
| Listing.SearchFilter | src/components/relatos/RelatosDisplay.tsx:67-79 | a blank query keeps everything; otherwise exactly the items with a field containing the query, both lowercased |
| Listing.SearchKeepsOrder | src/components/portal-memoria/PortalMemoriaGallery.tsx:64-70 | the result is an order-preserving subsequence, so a sorted list stays sorted |
| Listing.CreatedTime | src/components/relatos/RelatosDisplay.tsx:47 | a missing creation time reads as now |
| Listing.ListingView | src/components/portal-memoria/PortalMemoriaGallery.tsx:90-231 | loading, then error, then empty iff no entries, then no-results iff entries but none shown, then the grid |
| RelatosDisplay.LoadedEntriesFacts | src/components/relatos/RelatosDisplay.tsx:36-51 | the loaded list is sorted newest first and holds one converted entry per document |
| RelatosDisplay.FilterRelatos | src/components/relatos/RelatosDisplay.tsx:67-79 | a blank query keeps the list as it is; otherwise an entry is kept iff it is in the list and its name, surname, title or content contains the query, ignoring case |
| RelatosDisplay.TotalPages | src/components/relatos/RelatosDisplay.tsx:84 | ceil(len / 12), which is 0 iff the list is empty |
| RelatosDisplay.SliceIndex | src/components/relatos/RelatosDisplay.tsx:85-88 | the index `slice` reads: clamped to [0, len] |
| RelatosDisplay.Slice | src/components/relatos/RelatosDisplay.tsx:85-88 | `slice(start, end)` is `s[start..end]` in range and never longer than end - start |
| RelatosDisplay.PagesCoverTheList | src/components/relatos/RelatosDisplay.tsx:84-89 | a page holds at most 12 items; item i is at place i mod 12 of page i / 12 + 1, a real page; every real page is non-empty; with pagination off, everything shows |
| RelatosDisplay.PrevPage | src/components/relatos/RelatosDisplay.tsx:313 | max(p - 1, 1) |
| RelatosDisplay.NextPage | src/components/relatos/RelatosDisplay.tsx:335 | min(p + 1, totalPages) |
| RelatosDisplay.ArrowsKeepPageInRange | src/components/relatos/RelatosDisplay.tsx:310-335 | the arrows keep a page in [1, totalPages], stepping by one inside it |
| RelatosDisplay.TruncateContent | src/components/relatos/RelatosDisplay.tsx:106-109 | content no longer than the limit is unchanged; longer content gives at most limit + 3 characters ending with `...` |
| RelatosDisplay.TruncatedIsTrimmedHead | src/components/relatos/RelatosDisplay.tsx:106-109 | before `...` stands the trimmed head: a piece of the content that neither starts nor ends with whitespace, preceded only by whitespace and followed within the first `maxLength` characters only by whitespace |
| RelatosDisplay.ApprovedAreRelatos | src/components/relatos/RelatosDisplay.tsx:38-40 | every approved document from the relato collection has the relato shape |
| RelatosDisplay.Display.constructor | src/components/relatos/RelatosDisplay.tsx:21-29 | the initial state cells, page 1 |
| RelatosDisplay.Display.LoadRelatos | src/components/relatos/RelatosDisplay.tsx:32-81 | success loads the converted approved relatos newest first and resets the page; failure sets the error and keeps the list |
| RelatosDisplay.Display.SetSearchQuery | src/components/relatos/RelatosDisplay.tsx:67-81 | the filtered list follows the query and the page resets to 1 |
| RelatosDisplay.Display.GoToPrevious | src/components/relatos/RelatosDisplay.tsx:313 | the page becomes the previous one, in range |
| RelatosDisplay.Display.GoToNext | src/components/relatos/RelatosDisplay.tsx:335 | the page becomes the next one, in range |
| RelatosDisplay.Display.GoToPage | src/components/relatos/RelatosDisplay.tsx:323 | the page becomes the one clicked |
| RelatosDisplay.Display.OpenModal | src/components/relatos/RelatosDisplay.tsx:96-100 | selects the relato, nothing else changes |
| RelatosDisplay.Display.CloseModal | src/components/relatos/RelatosDisplay.tsx:101-104 | clears the selection, nothing else changes |
| PortalGallery.LoadedEntriesFacts | src/components/portal-memoria/PortalMemoriaGallery.tsx:28-44 | sorted newest first, one converted entry per document |
| PortalGallery.FilterEntries | src/components/portal-memoria/PortalMemoriaGallery.tsx:60-72 | blank query shows all; otherwise the entries whose name, surname or description contains the query |
| PortalGallery.ApprovedArePortal | src/components/portal-memoria/PortalMemoriaGallery.tsx:30-41 | every approved portal document has the portal shape |
| PortalGallery.FilterShownInOrder | src/components/portal-memoria/PortalMemoriaGallery.tsx:64-70 | the filtered entries are an order-preserving subsequence and stay newest first |
| PortalGallery.Gallery.constructor | src/components/portal-memoria/PortalMemoriaGallery.tsx:16-21 | the initial state cells |
| PortalGallery.Gallery.LoadEntries | src/components/portal-memoria/PortalMemoriaGallery.tsx:24-57 | success loads the converted approved entries newest first; failure sets the error and keeps the list |
| PortalGallery.Gallery.SetSearchQuery | src/components/portal-memoria/PortalMemoriaGallery.tsx:60-72 | the filtered list follows the query |
| PortalGallery.Gallery.View | src/components/portal-memoria/PortalMemoriaGallery.tsx:209-231 | empty iff no entries; no-results iff entries but the filtered list is empty |
| PortalGallery.Gallery.OpenModal | src/components/portal-memoria/PortalMemoriaGallery.tsx:79-83 | selects the entry |
| PortalGallery.Gallery.CloseModal | src/components/portal-memoria/PortalMemoriaGallery.tsx:84-88 | clears the selection |
| RelatosMainContent.ReadingMinutes | src/components/relatos/RelatosMainContentFirebase.tsx:43 | ceil(len / 200) |
| RelatosMainContent.ToStory | src/components/relatos/RelatosMainContentFirebase.tsx:36-49 | the description is the first 200 characters plus `...`, always appended; the duration is the minutes followed by ` min`; the author is name, space, surname; the fixed category and difficulty |
| RelatosMainContent.LexLessTransitive | src/components/relatos/RelatosMainContentFirebase.tsx:52 | code-unit order on ids is transitive |
| RelatosMainContent.IdAfterIsStrictOrder | src/components/relatos/RelatosMainContentFirebase.tsx:52 | id descending is a strict order |
| RelatosMainContent.StoriesFacts | src/components/relatos/RelatosMainContentFirebase.tsx:36-52 | the stories are sorted by id descending, one per relato |
| RelatosMainContent.Latest | src/components/relatos/RelatosMainContentFirebase.tsx:77 | the first min(len, 5) stories |
| RelatosMainContent.LatestAreGreatest | src/components/relatos/RelatosMainContentFirebase.tsx:52-77 | on the list sorted by id, the carousel holds the stories with the greatest ids: no story left out comes before one shown; ids are not creation times, so these need not be the newest stories |
| RelatosMainContent.FilterStories | src/components/relatos/RelatosMainContentFirebase.tsx:69-74 | exactly the stories whose title, description or author contains the query, both lowercased; the query is not trimmed |
| RelatosMainContent.FilterStoriesFacts | src/components/relatos/RelatosMainContentFirebase.tsx:69-74 | an empty query keeps every story, and the result keeps their order |
| RelatosMainContent.MainContent.constructor | src/components/relatos/RelatosMainContentFirebase.tsx:21-24 | no stories, loading |
| RelatosMainContent.MainContent.LoadRelatos | src/components/relatos/RelatosMainContentFirebase.tsx:27-67 | success loads the approved relatos as stories sorted by id; failure leaves no stories and the error set |
| RelatosMainContent.MainContent.SetSearchQuery | src/components/relatos/RelatosMainContentFirebase.tsx:69-74 | only the query changes |
| RelatosMainContent.MainContent.View | src/components/relatos/RelatosMainContentFirebase.tsx:84-203 | the spinner iff loading; the error view, with the stored message, iff loading ended with an error; the invitation iff no error and no stories; the no-results notice iff a non-empty query matches nothing |
| Sorting.SortCorrect | src/components/admin/AdminPanel.tsx:54-58 | the sorted list is sorted and a permutation of the input |
| Text.TrimIsInfix | src/lib/validation.schemas.ts:217 | the trimmed text is the piece of the input right after its leading whitespace, and everything after the piece is whitespace |
| Text.SpliceKeepsLater | src/lib/firebase.errors.ts:110-112 | replacing one piece keeps a later occurrence of the pattern, shifted by the difference in length |
| Text.BlankIffAllSpace | src/components/relatos/RelatosDisplay.tsx:68-69 | a trim-empty query is exactly an all-whitespace one |
| Text.IndexOf | src/lib/firebase.errors.ts:110-112 | the first position where the pattern matches, or none |
| Text.ReplaceFirst | src/lib/firebase.errors.ts:110-112 | `replace` with a string pattern changes only its first occurrence |
| Text.NatToStringInjective | src/lib/image-processing.ts:54-57 | distinct timestamps render to distinct decimal strings |

## Left out

- Reading the claims for `checkAdminStatus`, and the Firestore, Storage and Auth calls. These are replaced by maps in `FirebaseService` and by oracle parameters: `fault` for the value a call throws, `now` for the clock, and `ImageEnv` for image decoding, the canvas and the blob. Query indexes, network behaviour and atomicity are not modelled.
- `Timestamp.now()` is read twice in `createRelato`, `createPortalMemoria`, `approveSubmission` and `rejectSubmission`. Both reads are modelled as one `now`, so `created_at == updated_at` holds exactly.
- Firestore's random document ids are modelled as decimal counter values from `FreshId`. The download URL returned by an upload is modelled as the object's path.
- Random tokens and `Date.now()` in file names are parameters.
- The `originalError` field of a `FirebaseError` is not kept, and neither is logging to the console.
- `createFirebaseError` reads a prototype member (such as `toString`) for a code of that name from `ERROR_MESSAGES`. The model treats such codes as unknown.
- `retryWithBackoff`'s `setTimeout` waits are recorded as the list of delays, not slept.
- `isOffline` and `waitForOnline` read `navigator` and are not modelled.
- Zod is modelled by the checks it runs and the issues it reports, in schema order, with one issue per failing check. Its error-map machinery is not modelled. The `Create*DataSchema`, `AdminUpdateSchema` and `GetSubmissionsQuerySchema` schemas, and `validateCreateRelatoData` and `validateCreatePortalMemoriaData`, are not used by the modelled core and are not modelled (`src/lib/validation.schemas.ts:113-181`). `.url()` is not modelled.
- Characters:
  - strings are sequences of code points, not UTF-16 code units;
  - `toLowerCase` maps ASCII and Latin-1 capitals only;
  - `\s` is the `IsSpace` class in `text.dfy`;
  - `localeCompare` on ids is modelled as code-unit order.
- Image arithmetic is over reals. There is no pixel rounding and no canvas encoding. `maxSizeMB` thresholds are reals, while `ValidateImageFile` limits are whole MB.
- ClampDimensions: takes non-negative widths, heights and limits, because image sides and configured limits are never negative.
- `formatFileSize`, `createThumbnail`, `getImageDimensions`, `imageToBase64`, `fileToBase64`, `createPreviewUrl` and `revokePreviewUrl` use browser APIs or floating-point formatting, and are not modelled.
- `setInterval` ticks are a count parameter (`ticks`). Races between concurrent uploads, and concurrent approve or reject on one record, are not modelled.
- The sign-out triggered inside the listener is not modelled as a second event. The listener's next event is a separate `OnAuthStateChanged` call.
- `useRequireAuth` only logs a warning when loading has ended with no signed-in user, and returns `useAuth()`'s state unchanged. It redirects nowhere and is not modelled; the only `window.location` navigation is the access-denied page's "Volver al inicio" button, which is presentation.
- A thrown `null`: `SignInMessage`, `DocumentService.HandleServiceError` and `UploadHooks.FailureMessage` read it as a value with no code and no message. The source reads `error.code` and `.userMessage` directly, which would raise a `TypeError` on `null`. No platform call throws `null`, so that second failure is not modelled.
- `handleDniUpload` and `handleBannerUpload` (`EnhancedRelatoForm.tsx:81-95`) only forward to the upload hook and swallow its error. They are not modelled; the hook's `Upload` is.
- The BlockNote editor is an `editorContent` parameter: an absent value stands for an editor that throws. `handleSubmit` reads the editor twice; both reads are modelled as the same value. Clearing the editor on reset, and the reset `setTimeout` after 3 seconds, are not modelled.
- React scheduling is modelled as sequential steps: each handler runs to completion, and each effect runs right after the state change that triggers it.
- `document.body` overflow locking in the modals is not modelled.
- In-place `Array.prototype.sort` is modelled as a function on sequences (insertion sort under a strict order). Its result is ordered by the comparator, and elements the comparator ties keep their input order: each element is inserted after the ones that do not come after it, as in the stable sort ECMAScript 2019 requires.
- ReplaceFirst: inserts the replacement text as it is. JavaScript's `replace` expands `$&`, `$$`, `` $` `` and `$'` in it; parameter values holding those patterns are not modelled.
- The presentation-only JSX (markup, styles, icons, the header and navigation) is not modelled.

## Findings

| source | as written | input that shows it | evidently intended | confidence | as-written member | corrected member |
|---|---|---|---|---|---|---|
| src/hooks/useFirebaseUpload.ts:64-66 | the progress interval reads `uploadStates.dni.progress` from the render that created the callback, so every tick writes the same value | an upload starting from progress 0 with three ticks shows 10 | each tick adds 10 to the current progress, up to 90 (as `useFileUpload` does with a functional update at 192-195) | not executed | UploadHooks.MultiUpload.UploadAsWritten, UploadHooks.ThreeTicksDiffer | UploadHooks.MultiUpload.Upload, UploadHooks.TicksClimbToNinety |
| src/lib/firebase.errors.ts:178 | the strategy is looked up by `error.toString()`, which for an error object is its name and message, never a code | an error with code `unavailable` and message "Service unavailable" is not retried | look the strategy up by the error's code | not executed | FirebaseErrors.RetryAsWrittenGivesUpOnRetryableCode | FirebaseErrors.RetryByCodeRetriesRetryableCode, FirebaseErrors.RetryByCodeExhaustsAttempts |
| src/hooks/useFirebaseUpload.ts:64-87 | `clearInterval` runs only after a successful upload, so when the service call throws the progress timer keeps firing after the failure state is written (the same at 193-218 in `useFileUpload`) | a failed upload followed by one timer tick shows progress 10 beside the error, and nine ticks show 90 | stop the timer on both outcomes, leaving a failed upload at progress 0 | not executed | UploadHooks.FileUpload.UploadFile, UploadHooks.MultiUpload.UploadAsWritten, UploadHooks.TicksAfterFailure | UploadHooks.MultiUpload.Upload |
| src/components/formularios-relato/EnhancedRelatoForm.tsx:169-177 | the record is built from the `formData` captured before `validateForm` stored the sanitised values (123-127), so raw input is stored | the phone "11 2345 6789" passes validation once sanitised, but is stored with its spaces, which the schema rejects | store the sanitised values that passed validation | not executed | RelatoForm.EnhancedRelatoForm.HandleSubmitAsWritten, RelatoForm.SpacedPhoneStoredRaw | RelatoForm.EnhancedRelatoForm.HandleSubmit, RelatoForm.ValidatedFormIsAccepted |
