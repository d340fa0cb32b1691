# Ez-HD image and video upscaler: a verified model of its core

Ez-HD is a small web application. A browser uploads an image or a video to
an Express server. The server resizes images to a quality tier (720p, 1080p,
2K or 4K) while keeping the aspect ratio, applies optional Jimp filters
(brightness, contrast, sharpening), and reports progress over a Socket.IO
channel. It keeps the last processed jobs in an in-memory history. Video
processing is only simulated: four timed progress events, then a history
entry.

This project models, in Dafny:

- **Upload acceptance on the server** (`upload_filter.dfy`, module `UploadFilter`).
  - Multer's file filter tests the lower-cased `path.extname` of the original
    name and the MIME type against the unanchored alternation
    `jpeg|jpg|png|webp|mp4|avi|mkv|mov|webm`. Such a `test` succeeds exactly
    when one of the words occurs as a substring (`Occurs`, proved equivalent
    to the existence of an occurrence).
  - The 500 MiB size limit.
  - `Extname` follows Node's `path.extname`: the suffix of the last path
    segment from its last `.`, or `""` when that segment has no dot, starts
    with its only dot, or is `..`.
- **Quality resolution** (`quality.dfy`, module `Quality`).
  - The tier table. Unknown tiers fall back to 1920x1080.
  - The aspect-ratio fit. The side of the nominal box on which the source is
    wider stays nominal; the other side is `Math.round` of the proportional
    value.
  - The comparison `w/h > W/H` is stated as `w*H > W*h`. The rounding is
    half-up, characterised by `2dq <= 2n+d < 2dq+2d`.
- **Processing history** (`history.dfy`).
  - A class with the history list as a field.
  - Image jobs prepend and then truncate to 50 entries. Video jobs prepend
    without truncation.
  - Lemmas describe the list after any sequence of image jobs: the newest 50
    entries, newest first.
- **The image-processing handler.**
  - `pipeline.dfy` holds `ImageRun`, a pure specification of one request. It
    is given as the sequence of library calls and socket emissions, the HTTP
    response, and the history entry recorded.
  - `backend.dfy` holds `Backend.Server.ProcessImage`. This is an imperative
    method over the server's history object. It is split along the handler's
    own stages: the Sharp stage, the Jimp stage and the optional filters. It
    is proved to produce exactly `ImageRun`'s trace and response, and to
    update the history exactly as `Prepended` says.
  - Library failures are a parameter: `Library.failAt` is the index of the
    first library or file-system call that throws. The trace records the
    calls that returned.
- **The video handler** (`Backend.Server.ProcessVideo`).
  - The five progress events, the history entry and the response with the
    demo note.
  - The case where no socket id is sent: no event, no history entry, and no
    response at all.
- **The browser's upload gate** (`file_gate.dfy`).
  - The exact-membership MIME list and the 500 MiB size check, type first.
  - The component's `error` and `isUploading` state, held in a class whose
    methods follow `handleFileSelect` before and after its awaited `fetch`.

Some parts of the outside world are parameters rather than behaviour:

- the upload time stamp (`Date.now()`);
- the uuid;
- the ISO time;
- the source image's dimensions;
- the point of failure of the Sharp, Jimp and file-system calls;
- the result of the browser's `fetch`.

Two behaviours of the code are easy to miss; the model follows the code in
both:

- When a call after the resize throws, the temporary file
  `processed/temp-…` is not deleted. The cleanup is a plain statement
  after `writeAsync`, not in a `finally`. `Pipeline.TempLeftOnLateFailure`
  proves that the trace of such a run contains no `Unlink`.
- The fitted size can have both axes at their nominal value, on exact ties
  and also off them (a
  19201x10800 source at 1080p). What holds is "at least one axis is nominal
  and neither exceeds it" (`Quality.FitToSource`,
  `Quality.BothAxesCanBeNominal`).

When `options` is missing from the request body or is `null`, the handler
reads `options.quality` after the first progress event has been sent. This
throws a `TypeError` into the `catch`. The model follows it: progress 0, then
an error event with V8's message for that access (naming `undefined` or
`null`), then a 500 response. A request field is modelled as absent, `null` or
given (`Types.Field`).

In the browser, the parent's `onFileUpload` callback runs inside the same
`try` as the `fetch`. If it throws, the record has already been handed on and
the failure message is shown as well. Whether it throws is a parameter.

## Model

| member | source | states |
|---|---|---|
| Quality.NominalBox | backend/server.js:141-162 | every tier gives a positive 16:9 box; any string other than 720p, 2K and 4K gives 1920x1080 |
| Quality.TierTable | backend/server.js:142-162 | the four tiers give 1280x720, 1920x1080, 2560x1440, 3840x2160, and every other string the 1080p box |
| Quality.RoundHalfUp | backend/server.js:178 | for a non-negative quotient, the result q is `Math.round(n/d)`: `2dq <= 2n+d < 2dq+2d` |
| Quality.FitToSource | backend/server.js:175-181 | neither side exceeds the nominal box; the width stays nominal for a source strictly wider than the box, and the height stays nominal otherwise |
| Quality.FitRounding | backend/server.js:177-181 | the recomputed side is `Math.round` of the proportional value: `round(W*h/w)` for a wider source, `round(H*w/h)` otherwise |
| Quality.Resolve | backend/server.js:141-181 | the resize target for a tier fits inside that tier's nominal box and keeps one of its sides |
| Quality.AspectPreserved | backend/server.js:175-181 | the target's aspect ratio differs from the source's by at most half a pixel on the rounded side |
| Quality.Scenario720pLandscape | backend/server.js:175-181 | a 3000x2000 source at 720p is resized to 1080x720 |
| Quality.BothAxesCanBeNominal | backend/server.js:177-181 | both sides can stay nominal, on an exact 16:9 source and on a slightly wider one |
| Quality.ExtremeAspectGivesZeroHeight | backend/server.js:177-178 | a 3000x1 source at 720p gets height 0 |
| Quality.WideHeightPositiveIff | backend/server.js:177-178 | for a source wider than the box, the rounded height is at least 1 exactly when `w <= 2*W*h` |
| UploadFilter.Occurs | backend/server.js:75-77 | true exactly when the word occurs as a contiguous substring |
| UploadFilter.AnyOccurs | backend/server.js:75 | true exactly when one of the words occurs in the string |
| UploadFilter.MatchesAllowed | backend/server.js:75-77 | the regular expression's `test`: true exactly when one of the nine allowed words occurs in the string |
| UploadFilter.ToLower | backend/server.js:76 | same length; each ASCII capital is replaced by its small letter and every other character is kept |
| UploadFilter.ToLowerNormalises | backend/server.js:76 | lower-casing leaves no ASCII capital, is idempotent, and keeps a string without capitals unchanged |
| UploadFilter.LastIndexOf | backend/server.js:76 | the index of the last occurrence of the character, or -1 when it is absent |
| UploadFilter.Extname | backend/server.js:76 | the extension is empty or starts with '.', with no further '.' or '/' |
| UploadFilter.ExtnameAt | backend/server.js:76 | a slash-free name whose last dot is past index 0 has the suffix from that dot as its extension |
| UploadFilter.ExtnameNone | backend/server.js:76 | a slash-free name with no dot after its first character has no extension |
| UploadFilter.FileFilter | backend/server.js:74-83 | accepts exactly when both the lower-cased extension and the MIME type contain an allowed word; otherwise rejects with "Invalid file type" |
| UploadFilter.UploadVerdict | backend/server.js:71-83 | accepts exactly when the filter accepts and the size is at most 500 MiB; a filter rejection wins over the size |
| UploadFilter.NoAllowedWordIn | backend/server.js:75-77 | a string none of whose characters is j, p, w, m or a matches no allowed word |
| UploadFilter.ExeRejected | backend/server.js:74-82 | `setup.exe` is rejected whatever its MIME type |
| UploadFilter.SubstringNotExact | backend/server.js:75-80 | `notes.PNGX` with MIME type `application/x-mp4-wrapper` is accepted, so the test is a substring test and not exact matching |
| UploadFilter.PngxExtensionMatches | backend/server.js:76-77 | the lower-cased extension of `notes.PNGX` contains `png` |
| UploadFilter.Mp4WrapperMatches | backend/server.js:77 | the MIME type `application/x-mp4-wrapper` contains `mp4` |
| UploadFilter.DotFileRejected | backend/server.js:76-82 | `.png` has no extension and is rejected |
| UploadFilter.SizeBoundary | backend/server.js:73 | for an accepted type, 524288000 bytes are accepted and 524288001 are not |
| History.Prepended | backend/server.js:237-240 | the new entry comes first, followed by the newest old entries, at most 50 in all |
| History.ProcessingHistory.constructor | backend/server.js:87 | the history starts empty |
| History.ProcessingHistory.RecordImage | backend/server.js:237-240 | the unshift and then the slice leave exactly `Prepended(old, entry)` |
| History.ProcessingHistory.RecordVideo | backend/server.js:297 | the entry is prepended and nothing is dropped |
| History.ImageRecordsWindow | backend/server.js:237-240 | after any sequence of image jobs, the history is the newest entries first, followed by the older history, cut at 50 |
| History.ImageRecordsBounded | backend/server.js:238-240 | image jobs never leave more than 50 entries |
| History.OldEntriesEvicted | backend/server.js:237-240 | after 50 or more image jobs, only the newest 50 of them remain, newest first |
| Pipeline.FilterStepsMeaning | backend/server.js:202-216 | a filter is applied exactly when requested (brightness and contrast when non-zero, scaled by 1/100; sharpening with the fixed kernel), and always in the order brightness, contrast, sharpen |
| Types.Truthy | backend/server.js:127 | the JavaScript truthiness of an optional string, as in `!filename` and `if (socketId)`: absent and `""` are falsy |
| Pipeline.FilterSteps | backend/server.js:202-216 | the filter calls of the Jimp stage, in source order, each only when requested; its meaning is stated by `Pipeline.FilterStepsMeaning` |
| Pipeline.Say | backend/server.js:136-138 | one `io.to(socketId).emit`, made only when the socket id is truthy |
| Pipeline.Pre | backend/server.js:135-197 | places the progress events: 0 and 20 before the metadata call, 60 before the Jimp read, none before any other call |
| Pipeline.ImageRun | backend/server.js:122-255 | the handler as a function of the request, the library's behaviour and the stamps: 400 without a filename; progress 0, the `TypeError` and 500 when `options` is absent or null; otherwise the calls that return, the error event and 500 at the first throw, or progress 100, 200 and a history entry; its properties are the `Pipeline` lemmas below and `Backend.Server.ProcessImage` is proved equal to it |
| Pipeline.ImageCalls | backend/server.js:170-221 | a run makes five fixed calls plus one per requested filter |
| Pipeline.FilterPositions | backend/server.js:202-216 | in the call plan, brightness sits at position 3, contrast right after it when brightness was requested, and sharpening after both; their number is the number of requested filters |
| Pipeline.ImageCallsLayout | backend/server.js:170-221 | the calls are: metadata read, resize to the fitted box into the temporary file, Jimp read, the filters, write to the output, delete the temporary file |
| Pipeline.FailedRun | backend/server.js:248-255 | a run whose k-th call throws sends the progress reached so far and then the error event, answers 500 with the library's message, and records nothing |
| Pipeline.CompletedRun | backend/server.js:218-246 | a run in which every call returns makes all the calls, sends progress 100, answers 200 with the output name and download URL, and records the entry |
| Pipeline.ProgressedStep | backend/server.js:135-221 | each call that returns adds to the trace the progress events sent just before it, then the call itself |
| Pipeline.TwoSteps | backend/server.js:218-221 | two consecutive Jimp-stage calls follow each other with no event between them |
| Pipeline.CallsOfProgressed | backend/server.js:170-221 | a call appears in the trace of the first k calls exactly when it is one of them |
| Pipeline.EventsOfProgressed | backend/server.js:135-197 | with a socket id, the events sent before the k-th call are the first checkpoints among 0, 20, 60 and 100 that the k-th call has reached |
| Pipeline.NoSocketNoEvents | backend/server.js:136-138 | without a socket id, no event is sent |
| Pipeline.EventsOfCompletedRun | backend/server.js:135-225 | a run whose calls all returned sends 0, 20, 60, 100 with a socket id and nothing without |
| Pipeline.EventsOfFailedRun | backend/server.js:135-254 | a run whose k-th call threw sends the checkpoints reached by that call, then the error event, with a socket id; nothing without |
| Pipeline.ImageEventContract | backend/server.js:122-255 | the events a client sees: none without a socket; 0, 20, 60, 100 on success; 0 then the error when options are absent or null; 0, 20 (and 60 once the resize returned) then the error on failure |
| Pipeline.MissingFilenameDoesNothing | backend/server.js:127-129 | a missing or empty filename gets 400 "Filename is required", with no call, no event and no history entry |
| Pipeline.RecordedIffSucceeded | backend/server.js:227-255 | a history entry is recorded exactly when the response is 200, and it names the original and the processed file |
| Pipeline.CompletionFollowsWriteAndCleanup | backend/server.js:218-225 | progress 100 is sent only after the output was written and the temporary file deleted |
| Pipeline.TempLeftOnLateFailure | backend/server.js:192-221 | when a call after the resize throws, the temporary file is never deleted |
| Pipeline.UnlinkOnlyLast | backend/server.js:218-221 | the temporary file is deleted by the last call of the plan and by no earlier one |
| Pipeline.NoFilterRequested | backend/server.js:199-218 | with no filter requested, Jimp only reads the temporary file and writes the output |
| Backend.Server.constructor | backend/server.js:87 | the server starts with an empty history |
| Backend.Server.ProcessImage | backend/server.js:122-256 | the handler emits exactly the specified trace and response, and changes the history exactly by prepending the recorded entry (capped at 50) or not at all |
| Backend.SharpPhase | backend/server.js:169-193 | the metadata read and the resize either both return, or the first one that throws is followed by the error event |
| Backend.JimpPhase | backend/server.js:199-216 | the Jimp read and the requested filters either all return, or the first one that throws is followed by the error event |
| Backend.FilterPhase | backend/server.js:202-216 | the requested filters are applied in order until one throws |
| Backend.LaterFilters | backend/server.js:206-216 | contrast and then sharpening are applied, each only when requested, until one throws |
| Backend.OptionalCall | backend/server.js:202-216 | an unrequested filter is skipped with no call; a requested one is called and either returns, or throws and is followed by the error event |
| Backend.WritePhase | backend/server.js:218-221 | the write of the output and the deletion of the temporary file either both return, or the first one that throws is followed by the error event |
| Backend.TryCall | backend/server.js:248-254 | an awaited call either returns and is recorded, or throws and the error event is sent |
| Backend.Server.ProcessVideo | backend/server.js:259-313 | 400 without a filename; without a socket id nothing happens and no response is sent; otherwise the events 0, 25, 50, 75, 100 go to the socket, the video entry is prepended without a cap, and the response carries the demo note |
| FileGate.Validate | backend/src/components/FileUpload.tsx:45-56 | a file passes exactly when its MIME type is one of the nine exact strings and its size is at most 500 MiB; a disallowed type gets the type message, and an allowed type over the limit gets the size message |
| FileGate.FileUploadState.constructor | backend/src/components/FileUpload.tsx:11-12 | no error and not uploading |
| FileGate.FileUploadState.HandleFileSelect | backend/src/components/FileUpload.tsx:42-58 | the previous error is cleared, and the error left is the validation verdict; only a valid file sets `isUploading` and is sent |
| FileGate.FileUploadState.FinishUpload | backend/src/components/FileUpload.tsx:69-80 | `isUploading` is false on every path; a parsed record is handed on; any failure, including a throw from `onFileUpload` after the hand-off, shows the generic message, and otherwise the error is left as it was |
| FileGate.SelectAndUpload | backend/src/components/FileUpload.tsx:42-80 | a rejected file leaves the validation message, is not posted, and leaves `isUploading` and the delivered records as they were; an accepted one is posted and ends not uploading, with the record delivered, the failure message, or both when `onFileUpload` throws |
| FileGate.TypeCheckedFirst | backend/src/components/FileUpload.tsx:47-56 | a disallowed type gets the type message even when the file is also too large |
| FileGate.ExactNotSubstring | backend/src/components/FileUpload.tsx:46-47 | `image/pngx` is refused by the browser although the server's substring test would accept it |
| FileGate.SizeBoundary | backend/src/components/FileUpload.tsx:53-56 | 524288000 bytes pass, and 524288001 bytes get the size message |
| FileGate.MimeCarriesWord | backend/src/components/FileUpload.tsx:46 | each accepted MIME type contains the matching allowed word of the server's filter |
| FileGate.ClientAcceptedPassesServerMime | backend/src/components/FileUpload.tsx:46-56 | every file the browser accepts passes the server's MIME test and its size limit |
| FileGate.ClientPassesServerRejects | backend/src/components/FileUpload.tsx:46-56 | a JPEG named `photo` passes the browser but is rejected by the server, which also tests the extension |

## Left out

- Floating point: `metadata.width / metadata.height` and the comparison with `targetWidth / targetHeight` are modelled in exact rational arithmetic by cross-multiplying. Rounding errors of IEEE doubles near ties are not modelled.
- Quality.FitToSource: source dimensions are positive integers. Missing or zero metadata (which gives NaN or Infinity in JavaScript) is not modelled.
- UploadFilter.UploadVerdict: a file of exactly `fileSize` bytes (524288000) is taken as accepted, which is how busboy 0.x (used by multer up to 1.4.4) applies the limit, flagging only a byte count above it. The library versions are not pinned in the repository, and busboy 1.x (used by multer 1.4.5-lts and 2.x) may stop a file on reaching the limit instead; under that reading the exact-limit file is refused, and so are `UploadFilter.SizeBoundary`'s first case and the size half of `FileGate.ClientAcceptedPassesServerMime` at that one size.
- UploadFilter.ToLower: only the ASCII letters are lower-cased. JavaScript's full Unicode `toLowerCase` (for example the Kelvin sign, which becomes `k`) is not modelled.
- UploadFilter.Extname: names with a trailing `/` and Windows separators are not modelled. Path normalisation by `path.join` is also left out, and so is directory traversal through `filename`.
- Pipeline.FilterSteps: brightness and contrast are integers. Non-numeric or fractional values, and NaN, are not modelled. Values that are 0 or absent skip the filter.
- A `filename` that is truthy but not a string is not modelled, and neither is an `options` value that is not an object (a number or a string, whose `quality` reads as `undefined`).
- Uniqueness of uuids and of `Date.now()` output names: the stamps are parameters.
- The pixel operations themselves: resizing, the Lanczos kernel, sharpening, JPEG encoding, Jimp's brightness, contrast and convolution. Each is a call in the trace. The convolution is always made with the same 3x3 kernel, so it appears as one `Sharpen` call.
- Socket.IO delivery and timing. The video handler's `setTimeout` delays are modelled as events in their order. Interleaving with other requests is not modelled, and neither is a disconnected socket.
- Concurrency: each handler is modelled as one run. Two image requests interleaving at their `await`s, and the history updates that could then interleave, are not modelled.
- FileGate.FileUploadState.FinishUpload: a second selection made while an upload is running is not tracked. The flag is a single boolean, as in the component, so the first upload to finish clears it.
- React's rendering, state batching, drag-and-drop events, `handleDrop` and `handleFileInputChange`: these only pass the first file on to `handleFileSelect`.
- The upload endpoint's response body, the download endpoint, the history endpoint and the health endpoints: these are plain I/O with no logic beyond what is modelled.
- The serverless `api/upload.js` and the older `src/components/FileUpload.tsx` are not part of this model.
- Console logging.
