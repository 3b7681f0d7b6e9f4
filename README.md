# Transcript resolution and enrichment, modelled in Dafny

This project models the decision logic of the two transcript Lambda handlers,
`get-transcripts` and `email-transcripts`. Given an interaction, each handler:

1. lists the interaction's artifacts and keeps the email and
   messaging-transcript summaries that have files (an empty result is
   `Missing`);
2. fetches every candidate artifact (a single failure fails them all) and takes
   the one that sorts first under `compareUpdated`, the most recently updated;
3. serves it according to its type:
   - for an **email**, it reads the manifest file and fetches the html body
     file, or the plain one when there is no html entry. A failed html fetch
     falls back once to the plain file;
   - for a **messaging transcript**, it fetches the transcript file and
     enriches each message. Media files are linked through
     `metadata.messageId`, and in get-transcripts' SMS branch a UUID sender is
     replaced by the user's "first last" name;
4. classifies the outcome: `Missing` gives 404 with a fixed message, and any
   other failure gives 500.

The network is data, gathered in `Artifacts.Backend`:
- the listing response (`None` when the request failed);
- the fetched artifact records, by id;
- the content behind each file url;
- the user directory's answers, by user id.

A key missing from one of these maps means that request failed. The library
check `uuid.validate` is a parameter `isUuid: string -> bool`. Email fetches
return the list of urls they requested, so the fallback's exact sequence of
fetches is part of what is proved.

Modules:
- `Outcomes` holds the two error kinds: `Missing` is `Error('Missing')`, and
  `Unexpected` is any other exception. It also holds the `Outcome` and
  `Option` types.
- `Artifacts` is the data model and the `files.find` lookups.
- `Selection` holds the summary filter, the join-all fetch, the comparator,
  and the in-place move of the newest record to the front.
- `EmailFile` covers `fetchEmailArtifactFile`: a specification function and a
  method that mirrors the source's `let` reassignments.
- `Messaging` reads the transcript file and holds message-field helpers.
- `Http` holds responses and the 404/500 classification.
- `GetTranscripts` and `EmailTranscripts` hold each handler's own messaging
  path and `handler`.

`email-transcripts/index.js` lines 6-100 repeat `get-transcripts/index.js`
lines 7-101. That shared code is modelled once, in
`Selection` and `EmailFile`, and both handler modules use it. Where a row
below cites `get-transcripts/index.js` for those steps, the same statement
holds for `email-transcripts/index.js`:

| get-transcripts | email-transcripts |
|---|---|
| 32 | 31 |
| 18-20 | 17-19 |
| 58-66 | 57-65 |
| 69-71 | 68-70 |
| 73-101 | 72-100 |

Behaviour that follows the JavaScript failure paths rather than the intended
design:
- These cases reach `emptyObject(undefined)`, which throws a TypeError, so
  they are `Unexpected` (500), not `Missing`:
  - a missing manifest file;
  - a missing transcript file;
  - an unsupported artifact type.
- A manifest with neither `html` nor `plain` dereferences
  `data.body.plain.artifactFileId`, so it is also `Unexpected`.
- A transcript body that is `null` or not an array is `Unexpected`. Only the
  empty object `{}` is `Missing`.
- In the digital-channel branch the resolved sender name is bound only to a
  local `from`, so `payload.from` never changes.
- An SMS user with no `lastName` is rendered as "First undefined".
- A message whose `body.id` is absent matches a sibling file whose metadata
  has no `messageId`, because `undefined === undefined`.

## Model

| member | source | states |
|---|---|---|
| Artifacts.FirstIndex | get-transcripts/index.js:70 | `find` returns the index of the first element that satisfies the predicate, or none exists. |
| Artifacts.FindFileById | get-transcripts/index.js:69-71 | Returns the first file whose `artifactFileId` matches. Returns none exactly when no file matches. |
| Artifacts.FindSmsTranscript | get-transcripts/index.js:148-150 | Returns the first file named exactly `transcript.json`. Returns none exactly when there is no such file. |
| Artifacts.FindTranscriptByMetadata | get-transcripts/index.js:143-146 | Returns the first file whose `metadata.transcript` is `true`. Returns none exactly when there is no such file. |
| Artifacts.FindMediaFile | get-transcripts/index.js:177-178 | Returns the first file with metadata whose `messageId` equals the message id. Returns none exactly when there is no such file. |
| Selection.FilterEligible | get-transcripts/index.js:32 | Every kept summary is an email or messaging transcript with `fileCount > 0`, taken from the input. Every such input summary is kept. |
| Selection.FilterEligibleAppend | get-transcripts/index.js:32 | Filtering a concatenation concatenates the filtered parts, so input order is kept. |
| Selection.FilterEligibleCounts | get-transcripts/index.js:32 | Each eligible summary is kept exactly as many times as it occurs. Every other summary is dropped. |
| Selection.FetchArtifactsSummary | get-transcripts/index.js:22-36 | A failed listing is `Unexpected`. The result is `Missing` exactly when no summary is eligible. Otherwise it is `Ok` with exactly the eligible summaries, in listing order (`FilterEligible`). |
| Selection.FetchArtifacts | get-transcripts/index.js:58-61 | This is the join-all fetch. It succeeds exactly when every candidate's request succeeded, and then returns every record in summary order. Any failure is `Unexpected`. |
| Selection.NewestIndex | get-transcripts/index.js:18-20 | The record brought to the front is in the list and no record is newer than it under `compareUpdated`. An artifact chosen is the first of the latest-updated artifacts in fetch order, which is what a stable sort puts first when every record is an artifact. With an empty record among them, see "Left out". |
| Selection.FindNewest | get-transcripts/index.js:63 | The loop finds the index of the record the sort puts first. |
| Selection.MoveNewestToFront | get-transcripts/index.js:63 | After the in-place sort the array is a permutation of the fetched records, with the newest first. |
| Selection.FetchMostRecentArtifact | get-transcripts/index.js:58-66 | The chosen artifact is one of the fetched records. No fetched artifact was updated later, and none fetched before it was updated as late. The result is `Unexpected` exactly when a fetch failed. An empty list is `Missing`, and otherwise `Missing` requires an empty record. |
| Selection.AllFullSelects | get-transcripts/index.js:63-66 | When every candidate is fetched as an artifact, the selection succeeds. |
| Selection.AllBlankIsMissing | get-transcripts/index.js:65 | When every candidate is fetched as the empty object, the result is `Missing`. |
| Selection.LaterOfTwoIsChosen | get-transcripts/index.js:63 | Of two artifacts, the one updated later is chosen, whichever order they come in. |
| Selection.SelectArtifact | get-transcripts/index.js:221-222 | A failed listing is `Unexpected`, and no eligible summary is `Missing`. Otherwise the result is the most recent artifact among the eligible summaries, so it is the record of an eligible summary from the listing. |
| EmailFile.ReadManifest | get-transcripts/index.js:74-78 | No manifest file is `Unexpected`, with nothing fetched. A manifest file without a url is `Missing`, with nothing fetched. Otherwise its url is fetched exactly once: a failed fetch is `Unexpected`, a falsy manifest is `Missing`, and a manifest with a body gives `Ok` with that body. Conversely, `Missing` only arises from a missing url or a falsy manifest. |
| EmailFile.FetchBody | get-transcripts/index.js:79-100 | The chosen file (html if present, else plain) is fetched first, and at most two fetches happen. A later fetch happens only after the previous one failed. A successful fetch of the chosen file gives `Ok` with its content, with nothing else fetched. A failed html fetch fetches the plain file exactly once; it gives the plain content when that fetch succeeds, and `Unexpected` when it fails or there is no plain file. A plain file chosen first whose fetch fails is `Missing`, with no fallback. A body-file entry that names no file is `Missing`, and neither html nor plain is `Unexpected`. |
| EmailFile.EmailArtifactFile | get-transcripts/index.js:73-101 | A manifest failure is the result, with the manifest requests. A manifest read goes on to its body file: the result is the body fetch's, after the manifest fetch. At most three fetches happen, and content returned is what the last fetch returned. |
| EmailFile.FetchEmailArtifactFile | get-transcripts/index.js:79-99 | The method with `let` reassignments across the try/catch returns the same result and the same fetch sequence as the specification function. |
| Messaging.ReadTranscriptFile | get-transcripts/index.js:161-166 | No file is `Unexpected`. A file without a url, or an empty-object body, is `Missing`, in both directions. A file whose url holds an array gives `Ok` with that file and those messages, and `Ok` arises only that way. |
| GetTranscripts.ReadTranscript | get-transcripts/index.js:152-166 | Subtype `sms` reads the first `transcript.json`. Any other subtype reads the first file flagged as the transcript. The outcome is exactly that file's read, so a missing file is `Unexpected` and the `Missing` cases carry through. |
| GetTranscripts.LinkMediaFile | get-transcripts/index.js:174-183 | Only `body.file` can change, and `from` never does. With a matching sibling file, `mediaUrl` and `filename` are copied from it and every other key is kept. Otherwise the message is unchanged. A missing `body.file` is `Unexpected`. |
| GetTranscripts.EnrichDigital | get-transcripts/index.js:168-193 | Succeeds exactly when every message has a `body.file`. On success the length and order are kept, and each message is linked on its own. |
| GetTranscripts.LinkMediaFileIdempotent | get-transcripts/index.js:179-182 | Linking a message a second time changes nothing. |
| GetTranscripts.EnrichDigitalIdempotent | get-transcripts/index.js:169-193 | Enriching a digital transcript a second time changes nothing. |
| GetTranscripts.LinkMediaInPlace | get-transcripts/index.js:177-182 | The in-place update links every message that has a file. It reports success exactly when the functional enrichment succeeds, and then the array equals its result. |
| GetTranscripts.ResolveSender | get-transcripts/index.js:198-204 | `from` becomes "first last" exactly when it validates as a UUID and the lookup yields a user with a first name. Otherwise the message is unchanged. `body` is never touched. |
| GetTranscripts.ResolveSenders | get-transcripts/index.js:195-207 | Length and order are kept, and each message is resolved on its own. Lookup failures never fail the step. |
| GetTranscripts.ResolveSendersIdempotent | get-transcripts/index.js:198-204 | Resolving senders a second time changes nothing, provided no display name is a UUID. |
| GetTranscripts.ResolveSendersInPlace | get-transcripts/index.js:195-207 | Assigning `payload.from` in place leaves the array equal to the functional resolution. |
| GetTranscripts.FetchMessagingArtifactFile | get-transcripts/index.js:152-211 | A failed read of the transcript file is passed on unchanged. SMS succeeds exactly when the file is read, and serves `ResolveSenders` of its messages. The digital branch succeeds exactly when the file is read and every message has a `body.file`, and serves `EnrichDigital` of its messages. The content type is the transcript file's. Once the file is read, a failure (a digital message without `body.file`) is `Unexpected`. |
| GetTranscripts.SubtypeOf | get-transcripts/index.js:234-239 | A present subtype is passed on. An absent one becomes a non-empty default. |
| GetTranscripts.NoSubtypeIsSms | get-transcripts/index.js:234-239 | A messaging artifact with no subtype gets exactly the transcript of subtype `sms`. |
| GetTranscripts.Transcript | get-transcripts/index.js:227-248 | An unsupported type is `Unexpected`. An email succeeds exactly when its file is fetched, is served with the Accept header, and fails with that fetch's error. A messaging transcript succeeds exactly when the messaging fetch does, is served as its result with the transcript file's content type, and fails with its error. |
| Http.Classify | get-transcripts/index.js:250-259 | The status is 200, 404 or 500 exactly for success, `Missing` and any other error. 404 carries the fixed message. Error responses have no `Content-Type`. |
| GetTranscripts.Handle | get-transcripts/index.js:213-261 | Only 200, 404 or 500 is returned, and 404 carries the fixed message. A `Missing` selection is 404. An unexpected failure before an artifact is chosen gives "An unexpected error occurred fetching  transcript", and later 500s name the artifact type. Once an artifact is chosen, the response is 200 with the served transcript exactly when `Transcript` succeeds, and 404 exactly when it is `Missing`. |
| GetTranscripts.NoEligibleIs404 | get-transcripts/index.js:32-34 | With no eligible summary, the response is 404 with "Specified interaction transcript does not exist". |
| GetTranscripts.UnsupportedTypeIs500 | get-transcripts/index.js:243-246 | An unsupported artifact type gives 500 naming that type. |
| GetTranscripts.EmailServedAsAccepted | get-transcripts/index.js:228-231 | A served email carries the request's Accept header and the email file's data. |
| GetTranscripts.MessagingServedAsFileType | get-transcripts/index.js:233-241 | A served messaging transcript carries its transcript file's content type. |
| EmailTranscripts.LinkMediaUrl | email-transcripts/index.js:118-130 | Only `file.mediaUrl` is set, and only when `body.file` is non-empty and a sibling file matches. Every other key, `filename` and `from` are kept. A missing `body.file` is `Unexpected`. |
| EmailTranscripts.LinkMediaUrls | email-transcripts/index.js:117-131 | Succeeds exactly when every message has a `body.file`. Length and order are kept. |
| EmailTranscripts.LinkMediaUrlsKeepsSenderAndFilename | email-transcripts/index.js:117-131 | After linking, every sender and every `filename` is as it was. |
| EmailTranscripts.LinkMediaUrlsInPlace | email-transcripts/index.js:117-131 | The synchronous map links messages in place up to the first one without a file. Untouched messages keep their values, and a complete run equals the functional result. |
| EmailTranscripts.FetchMessagingArtifactFile | email-transcripts/index.js:107-134 | The transcript is always the first flagged file, whatever the subtype, and a failed read of it is passed on unchanged. It succeeds exactly when the file is read and every message has a `body.file`, and serves `LinkMediaUrls` of its messages with that file's content type. Once the file is read, a failure (a message without `body.file`) is `Unexpected`. |
| EmailTranscripts.SubtypeIgnored | email-transcripts/index.js:102-109 | The artifact's subtype plays no part in the transcript served. |
| EmailTranscripts.UnflaggedTranscriptIs500 | email-transcripts/index.js:109-111 | A messaging artifact with no flagged transcript file gives 500, even when it has a `transcript.json`. |
| EmailTranscripts.Transcript | email-transcripts/index.js:145-164 | An unsupported type is `Unexpected`. An email succeeds exactly when its file is fetched, is served with the Accept header, and fails with that fetch's error. Messaging succeeds exactly when the messaging fetch does, is served as its result with the flagged file's content type, and fails with its error. |
| EmailTranscripts.Handle | email-transcripts/index.js:136-177 | 404 carries the fixed message, and 500 always carries "An unexpected error occurred fetching email transcript". The selection's `Missing` gives 404 and its other failures give 500. Once an artifact is chosen, the response is 200 with the served transcript exactly when `Transcript` succeeds, and 404 exactly when it is `Missing`. |
| EmailTranscripts.NoEligibleIs404 | email-transcripts/index.js:31-33 | With no eligible summary, the response is 404 with the fixed message. |

## Left out

- HTTP transport (axios), logging (alonzo) and environment loading are I/O.
  Their responses are the `Backend` data. The artifact-store base url
  `https://{region}-{env}-edge.{domain}` and the request paths are not modelled.
- The authorization header, tenant id and interaction id only shape request
  urls, so they are not modelled.
- `event.headers.accept` is read outside the `try`. A request without headers
  crashes the handler instead of returning 500. The model takes `accept` as
  given.
- `uuid.validate` is an opaque parameter `isUuid`. Its regular expression is
  not modelled.
- `fetchAllUsers` is dead code.
- Concurrency of the `Promise.all` calls is not modelled. They are sequential
  maps with join-all failure.
- The digital-channel branch still performs a user lookup for UUID senders.
  It has no effect, because its result only reaches a local and its failures
  are swallowed, so it is not modelled.
- Selection.NewestIndex: it does not model V8's sort algorithm. It models
  the outcome of a left-to-right scan that keeps the current front unless a
  later record is strictly newer. `compareUpdated` returns 1 on equal dates,
  and the sort only asks whether the result is negative, so among artifacts
  alone it is a stable descending sort, and the scan picks the same record.
- Selection.FetchMostRecentArtifact: an empty record (`{}`) has an invalid
  date, so `compareUpdated` returns 1 in both directions against it and stops
  being an order. The program's first element then depends on the engine's
  sort. With `[older, {}, newer]` the array can be left as it is, and the
  program serves the older artifact. The model still returns the latest
  artifact, or `Missing` when the scan's front is the empty record. Its
  latest-`updated` promise describes the program only when no candidate is an
  empty record.
- Selection.MoveNewestToFront: only the first element of the sorted array is
  used by the source, so only the front and the permutation are stated, not
  full sortedness.
- Dates are integer timestamps. `new Date(...)` parsing is not modelled.
- A fetched artifact record is an artifact or the empty object. A record that
  is JSON `null` is not modelled. As the only candidate it is never compared,
  so `!mostRecentArtifact` makes it `Missing` (404). Among two or more
  candidates, `null.updated` in the comparator throws, which is `Unexpected`
  (500).
- Field shapes are simplified:
  - absent `url`, `filename`, `contentType` and `artifactSubType` are the
    empty string;
  - `artifactFileId` and `from` are always strings;
  - a manifest entry is modelled by its `artifactFileId`, so an html entry
    present without an id cannot be expressed;
  - the artifact's `files` and each message's `payload` are always present.
- Messages are values held in an array that the enrichment methods update
  slot by slot. Two messages sharing one `file` object (aliasing) are not
  modelled.
- A file url is fetched through the `urls` oracle as given, even when empty.
  What axios does with an empty url is not modelled.
