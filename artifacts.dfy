/** The data the transcript handlers work on: artifact summaries, artifacts and
    their files, manifests, messaging payloads and users, with everything a
    request reads from the network gathered in one `Backend` value. Also the
    first-match lookups over an artifact's files (`files.find(...)`). */
module Artifacts {
  import opened Outcomes

  /** One entry of the artifact listing of an interaction. */
  datatype ArtifactSummary = ArtifactSummary(artifactId: string, artifactType: string, fileCount: int)

  /** The `metadata` object of an artifact file. `transcript` holds when
      `metadata.transcript === true`; `messageId` is `undefined` when absent. */
  datatype Metadata = Metadata(transcript: bool, messageId: Option<string>)

  /** An artifact file. An absent `url`, `contentType` or `filename` is the
      empty string, which JavaScript treats as falsy just like `undefined`. */
  datatype ArtifactFile = ArtifactFile(
    artifactFileId: string,
    url: string,
    contentType: string,
    filename: string,
    metadata: Option<Metadata>)

  /** A fetched artifact; an absent `artifactSubType` is the empty string. */
  datatype Artifact = Artifact(
    artifactId: string,
    artifactType: string,
    artifactSubType: string,
    manifestId: Option<string>,
    updated: int,
    files: seq<ArtifactFile>)

  /** What fetching one artifact returned: an artifact or the empty object `{}`. */
  datatype Record = Blank | Full(artifact: Artifact)

  /** The `body` of a manifest: the `artifactFileId` of its html and its plain
      entry, each `None` when that entry is absent. */
  datatype ManifestBody = ManifestBody(html: Option<string>, plain: Option<string>)

  /** The `body` of a messaging payload: its `id`, its `file` object (as its
      keys and values; `None` when `undefined`) and its other fields. */
  datatype Body = Body(id: Option<string>, file: Option<map<string, string>>, rest: map<string, string>)

  datatype Payload = Payload(from: string, body: Option<Body>)

  /** One message of a messaging transcript. */
  datatype Item = Item(payload: Payload)

  /** The parsed `data` of a fetched file: `null` (or `undefined`), the empty
      object, a manifest object, a JSON array of messages, or any other document. */
  datatype Content =
    | Null
    | EmptyObject
    | ManifestDoc(body: Option<ManifestBody>)
    | Messages(items: seq<Item>)
    | Document(text: string)

  /** `!data` in JavaScript. */
  predicate Falsy(c: Content) {
    c.Null? || (c.Document? && c.text == "")
  }

  /** A user of the tenant's directory. */
  datatype User = User(firstName: string, lastName: Option<string>)

  /** Everything one request reads from the network, gathered up front:
      the listing response (`None`: the request failed), the artifact records by
      id, the contents behind file urls and the user directory's answers by user
      id. A key absent from one of the maps is a request that failed. */
  datatype Backend = Backend(
    listing: Option<seq<ArtifactSummary>>,
    records: map<string, Record>,
    urls: map<string, Content>,
    users: map<string, Option<User>>)

  /** The index of the first element satisfying `p` (`Array.prototype.find`). */
  function FirstIndex<T>(xs: seq<T>, p: T -> bool): (r: Option<nat>)
    ensures r.Some? ==> r.value < |xs| && p(xs[r.value])
    ensures r.Some? ==> forall j :: 0 <= j < r.value ==> !p(xs[j])
    ensures r.None? ==> forall j :: 0 <= j < |xs| ==> !p(xs[j])
  {
    if xs == [] then None
    else if p(xs[0]) then Some(0)
    else match FirstIndex(xs[1..], p)
      case None => None
      case Some(i) => Some(i + 1)
  }

  /** `findFileById`: the first file whose `artifactFileId` is `id`. */
  function FindFileById(files: seq<ArtifactFile>, id: string): (r: Option<ArtifactFile>)
    ensures r.None? <==> forall i :: 0 <= i < |files| ==> files[i].artifactFileId != id
    ensures r.Some? ==> exists i :: 0 <= i < |files| && files[i] == r.value && r.value.artifactFileId == id
                                    && forall j :: 0 <= j < i ==> files[j].artifactFileId != id
  {
    match FirstIndex(files, (f: ArtifactFile) => f.artifactFileId == id)
    case None => None
    case Some(i) => Some(files[i])
  }

  /** `findSMSTranscript`: the first file named `transcript.json`. */
  function FindSmsTranscript(files: seq<ArtifactFile>): (r: Option<ArtifactFile>)
    ensures r.None? <==> forall i :: 0 <= i < |files| ==> files[i].filename != "transcript.json"
    ensures r.Some? ==> exists i :: 0 <= i < |files| && files[i] == r.value && r.value.filename == "transcript.json"
                                    && forall j :: 0 <= j < i ==> files[j].filename != "transcript.json"
  {
    match FirstIndex(files, (f: ArtifactFile) => f.filename == "transcript.json")
    case None => None
    case Some(i) => Some(files[i])
  }

  /** Whether `metadata.transcript === true`. */
  predicate FlaggedTranscript(f: ArtifactFile) {
    f.metadata.Some? && f.metadata.value.transcript
  }

  /** `findDigitalChannelTranscript` / `findTranscriptByMetadata`: the first
      file whose metadata flags it as the transcript. */
  function FindTranscriptByMetadata(files: seq<ArtifactFile>): (r: Option<ArtifactFile>)
    ensures r.None? <==> forall i :: 0 <= i < |files| ==> !FlaggedTranscript(files[i])
    ensures r.Some? ==> exists i :: 0 <= i < |files| && files[i] == r.value && FlaggedTranscript(r.value)
                                    && forall j :: 0 <= j < i ==> !FlaggedTranscript(files[j])
  {
    match FirstIndex(files, FlaggedTranscript)
    case None => None
    case Some(i) => Some(files[i])
  }

  /** Whether `aFile.metadata && aFile.metadata.messageId === id`; two absent
      ids are equal, as `undefined === undefined` is. */
  predicate MediaFor(id: Option<string>, f: ArtifactFile) {
    f.metadata.Some? && f.metadata.value.messageId == id
  }

  /** The sibling file holding the media of the message with id `id`. */
  function FindMediaFile(files: seq<ArtifactFile>, id: Option<string>): (r: Option<ArtifactFile>)
    ensures r.None? <==> forall i :: 0 <= i < |files| ==> !MediaFor(id, files[i])
    ensures r.Some? ==> exists i :: 0 <= i < |files| && files[i] == r.value && MediaFor(id, r.value)
                                    && forall j :: 0 <= j < i ==> !MediaFor(id, files[j])
  {
    match FirstIndex(files, (f: ArtifactFile) => MediaFor(id, f))
    case None => None
    case Some(i) => Some(files[i])
  }
}
