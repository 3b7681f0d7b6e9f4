/** The get-transcripts handler: the current artifact of an interaction is an
    email (served through its manifest) or a messaging transcript (SMS or a
    digital channel), whose messages are enriched before they are served. */
module GetTranscripts {
  import opened Outcomes
  import opened Artifacts
  import opened Selection
  import opened EmailFile
  import opened Messaging
  import opened Http

  // ---------------------------------------------------------------------------
  // Finding the transcript file

  /** `findSMSTranscript` for subtype 'sms', else `findDigitalChannelTranscript`. */
  function TranscriptFileFor(files: seq<ArtifactFile>, subtype: string): Option<ArtifactFile> {
    if subtype == "sms" then FindSmsTranscript(files) else FindTranscriptByMetadata(files)
  }

  /** The transcript file of a messaging artifact, fetched. */
  function ReadTranscript(artifact: Artifact, subtype: string, urls: map<string, Content>): (r: Outcome<TranscriptFile>)
    ensures r.Ok? && subtype == "sms" ==>
              r.value.file.filename == "transcript.json" && Some(r.value.file) == FindSmsTranscript(artifact.files)
    ensures r.Ok? && subtype != "sms" ==>
              FlaggedTranscript(r.value.file) && Some(r.value.file) == FindTranscriptByMetadata(artifact.files)
    ensures subtype == "sms" && FindSmsTranscript(artifact.files).None? ==> r == Err(Unexpected)
    ensures subtype != "sms" && FindTranscriptByMetadata(artifact.files).None? ==> r == Err(Unexpected)
    ensures r.Ok? ==> r.value.file.url != "" && r.value.file.url in urls && urls[r.value.file.url] == Messages(r.value.items)
    ensures subtype == "sms" ==> r == ReadTranscriptFile(FindSmsTranscript(artifact.files), urls)
    ensures subtype != "sms" ==> r == ReadTranscriptFile(FindTranscriptByMetadata(artifact.files), urls)
  {
    ReadTranscriptFile(TranscriptFileFor(artifact.files, subtype), urls)
  }

  // ---------------------------------------------------------------------------
  // Digital-channel enrichment: media linking; the sender is left as it is

  /** One message of a digital-channel transcript: when `body.file` is a
      non-empty object and a sibling file carries the message's id, its url and
      filename are copied into `body.file`. The resolved sender name is bound to
      a local only, so `payload.from` never changes. */
  function LinkMediaFile(item: Item, files: seq<ArtifactFile>): (r: Outcome<Item>)
    ensures r.Ok? <==> HasFile(item)
    ensures r.Err? ==> r.error == Unexpected
    ensures r.Ok? ==> HasFile(r.value) && r.value == WithFile(item, FileOf(r.value))
    ensures r.Ok? ==> r.value.payload.from == item.payload.from
    ensures r.Ok? && MediaSibling(item, files).None? ==> r.value == item
    ensures r.Ok? && MediaSibling(item, files).Some? ==>
              var m, before, after := MediaSibling(item, files).value, FileOf(item), FileOf(r.value);
              && after.Keys == before.Keys + {"mediaUrl", "filename"}
              && after["mediaUrl"] == m.url && after["filename"] == m.filename
              && forall k :: k in before && k != "mediaUrl" && k != "filename" ==> after[k] == before[k]
  {
    if !HasFile(item) then Err(Unexpected)
    else
      match MediaSibling(item, files)
      case None => Ok(item)
      case Some(m) => Ok(WithFile(item, FileOf(item)["mediaUrl" := m.url]["filename" := m.filename]))
  }

  /** The `Promise.all` over the digital-channel messages: every message
      enriched, in order, or `Unexpected` when one of them has no `body.file`. */
  function EnrichDigital(items: seq<Item>, files: seq<ArtifactFile>): (r: Outcome<seq<Item>>)
    ensures r.Ok? <==> forall i :: 0 <= i < |items| ==> HasFile(items[i])
    ensures r.Err? ==> r.error == Unexpected
    ensures r.Ok? ==> |r.value| == |items|
    ensures r.Ok? ==> forall i :: 0 <= i < |items| ==> LinkMediaFile(items[i], files) == Ok(r.value[i])
  {
    if items == [] then Ok([])
    else
      match LinkMediaFile(items[0], files)
      case Err(e) => Err(e)
      case Ok(first) =>
        match EnrichDigital(items[1..], files)
        case Err(e) => Err(e)
        case Ok(rest) => Ok([first] + rest)
  }

  /** Linking media a second time changes nothing. */
  lemma {:induction false} EnrichDigitalIdempotent(items: seq<Item>, files: seq<ArtifactFile>)
    requires EnrichDigital(items, files).Ok?
    ensures EnrichDigital(EnrichDigital(items, files).value, files) == EnrichDigital(items, files)
  {
    if items != [] {
      var once := EnrichDigital(items, files).value;
      LinkMediaFileIdempotent(items[0], files);
      EnrichDigitalIdempotent(items[1..], files);
      assert once[1..] == EnrichDigital(items[1..], files).value;
    }
  }

  lemma LinkMediaFileIdempotent(item: Item, files: seq<ArtifactFile>)
    requires HasFile(item)
    ensures LinkMediaFile(LinkMediaFile(item, files).value, files) == LinkMediaFile(item, files)
  {
    var once := LinkMediaFile(item, files).value;
    if MediaSibling(item, files).Some? {
      var m := MediaSibling(item, files).value;
      var linked := FileOf(once);
      assert "mediaUrl" in linked;
      assert once.payload.body.value.id == item.payload.body.value.id;
      assert MediaSibling(once, files) == Some(m);
      assert linked["mediaUrl" := m.url]["filename" := m.filename] == linked;
    }
  }

  /** The digital-channel enrichment in place: each message's `body.file` is
      updated where it stands (every callback of the `Promise.all` runs its
      update before any of them fails); `ok` says whether all succeeded. */
  method LinkMediaInPlace(a: array<Item>, files: seq<ArtifactFile>) returns (ok: bool)
    modifies a
    ensures ok <==> EnrichDigital(old(a[..]), files).Ok?
    ensures ok ==> a[..] == EnrichDigital(old(a[..]), files).value
    ensures forall i :: 0 <= i < a.Length ==> a[i] == Linked(old(a[i]), files)
  {
    ghost var items := a[..];
    ok := true;
    var i := 0;
    while i < a.Length
      invariant 0 <= i <= a.Length
      invariant ok <==> forall j :: 0 <= j < i ==> HasFile(items[j])
      invariant forall j :: 0 <= j < i ==> a[j] == Linked(items[j], files)
      invariant forall j :: i <= j < a.Length ==> a[j] == items[j]
    {
      match LinkMediaFile(a[i], files) {
        case Ok(linked) => a[i] := linked;
        case Err(_) => ok := false;
      }
      i := i + 1;
    }
    if ok {
      var out := EnrichDigital(items, files).value;
      assert forall j :: 0 <= j < a.Length ==> a[j] == out[j];
      assert a[..] == out;
    }
  }

  /** A message after the in-place enrichment: linked when it has a
      `body.file`, left as it was when its callback threw. */
  function Linked(item: Item, files: seq<ArtifactFile>): Item {
    if HasFile(item) then LinkMediaFile(item, files).value else item
  }

  // ---------------------------------------------------------------------------
  // SMS enrichment: sender names

  /** `${user.firstName} ${user.lastName}`; an absent last name prints as
      "undefined". */
  function DisplayName(u: User): string {
    u.firstName + " " + (if u.lastName.Some? then u.lastName.value else "undefined")
  }

  /** The sender validates as a UUID and the directory lookup yields a user
      with a non-empty first name. A failed lookup (absent key) or one without
      a result yields nothing. */
  predicate Resolves(from: string, users: map<string, Option<User>>, isUuid: string -> bool) {
    isUuid(from) && from in users && users[from].Some? && users[from].value.firstName != ""
  }

  /** One SMS message: `payload.from` becomes the display name exactly when
      the sender resolves; the message is otherwise untouched. */
  function ResolveSender(item: Item, users: map<string, Option<User>>, isUuid: string -> bool): (r: Item)
    ensures r.payload.body == item.payload.body
    ensures Resolves(item.payload.from, users, isUuid) ==>
              r.payload.from == DisplayName(users[item.payload.from].value)
    ensures !Resolves(item.payload.from, users, isUuid) ==> r == item
  {
    var from := item.payload.from;
    if Resolves(from, users, isUuid) then
      item.(payload := item.payload.(from := DisplayName(users[from].value)))
    else item
  }

  /** The `Promise.all` over the SMS messages; lookup failures are swallowed,
      so it never fails. */
  function ResolveSenders(items: seq<Item>, users: map<string, Option<User>>, isUuid: string -> bool): (r: seq<Item>)
    ensures |r| == |items|
    ensures forall i :: 0 <= i < |items| ==> r[i] == ResolveSender(items[i], users, isUuid)
  {
    if items == [] then [] else [ResolveSender(items[0], users, isUuid)] + ResolveSenders(items[1..], users, isUuid)
  }

  /** No display name of the directory is itself a UUID. */
  predicate NamesAreNotIds(users: map<string, Option<User>>, isUuid: string -> bool) {
    forall id :: id in users && users[id].Some? ==> !isUuid(DisplayName(users[id].value))
  }

  /** Resolving senders that are already resolved is a no-op. */
  lemma {:induction false} ResolveSendersIdempotent(items: seq<Item>, users: map<string, Option<User>>, isUuid: string -> bool)
    requires NamesAreNotIds(users, isUuid)
    ensures ResolveSenders(ResolveSenders(items, users, isUuid), users, isUuid) == ResolveSenders(items, users, isUuid)
  {
    if items != [] {
      var once := ResolveSenders(items, users, isUuid);
      ResolveSendersIdempotent(items[1..], users, isUuid);
      assert once[1..] == ResolveSenders(items[1..], users, isUuid);
      assert ResolveSender(once[0], users, isUuid) == once[0];
    }
  }

  /** The SMS enrichment in place: each message's `payload.from` is assigned
      where it stands. */
  method ResolveSendersInPlace(a: array<Item>, users: map<string, Option<User>>, isUuid: string -> bool)
    modifies a
    ensures a[..] == ResolveSenders(old(a[..]), users, isUuid)
  {
    var i := 0;
    while i < a.Length
      invariant 0 <= i <= a.Length
      invariant forall j :: 0 <= j < i ==> a[j] == ResolveSender(old(a[j]), users, isUuid)
      invariant forall j :: i <= j < a.Length ==> a[j] == old(a[j])
    {
      a[i] := ResolveSender(a[i], users, isUuid);
      i := i + 1;
    }
  }

  // ---------------------------------------------------------------------------
  // The messaging path and the handler

  /** `fetchMessagingArtifactFile(artifact, type, ...)`. */
  function FetchMessagingArtifactFile(
    artifact: Artifact, subtype: string, urls: map<string, Content>,
    users: map<string, Option<User>>, isUuid: string -> bool): (r: Outcome<MessagingTranscript>)
    ensures r.Ok? ==> ReadTranscript(artifact, subtype, urls).Ok?
    ensures r.Ok? ==>
              var t := ReadTranscript(artifact, subtype, urls).value;
              && r.value.contentType == t.file.contentType
              && |r.value.messagingTranscript| == |t.items|
              && (subtype == "sms" ==> forall i :: 0 <= i < |t.items| ==>
                    r.value.messagingTranscript[i].payload.body == t.items[i].payload.body)
              && (subtype != "sms" ==> forall i :: 0 <= i < |t.items| ==>
                    r.value.messagingTranscript[i].payload.from == t.items[i].payload.from)
    ensures subtype == "sms" ==> (r.Ok? <==> ReadTranscript(artifact, subtype, urls).Ok?)
    // a failure to read the transcript file is passed on as it is
    ensures ReadTranscript(artifact, subtype, urls).Err? ==> r == Err(ReadTranscript(artifact, subtype, urls).error)
    // once the file is read, a message without a `body.file` throws a TypeError
    ensures ReadTranscript(artifact, subtype, urls).Ok? && r.Err? ==> r == Err(Unexpected)
    // the digital branch succeeds exactly when the file is read and every message enriched
    ensures subtype != "sms" ==>
              (r.Ok? <==> ReadTranscript(artifact, subtype, urls).Ok?
                          && EnrichDigital(ReadTranscript(artifact, subtype, urls).value.items, artifact.files).Ok?)
    // the messages served are the enriched ones
    ensures r.Ok? && subtype == "sms" ==>
              r.value.messagingTranscript == ResolveSenders(ReadTranscript(artifact, subtype, urls).value.items, users, isUuid)
    ensures r.Ok? && subtype != "sms" ==>
              r.value.messagingTranscript == EnrichDigital(ReadTranscript(artifact, subtype, urls).value.items, artifact.files).value
  {
    var t :- ReadTranscript(artifact, subtype, urls);
    if subtype != "sms" then
      var items :- EnrichDigital(t.items, artifact.files);
      Ok(MessagingTranscript(items, t.file.contentType))
    else
      Ok(MessagingTranscript(ResolveSenders(t.items, users, isUuid), t.file.contentType))
  }

  /** The subtype the handler passes on: an absent subtype is 'sms'. */
  function SubtypeOf(artifact: Artifact): (s: string)
    ensures s != ""
    ensures artifact.artifactSubType != "" ==> s == artifact.artifactSubType
  {
    if artifact.artifactSubType != "" then artifact.artifactSubType else "sms"
  }

  /** The `switch (artifactType)` of the handler. An unsupported type reaches
      `emptyObject(undefined)`, which throws. */
  function Transcript(artifact: Artifact, accept: string, b: Backend, isUuid: string -> bool): (r: Outcome<Served>)
    ensures artifact.artifactType != "email" && artifact.artifactType != "messaging-transcript" ==> r == Err(Unexpected)
    ensures r.Ok? && artifact.artifactType == "email" ==>
              EmailArtifactFile(artifact, b.urls).result.Ok? &&
              r.value == Served(EmailData(EmailArtifactFile(artifact, b.urls).result.value), accept)
    ensures r.Ok? && artifact.artifactType == "messaging-transcript" ==>
              && r.value.body.MessagingData?
              && ReadTranscript(artifact, SubtypeOf(artifact), b.urls).Ok?
              && r.value.contentType == ReadTranscript(artifact, SubtypeOf(artifact), b.urls).value.file.contentType
    // an email succeeds exactly when its file is fetched, and fails as that fetch does
    ensures artifact.artifactType == "email" ==>
              && (r.Ok? <==> EmailArtifactFile(artifact, b.urls).result.Ok?)
              && (r.Err? ==> r.error == EmailArtifactFile(artifact, b.urls).result.error)
    // a messaging transcript is served exactly as fetched and enriched, and fails as that does
    ensures artifact.artifactType == "messaging-transcript" ==>
              var m := FetchMessagingArtifactFile(artifact, SubtypeOf(artifact), b.urls, b.users, isUuid);
              && (r.Ok? <==> m.Ok?)
              && (r.Err? ==> r.error == m.error)
              && (r.Ok? ==> r.value.body == MessagingData(m.value))
  {
    if artifact.artifactType == "email" then
      var data :- EmailArtifactFile(artifact, b.urls).result;
      Ok(Served(EmailData(data), accept))
    else if artifact.artifactType == "messaging-transcript" then
      var m :- FetchMessagingArtifactFile(artifact, SubtypeOf(artifact), b.urls, b.users, isUuid);
      Ok(Served(MessagingData(m), m.contentType))
    else Err(Unexpected)
  }

  /** The 500 message names the transcript type, empty before an artifact is chosen. */
  function UnexpectedMessage(transcriptType: string): string {
    "An unexpected error occurred fetching " + transcriptType + " transcript"
  }

  /** `exports.handler`. */
  function Handle(accept: string, b: Backend, isUuid: string -> bool): (r: Response)
    ensures r.status == 200 || r.status == 404 || r.status == 500
    ensures r.status != 200 ==> r.contentType.None? && r.body.ErrorMessage?
    ensures r.status == 404 ==> r.body.message == NotFoundMessage
    ensures SelectArtifact(b).Err? ==> r.status != 200
    ensures SelectArtifact(b) == Err(Unexpected) ==> r == Response(500, ErrorMessage(UnexpectedMessage("")), None)
    ensures SelectArtifact(b).Ok? && r.status == 500 ==>
              r.body.message == UnexpectedMessage(SelectArtifact(b).value.artifactType)
    ensures SelectArtifact(b) == Err(Missing) ==> r == Response(404, ErrorMessage(NotFoundMessage), None)
    // once an artifact is chosen: 200 with the transcript exactly when it is served, 404 exactly when it is Missing
    ensures SelectArtifact(b).Ok? ==>
              var t := Transcript(SelectArtifact(b).value, accept, b, isUuid);
              && (r.status == 200 <==> t.Ok?)
              && (r.status == 404 <==> t == Err(Missing))
              && (t.Ok? ==> r.body == t.value.body && r.contentType == Some(t.value.contentType))
  {
    match SelectArtifact(b)
    case Err(e) => Classify(Err(e), UnexpectedMessage(""))
    case Ok(artifact) => Classify(Transcript(artifact, accept, b, isUuid), UnexpectedMessage(artifact.artifactType))
  }

  // ---------------------------------------------------------------------------
  // Properties of the handler

  /** No email or messaging summary with files: 404. */
  lemma NoEligibleIs404(accept: string, b: Backend, isUuid: string -> bool)
    requires b.listing.Some?
    requires forall i :: 0 <= i < |b.listing.value| ==> !Eligible(b.listing.value[i])
    ensures Handle(accept, b, isUuid) == Response(404, ErrorMessage(NotFoundMessage), None)
  {
  }

  /** An artifact of an unsupported type: 500 naming that type. */
  lemma UnsupportedTypeIs500(accept: string, b: Backend, isUuid: string -> bool)
    requires SelectArtifact(b).Ok?
    requires SelectArtifact(b).value.artifactType !in {"email", "messaging-transcript"}
    ensures Handle(accept, b, isUuid)
            == Response(500, ErrorMessage(UnexpectedMessage(SelectArtifact(b).value.artifactType)), None)
  {
  }

  /** An email served with status 200 carries the request's Accept header. */
  lemma EmailServedAsAccepted(accept: string, b: Backend, isUuid: string -> bool)
    requires SelectArtifact(b).Ok? && SelectArtifact(b).value.artifactType == "email"
    requires Handle(accept, b, isUuid).status == 200
    ensures Handle(accept, b, isUuid).contentType == Some(accept)
    ensures Handle(accept, b, isUuid).body
            == EmailData(EmailArtifactFile(SelectArtifact(b).value, b.urls).result.value)
  {
  }

  /** A messaging transcript served with status 200 carries the transcript
      file's content type. */
  lemma MessagingServedAsFileType(accept: string, b: Backend, isUuid: string -> bool)
    requires SelectArtifact(b).Ok? && SelectArtifact(b).value.artifactType == "messaging-transcript"
    requires Handle(accept, b, isUuid).status == 200
    ensures var a := SelectArtifact(b).value;
            Handle(accept, b, isUuid).contentType
            == Some(ReadTranscript(a, SubtypeOf(a), b.urls).value.file.contentType)
  {
  }

  /** A messaging artifact without a subtype is handled as an SMS transcript. */
  lemma NoSubtypeIsSms(artifact: Artifact, accept: string, b: Backend, isUuid: string -> bool)
    requires artifact.artifactSubType == ""
    ensures Transcript(artifact, accept, b, isUuid) == Transcript(artifact.(artifactSubType := "sms"), accept, b, isUuid)
  {
  }
}
