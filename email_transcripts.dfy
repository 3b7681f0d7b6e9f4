/** The email-transcripts handler. It chooses the artifact and serves emails
    exactly as get-transcripts does; it differs in the messaging path (the
    transcript file is always the one flagged by its metadata, and messages get
    only a `mediaUrl`) and in its fixed 500 message. */
module EmailTranscripts {
  import opened Outcomes
  import opened Artifacts
  import opened Selection
  import opened EmailFile
  import opened Messaging
  import opened Http

  /** One message: when `body.file` is a non-empty object and a sibling file
      carries the message's id, that file's url becomes `file.mediaUrl`;
      nothing else of the message changes. */
  function LinkMediaUrl(item: Item, files: seq<ArtifactFile>): (r: Outcome<Item>)
    ensures r.Ok? <==> HasFile(item)
    ensures r.Err? ==> r.error == Unexpected
    ensures r.Ok? ==> HasFile(r.value) && r.value == WithFile(item, FileOf(r.value))
    ensures r.Ok? && MediaSibling(item, files).None? ==> r.value == item
    ensures r.Ok? && MediaSibling(item, files).Some? ==>
              var before, after := FileOf(item), FileOf(r.value);
              && after.Keys == before.Keys + {"mediaUrl"}
              && after["mediaUrl"] == MediaSibling(item, files).value.url
              && forall k :: k in before && k != "mediaUrl" ==> after[k] == before[k]
  {
    if !HasFile(item) then Err(Unexpected)
    else
      match MediaSibling(item, files)
      case None => Ok(item)
      case Some(m) => Ok(WithFile(item, FileOf(item)["mediaUrl" := m.url]))
  }

  /** The `data.map` over the messages: every message linked, in order, or
      `Unexpected` at the first message without a `body.file`. */
  function LinkMediaUrls(items: seq<Item>, files: seq<ArtifactFile>): (r: Outcome<seq<Item>>)
    ensures r.Ok? <==> forall i :: 0 <= i < |items| ==> HasFile(items[i])
    ensures r.Err? ==> r.error == Unexpected
    ensures r.Ok? ==> |r.value| == |items|
    ensures r.Ok? ==> forall i :: 0 <= i < |items| ==> LinkMediaUrl(items[i], files) == Ok(r.value[i])
  {
    if items == [] then Ok([])
    else
      var first :- LinkMediaUrl(items[0], files);
      var rest :- LinkMediaUrls(items[1..], files);
      Ok([first] + rest)
  }

  /** Media linking leaves every sender and every `filename` as it was. */
  lemma {:induction false} LinkMediaUrlsKeepsSenderAndFilename(items: seq<Item>, files: seq<ArtifactFile>, i: nat)
    requires LinkMediaUrls(items, files).Ok? && i < |items|
    ensures var out := LinkMediaUrls(items, files).value[i];
            && out.payload.from == items[i].payload.from
            && ("filename" in FileOf(out) <==> "filename" in FileOf(items[i]))
            && ("filename" in FileOf(items[i]) ==> FileOf(out)["filename"] == FileOf(items[i])["filename"])
  {
    var out := LinkMediaUrls(items, files).value[i];
    assert LinkMediaUrl(items[i], files) == Ok(out);
    assert out == WithFile(items[i], FileOf(out));
  }

  /** The `data.map` in place: messages are linked where they stand, from the
      first on, until one without a `body.file` throws; `linked` counts the
      messages done. */
  method LinkMediaUrlsInPlace(a: array<Item>, files: seq<ArtifactFile>) returns (linked: nat)
    modifies a
    ensures linked <= a.Length
    ensures forall i :: 0 <= i < linked ==> HasFile(old(a[i]))
    ensures linked < a.Length ==> !HasFile(old(a[linked]))
    ensures forall i :: 0 <= i < linked ==> a[i] == LinkMediaUrl(old(a[i]), files).value
    ensures forall i :: linked <= i < a.Length ==> a[i] == old(a[i])
    ensures linked == a.Length <==> LinkMediaUrls(old(a[..]), files).Ok?
    ensures linked == a.Length ==> a[..] == LinkMediaUrls(old(a[..]), files).value
  {
    ghost var items := a[..];
    linked := 0;
    while linked < a.Length
      invariant linked <= a.Length
      invariant forall i :: 0 <= i < linked ==> HasFile(items[i])
      invariant forall i :: 0 <= i < linked ==> a[i] == LinkMediaUrl(items[i], files).value
      invariant forall i :: linked <= i < a.Length ==> a[i] == items[i]
    {
      var r := LinkMediaUrl(a[linked], files);
      if r.Err? {
        break;
      }
      a[linked] := r.value;
      linked := linked + 1;
    }
    if linked == a.Length {
      var out := LinkMediaUrls(items, files).value;
      assert forall i :: 0 <= i < a.Length ==> a[i] == out[i];
      assert a[..] == out;
    }
  }

  /** `fetchMessagingArtifactFile(artifact)`: the first file flagged as the
      transcript, whatever the artifact's subtype. */
  function FetchMessagingArtifactFile(artifact: Artifact, urls: map<string, Content>): (r: Outcome<MessagingTranscript>)
    ensures FindTranscriptByMetadata(artifact.files).None? ==> r == Err(Unexpected)
    ensures r.Ok? ==>
              var t := ReadTranscriptFile(FindTranscriptByMetadata(artifact.files), urls);
              && t.Ok? && FlaggedTranscript(t.value.file)
              && r.value.contentType == t.value.file.contentType
              && |r.value.messagingTranscript| == |t.value.items|
    // a failure to read the transcript file is passed on as it is
    ensures var t := ReadTranscriptFile(FindTranscriptByMetadata(artifact.files), urls);
            t.Err? ==> r == Err(t.error)
    // once the file is read, a message without a `body.file` throws a TypeError
    ensures var t := ReadTranscriptFile(FindTranscriptByMetadata(artifact.files), urls);
            t.Ok? && r.Err? ==> r == Err(Unexpected)
    // success exactly when the file is read and every message linked, with the linked messages
    ensures var t := ReadTranscriptFile(FindTranscriptByMetadata(artifact.files), urls);
            && (r.Ok? <==> t.Ok? && LinkMediaUrls(t.value.items, artifact.files).Ok?)
            && (r.Ok? ==> r.value.messagingTranscript == LinkMediaUrls(t.value.items, artifact.files).value)
  {
    var t :- ReadTranscriptFile(FindTranscriptByMetadata(artifact.files), urls);
    var items :- LinkMediaUrls(t.items, artifact.files);
    Ok(MessagingTranscript(items, t.file.contentType))
  }

  /** The `switch (artifactType)` of the handler. */
  function Transcript(artifact: Artifact, accept: string, b: Backend): (r: Outcome<Served>)
    ensures artifact.artifactType != "email" && artifact.artifactType != "messaging-transcript" ==> r == Err(Unexpected)
    ensures r.Ok? && artifact.artifactType == "email" ==>
              EmailArtifactFile(artifact, b.urls).result.Ok? &&
              r.value == Served(EmailData(EmailArtifactFile(artifact, b.urls).result.value), accept)
    ensures r.Ok? && artifact.artifactType == "messaging-transcript" ==>
              && r.value.body.MessagingData?
              && FindTranscriptByMetadata(artifact.files).Some?
              && r.value.contentType == FindTranscriptByMetadata(artifact.files).value.contentType
    // an email succeeds exactly when its file is fetched, and fails as that fetch does
    ensures artifact.artifactType == "email" ==>
              && (r.Ok? <==> EmailArtifactFile(artifact, b.urls).result.Ok?)
              && (r.Err? ==> r.error == EmailArtifactFile(artifact, b.urls).result.error)
    // a messaging transcript is served exactly as fetched and linked, and fails as that does
    ensures artifact.artifactType == "messaging-transcript" ==>
              var m := FetchMessagingArtifactFile(artifact, b.urls);
              && (r.Ok? <==> m.Ok?)
              && (r.Err? ==> r.error == m.error)
              && (r.Ok? ==> r.value.body == MessagingData(m.value))
  {
    if artifact.artifactType == "email" then
      var data :- EmailArtifactFile(artifact, b.urls).result;
      Ok(Served(EmailData(data), accept))
    else if artifact.artifactType == "messaging-transcript" then
      var m :- FetchMessagingArtifactFile(artifact, b.urls);
      Ok(Served(MessagingData(m), m.contentType))
    else Err(Unexpected)
  }

  const UnexpectedMessage := "An unexpected error occurred fetching email transcript"

  /** `exports.handler`. */
  function Handle(accept: string, b: Backend): (r: Response)
    ensures r.status == 200 || r.status == 404 || r.status == 500
    ensures r.status == 404 ==> r == Response(404, ErrorMessage(NotFoundMessage), None)
    ensures r.status == 500 ==> r == Response(500, ErrorMessage(UnexpectedMessage), None)
    ensures SelectArtifact(b) == Err(Missing) ==> r.status == 404
    ensures SelectArtifact(b) == Err(Unexpected) ==> r.status == 500
    // once an artifact is chosen: 200 with the transcript exactly when it is served, 404 exactly when it is Missing
    ensures SelectArtifact(b).Ok? ==>
              var t := Transcript(SelectArtifact(b).value, accept, b);
              && (r.status == 200 <==> t.Ok?)
              && (r.status == 404 <==> t == Err(Missing))
              && (t.Ok? ==> r.body == t.value.body && r.contentType == Some(t.value.contentType))
  {
    match SelectArtifact(b)
    case Err(e) => Classify(Err(e), UnexpectedMessage)
    case Ok(artifact) => Classify(Transcript(artifact, accept, b), UnexpectedMessage)
  }

  /** No email or messaging summary with files: 404. */
  lemma NoEligibleIs404(accept: string, b: Backend)
    requires b.listing.Some?
    requires forall i :: 0 <= i < |b.listing.value| ==> !Eligible(b.listing.value[i])
    ensures Handle(accept, b) == Response(404, ErrorMessage(NotFoundMessage), None)
  {
  }

  /** The subtype plays no part: the same artifact with any subtype gets the
      same transcript. */
  lemma SubtypeIgnored(artifact: Artifact, subtype: string, accept: string, b: Backend)
    ensures Transcript(artifact.(artifactSubType := subtype), accept, b) == Transcript(artifact, accept, b)
  {
  }

  /** A messaging artifact with no file flagged as the transcript is a 500 here,
      even when it holds a `transcript.json` (which get-transcripts would serve
      for an SMS artifact). */
  lemma UnflaggedTranscriptIs500(accept: string, b: Backend)
    requires SelectArtifact(b).Ok?
    requires SelectArtifact(b).value.artifactType == "messaging-transcript"
    requires forall i :: 0 <= i < |SelectArtifact(b).value.files| ==> !FlaggedTranscript(SelectArtifact(b).value.files[i])
    ensures Handle(accept, b) == Response(500, ErrorMessage(UnexpectedMessage), None)
  {
  }
}
