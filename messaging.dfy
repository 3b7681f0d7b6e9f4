/** What both `fetchMessagingArtifactFile` variants share: reading the
    transcript file once it is found, and the parts of a message that media
    linking reads and writes. */
module Messaging {
  import opened Outcomes
  import opened Artifacts

  /** The transcript file of a messaging artifact and the messages it holds. */
  datatype TranscriptFile = TranscriptFile(file: ArtifactFile, items: seq<Item>)

  /** The `{ messagingTranscript, contentType }` a messaging request returns. */
  datatype MessagingTranscript = MessagingTranscript(messagingTranscript: seq<Item>, contentType: string)

  /** Fetching the transcript file `found`. No file makes
      `emptyObject(undefined)` throw; a file without url, or content that is
      the empty object, is `Missing`; a failed request, `null`, or content
      that is not an array (`data.map` is not a function) is `Unexpected`. */
  function ReadTranscriptFile(found: Option<ArtifactFile>, urls: map<string, Content>): (r: Outcome<TranscriptFile>)
    ensures found.None? ==> r == Err(Unexpected)
    ensures r.Ok? ==> found == Some(r.value.file) && r.value.file.url != ""
                      && r.value.file.url in urls && urls[r.value.file.url] == Messages(r.value.items)
    ensures r == Err(Missing) <==>
              found.Some? && (found.value.url == "" || (found.value.url in urls && urls[found.value.url] == EmptyObject))
    ensures found.Some? && found.value.url != "" && found.value.url in urls && urls[found.value.url].Messages? ==>
              r == Ok(TranscriptFile(found.value, urls[found.value.url].items))
  {
    match found
    case None => Err(Unexpected)
    case Some(file) =>
      if file.url == "" then Err(Missing)
      else if file.url !in urls then Err(Unexpected)
      else
        match urls[file.url]
        case EmptyObject => Err(Missing)
        case Messages(items) => Ok(TranscriptFile(file, items))
        case _ => Err(Unexpected)
  }

  /** Whether `Object.keys(payload.body.file)` can be evaluated. */
  predicate HasFile(item: Item) {
    item.payload.body.Some? && item.payload.body.value.file.Some?
  }

  /** The message's `body.file` object. */
  function FileOf(item: Item): map<string, string>
    requires HasFile(item)
  {
    item.payload.body.value.file.value
  }

  /** The message with its `body.file` object replaced and all else kept. */
  function WithFile(item: Item, file: map<string, string>): (r: Item)
    requires HasFile(item)
    ensures HasFile(r) && FileOf(r) == file
  {
    item.(payload := item.payload.(body := Some(item.payload.body.value.(file := Some(file)))))
  }

  /** The sibling file holding the media of this message, looked up only for a
      message whose `body.file` is a non-empty object. */
  function MediaSibling(item: Item, files: seq<ArtifactFile>): Option<ArtifactFile>
    requires HasFile(item)
  {
    if |FileOf(item)| > 0 then FindMediaFile(files, item.payload.body.value.id) else None
  }
}
