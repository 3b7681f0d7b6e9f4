/** `fetchEmailArtifactFile`: from an email artifact to the content of its
    body file, through the manifest, with the html-to-plain fallback. */
module EmailFile {
  import opened Outcomes
  import opened Artifacts

  /** The outcome of a step and the file urls it requested, in order. */
  datatype Fetched<T> = Fetched(result: Outcome<T>, requested: seq<string>)

  /** The manifest file named by `artifact.manifestId`, fetched and read. An
      absent manifest file makes `emptyObject(undefined)` throw, so it is
      `Unexpected`; a manifest file without url, or a falsy manifest, is
      `Missing`; a manifest that is not an object with a `body` throws. */
  function ReadManifest(artifact: Artifact, urls: map<string, Content>): (f: Fetched<ManifestBody>)
    ensures |f.requested| <= 1
    ensures artifact.manifestId.None? ==> f == Fetched(Err(Unexpected), [])
    ensures artifact.manifestId.Some? && FindFileById(artifact.files, artifact.manifestId.value).None?
            ==> f == Fetched(Err(Unexpected), [])
    ensures f.result.Ok? ==>
              && artifact.manifestId.Some?
              && FindFileById(artifact.files, artifact.manifestId.value).Some?
              && var mf := FindFileById(artifact.files, artifact.manifestId.value).value;
                 f.requested == [mf.url] && mf.url in urls && urls[mf.url] == ManifestDoc(Some(f.result.value))
    ensures f.result == Err(Missing) ==>
              && artifact.manifestId.Some?
              && FindFileById(artifact.files, artifact.manifestId.value).Some?
              && var mf := FindFileById(artifact.files, artifact.manifestId.value).value;
                 mf.url == "" || (mf.url in urls && Falsy(urls[mf.url]))
    // once the manifest file is found: no url is Missing; otherwise its url is
    // requested, and a failed request is Unexpected, a falsy manifest Missing,
    // a manifest with a body that body
    ensures artifact.manifestId.Some? && FindFileById(artifact.files, artifact.manifestId.value).Some? ==>
              var mf := FindFileById(artifact.files, artifact.manifestId.value).value;
              && (mf.url == "" ==> f == Fetched(Err(Missing), []))
              && (mf.url != "" ==> f.requested == [mf.url])
              && (mf.url != "" && mf.url !in urls ==> f.result == Err(Unexpected))
              && (mf.url != "" && mf.url in urls && Falsy(urls[mf.url]) ==> f.result == Err(Missing))
              && (mf.url != "" && mf.url in urls && urls[mf.url].ManifestDoc? && urls[mf.url].body.Some? ==>
                    f.result == Ok(urls[mf.url].body.value))
  {
    match artifact.manifestId
    case None => Fetched(Err(Unexpected), [])
    case Some(manifestId) =>
      match FindFileById(artifact.files, manifestId)
      case None => Fetched(Err(Unexpected), [])
      case Some(manifestFile) =>
        if manifestFile.url == "" then Fetched(Err(Missing), [])
        else if manifestFile.url !in urls then Fetched(Err(Unexpected), [manifestFile.url])
        else
          var data := urls[manifestFile.url];
          if Falsy(data) then Fetched(Err(Missing), [manifestFile.url])
          else if data.ManifestDoc? && data.body.Some? then Fetched(Ok(data.body.value), [manifestFile.url])
          else Fetched(Err(Unexpected), [manifestFile.url])
  }

  /** The body file the manifest designates: html when present, else plain. */
  function ChosenId(body: ManifestBody): Option<string> {
    if body.html.Some? then body.html else body.plain
  }

  /** Fetching the body file once the manifest is read. A failed html fetch
      falls back to the plain file once; a failed fetch of a plain file chosen
      first is `Missing`. */
  function FetchBody(files: seq<ArtifactFile>, body: ManifestBody, urls: map<string, Content>): (f: Fetched<Content>)
    // at most the chosen file and, after it failed, the plain file
    ensures |f.requested| <= 2
    // a further request only after a failed one: a successful html fetch never requests the plain file
    ensures forall i :: 0 <= i < |f.requested| - 1 ==> f.requested[i] !in urls
    // the content is what the last request returned
    ensures f.result.Ok? ==>
              && f.requested != [] && f.requested[|f.requested| - 1] in urls
              && f.result.value == urls[f.requested[|f.requested| - 1]]
    // neither an html nor a plain entry: `data.body.plain.artifactFileId` throws
    ensures body.html.None? && body.plain.None? ==> f == Fetched(Err(Unexpected), [])
    // the chosen entry names no file: Missing, nothing fetched
    ensures ChosenId(body).Some? && FindFileById(files, ChosenId(body).value).None? ==> f == Fetched(Err(Missing), [])
    // the chosen file is requested first
    ensures f.requested != [] ==>
              && FindFileById(files, ChosenId(body).value).Some?
              && f.requested[0] == FindFileById(files, ChosenId(body).value).value.url
    // a second request is the plain file, after the html file failed
    ensures |f.requested| == 2 ==>
              && body.html.Some? && body.plain.Some?
              && FindFileById(files, body.plain.value).Some?
              && f.requested[1] == FindFileById(files, body.plain.value).value.url
    ensures (&& body.html.Some? && body.plain.Some?
             && FindFileById(files, body.html.value).Some?
             && FindFileById(files, body.html.value).value.url !in urls
             && FindFileById(files, body.plain.value).Some?) ==>
              f.requested == [FindFileById(files, body.html.value).value.url,
                              FindFileById(files, body.plain.value).value.url]
    // plain chosen first: no fallback, and its failure is Missing
    ensures body.html.None? ==> |f.requested| <= 1
    ensures body.html.None? && f.result.Err? && f.requested != [] ==> f.result.error == Missing
    // html chosen: Missing exactly when its entry names no file
    ensures body.html.Some? ==> (f.result == Err(Missing) <==> FindFileById(files, body.html.value).None?)
    // the chosen file fetched: its content, and nothing else requested
    ensures ChosenId(body).Some? && FindFileById(files, ChosenId(body).value).Some?
            && FindFileById(files, ChosenId(body).value).value.url in urls ==>
              var c := FindFileById(files, ChosenId(body).value).value;
              f == Fetched(Ok(urls[c.url]), [c.url])
    // the fallback gives the plain file's content, or Unexpected when that fetch fails too
    ensures (&& body.html.Some? && body.plain.Some?
             && FindFileById(files, body.html.value).Some?
             && FindFileById(files, body.html.value).value.url !in urls
             && FindFileById(files, body.plain.value).Some?) ==>
              var p := FindFileById(files, body.plain.value).value;
              f.result == if p.url in urls then Ok(urls[p.url]) else Err(Unexpected)
    // the html fetch failed with no plain file to fall back to: Unexpected
    ensures (&& body.html.Some?
             && FindFileById(files, body.html.value).Some?
             && FindFileById(files, body.html.value).value.url !in urls
             && (body.plain.None? || FindFileById(files, body.plain.value).None?)) ==>
              f == Fetched(Err(Unexpected), [FindFileById(files, body.html.value).value.url])
    // no html entry: the plain file is requested directly
    ensures body.html.None? && body.plain.Some? && FindFileById(files, body.plain.value).Some? ==>
              f.requested == [FindFileById(files, body.plain.value).value.url]
  {
    match ChosenId(body)
    case None => Fetched(Err(Unexpected), [])
    case Some(id) =>
      match FindFileById(files, id)
      case None => Fetched(Err(Missing), [])
      case Some(file) =>
        if file.url in urls then Fetched(Ok(urls[file.url]), [file.url])
        else if body.html.None? then Fetched(Err(Missing), [file.url])
        else if body.plain.None? then Fetched(Err(Unexpected), [file.url])
        else
          match FindFileById(files, body.plain.value)
          case None => Fetched(Err(Unexpected), [file.url])
          case Some(plain) =>
            var fallback := if plain.url in urls then Ok(urls[plain.url]) else Err(Unexpected);
            Fetched(fallback, [file.url, plain.url])
  }

  /** The whole of `fetchEmailArtifactFile`: the manifest, then the body file. */
  function EmailArtifactFile(artifact: Artifact, urls: map<string, Content>): (f: Fetched<Content>)
    ensures |f.requested| <= 3
    ensures f.result.Ok? ==>
              && |f.requested| >= 2 && f.requested[|f.requested| - 1] in urls
              && f.result.value == urls[f.requested[|f.requested| - 1]]
    // the manifest's failure is the file's; a manifest read goes on to its body file
    ensures var m := ReadManifest(artifact, urls);
            && (m.result.Err? ==> f == Fetched(Err(m.result.error), m.requested))
            && (m.result.Ok? ==>
                  var fb := FetchBody(artifact.files, m.result.value, urls);
                  f == Fetched(fb.result, m.requested + fb.requested))
  {
    var m := ReadManifest(artifact, urls);
    match m.result
    case Err(e) => Fetched(Err(e), m.requested)
    case Ok(body) =>
      var b := FetchBody(artifact.files, body, urls);
      Fetched(b.result, m.requested + b.requested)
  }

  /** `fetchEmailArtifactFile` as written: `fileArtifact` and `emailData` are
      assigned across the try/catch of the body fetch. */
  method FetchEmailArtifactFile(artifact: Artifact, urls: map<string, Content>)
    returns (r: Outcome<Content>, requested: seq<string>)
    ensures Fetched(r, requested) == EmailArtifactFile(artifact, urls)
  {
    requested := [];
    var manifestFile := None;
    if artifact.manifestId.Some? {
      manifestFile := FindFileById(artifact.files, artifact.manifestId.value);
    }
    if manifestFile.None? {
      return Err(Unexpected), requested;
    }
    if manifestFile.value.url == "" {
      return Err(Missing), requested;
    }
    requested := requested + [manifestFile.value.url];
    if manifestFile.value.url !in urls {
      return Err(Unexpected), requested;
    }
    var data := urls[manifestFile.value.url];
    if Falsy(data) {
      return Err(Missing), requested;
    }
    if !data.ManifestDoc? || data.body.None? {
      return Err(Unexpected), requested;
    }
    var body := data.body.value;
    var fileArtifact;
    if body.html.None? {
      if body.plain.None? {
        return Err(Unexpected), requested;
      }
      fileArtifact := FindFileById(artifact.files, body.plain.value);
    } else {
      fileArtifact := FindFileById(artifact.files, body.html.value);
    }
    if fileArtifact.None? {
      return Err(Missing), requested;
    }
    var emailData;
    requested := requested + [fileArtifact.value.url];
    if fileArtifact.value.url in urls {
      emailData := urls[fileArtifact.value.url];
    } else if body.html.Some? {
      if body.plain.None? {
        return Err(Unexpected), requested;
      }
      var plainArtifact := FindFileById(artifact.files, body.plain.value);
      if plainArtifact.None? {
        return Err(Unexpected), requested;
      }
      requested := requested + [plainArtifact.value.url];
      if plainArtifact.value.url !in urls {
        return Err(Unexpected), requested;
      }
      emailData := urls[plainArtifact.value.url];
    } else {
      return Err(Missing), requested;
    }
    r := Ok(emailData);
  }
}
