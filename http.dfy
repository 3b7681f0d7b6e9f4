/** The HTTP response the handlers return and the classification of a
    pipeline outcome into it. */
module Http {
  import opened Outcomes
  import opened Artifacts
  import opened Messaging

  /** The body of a response: the email file's data, a messaging transcript,
      or `{ message }` on failure. */
  datatype ResponseBody =
    | EmailData(data: Content)
    | MessagingData(transcript: MessagingTranscript)
    | ErrorMessage(message: string)

  /** A response; `contentType` is the `Content-Type` header, absent on errors. */
  datatype Response = Response(status: int, body: ResponseBody, contentType: Option<string>)

  /** A transcript ready to serve, with the content type to serve it as. */
  datatype Served = Served(body: ResponseBody, contentType: string)

  const NotFoundMessage := "Specified interaction transcript does not exist"

  /** The `catch` of the handlers and their success return: `Missing` is 404
      with the fixed message, any other error 500 with `unexpectedMessage`. */
  function Classify(outcome: Outcome<Served>, unexpectedMessage: string): (r: Response)
    ensures r.status == 200 <==> outcome.Ok?
    ensures r.status == 404 <==> outcome == Err(Missing)
    ensures r.status == 500 <==> outcome == Err(Unexpected)
    ensures outcome.Ok? ==> r.body == outcome.value.body && r.contentType == Some(outcome.value.contentType)
    ensures r.status == 404 ==> r == Response(404, ErrorMessage(NotFoundMessage), None)
    ensures r.status == 500 ==> r == Response(500, ErrorMessage(unexpectedMessage), None)
  {
    match outcome
    case Ok(served) => Response(200, served.body, Some(served.contentType))
    case Err(Missing) => Response(404, ErrorMessage(NotFoundMessage), None)
    case Err(Unexpected) => Response(500, ErrorMessage(unexpectedMessage), None)
  }
}
