/** The single request to the data lake (`read_data_json`). The HTTP POST
    itself is abstracted: a server is a function from the request body to the
    reply it produces. */
module Api {
  import opened Wrappers

  /** The only status `read_data_json` accepts. */
  const StatusOk := 200

  /** Why a call fails.
      - ApiError: a reply with a status other than 200, carrying the server's `message`.
      - MissingKey: a key the code indexes is absent from the reply (Python's KeyError).
      - NoDatesColumn: no column name contains `dates` (Python's IndexError on `date_cols[0]`). */
  datatype Error = ApiError(message: string) | MissingKey(key: string) | NoDatesColumn

  /** One server reply: the HTTP status, the decoded payload, and the
      `message` field of the body when it has one. */
  datatype Reply<P> = Reply(status: int, payload: P, message: Option<string>)

  /** Any status but 200 fails with the server's message; a 200 reply hands
      back its payload untouched. */
  function ReadDataJson<P>(reply: Reply<P>): (r: Result<P, Error>)
    ensures r.Success? <==> reply.status == StatusOk
    ensures r.Success? ==> r.value == reply.payload
    ensures r.Failure? && reply.message.Some? ==> r.error == ApiError(reply.message.value)
    ensures r.Failure? && reply.message.None? ==> r.error == MissingKey("message")
  {
    if reply.status != StatusOk then
      match reply.message
      case Some(m) => Failure(ApiError(m))
      case None => Failure(MissingKey("message"))
    else
      Success(reply.payload)
  }
}
