/** What a reply of the server says (src/Http.cpp, src/Job.cpp): the document it
    brings, or the error it is reported as, by status code. */
module Replies {
  import opened Common
  import opened Http
  import opened JsonModel
  import opened JobSpec

  /** The reply is a 200 with this document. */
  ghost predicate Brings(lib: Library, reply: Result<Response>, data: Json) {
    && reply.Ok? && !reply.value.timedOut && !reply.value.failed && reply.value.status == 200
    && lib.parse(reply.value.body) == Some(data)
  }

  /** The error that a reply without a document is reported as. */
  ghost function Trouble(reply: Result<Response>): Error {
    match reply
    case Err(error) => error
    case Ok(response) =>
      if response.timedOut then Timeout
      else if response.failed then Fatal
      else if response.status == 401 || response.status == 403 then PermissionDenied
      else if response.status == 404 then NotFound
      else Fatal
  }

  lemma FetchedExact(lib: Library, reply: Result<Response>, data: Json)
    ensures Fetched(lib, reply) == Ok(data) <==> Brings(lib, reply, data)
    ensures Fetched(lib, reply).Err? ==> Fetched(lib, reply) == Err(Trouble(reply))
    ensures (exists other :: Brings(lib, reply, other)) <==> Fetched(lib, reply).Ok?
  {
    if Fetched(lib, reply).Ok? {
      assert Brings(lib, reply, Fetched(lib, reply).value);
    }
  }

  /** The field holds this text. */
  predicate Says(data: Json, key: string, text: string) {
    data.Obj? && key in data.fields && data.fields[key] == Str(text)
  }

  /** The texts that the server uses for a status. */
  function TextsOf(status: Status): set<string> {
    match status
    case Created => {}
    case Submitted => {"Creating", "Created", "Validating"}
    case Queued => {"Queued"}
    case Running => {"Running"}
    case Completed => {"Completed"}
    case Canceled => {"Cancelled", "Canceled"}
    case Failed => {"Failed"}
  }

  /** The document reports this status. */
  predicate Reports(data: Json, status: Status) {
    && data.Obj? && "state" in data.fields && data.fields["state"].Obj? && "status" in data.fields["state"].fields
    && data.fields["state"].fields["status"].Str? && data.fields["state"].fields["status"].s in TextsOf(status)
  }

  /** A document reports at most one status; any other text is fatal. */
  lemma StatusExact(data: Json, status: Status)
    ensures ParseStatus(data) == Ok(status) <==> Reports(data, status)
    ensures ParseStatus(data).Err? ==> ParseStatus(data) == Err(Fatal)
  {
  }

  predicate IsName(text: string) {
    && 0 < |text| < 256
    && forall i :: 0 <= i < |text| ==>
         'a' <= text[i] <= 'z' || 'A' <= text[i] <= 'Z' || '0' <= text[i] <= '9' || text[i] == '_' || text[i] == '-'
  }

  lemma IdentifierExact(text: string)
    ensures IsIdentifier(text) <==> IsName(text)
  {
  }
}
