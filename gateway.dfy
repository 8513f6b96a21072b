/** The HTTP gateway for events: each handler builds a command carrying the
    caller's id, and translates the service's reply into a response body or
    an HTTP error by comparing the reply's status with the one success code
    it expects. The reply is an input: the message bus is not modelled. */
module Gateway {
  import opened Protocol
  import opened EventSchema

  // The message patterns the gateway sends.
  const SearchPattern := "event_search_by_user_id"
  const CreatePattern := "event_create"
  const DeletePattern := "event_delete_by_id"
  const UpdatePattern := "event_update_by_id"

  /** The authenticated caller, as resolved upstream. */
  datatype Caller = Caller(id: string)

  datatype Payload =
    | UserIdPayload(userId: string)
    | BodyPayload(body: Fields)
    | DeletePayload(delete: DeleteParams)
    | UpdatePayload(update: UpdateParams)

  /** A message sent to the event service: its pattern and payload. */
  datatype Command = Command(pattern: string, payload: Payload)

  datatype Data = EventsData(events: Option<map<string, Fields>>) | EventData(event: Option<Fields>)

  /** The response body `{message, data, errors}`. */
  datatype ResponseBody = ResponseBody(message: string, data: Option<Data>, errors: Option<ErrorMap>)

  /** `new HttpException(body, status)`. */
  datatype HttpError = HttpError(status: int, body: ResponseBody)

  type Outcome = Result<ResponseBody, HttpError>

  /** GET: the search command for the caller's own events. */
  function SearchRequest(caller: Caller): (c: Command)
    ensures c.pattern == SearchPattern
    ensures c.payload == UserIdPayload(caller.id)
  {
    Command(SearchPattern, UserIdPayload(caller.id))
  }

  /** GET: the reply is passed through whatever its status; it never raises. */
  function SearchResponse(reply: SearchReply): (out: Outcome)
    ensures out.Success?
    ensures out.value.message == reply.message
    ensures out.value.data == Some(EventsData(reply.events))
    ensures out.value.errors == None
  {
    Success(ResponseBody(reply.message, Some(EventsData(reply.events)), None))
  }

  /** POST: the request body with `user_id` set to the caller's id, replacing
      any `user_id` the client sent. */
  function CreateRequest(caller: Caller, body: Fields): (c: Command)
    ensures c.pattern == CreatePattern && c.payload.BodyPayload?
    ensures UserIdPath in c.payload.body && c.payload.body[UserIdPath] == Str(caller.id)
    ensures forall f :: f != UserIdPath ==> (f in c.payload.body <==> f in body)
    ensures forall f :: f in body && f != UserIdPath ==> c.payload.body[f] == body[f]
  {
    Command(CreatePattern, BodyPayload(body[UserIdPath := Str(caller.id)]))
  }

  /** POST: raises unless the service answered CREATED. */
  function CreateResponse(reply: EventReply): (out: Outcome)
    ensures out.Failure? <==> reply.status != CREATED
    ensures out.Failure? ==> out.error == HttpError(reply.status, ResponseBody(reply.message, None, reply.errors))
    ensures out.Success? ==> out.value == ResponseBody(reply.message, Some(EventData(reply.event)), None)
  {
    if reply.status != CREATED then
      Failure(HttpError(reply.status, ResponseBody(reply.message, None, reply.errors)))
    else
      Success(ResponseBody(reply.message, Some(EventData(reply.event)), None))
  }

  /** DELETE: the record id from the route and the caller's id. */
  function DeleteRequest(caller: Caller, id: string): (c: Command)
    ensures c.pattern == DeletePattern
    ensures c.payload == DeletePayload(DeleteParams(caller.id, id))
  {
    Command(DeletePattern, DeletePayload(DeleteParams(caller.id, id)))
  }

  /** DELETE: raises unless the service answered OK; success carries no data. */
  function DeleteResponse(reply: DeleteReply): (out: Outcome)
    ensures out.Failure? <==> reply.status != OK
    ensures out.Failure? ==> out.error == HttpError(reply.status, ResponseBody(reply.message, None, reply.errors))
    ensures out.Success? ==> out.value == ResponseBody(reply.message, None, None)
  {
    if reply.status != OK then
      Failure(HttpError(reply.status, ResponseBody(reply.message, None, reply.errors)))
    else
      Success(ResponseBody(reply.message, None, None))
  }

  /** PUT: the record id, the caller's id and the body, unchanged. */
  function UpdateRequest(caller: Caller, id: string, body: Fields): (c: Command)
    ensures c.pattern == UpdatePattern
    ensures c.payload == UpdatePayload(UpdateParams(body, id, caller.id))
  {
    Command(UpdatePattern, UpdatePayload(UpdateParams(body, id, caller.id)))
  }

  /** PUT: raises unless the service answered OK. */
  function UpdateResponse(reply: EventReply): (out: Outcome)
    ensures out.Failure? <==> reply.status != OK
    ensures out.Failure? ==> out.error == HttpError(reply.status, ResponseBody(reply.message, None, reply.errors))
    ensures out.Success? ==> out.value == ResponseBody(reply.message, Some(EventData(reply.event)), None)
  {
    if reply.status != OK then
      Failure(HttpError(reply.status, ResponseBody(reply.message, None, reply.errors)))
    else
      Success(ResponseBody(reply.message, Some(EventData(reply.event)), None))
  }

  /** The status the client receives: the route's default status when the
      handler returns, the exception's status when it raises. */
  function ClientStatus(out: Outcome, routeDefault: int): int
  {
    match out
    case Success(_) => routeDefault
    case Failure(e) => e.status
  }

  /** The message the client receives. */
  function ClientMessage(out: Outcome): string
  {
    match out
    case Success(body) => body.message
    case Failure(e) => e.body.message
  }

  /** The gateway invents neither a status nor a message: with the default
      statuses of the routes (201 for POST, 200 otherwise), the client sees
      the service's status for create, update and delete, and the service's
      message for every handler. Given a service reply, a search is answered
      200 whatever the reply's status. */
  lemma Transparent(search: SearchReply, create: EventReply, delete: DeleteReply, update: EventReply)
    ensures ClientStatus(SearchResponse(search), OK) == OK
    ensures ClientStatus(CreateResponse(create), CREATED) == create.status
    ensures ClientStatus(DeleteResponse(delete), OK) == delete.status
    ensures ClientStatus(UpdateResponse(update), OK) == update.status
    ensures ClientMessage(SearchResponse(search)) == search.message
    ensures ClientMessage(CreateResponse(create)) == create.message
    ensures ClientMessage(DeleteResponse(delete)) == delete.message
    ensures ClientMessage(UpdateResponse(update)) == update.message
  {
  }
}
