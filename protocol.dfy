/** Shared vocabulary of the event command/response protocol: the values a
    document field can hold, error maps, the HTTP statuses in use and the
    envelopes exchanged between the gateway and the dispatcher. */
module Protocol {

  datatype Option<+T> = None | Some(value: T)

  datatype Result<+R, +E> = Success(value: R) | Failure(error: E)

  /** A JSON-like field value. `Null` is JavaScript's `null`; an absent key
      stands for `undefined`. Numbers are integers. */
  datatype Value = Null | Bool(b: bool) | Num(n: int) | Str(s: string)

  /** A document or request body: field name to value. */
  type Fields = map<string, Value>

  /** A validation error map: field path to message. */
  type ErrorMap = map<string, string>

  /** JavaScript truthiness of a field value. */
  predicate Truthy(v: Value)
  {
    match v
    case Null => false
    case Bool(b) => b
    case Num(n) => n != 0
    case Str(s) => s != ""
  }

  // The HTTP statuses the protocol uses.
  const OK := 200
  const CREATED := 201
  const BAD_REQUEST := 400
  const FORBIDDEN := 403
  const NOT_FOUND := 404
  const PRECONDITION_FAILED := 412

  /** Reply to a search: `{status, message, events}`; the events are the
      matching records keyed by their id. */
  datatype SearchReply = SearchReply(status: int, message: string, events: Option<map<string, Fields>>)

  /** Reply to create and update: `{status, message, event, errors}`. */
  datatype EventReply = EventReply(status: int, message: string, event: Option<Fields>, errors: Option<ErrorMap>)

  /** Reply to delete: `{status, message, errors}`. */
  datatype DeleteReply = DeleteReply(status: int, message: string, errors: Option<ErrorMap>)

  /** Payload of the update command: `{event, id, userId}`. */
  datatype UpdateParams = UpdateParams(event: Fields, id: string, userId: string)

  /** Payload of the delete command: `{userId, id}`. */
  datatype DeleteParams = DeleteParams(userId: string, id: string)
}
