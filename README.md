# Event command/response protocol — a Dafny model

This project models the core of a small microservice system that handles
"event" records (a user's scheduled reminders). The core has three parts:

- **The event dispatcher** (`EventDispatcher`, from the analytic service's
  `EventController`). It holds four message handlers: search by user, create,
  update by id, and delete by id. It is modelled as a class whose `store`
  field maps event ids to records. Each handler checks its input, makes at
  most a lookup and one write, and answers with a fixed
  `{status, message, event/events, errors}` envelope. The statuses are 200,
  201, 400, 403, 404 and 412.
- **The event schema** (`EventSchema`). It gives the required and optional
  paths with their messages, the `notification_id` default, the
  `pre('validate')` hook that forbids changing `user_id` on a record that
  already has `created_at`, and the serialiser transform that drops `_id`.
  The validator is a function that returns an error map. The dispatcher uses
  it to decide whether a save succeeds.
- **The HTTP gateway** (`Gateway`). Each handler is two pure functions:
  - one builds the command sent to the event service, with the caller's id
    attached;
  - one turns the service's reply into a response body or an `HttpError`
    (`Result<ResponseBody, HttpError>`), using a single status comparison.

`EndToEnd` connects the parts:

- which gateway patterns reach a dispatcher handler;
- ownership of events created through the gateway;
- one request sequence, from the HTTP side through the store and back
  (`StandupScenario`).

`Protocol` holds the shared types: field values, error maps, statuses and
envelopes.

Facts about the code that the model keeps:

- The owner field is `user_id`.
- `notification_id` defaults to `null`.
- The update merge is a plain `Object.assign` over the stored record, with
  no allow-list of fields. Only the schema hook rejects an owner change.
- The gateway's search sends `event_search_by_user_id`. The dispatcher
  listens on `event_search_by_visitor_id` (lemma `EndToEnd.Routing`).
- Update never reads `userId`. Delete requires a non-empty `userId` but never
  compares it with the record's owner. In `StandupScenario`, a second user
  deletes the first user's event.

## Model

| member | source | states |
|---|---|---|
| EventSchema.RequiredErrorsExact | event/src/schemas/event.schema.ts:8-36 | a path has a required-rule error iff it has a required rule and its value is absent, `null` or `""`; the error is that rule's message |
| EventSchema.SchemaRequiredMessages | event/src/schemas/event.schema.ts:10-35 | exactly `name`, `user_id`, `start_time`, `duration`, `is_solved` are required, with messages "Name can not be empty", "User can not be empty", "Start time can not be empty", "Duration can not be empty", "Solved flag can not be empty"; `description` and `notification_id` are optional |
| EventSchema.ApplyDefaultsExact | event/src/schemas/event.schema.ts:31-35 | defaults fill only paths the document leaves undefined; every present value, `null` included, is kept |
| EventSchema.SchemaDefaults | event/src/schemas/event.schema.ts:31-35 | `notification_id` is the only path with a default, and its default is `null` |
| EventSchema.SchemaNames | event/src/schemas/event.schema.ts:8-36 | the schema declares exactly seven paths |
| EventSchema.Strict | event/src/schemas/event.schema.ts:8-36 | a body keeps exactly its declared paths, with their values |
| EventSchema.NewDocument | event/src/schemas/event.schema.ts:8-36 | a new document keeps every declared path of the body unchanged; `notification_id` is the body's value or `null`; it has no `_id` and no `created_at` |
| EventSchema.ModifiedPaths | event/src/schemas/event.schema.ts:58 | a path counts as modified iff its value was added, removed or changed |
| EventSchema.Validate | event/src/schemas/event.schema.ts:55-61 | errors are reported exactly on missing required paths and, when `user_id` is modified on a document with `created_at`, on `user_id`; in that case `user_id` carries the hook's message "The field value can not be updated", because validators skip a path the hook already invalidated; every other missing required path carries its rule's message; with no `created_at`, only the required rules report |
| EventSchema.FieldRules | event/src/schemas/event.schema.ts:10-30 | for each required field other than `user_id`, an error is reported iff the value is missing, with that field's message; `user_id` has an error iff it is missing or the hook fires, and has "User can not be empty" when it is missing and the hook does not fire; `description` and `notification_id` never carry an error |
| EventSchema.OwnerImmutability | event/src/schemas/event.schema.ts:55-61 | when `user_id` is modified and `created_at` is set, `user_id` carries "The field value can not be updated", whatever the new value (empty included); for a present `user_id`, its error appears iff that holds; the hook never adds an error on a new document or when only other paths changed |
| EventSchema.Serialise | event/src/schemas/event.schema.ts:4-6 | the serialised form never has `_id`; every other key and value is untouched |
| EventDispatcher.OwnedBy | analytic/src/controllers/event.controller.ts:23 | the search result holds exactly the stored records whose `user_id` is the given id, unchanged |
| EventDispatcher.Merge | analytic/src/controllers/event.controller.ts:52 | every declared path the payload supplies overwrites the stored value; every other path keeps its value; `_id` and `created_at` are kept |
| EventDispatcher.CreateErrorsExact | analytic/src/controllers/event.controller.ts:93-109 | a create is refused by validation iff the body leaves a required field missing; the errors are exactly those fields with their messages |
| EventDispatcher.OwnerChangeRefused | analytic/src/controllers/event.controller.ts:49-76 | an update whose payload gives a stored record a different `user_id` (empty included) always fails validation with "The field value can not be updated" on `user_id` |
| EventDispatcher.OtherFieldsAccepted | analytic/src/controllers/event.controller.ts:49-59 | an update of a stored record that omits `user_id` or repeats its stored value, and empties no required field, passes validation |
| EventDispatcher.SavedRecordIsValid | analytic/src/controllers/event.controller.ts:52-53 | a document that passed validation and has its id and `created_at` is a well-formed stored record (the store invariant) |
| EventDispatcher.EventController.SearchByUserId | analytic/src/controllers/event.controller.ts:16-38 | an empty user id gives 400 with `events == null`; otherwise 200 with exactly that user's records, possibly none; the store is never modified |
| EventDispatcher.EventController.UpdateById | analytic/src/controllers/event.controller.ts:40-87 | empty id: 400, store unchanged. A throwing lookup: 412 with `errors == null`. Unknown id: 404, store unchanged. Validation errors: 412 with those errors, nothing saved. A throwing save: 412 with `errors == null`. Otherwise 200 with the merged record, and only that key of the store changes. `userId` is never read, and the store invariant is kept |
| EventDispatcher.EventController.Create | analytic/src/controllers/event.controller.ts:89-120 | no body: 400. Validation errors: 412 with those errors and `event == null`, store unchanged. A throwing save: 412 with `errors == null`. Otherwise 201 with the new record (its id and `created_at` set) and `errors == null`, stored under the new id and nowhere else |
| EventDispatcher.EventController.DeleteForUser | analytic/src/controllers/event.controller.ts:122-165 | empty `userId` or `id`: 400, no lookup. A throwing lookup or remove: 403. Unknown id: 404. Otherwise 200, and exactly that key is removed. `errors` is always `null`, and the owner is never compared |
| Gateway.SearchRequest | gateway/src/controllers/events.controller.ts:52-57 | the search command carries the caller's id under pattern `event_search_by_user_id` |
| Gateway.SearchResponse | gateway/src/controllers/events.controller.ts:59-65 | never raises, whatever the status; `data.events` is the service's `events`; `errors` is `null`; the message is passed through |
| Gateway.CreateRequest | gateway/src/controllers/events.controller.ts:78-84 | the forwarded body has `user_id` set to the caller's id, replacing any client value; every other key is forwarded unchanged |
| Gateway.CreateResponse | gateway/src/controllers/events.controller.ts:86-103 | raises iff the status is not 201; the error has the same status, `data == null` and the service's `errors`; otherwise `data.event` is the service's event and `errors` is `null` |
| Gateway.DeleteRequest | gateway/src/controllers/events.controller.ts:116-123 | the delete command carries the route id and the caller's id |
| Gateway.DeleteResponse | gateway/src/controllers/events.controller.ts:125-140 | raises iff the status is not 200, with the same status and errors; success has `data == null` and `errors == null` |
| Gateway.UpdateRequest | gateway/src/controllers/events.controller.ts:154-162 | the update command carries the route id, the caller's id and the body unchanged |
| Gateway.UpdateResponse | gateway/src/controllers/events.controller.ts:164-181 | raises iff the status is not 200, with the same status and errors; otherwise `data.event` is the service's event |
| Gateway.Transparent | gateway/src/controllers/events.controller.ts:54-181 | the client gets the service's status for create, update and delete, and, given a service reply, 200 for search whatever that reply's status; every response or error carries the service's message unchanged |
| EndToEnd.Routing | gateway/src/controllers/events.controller.ts:56 | the gateway's create, update and delete patterns have dispatcher handlers; its search pattern has none |
| EndToEnd.CreatedEventOwnedByCaller | gateway/src/controllers/events.controller.ts:80-83 | an event created through the gateway is owned by the caller, whatever `user_id` the client sent; once stored, a dispatcher search for the caller's id finds it; its serialised form keeps the caller as owner and the creation time and has no `_id` |

## Left out

- Message-bus transport and async/await are not modelled (`ClientProxy.send`, `firstValueFrom`, promises). The gateway's service replies are inputs. The dispatcher handlers are methods called directly.
- NestJS routing, guards, permissions and Swagger are not modelled. `Gateway.Transparent` assumes the framework defaults for the status of a returned response: 201 for POST, 200 otherwise.
- The event service's store calls are not part of this model. `findEventById` is a map lookup. `createEvent` and `save` validate with the schema and then write the map. `removeEventById` deletes one key. `getEventsByVisitorId` filters by `user_id`.
- Store exceptions other than validation are parameters: `fault` for update and delete, `writeThrows` for create. Their `e.errors` is taken to be `null`.
- Create takes the new id (`freshId`, not yet in the store) and the clock (`now`, positive) as parameters.
- SearchByUserId: an exception thrown by the search query is not caught by the source (:23), and the model does not raise one.
- UpdateById: a `null` params object throws before the `try` (:47); the model's params are always an object.
- Falsy inputs are modelled as `""`; `null` and `undefined` strings are the same branch. A missing create body is `None`.
- Search results are modelled as a map from id to record. The order of the source's array is not modelled.
- Mongoose type casting and CastErrors are not modelled: a value of the wrong type is kept as given. Numbers are integers.
- Strict mode is modelled as keeping only the seven declared paths. Client-supplied `_id`, `created_at`, `updated_at` and unknown keys are dropped.
- `created_at` is set by the store on create. `updated_at`, the version key and the `id` virtual are not modelled.
- A validation error is modelled as its message only, not as a `ValidatorError` object.
- The gateway's search command has no dispatcher handler (`EndToEnd.Routing`). On the bus, the client's GET therefore ends in the transport's no-handler error, which is not modelled. `Gateway.SearchResponse` and `Gateway.Transparent` describe the gateway given a reply.
- Serialisation of replies onto the bus is not modelled: dispatcher replies carry the stored record. What the client receives is `Serialise` of that record, stated for a created event in `EndToEnd.CreatedEventOwnedByCaller`.
- analytic/src/services/config/mongo-config.service.ts (database connection options) is configuration only and is not part of this model.
- gateway/src/interfaces/analytic/event/dto/delete-event-response.dto.ts only informs the shape of the delete response body.
- Concurrency between requests and clock values are not modelled.
