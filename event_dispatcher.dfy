/** The event command dispatcher: four message handlers over a store of
    event records keyed by id. Each handler checks its input, makes at most a
    lookup and one write, and answers with a fixed envelope. A store call that
    throws is the `fault` parameter; a save that fails validation is decided
    by the event schema. */
module EventDispatcher {
  import opened Protocol
  import opened EventSchema

  // The message patterns the dispatcher listens on.
  const SearchPattern := "event_search_by_visitor_id"
  const UpdatePattern := "event_update_by_id"
  const CreatePattern := "event_create"
  const DeletePattern := "event_delete_by_id"

  predicate Listens(pattern: string)
  {
    pattern in {SearchPattern, UpdatePattern, CreatePattern, DeletePattern}
  }

  /** Which store call, if any, throws an exception other than a validation
      error: the lookup by id, or the write (save or remove). */
  datatype Fault = NoFault | LookupThrows | WriteThrows

  /** The record is owned by `userId`. */
  predicate Owns(doc: Fields, userId: string)
  {
    UserIdPath in doc && doc[UserIdPath] == Str(userId)
  }

  /** What every persisted record satisfies: its `_id` is its key, it has a
      creation timestamp and it passes the required rules. */
  predicate StoredRecord(id: string, doc: Fields)
  {
    IdPath in doc && doc[IdPath] == Str(id) && HasCreatedAt(doc) && RequiredErrors(doc, Paths) == map[]
  }

  /** The records of `store` owned by `userId`, keyed by id. */
  function OwnedBy(store: map<string, Fields>, userId: string): (found: map<string, Fields>)
    ensures forall id :: id in found <==> id in store && Owns(store[id], userId)
    ensures forall id :: id in found ==> found[id] == store[id]
  {
    map id | id in store && Owns(store[id], userId) :: store[id]
  }

  /** `Object.assign(event, params.event)` on a loaded document: every
      declared path the payload supplies overwrites the document's value,
      every other path keeps its value. */
  function Merge(doc: Fields, payload: Fields): (r: Fields)
    ensures forall f :: f in payload && Declared(f) ==> f in r && r[f] == payload[f]
    ensures forall f :: f in doc && !(f in payload && Declared(f)) ==> f in r && r[f] == doc[f]
    ensures forall f :: f in r ==> f in doc || (f in payload && Declared(f))
    ensures IdPath in doc ==> IdPath in r && r[IdPath] == doc[IdPath]
    ensures CreatedAtPath in doc ==> CreatedAtPath in r && r[CreatedAtPath] == doc[CreatedAtPath]
  {
    SchemaNames();
    doc + Strict(payload)
  }

  /** The errors the save of an update reports: the merged document validated
      with the paths the payload changed. */
  function UpdateErrors(stored: Fields, payload: Fields): ErrorMap
  {
    var merged := Merge(stored, payload);
    Validate(merged, ModifiedPaths(stored, merged))
  }

  /** The errors the save of a new document built from `body` reports. */
  function CreateErrors(body: Fields): ErrorMap
  {
    var doc := NewDocument(body);
    Validate(doc, doc.Keys)
  }

  /** The record the store keeps for a created event. */
  function CreatedRecord(body: Fields, id: string, now: int): Fields
  {
    NewDocument(body)[IdPath := Str(id)][CreatedAtPath := Num(now)]
  }

  /** A create is refused by validation exactly when the body leaves a
      required field missing; the reported errors are the required rules'. */
  lemma CreateErrorsExact(body: Fields)
    ensures var errs := CreateErrors(body);
      && (errs == map[] <==> forall f :: RequiredMessage(Paths, f).Some? ==> !Missing(body, f))
      && (forall f :: f in errs <==> RequiredMessage(Paths, f).Some? && Missing(body, f))
      && (forall f :: f in errs ==> errs[f] == RequiredMessage(Paths, f).value)
  {
    var doc := NewDocument(body);
    var errs := CreateErrors(body);
    forall f | RequiredMessage(Paths, f).Some?
      ensures Missing(doc, f) <==> Missing(body, f)
    {
      SchemaRequiredMessages(f);
      SchemaNames();
      assert Declared(f);
    }
    if forall f :: RequiredMessage(Paths, f).Some? ==> !Missing(body, f) {
      assert errs.Keys == {};
    }
  }

  /** An update that changes the owner of a stored record, even to an empty
      value, is always refused with the hook's message on `user_id`. */
  lemma OwnerChangeRefused(id: string, stored: Fields, payload: Fields)
    requires StoredRecord(id, stored)
    requires UserIdPath in payload && (UserIdPath !in stored || payload[UserIdPath] != stored[UserIdPath])
    ensures UserIdPath in UpdateErrors(stored, payload)
    ensures UpdateErrors(stored, payload)[UserIdPath] == ImmutableMessage
  {
    SchemaNames();
    var merged := Merge(stored, payload);
    OwnerImmutability(merged, ModifiedPaths(stored, merged));
  }

  /** An update of a stored record that leaves the owner as it is (absent
      from the payload, or repeated unchanged) and empties no required field
      is accepted by validation. */
  lemma OtherFieldsAccepted(id: string, stored: Fields, payload: Fields)
    requires StoredRecord(id, stored)
    requires UserIdPath in payload ==> UserIdPath in stored && payload[UserIdPath] == stored[UserIdPath]
    requires forall f :: f in payload && RequiredMessage(Paths, f).Some? ==> !Missing(payload, f)
    ensures UpdateErrors(stored, payload) == map[]
  {
    SchemaNames();
    var merged := Merge(stored, payload);
    var errs := UpdateErrors(stored, payload);
    assert UserIdPath !in ModifiedPaths(stored, merged);
    RequiredErrorsAll(stored, Paths);
    forall f | RequiredMessage(Paths, f).Some?
      ensures !Missing(merged, f)
    {
      assert !Missing(stored, f);
    }
    assert errs.Keys == {};
  }

  class EventController {
    var store: map<string, Fields>

    ghost predicate Valid()
      reads this
    {
      forall id :: id in store ==> StoredRecord(id, store[id])
    }

    constructor ()
      ensures Valid() && store == map[]
    {
      store := map[];
    }

    /** `event_search_by_visitor_id`: the records of a user. */
    method SearchByUserId(userId: string) returns (r: SearchReply)
      ensures userId == "" ==> r == SearchReply(BAD_REQUEST, "event_search_by_visitor_id_bad_request", None)
      ensures userId != "" ==> r.status == OK && r.message == "event_search_by_visitor_id_success" && r.events.Some?
      ensures userId != "" ==> forall id :: id in r.events.value <==> id in store && Owns(store[id], userId)
      ensures userId != "" ==> forall id :: id in r.events.value ==> r.events.value[id] == store[id]
    {
      var result: SearchReply;
      if userId != "" {
        var events := OwnedBy(store, userId);
        result := SearchReply(OK, "event_search_by_visitor_id_success", Some(events));
      } else {
        result := SearchReply(BAD_REQUEST, "event_search_by_visitor_id_bad_request", None);
      }
      r := result;
    }

    /** `event_update_by_id`: merge the payload into the stored record and
      save it. The caller's `userId` is never consulted. */
    method UpdateById(params: UpdateParams, fault: Fault) returns (r: EventReply)
      requires Valid()
      modifies this
      ensures Valid()
      ensures params.id == "" ==>
        r == EventReply(BAD_REQUEST, "event_update_by_id_bad_request", None, None) && store == old(store)
      ensures params.id != "" && fault == LookupThrows ==>
        r == EventReply(PRECONDITION_FAILED, "event_update_by_id_precondition_failed", None, None) && store == old(store)
      ensures params.id != "" && fault != LookupThrows && params.id !in old(store) ==>
        r == EventReply(NOT_FOUND, "event_update_by_id_not_found", None, None) && store == old(store)
      ensures params.id != "" && fault != LookupThrows && params.id in old(store) ==>
        var errs := UpdateErrors(old(store)[params.id], params.event);
        var merged := Merge(old(store)[params.id], params.event);
        if errs != map[] then
          r == EventReply(PRECONDITION_FAILED, "event_update_by_id_precondition_failed", None, Some(errs)) && store == old(store)
        else if fault == WriteThrows then
          r == EventReply(PRECONDITION_FAILED, "event_update_by_id_precondition_failed", None, None) && store == old(store)
        else
          r == EventReply(OK, "event_update_by_id_success", Some(merged), None) && store == old(store)[params.id := merged]
    {
      var result: EventReply;
      if params.id != "" {
        if fault == LookupThrows {
          result := EventReply(PRECONDITION_FAILED, "event_update_by_id_precondition_failed", None, None);
        } else if params.id in store {
          var event := store[params.id];
          var updated := Merge(event, params.event);
          var errs := Validate(updated, ModifiedPaths(event, updated));
          if errs != map[] {
            result := EventReply(PRECONDITION_FAILED, "event_update_by_id_precondition_failed", None, Some(errs));
          } else if fault == WriteThrows {
            result := EventReply(PRECONDITION_FAILED, "event_update_by_id_precondition_failed", None, None);
          } else {
            SavedRecordIsValid(params.id, updated, updated, ModifiedPaths(event, updated));
            store := store[params.id := updated];
            result := EventReply(OK, "event_update_by_id_success", Some(updated), None);
          }
        } else {
          result := EventReply(NOT_FOUND, "event_update_by_id_not_found", None, None);
        }
      } else {
        result := EventReply(BAD_REQUEST, "event_update_by_id_bad_request", None, None);
      }
      r := result;
    }

    /** `event_create`: build a new document from the body and save it under
      the identifier the store assigns. */
    method Create(body: Option<Fields>, freshId: string, now: int, writeThrows: bool) returns (r: EventReply)
      requires Valid()
      requires freshId != "" && freshId !in store && now > 0
      modifies this
      ensures Valid()
      ensures body.None? ==>
        r == EventReply(BAD_REQUEST, "event_create_bad_request", None, None) && store == old(store)
      ensures body.Some? && CreateErrors(body.value) != map[] ==>
        r == EventReply(PRECONDITION_FAILED, "event_create_precondition_failed", None, Some(CreateErrors(body.value)))
        && store == old(store)
      ensures body.Some? && CreateErrors(body.value) == map[] && writeThrows ==>
        r == EventReply(PRECONDITION_FAILED, "event_create_precondition_failed", None, None) && store == old(store)
      ensures body.Some? && CreateErrors(body.value) == map[] && !writeThrows ==>
        var record := CreatedRecord(body.value, freshId, now);
        r == EventReply(CREATED, "event_create_success", Some(record), None) && store == old(store)[freshId := record]
    {
      var result: EventReply;
      if body.Some? {
        var doc := NewDocument(body.value);
        var errs := Validate(doc, doc.Keys);
        if errs != map[] {
          result := EventReply(PRECONDITION_FAILED, "event_create_precondition_failed", None, Some(errs));
        } else if writeThrows {
          result := EventReply(PRECONDITION_FAILED, "event_create_precondition_failed", None, None);
        } else {
          var record := doc[IdPath := Str(freshId)][CreatedAtPath := Num(now)];
          SavedRecordIsValid(freshId, record, doc, doc.Keys);
          store := store[freshId := record];
          result := EventReply(CREATED, "event_create_success", Some(record), None);
        }
      } else {
        result := EventReply(BAD_REQUEST, "event_create_bad_request", None, None);
      }
      r := result;
    }

    /** `event_delete_by_id`: remove a record by id. The caller's `userId`
      must be non-empty but is never compared with the record's owner. */
    method DeleteForUser(params: DeleteParams, fault: Fault) returns (r: DeleteReply)
      requires Valid()
      modifies this
      ensures Valid()
      ensures params.userId == "" || params.id == "" ==>
        r == DeleteReply(BAD_REQUEST, "event_delete_by_id_bad_request", None) && store == old(store)
      ensures params.userId != "" && params.id != "" && fault == LookupThrows ==>
        r == DeleteReply(FORBIDDEN, "event_delete_by_id_forbidden", None) && store == old(store)
      ensures params.userId != "" && params.id != "" && fault != LookupThrows && params.id !in old(store) ==>
        r == DeleteReply(NOT_FOUND, "event_delete_by_id_not_found", None) && store == old(store)
      ensures params.userId != "" && params.id != "" && fault == WriteThrows && params.id in old(store) ==>
        r == DeleteReply(FORBIDDEN, "event_delete_by_id_forbidden", None) && store == old(store)
      ensures params.userId != "" && params.id != "" && fault == NoFault && params.id in old(store) ==>
        r == DeleteReply(OK, "event_delete_by_id_success", None) && store == old(store) - {params.id}
    {
      var result: DeleteReply;
      if params.userId != "" && params.id != "" {
        if fault == LookupThrows {
          result := DeleteReply(FORBIDDEN, "event_delete_by_id_forbidden", None);
        } else if params.id in store {
          if fault == WriteThrows {
            result := DeleteReply(FORBIDDEN, "event_delete_by_id_forbidden", None);
          } else {
            store := store - {params.id};
            result := DeleteReply(OK, "event_delete_by_id_success", None);
          }
        } else {
          result := DeleteReply(NOT_FOUND, "event_delete_by_id_not_found", None);
        }
      } else {
        result := DeleteReply(BAD_REQUEST, "event_delete_by_id_bad_request", None);
      }
      r := result;
    }
  }

  /** A document that passes validation and carries its id and a creation
      timestamp is fit to be stored. */
  lemma SavedRecordIsValid(id: string, saved: Fields, checked: Fields, modified: set<string>)
    requires Validate(checked, modified) == map[]
    requires IdPath in saved && saved[IdPath] == Str(id) && HasCreatedAt(saved)
    requires forall f :: RequiredMessage(Paths, f).Some? ==> (Missing(saved, f) <==> Missing(checked, f))
    ensures StoredRecord(id, saved)
  {
    RequiredErrorsAll(saved, Paths);
    assert RequiredErrors(saved, Paths).Keys == {};
  }
}
