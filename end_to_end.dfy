/** The gateway and the dispatcher together: which gateway commands reach a
    dispatcher handler, and one request sequence followed from the HTTP side
    through the store and back. */
module EndToEnd {
  import opened Protocol
  import opened EventSchema
  import D = EventDispatcher
  import G = Gateway

  /** The create, update and delete commands the gateway sends are patterns
      the dispatcher listens on; its search command is not: the gateway sends
      `event_search_by_user_id`, the dispatcher listens on
      `event_search_by_visitor_id`. */
  lemma Routing()
    ensures D.Listens(G.CreatePattern) && D.Listens(G.UpdatePattern) && D.Listens(G.DeletePattern)
    ensures !D.Listens(G.SearchPattern)
  {
  }

  /** An event created through the gateway belongs to the caller, whatever
      `user_id` the client put in the body; once stored, a dispatcher search
      for the caller's id finds it; and the serialised form the client
      receives has the caller as owner, the creation time, and no `_id`. */
  lemma CreatedEventOwnedByCaller(caller: G.Caller, body: Fields, id: string, now: int, store: map<string, Fields>)
    ensures var record := D.CreatedRecord(G.CreateRequest(caller, body).payload.body, id, now);
      && UserIdPath in record && record[UserIdPath] == Str(caller.id)
      && id in D.OwnedBy(store[id := record], caller.id)
      && var wire := Serialise(record);
         IdPath !in wire && UserIdPath in wire && wire[UserIdPath] == Str(caller.id)
         && CreatedAtPath in wire && wire[CreatedAtPath] == Num(now)
  {
    SchemaNames();
  }

  /** The body a client sends to create the stand-up event. */
  function StandupBody(): Fields
  {
    map[NamePath := Str("Standup"), StartTimePath := Num(100), DurationPath := Num(15), IsSolvedPath := Bool(false)]
  }

  lemma StandupIsValid(body: Fields)
    requires body == G.CreateRequest(G.Caller("u1"), StandupBody()).payload.body
    ensures D.CreateErrors(body) == map[]
    ensures var record := D.CreatedRecord(body, "e1", 1000);
      UserIdPath in record && record[UserIdPath] == Str("u1") && record[NotificationIdPath] == Null
  {
    assert body == StandupBody()[UserIdPath := Str("u1")];
    StandupComplete(body);
    D.CreateErrorsExact(body);
    SchemaNames();
  }

  lemma StandupComplete(body: Fields)
    requires body == StandupBody()[UserIdPath := Str("u1")]
    ensures forall f :: RequiredMessage(Paths, f).Some? ==> !Missing(body, f)
  {
    forall f | RequiredMessage(Paths, f).Some? ensures !Missing(body, f) {
      SchemaRequiredMessages(f);
    }
  }

  /** A user creates an event, fails to hand it to another owner, marks it
      solved; another user then deletes it (the owner is never compared), and
      a later update finds nothing. */
  method StandupScenario()
  {
    var service := new D.EventController();
    var u1 := G.Caller("u1");
    var create := G.CreateRequest(u1, StandupBody());
    StandupIsValid(create.payload.body);
    var created := service.Create(Some(create.payload.body), "e1", 1000, false);
    assert created.status == CREATED;
    assert G.CreateResponse(created).Success?;
    var record := created.event.value;
    assert record[UserIdPath] == Str("u1") && record[NotificationIdPath] == Null;
    UpdateThenDelete(service, record);
  }

  method UpdateThenDelete(service: D.EventController, record: Fields)
    requires service.Valid() && service.store == map["e1" := record]
    requires UserIdPath in record && record[UserIdPath] == Str("u1")
    modifies service
  {
    var u1, u2 := G.Caller("u1"), G.Caller("u2");
    assert "e1" in service.store;
    var changeOwner := G.UpdateRequest(u1, "e1", map[UserIdPath := Str("u2")]);
    D.OwnerChangeRefused("e1", record, changeOwner.payload.update.event);
    var refused := service.UpdateById(changeOwner.payload.update, D.NoFault);
    assert refused.status == PRECONDITION_FAILED;
    assert refused.errors.value[UserIdPath] == ImmutableMessage;
    assert G.UpdateResponse(refused).Failure? && G.UpdateResponse(refused).error.status == PRECONDITION_FAILED;

    var solve := G.UpdateRequest(u1, "e1", map[IsSolvedPath := Bool(true)]);
    SchemaRequiredMessages(IsSolvedPath);
    D.OtherFieldsAccepted("e1", record, solve.payload.update.event);
    var solved := service.UpdateById(solve.payload.update, D.NoFault);
    assert solved.status == OK;
    SchemaNames();
    assert solved.event.value[IsSolvedPath] == Bool(true);
    assert solved.event.value[UserIdPath] == Str("u1");

    var remove := G.DeleteRequest(u2, "e1");
    var removed := service.DeleteForUser(remove.payload.delete, D.NoFault);
    assert removed.status == OK;
    assert G.DeleteResponse(removed) == Success(G.ResponseBody("event_delete_by_id_success", None, None));

    var again := service.UpdateById(solve.payload.update, D.NoFault);
    assert again.status == NOT_FOUND;
  }
}
