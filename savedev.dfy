/**
 * The decision logic of NewDeveloperHandler
 * (internal/http_server/handlers/savedev.go): method check, body decoding,
 * the name check, construction of the developer and the mapping of the
 * saver's error to a status. The DeveloperSaver interface is a parameter;
 * the reply lists the developers handed to it.
 */
module NewDeveloperHandler {

  import opened Wrappers
  import opened Errors
  import opened Entity
  import opened Http
  import AsWritten

  datatype DeveloperRequest = DeveloperRequest(name: string, lastName: string, deletedAt: Option<Time>)

  datatype DeveloperResponse = DeveloperResponse(status: string, error: string, developerId: Uuid)

  /** The status code written, the JSON body and the developers passed to SaveDeveloper. */
  datatype Reply = Reply(code: int, body: DeveloperResponse, saved: seq<Developer>)

  function ErrorReply(code: int, message: string, saved: seq<Developer>): Reply {
    Reply(code, DeveloperResponse("error", message, NilUuid), saved)
  }

  /** `entity.Developer{Name, LastName, DeletedAt}`: every other field is Go's zero value. */
  function FromRequest(req: DeveloperRequest): Developer {
    Developer(NilUuid, req.name, req.lastName, ZeroTime, ZeroTime,
              match req.deletedAt case None => None case Some(t) => Some(At(t)))
  }

  function ServeNewDeveloper(verb: string, body: Option<DeveloperRequest>, save: Developer -> (Uuid, Option<Error>))
    : (r: Reply)
    ensures r.code in {StatusCreated, StatusBadRequest, StatusMethodNotAllowed, StatusInternalServerError}
    ensures r.code == StatusCreated <==> r.body.status == "ok"
    ensures |r.saved| <= 1
  {
    if verb != MethodPost then ErrorReply(StatusMethodNotAllowed, "method not allowed", [])
    else if body.None? then ErrorReply(StatusBadRequest, "failed to decode request", [])
    else if body.value.name == "" || body.value.lastName == "" then
      ErrorReply(StatusBadRequest, "firstname and last_name are required", [])
    else
      var developer := FromRequest(body.value);
      var result := save(developer);
      if result.1.Some? then
        if Is(result.1.value, Sentinel(ErrInvalidDeveloperData)) then
          ErrorReply(StatusBadRequest, "invalid developer data", [developer])
        else
          ErrorReply(StatusInternalServerError, "failed to save developer", [developer])
      else
        Reply(StatusCreated, DeveloperResponse("ok", "", result.0), [developer])
  }

  /** Any method but POST: 405, and the saver is not called. */
  lemma NonPostRejected(verb: string, body: Option<DeveloperRequest>, save: Developer -> (Uuid, Option<Error>))
    requires verb != MethodPost
    ensures ServeNewDeveloper(verb, body, save) == ErrorReply(StatusMethodNotAllowed, "method not allowed", [])
  {
  }

  /** An empty name or last name: 400, and the saver is not called. */
  lemma EmptyNameRejected(req: DeveloperRequest, save: Developer -> (Uuid, Option<Error>))
    requires req.name == "" || req.lastName == ""
    ensures ServeNewDeveloper(MethodPost, Some(req), save).code == StatusBadRequest
    ensures ServeNewDeveloper(MethodPost, Some(req), save).saved == []
  {
  }

  /**
   * The saver is called at most once, only for a decoded request with both
   * names, and receives exactly the request's Name, LastName and DeletedAt.
   */
  lemma SaverGetsRequestFields(verb: string, body: Option<DeveloperRequest>, save: Developer -> (Uuid, Option<Error>))
    ensures var r := ServeNewDeveloper(verb, body, save);
      r.saved != [] <==> verb == MethodPost && body.Some? && body.value.name != "" && body.value.lastName != ""
    ensures var r := ServeNewDeveloper(verb, body, save);
      r.saved != [] ==>
        && r.saved == [FromRequest(body.value)]
        && r.saved[0].name == body.value.name && r.saved[0].lastName == body.value.lastName
        && (r.saved[0].deletedAt.Some? <==> body.value.deletedAt.Some?)
        && (body.value.deletedAt.Some? ==> r.saved[0].deletedAt == Some(At(body.value.deletedAt.value)))
  {
  }

  /**
   * The saver's answer decides the reply: an error wrapping
   * ErrInvalidDeveloperData gives 400, any other error 500, and success 201
   * with status "ok" and the returned id.
   */
  lemma SaverOutcomeMapped(req: DeveloperRequest, save: Developer -> (Uuid, Option<Error>))
    requires req.name != "" && req.lastName != ""
    ensures var r := ServeNewDeveloper(MethodPost, Some(req), save);
      var result := save(FromRequest(req));
      && (result.1.Some? && Is(result.1.value, Sentinel(ErrInvalidDeveloperData)) ==> r.code == StatusBadRequest)
      && (result.1.Some? && !Is(result.1.value, Sentinel(ErrInvalidDeveloperData)) ==> r.code == StatusInternalServerError)
      && (result.1.None? ==> r.code == StatusCreated && r.body == DeveloperResponse("ok", "", result.0))
  {
  }

  /**
   * Served by SaveDeveloper as it is written, every well-formed request gets
   * 500 "failed to save developer": the storage layer never stores one.
   */
  lemma ServedByStoreAsWritten(req: DeveloperRequest, table: seq<Developer>, uid: Uuid, now: Time, fault: bool)
    requires req.name != "" && req.lastName != ""
    ensures var save := (d: Developer) =>
        (AsWritten.SaveDeveloperAsWritten(table, d, uid, now, fault).0, AsWritten.SaveDeveloperAsWritten(table, d, uid, now, fault).1);
      ServeNewDeveloper(MethodPost, Some(req), save)
        == ErrorReply(StatusInternalServerError, "failed to save developer", [FromRequest(req)])
  {
    AsWritten.SaveDeveloperAsWrittenNeverStores(table, FromRequest(req), uid, now, fault);
    IsRoot(AsWritten.SaveDeveloperAsWritten(table, FromRequest(req), uid, now, fault).1.value, Sentinel(ErrInvalidDeveloperData));
  }
}
