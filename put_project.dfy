/**
 * The decision logic of NewUpdateProjectHandler
 * (internal/http_server/handlers/project/put_project.go): a request is
 * checked field by field, the project is looked up, the updated record is
 * composed and stored. The store's two interface methods are parameters;
 * the reply records which of them were called, with which arguments.
 *
 * The URL path arrives already split at "/" and the body already decoded
 * (None when the JSON did not decode). The response timestamp is `now`.
 */
module UpdateProjectHandler {

  import opened Wrappers
  import opened Errors
  import opened Entity
  import opened Text
  import opened Http
  import Postgres

  datatype ProjectUpdateRequest = ProjectUpdateRequest(name: string, description: string)

  datatype ProjectResponse = ProjectResponse(status: string, error: string, project: Project, timestamp: Time)

  /** A call on the ProjectUpdater interface. */
  datatype StoreCall = GetProjectByIDCall(id: nat) | UpdateProjectCall(id: nat, project: Project)

  /** The status code written, the JSON body and the store calls made, in order. */
  datatype Reply = Reply(code: int, body: ProjectResponse, calls: seq<StoreCall>)

  function ErrorReply(code: int, message: string, calls: seq<StoreCall>): Reply {
    Reply(code, ProjectResponse("error", message, ZeroProject, ZeroTime), calls)
  }

  /** The request passes every check made before the store is consulted. */
  predicate WellFormed(verb: string, path: seq<string>, body: Option<ProjectUpdateRequest>) {
    && verb == MethodPut
    && |path| >= 3 && ParseUint32(path[2]).Some?
    && body.Some?
    && 2 <= ByteLen(body.value.name) <= 100
    && ByteLen(body.value.description) <= 500
  }

  /** The record handed to UpdateProject: path id, request fields, and the stored creation time. */
  function Composed(id: nat, req: ProjectUpdateRequest, existing: Project): Project {
    Project(id, req.name, req.description, existing.createdAt, ZeroTime, None)
  }

  function ServeUpdateProject(
    verb: string, path: seq<string>, body: Option<ProjectUpdateRequest>,
    getProject: nat -> (Project, Option<Error>),
    updateProject: (nat, Project) -> Option<Error>,
    now: Time): (r: Reply)
    ensures r.code in {StatusOK, StatusBadRequest, StatusNotFound, StatusMethodNotAllowed, StatusInternalServerError}
    ensures r.code == StatusOK <==> r.body.status == "success"
    ensures |r.calls| <= 2
  {
    if verb != MethodPut then ErrorReply(StatusMethodNotAllowed, "method not allowed", [])
    else if |path| < 3 then ErrorReply(StatusBadRequest, "invalid URL format", [])
    else if ParseUint32(path[2]).None? then ErrorReply(StatusBadRequest, "invalid project ID format", [])
    else if body.None? then ErrorReply(StatusBadRequest, "invalid request body", [])
    else if ByteLen(body.value.name) < 2 || ByteLen(body.value.name) > 100 then
      ErrorReply(StatusBadRequest, "name must be between 2 and 100 characters", [])
    else if ByteLen(body.value.description) > 500 then
      ErrorReply(StatusBadRequest, "description must not exceed 500 characters", [])
    else
      var id := ParseUint32(path[2]).value;
      var lookup := getProject(id);
      if lookup.1.Some? then
        if Is(lookup.1.value, Sentinel(ErrProjectNotFound)) then
          ErrorReply(StatusNotFound, "project not found", [GetProjectByIDCall(id)])
        else
          ErrorReply(StatusInternalServerError, "failed to get project", [GetProjectByIDCall(id)])
      else
        var updated := Composed(id, body.value, lookup.0);
        var calls := [GetProjectByIDCall(id), UpdateProjectCall(id, updated)];
        if updateProject(id, updated).Some? then
          ErrorReply(StatusInternalServerError, "failed to update project", calls)
        else
          Reply(StatusOK, ProjectResponse("success", "", updated, now), calls)
  }

  /** The store is consulted exactly when the request passes every check. */
  lemma StoreCalledOnlyWhenWellFormed(
    verb: string, path: seq<string>, body: Option<ProjectUpdateRequest>,
    getProject: nat -> (Project, Option<Error>), updateProject: (nat, Project) -> Option<Error>, now: Time)
    ensures ServeUpdateProject(verb, path, body, getProject, updateProject, now).calls != []
      <==> WellFormed(verb, path, body)
  {
  }

  /** Any method but PUT: 405, and no store call. */
  lemma NonPutRejected(
    verb: string, path: seq<string>, body: Option<ProjectUpdateRequest>,
    getProject: nat -> (Project, Option<Error>), updateProject: (nat, Project) -> Option<Error>, now: Time)
    requires verb != MethodPut
    ensures ServeUpdateProject(verb, path, body, getProject, updateProject, now)
      == ErrorReply(StatusMethodNotAllowed, "method not allowed", [])
  {
  }

  /** A path of fewer than 3 segments, or a segment 2 that is not a base-10 uint32: 400, no store call. */
  lemma BadProjectIdRejected(
    path: seq<string>, body: Option<ProjectUpdateRequest>,
    getProject: nat -> (Project, Option<Error>), updateProject: (nat, Project) -> Option<Error>, now: Time)
    requires |path| < 3 || ParseUint32(path[2]).None?
    ensures ServeUpdateProject(MethodPut, path, body, getProject, updateProject, now).code == StatusBadRequest
    ensures ServeUpdateProject(MethodPut, path, body, getProject, updateProject, now).calls == []
  {
  }

  /**
   * A name shorter than 2 or longer than 100 bytes, or a description longer
   * than 500 bytes: 400, no store call.
   */
  lemma FieldBoundsRejected(
    path: seq<string>, req: ProjectUpdateRequest,
    getProject: nat -> (Project, Option<Error>), updateProject: (nat, Project) -> Option<Error>, now: Time)
    requires |path| >= 3 && ParseUint32(path[2]).Some?
    requires ByteLen(req.name) < 2 || ByteLen(req.name) > 100 || ByteLen(req.description) > 500
    ensures ServeUpdateProject(MethodPut, path, Some(req), getProject, updateProject, now).code == StatusBadRequest
    ensures ServeUpdateProject(MethodPut, path, Some(req), getProject, updateProject, now).calls == []
  {
  }

  /**
   * A failed lookup: 404 when the error wraps ErrProjectNotFound, 500
   * otherwise; UpdateProject is not called.
   */
  lemma LookupFailureMapped(
    verb: string, path: seq<string>, body: Option<ProjectUpdateRequest>,
    getProject: nat -> (Project, Option<Error>), updateProject: (nat, Project) -> Option<Error>, now: Time)
    requires WellFormed(verb, path, body)
    requires getProject(ParseUint32(path[2]).value).1.Some?
    ensures var r := ServeUpdateProject(verb, path, body, getProject, updateProject, now);
      && r.code == (if Is(getProject(ParseUint32(path[2]).value).1.value, Sentinel(ErrProjectNotFound))
                    then StatusNotFound else StatusInternalServerError)
      && r.calls == [GetProjectByIDCall(ParseUint32(path[2]).value)]
  {
  }

  /**
   * UpdateProject is called only after a successful lookup of the same id,
   * and with the composed record: the path id, the request's name and
   * description, and the existing project's CreatedAt.
   */
  lemma UpdateGetsComposedRecord(
    verb: string, path: seq<string>, body: Option<ProjectUpdateRequest>,
    getProject: nat -> (Project, Option<Error>), updateProject: (nat, Project) -> Option<Error>, now: Time,
    id: nat, p: Project)
    requires UpdateProjectCall(id, p) in ServeUpdateProject(verb, path, body, getProject, updateProject, now).calls
    ensures WellFormed(verb, path, body)
    ensures id == ParseUint32(path[2]).value
    ensures getProject(id).1.None?
    ensures p == Project(id, body.value.name, body.value.description, getProject(id).0.createdAt, ZeroTime, None)
    ensures ServeUpdateProject(verb, path, body, getProject, updateProject, now).calls
      == [GetProjectByIDCall(id), UpdateProjectCall(id, p)]
  {
  }

  /** After a successful lookup: 500 if the update fails, else 200, "success" and the composed project. */
  lemma UpdateOutcomeMapped(
    verb: string, path: seq<string>, body: Option<ProjectUpdateRequest>,
    getProject: nat -> (Project, Option<Error>), updateProject: (nat, Project) -> Option<Error>, now: Time)
    requires WellFormed(verb, path, body)
    requires getProject(ParseUint32(path[2]).value).1.None?
    ensures var id := ParseUint32(path[2]).value;
      var updated := Composed(id, body.value, getProject(id).0);
      var r := ServeUpdateProject(verb, path, body, getProject, updateProject, now);
      if updateProject(id, updated).Some?
      then r.code == StatusInternalServerError && r.body.status == "error"
      else r.code == StatusOK && r.body == ProjectResponse("success", "", updated, now)
  {
  }

  /**
   * Served by the store of module Postgres (and an update that succeeds), a
   * well-formed request gets 404 exactly when no project has the path id;
   * otherwise 200 with the stored creation time kept.
   */
  lemma ServedByStore(verb: string, path: seq<string>, body: Option<ProjectUpdateRequest>, t: seq<Project>, now: Time)
    requires WellFormed(verb, path, body)
    ensures var id := ParseUint32(path[2]).value;
      var r := ServeUpdateProject(verb, path, body, (i: nat) => Postgres.ProjectById(t, i), (i, p) => None, now);
      && (r.code == StatusNotFound <==> forall k | 0 <= k < |t| :: t[k].id != id)
      && (r.code == StatusOK <==> exists k | 0 <= k < |t| :: t[k].id == id)
      && (r.code == StatusOK ==> exists k | 0 <= k < |t| :: t[k].id == id && r.body.project.createdAt == t[k].createdAt)
  {
  }
}
