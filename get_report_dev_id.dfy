/**
 * The decision logic of NewGetDeveloperReportsHandler
 * (internal/http_server/handlers/report/get_report_dev_id.go): method and
 * path checks, the developer existence check, the report scan and the
 * count. uuid.Parse and the DevReportsGetter interface are parameters; the
 * reply records the store calls made.
 *
 * The interface names its lookup GetDeveloperById, while the store defines
 * GetDeveloperByID, so the store does not satisfy it as written; the model
 * connects the two by meaning.
 */
module DeveloperReportsHandler {

  import opened Wrappers
  import opened Errors
  import opened Entity
  import opened Http
  import Sql
  import Postgres

  datatype DevReportResponse = DevReportResponse(status: string, error: string, reports: seq<Report>, count: int)

  /** A call on the DevReportsGetter interface. */
  datatype StoreCall = GetDeveloperCall(uid: Uuid) | GetReportsCall(uid: Uuid)

  /** The status code written, the JSON body and the store calls made, in order. */
  datatype Reply = Reply(code: int, body: DevReportResponse, calls: seq<StoreCall>)

  function ErrorReply(code: int, message: string, calls: seq<StoreCall>): Reply {
    Reply(code, DevReportResponse("error", message, [], 0), calls)
  }

  /** The path has at least 4 segments and segment 2 parses as a UUID. */
  predicate PathNamesDeveloper(path: seq<string>, parseUuid: string -> Option<Uuid>) {
    |path| >= 4 && parseUuid(path[2]).Some?
  }

  function ServeDeveloperReports(
    verb: string, path: seq<string>, parseUuid: string -> Option<Uuid>,
    getDeveloper: Uuid -> (Developer, Option<Error>),
    getReports: Uuid -> (seq<Report>, Option<Error>)): (r: Reply)
    ensures r.code in {StatusOK, StatusBadRequest, StatusNotFound, StatusMethodNotAllowed, StatusInternalServerError}
    ensures r.code == StatusOK ==> r.body.status == "success" && r.body.count == |r.body.reports|
    ensures |r.calls| <= 2
  {
    if verb != MethodGet then ErrorReply(StatusMethodNotAllowed, "method not allowed", [])
    else if |path| < 4 then ErrorReply(StatusBadRequest, "invalid URL path", [])
    else if parseUuid(path[2]).None? then ErrorReply(StatusBadRequest, "invalid URL path", [])
    else
      var uid := parseUuid(path[2]).value;
      var developer := getDeveloper(uid);
      if developer.1.Some? then
        if Is(developer.1.value, Sentinel(ErrDeveloperNotFound)) then
          ErrorReply(StatusNotFound, "developer not found", [GetDeveloperCall(uid)])
        else
          ErrorReply(StatusInternalServerError, "failed to get developer", [GetDeveloperCall(uid)])
      else
        var reports := getReports(uid);
        var calls := [GetDeveloperCall(uid), GetReportsCall(uid)];
        if reports.1.Some? then ErrorReply(StatusInternalServerError, "failed to get reports", calls)
        else Reply(StatusOK, DevReportResponse("success", "", reports.0, |reports.0|), calls)
  }

  /** Any method but GET: 405; a short path or a segment 2 that is not a UUID: 400. No store call either way. */
  lemma MalformedRequestRejected(
    verb: string, path: seq<string>, parseUuid: string -> Option<Uuid>,
    getDeveloper: Uuid -> (Developer, Option<Error>), getReports: Uuid -> (seq<Report>, Option<Error>))
    requires verb != MethodGet || !PathNamesDeveloper(path, parseUuid)
    ensures var r := ServeDeveloperReports(verb, path, parseUuid, getDeveloper, getReports);
      && r.code == (if verb != MethodGet then StatusMethodNotAllowed else StatusBadRequest)
      && r.calls == []
  {
  }

  /**
   * A failed developer lookup: 404 when the error wraps
   * ErrDeveloperNotFound, 500 otherwise; the reports are not fetched.
   */
  lemma LookupFailureMapped(
    path: seq<string>, parseUuid: string -> Option<Uuid>,
    getDeveloper: Uuid -> (Developer, Option<Error>), getReports: Uuid -> (seq<Report>, Option<Error>))
    requires PathNamesDeveloper(path, parseUuid)
    requires getDeveloper(parseUuid(path[2]).value).1.Some?
    ensures var uid := parseUuid(path[2]).value;
      var r := ServeDeveloperReports(MethodGet, path, parseUuid, getDeveloper, getReports);
      && r.code == (if Is(getDeveloper(uid).1.value, Sentinel(ErrDeveloperNotFound))
                    then StatusNotFound else StatusInternalServerError)
      && r.calls == [GetDeveloperCall(uid)]
  {
  }

  /**
   * GetReportsByDeveloperID is called only after a successful lookup of the
   * same developer; a reports error gives 500, success gives 200 with the
   * reports unchanged and Count equal to their number.
   */
  lemma ReportsFetchedAfterLookup(
    verb: string, path: seq<string>, parseUuid: string -> Option<Uuid>,
    getDeveloper: Uuid -> (Developer, Option<Error>), getReports: Uuid -> (seq<Report>, Option<Error>), uid: Uuid)
    requires GetReportsCall(uid) in ServeDeveloperReports(verb, path, parseUuid, getDeveloper, getReports).calls
    ensures verb == MethodGet && PathNamesDeveloper(path, parseUuid) && uid == parseUuid(path[2]).value
    ensures getDeveloper(uid).1.None?
    ensures var r := ServeDeveloperReports(verb, path, parseUuid, getDeveloper, getReports);
      && r.calls == [GetDeveloperCall(uid), GetReportsCall(uid)]
      && (getReports(uid).1.Some? ==> r.code == StatusInternalServerError)
      && (getReports(uid).1.None? ==>
            r.code == StatusOK && r.body.reports == getReports(uid).0 && r.body.count == |getReports(uid).0|)
  {
  }

  /**
   * Served by the store of module Postgres as written, a developer with no
   * row gets 500, never 404: GetDeveloperByID reports a missing row as a
   * wrapped sql.ErrNoRows, not ErrDeveloperNotFound.
   */
  lemma AbsentDeveloperYields500(
    path: seq<string>, parseUuid: string -> Option<Uuid>, developers: seq<Developer>, reports: seq<Report>)
    requires PathNamesDeveloper(path, parseUuid)
    requires !Postgres.HasDeveloper(developers, parseUuid(path[2]).value)
    ensures var r := ServeDeveloperReports(MethodGet, path, parseUuid,
        (u: Uuid) => Postgres.DeveloperById(developers, u), (u: Uuid) => (Postgres.ReportsOf(reports, u), None));
      r.code == StatusInternalServerError && r.body.error == "failed to get developer"
  {
  }

  /**
   * Served by the store of module Postgres, a developer with a row (deleted
   * or not) gets 200 with exactly their reports, newest first, and their count.
   */
  lemma PresentDeveloperListsReports(
    path: seq<string>, parseUuid: string -> Option<Uuid>, developers: seq<Developer>, reports: seq<Report>)
    requires PathNamesDeveloper(path, parseUuid)
    requires Postgres.HasDeveloper(developers, parseUuid(path[2]).value)
    ensures var uid := parseUuid(path[2]).value;
      var r := ServeDeveloperReports(MethodGet, path, parseUuid,
        (u: Uuid) => Postgres.DeveloperById(developers, u), (u: Uuid) => (Postgres.ReportsOf(reports, u), None));
      && r.code == StatusOK
      && r.body.reports == Postgres.ReportsOf(reports, uid)
      && r.body.count == |Postgres.ReportsOf(reports, uid)|
      && Sql.SortedDesc(r.body.reports, ReportCreatedAt)
      && (forall x :: x in r.body.reports <==>
            exists i | 0 <= i < |reports| :: reports[i].developerId == uid && x == Postgres.ReportColumns(reports[i]))
  {
    Postgres.ReportsOfExact(reports, parseUuid(path[2]).value);
  }
}
