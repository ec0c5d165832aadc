/**
 * The PostgreSQL repository (internal/storage/postgres/postgres.go) as an
 * in-memory table store. Each SQL statement becomes an operation on the
 * tables: INSERT appends a row, UPDATE … WHERE id rewrites named columns
 * of the matching rows, SELECT … WHERE filters and ORDER BY sorts.
 *
 * The database's clock (`NOW()`, or the caller's `time.Now()`), the values of
 * uuid.New and the failure of a round trip to the server are parameters:
 * `now`, `uid` and `fault`.
 */
module Postgres {

  import opened Wrappers
  import opened Errors
  import opened Entity
  import opened Sql

  const OpSaveTask := "storage.postgres.SaveTask"
  const OpGetTask := "storage.postgres.GetTask"
  const OpGetTasks := "storage.postgres.GetTasks"
  const OpGetTasksByReportID := "storage.postgres.GetTasksByReportID"
  const OpSaveDeveloper := "storage.postgres.SaveDeveloper"
  const OpGetDeveloper := "storage.postgres.GetDeveloper"
  const OpGetDevelopers := "storage.postgres.GetDevelopers"
  const OpUpdateDeveloper := "storage.postgres.UpdateDeveloper"
  const OpSoftDeleteDeveloper := "storage.postgres.SoftDeleteDeveloper"
  const OpSaveReport := "storage.postgres.SaveReport"
  const OpGetReport := "storage.postgres.GetReport"
  const OpGetReportById := "storage.postgres.GetReportById"
  const OpGetReportsByDeveloperID := "storage.postgres.GetReportsByDeveloperID"
  const OpSaveProject := "storage.postgres.SaveProject"
  const OpGetProject := "storage.postgres.GetProject"
  const OpGetProjectByID := "storage.postgres.GetProjectByID"
  const OpUpdateProject := "storage.postgres.UpdateProject"

  /** What SoftDeleteDeveloper binds as deleted_at: a string, not a time. */
  const DeletedMarker := "Удалён"

  /** The error of a statement the database failed to run for `op`. */
  function StorageFailure(op: string): Error {
    Fail(op + ": execute statement", Driver(Unavailable))
  }

  // ---------------------------------------------------------------- columns

  /** `SELECT id, name, last_name, created_at`: the other fields keep Go's zero values. */
  function DeveloperColumns(d: Developer): Developer {
    Developer(d.id, d.name, d.lastName, d.createdAt, ZeroTime, None)
  }

  /** `SELECT id, name, description, created_at`. */
  function ProjectColumns(p: Project): Project {
    Project(p.id, p.name, p.description, p.createdAt, ZeroTime, None)
  }

  /** `SELECT id, developer_id, created_at`. */
  function ReportColumns(r: Report): Report {
    Report(r.id, r.developerId, r.createdAt, ZeroTime, None)
  }

  predicate HasDeveloper(t: seq<Developer>, uid: Uuid) {
    exists i | 0 <= i < |t| :: t[i].id == uid
  }

  // ------------------------------------------------------ single-row reads

  /**
   * GetDeveloperByID's answer when the database responds. There is no
   * `deleted_at IS NULL` condition, so a soft-deleted developer is found like
   * any other; a missing one yields the wrapped sql.ErrNoRows, never
   * ErrDeveloperNotFound.
   */
  function DeveloperById(t: seq<Developer>, uid: Uuid): (r: (Developer, Option<Error>))
    ensures r.1.None? <==> HasDeveloper(t, uid)
    ensures r.1.None? ==> exists i | 0 <= i < |t| :: t[i].id == uid && r.0 == DeveloperColumns(t[i])
    ensures r.1.Some? ==> r.0 == ZeroDeveloper && Is(r.1.value, Driver(ErrNoRows))
    ensures r.1.Some? ==> !Is(r.1.value, Sentinel(ErrDeveloperNotFound))
  {
    match IndexWhere(t, (d: Developer) => d.id == uid)
    case None => (ZeroDeveloper, Some(Fail(OpGetDeveloper + ": execute statement", Driver(ErrNoRows))))
    case Some(i) => (DeveloperColumns(t[i]), None)
  }

  /** GetProjectByID's answer: the row's selected columns, or ErrProjectNotFound. */
  function ProjectById(t: seq<Project>, id: nat): (r: (Project, Option<Error>))
    ensures r.1.None? <==> exists i | 0 <= i < |t| :: t[i].id == id
    ensures r.1.None? ==> exists i | 0 <= i < |t| :: t[i].id == id && r.0 == ProjectColumns(t[i])
    ensures r.1.Some? ==> r.0 == ZeroProject && Is(r.1.value, Sentinel(ErrProjectNotFound))
  {
    match IndexWhere(t, (p: Project) => p.id == id)
    case None => (ZeroProject, Some(Fail(OpGetProjectByID, Sentinel(ErrProjectNotFound))))
    case Some(i) => (ProjectColumns(t[i]), None)
  }

  /** GetReportById's answer: the row's selected columns, or ErrReportNotFound. */
  function ReportById(t: seq<Report>, id: nat): (r: (Report, Option<Error>))
    ensures r.1.None? <==> exists i | 0 <= i < |t| :: t[i].id == id
    ensures r.1.None? ==> exists i | 0 <= i < |t| :: t[i].id == id && r.0 == ReportColumns(t[i])
    ensures r.1.Some? ==> r.0 == ZeroReport && Is(r.1.value, Sentinel(ErrReportNotFound))
  {
    match IndexWhere(t, (r: Report) => r.id == id)
    case None => (ZeroReport, Some(Fail(OpGetReportById, Sentinel(ErrReportNotFound))))
    case Some(i) => (ReportColumns(t[i]), None)
  }

  /** GetTaskByID's answer: the whole row, or the wrapped sql.ErrNoRows. */
  function TaskById(t: seq<Task>, id: nat): (r: (Task, Option<Error>))
    ensures r.1.None? <==> exists i | 0 <= i < |t| :: t[i].id == id
    ensures r.1.None? ==> exists i | 0 <= i < |t| :: t[i].id == id && r.0 == t[i]
    ensures r.1.Some? ==> r.0 == ZeroTask && Is(r.1.value, Driver(ErrNoRows))
  {
    match IndexWhere(t, (k: Task) => k.id == id)
    case None => (ZeroTask, Some(Fail(OpGetTask + ": execute statement", Driver(ErrNoRows))))
    case Some(i) => (t[i], None)
  }

  // ------------------------------------------------------------- list reads

  /** The selected columns of every report, in table order. */
  function ReportRows(t: seq<Report>): (r: seq<Report>)
    ensures |r| == |t|
  {
    if t == [] then [] else ReportRows(t[..|t| - 1]) + [ReportColumns(t[|t| - 1])]
  }

  /** `WHERE developer_id = d`: the selected columns of d's reports, in table order. */
  function ReportsOwnedBy(t: seq<Report>, d: Uuid): seq<Report> {
    if t == [] then []
    else ReportsOwnedBy(t[..|t| - 1], d)
         + (if t[|t| - 1].developerId == d then [ReportColumns(t[|t| - 1])] else [])
  }

  /** The selected columns of every project, in table order. */
  function ProjectRows(t: seq<Project>): (r: seq<Project>)
    ensures |r| == |t|
  {
    if t == [] then [] else ProjectRows(t[..|t| - 1]) + [ProjectColumns(t[|t| - 1])]
  }

  /** `WHERE report_id = id` over the tasks, all columns, in table order (there is no ORDER BY). */
  function TasksOfReport(t: seq<Task>, id: nat): seq<Task> {
    if t == [] then []
    else TasksOfReport(t[..|t| - 1], id) + (if t[|t| - 1].reportId == id then [t[|t| - 1]] else [])
  }

  /** GetReport's rows: `SELECT … FROM reports ORDER BY created_at DESC`. */
  function ReportsNewestFirst(t: seq<Report>): seq<Report> {
    SortDesc(ReportRows(t), ReportCreatedAt)
  }

  /** GetReportsByDeveloperID's rows: `… WHERE developer_id = d ORDER BY created_at DESC`. */
  function ReportsOf(t: seq<Report>, d: Uuid): seq<Report> {
    SortDesc(ReportsOwnedBy(t, d), ReportCreatedAt)
  }

  /** GetProject's rows: `SELECT … FROM projects ORDER BY created_at DESC`. */
  function ProjectsNewestFirst(t: seq<Project>): seq<Project> {
    SortDesc(ProjectRows(t), ProjectCreatedAt)
  }

  lemma {:induction false} ReportRowsMembers(t: seq<Report>)
    ensures forall x :: x in ReportRows(t) <==> exists i | 0 <= i < |t| :: x == ReportColumns(t[i])
  {
    if t != [] {
      var init := t[..|t| - 1];
      ReportRowsMembers(init);
      forall x ensures x in ReportRows(t) <==> exists i | 0 <= i < |t| :: x == ReportColumns(t[i]) {
        if x in ReportRows(init) {
          var i :| 0 <= i < |init| && x == ReportColumns(init[i]);
          assert init[i] == t[i];
        }
        if exists i | 0 <= i < |t| :: x == ReportColumns(t[i]) {
          var i :| 0 <= i < |t| && x == ReportColumns(t[i]);
          if i < |init| {
            assert init[i] == t[i];
          }
        }
      }
    }
  }

  lemma {:induction false} ReportsOwnedByMembers(t: seq<Report>, d: Uuid)
    ensures forall x :: x in ReportsOwnedBy(t, d) <==>
      exists i | 0 <= i < |t| :: t[i].developerId == d && x == ReportColumns(t[i])
  {
    if t != [] {
      var init := t[..|t| - 1];
      ReportsOwnedByMembers(init, d);
      forall x ensures x in ReportsOwnedBy(t, d) <==>
        exists i | 0 <= i < |t| :: t[i].developerId == d && x == ReportColumns(t[i])
      {
        if x in ReportsOwnedBy(init, d) {
          var i :| 0 <= i < |init| && init[i].developerId == d && x == ReportColumns(init[i]);
          assert init[i] == t[i];
        }
        if exists i | 0 <= i < |t| :: t[i].developerId == d && x == ReportColumns(t[i]) {
          var i :| 0 <= i < |t| && t[i].developerId == d && x == ReportColumns(t[i]);
          if i < |init| {
            assert init[i] == t[i];
          }
        }
      }
    }
  }

  lemma {:induction false} ProjectRowsMembers(t: seq<Project>)
    ensures forall x :: x in ProjectRows(t) <==> exists i | 0 <= i < |t| :: x == ProjectColumns(t[i])
  {
    if t != [] {
      var init := t[..|t| - 1];
      ProjectRowsMembers(init);
      forall x ensures x in ProjectRows(t) <==> exists i | 0 <= i < |t| :: x == ProjectColumns(t[i]) {
        if x in ProjectRows(init) {
          var i :| 0 <= i < |init| && x == ProjectColumns(init[i]);
          assert init[i] == t[i];
        }
        if exists i | 0 <= i < |t| :: x == ProjectColumns(t[i]) {
          var i :| 0 <= i < |t| && x == ProjectColumns(t[i]);
          if i < |init| {
            assert init[i] == t[i];
          }
        }
      }
    }
  }

  lemma {:induction false} TasksOfReportMembers(t: seq<Task>, id: nat)
    ensures forall x :: x in TasksOfReport(t, id) <==> exists i | 0 <= i < |t| :: t[i].reportId == id && x == t[i]
    ensures |TasksOfReport(t, id)| <= |t|
  {
    if t != [] {
      var init := t[..|t| - 1];
      TasksOfReportMembers(init, id);
      forall x ensures x in TasksOfReport(t, id) <==> exists i | 0 <= i < |t| :: t[i].reportId == id && x == t[i] {
        if x in TasksOfReport(init, id) {
          var i :| 0 <= i < |init| && init[i].reportId == id && x == init[i];
          assert init[i] == t[i];
        }
        if exists i | 0 <= i < |t| :: t[i].reportId == id && x == t[i] {
          var i :| 0 <= i < |t| && t[i].reportId == id && x == t[i];
          if i < |init| {
            assert init[i] == t[i];
          }
        }
      }
    }
  }

  /**
   * With distinct ids (as the store keeps them), a project lookup that
   * succeeds returns the columns of the one row with that id.
   */
  lemma ProjectByIdUnique(t: seq<Project>, id: nat)
    requires forall i, j | 0 <= i < j < |t| :: t[i].id != t[j].id
    ensures ProjectById(t, id).1.None? ==> forall i | 0 <= i < |t| && t[i].id == id :: ProjectById(t, id).0 == ProjectColumns(t[i])
  {
  }

  /** With distinct ids, a report lookup that succeeds returns the columns of the one row with that id. */
  lemma ReportByIdUnique(t: seq<Report>, id: nat)
    requires forall i, j | 0 <= i < j < |t| :: t[i].id != t[j].id
    ensures ReportById(t, id).1.None? ==> forall i | 0 <= i < |t| && t[i].id == id :: ReportById(t, id).0 == ReportColumns(t[i])
  {
  }

  /** With distinct ids, a task lookup that succeeds returns the one row with that id. */
  lemma TaskByIdUnique(t: seq<Task>, id: nat)
    requires forall i, j | 0 <= i < j < |t| :: t[i].id != t[j].id
    ensures TaskById(t, id).1.None? ==> forall i | 0 <= i < |t| && t[i].id == id :: TaskById(t, id).0 == t[i]
  {
  }

  /**
   * GetReportsByDeveloperID(d) returns exactly the reports whose developer is
   * d, in non-increasing created_at order, and nothing at all when d owns none.
   */
  lemma ReportsOfExact(t: seq<Report>, d: Uuid)
    ensures SortedDesc(ReportsOf(t, d), ReportCreatedAt)
    ensures multiset(ReportsOf(t, d)) == multiset(ReportsOwnedBy(t, d))
    ensures forall x :: x in ReportsOf(t, d) <==>
      exists i | 0 <= i < |t| :: t[i].developerId == d && x == ReportColumns(t[i])
    ensures ReportsOf(t, d) == [] <==> forall i | 0 <= i < |t| :: t[i].developerId != d
  {
    SortDescCorrect(ReportsOwnedBy(t, d), ReportCreatedAt);
    SortDescSameRows(ReportsOwnedBy(t, d), ReportCreatedAt);
    ReportsOwnedByMembers(t, d);
    if ReportsOf(t, d) != [] {
      assert ReportsOf(t, d)[0] in ReportsOf(t, d);
    }
    if exists i | 0 <= i < |t| :: t[i].developerId == d {
      var i :| 0 <= i < |t| && t[i].developerId == d;
      assert ReportColumns(t[i]) in ReportsOf(t, d);
    }
  }

  /** GetReport returns every report once, newest first; an empty table gives an empty list. */
  lemma ReportsNewestFirstExact(t: seq<Report>)
    ensures SortedDesc(ReportsNewestFirst(t), ReportCreatedAt)
    ensures multiset(ReportsNewestFirst(t)) == multiset(ReportRows(t))
    ensures |ReportsNewestFirst(t)| == |t|
    ensures forall x :: x in ReportsNewestFirst(t) <==> exists i | 0 <= i < |t| :: x == ReportColumns(t[i])
  {
    SortDescCorrect(ReportRows(t), ReportCreatedAt);
    SortDescSameRows(ReportRows(t), ReportCreatedAt);
    ReportRowsMembers(t);
  }

  /** GetProject returns every project once, newest first; an empty table gives an empty list. */
  lemma ProjectsNewestFirstExact(t: seq<Project>)
    ensures SortedDesc(ProjectsNewestFirst(t), ProjectCreatedAt)
    ensures multiset(ProjectsNewestFirst(t)) == multiset(ProjectRows(t))
    ensures |ProjectsNewestFirst(t)| == |t|
    ensures forall x :: x in ProjectsNewestFirst(t) <==> exists i | 0 <= i < |t| :: x == ProjectColumns(t[i])
  {
    SortDescCorrect(ProjectRows(t), ProjectCreatedAt);
    SortDescSameRows(ProjectRows(t), ProjectCreatedAt);
    ProjectRowsMembers(t);
  }

  // ------------------------------------------------------------- the store

  /** The four tables and the id sequences of the three serial-keyed ones. */
  class Storage {
    var developers: seq<Developer>
    var projects: seq<Project>
    var reports: seq<Report>
    var tasks: seq<Task>
    /** The next value of each table's id sequence. */
    var nextProjectId: nat
    var nextReportId: nat
    var nextTaskId: nat

    /** Primary keys are distinct; sequence-assigned keys are positive and below the sequence. */
    ghost predicate Valid()
      reads this
    {
      && nextProjectId > 0 && nextReportId > 0 && nextTaskId > 0
      && (forall i, j | 0 <= i < j < |developers| :: developers[i].id != developers[j].id)
      && (forall i | 0 <= i < |projects| :: 0 < projects[i].id < nextProjectId)
      && (forall i, j | 0 <= i < j < |projects| :: projects[i].id != projects[j].id)
      && (forall i | 0 <= i < |reports| :: 0 < reports[i].id < nextReportId)
      && (forall i, j | 0 <= i < j < |reports| :: reports[i].id != reports[j].id)
      && (forall i | 0 <= i < |tasks| :: 0 < tasks[i].id < nextTaskId)
      && (forall i, j | 0 <= i < j < |tasks| :: tasks[i].id != tasks[j].id)
    }

    /** An empty database; every sequence starts at 1. */
    constructor ()
      ensures Valid()
      ensures developers == [] && projects == [] && reports == [] && tasks == []
      ensures nextProjectId == 1 && nextReportId == 1 && nextTaskId == 1
    {
      developers, projects, reports, tasks := [], [], [], [];
      nextProjectId, nextReportId, nextTaskId := 1, 1, 1;
    }

    // ----------------------------------------------------------- tasks

    /**
     * SaveTask: a task without a name or with a non-positive planned estimate
     * is refused before any statement runs. Otherwise one row is inserted; the
     * database assigns its id and created_at, and only the id is returned.
     */
    method SaveTask(task: Task, now: Time, fault: bool) returns (id: int, err: Option<Error>)
      requires Valid()
      modifies this`tasks, this`nextTaskId
      ensures Valid()
      ensures task.name == "" || task.estimatePlaned <= 0 ==>
        && id == 0 && err == Some(Fail(OpSaveTask, Sentinel(ErrInvalidTaskData)))
        && tasks == old(tasks) && nextTaskId == old(nextTaskId)
      ensures task.name != "" && task.estimatePlaned > 0 && fault ==>
        && id == 0 && err == Some(StorageFailure(OpSaveTask))
        && tasks == old(tasks) && nextTaskId == old(nextTaskId)
      ensures task.name != "" && task.estimatePlaned > 0 && !fault ==>
        && id == old(nextTaskId) && err == None
        && tasks == old(tasks) + [task.(id := old(nextTaskId), createdAt := now)]
        && nextTaskId == old(nextTaskId) + 1
    {
      if task.name == "" || task.estimatePlaned <= 0 {
        return 0, Some(Fail(OpSaveTask, Sentinel(ErrInvalidTaskData)));
      }
      if fault {
        return 0, Some(StorageFailure(OpSaveTask));
      }
      id := nextTaskId;
      tasks := tasks + [task.(id := nextTaskId, createdAt := now)];
      nextTaskId := nextTaskId + 1;
      err := None;
    }

    /** GetTaskByID: the task with that id, or the wrapped sql.ErrNoRows. */
    method GetTaskByID(id: nat, fault: bool) returns (task: Task, err: Option<Error>)
      ensures fault ==> task == ZeroTask && err == Some(StorageFailure(OpGetTask))
      ensures !fault ==> (task, err) == TaskById(tasks, id)
      ensures !fault ==> (err.None? <==> exists i | 0 <= i < |tasks| :: tasks[i].id == id)
    {
      if fault {
        return ZeroTask, Some(StorageFailure(OpGetTask));
      }
      task, err := TaskById(tasks, id).0, TaskById(tasks, id).1;
    }

    /** GetTasks: every task, all columns, in the order the table yields them (no ORDER BY). */
    method GetTasks(fault: bool) returns (rows: seq<Task>, err: Option<Error>)
      ensures fault ==> rows == [] && err == Some(StorageFailure(OpGetTasks))
      ensures !fault ==> rows == tasks && err == None
    {
      if fault {
        return [], Some(StorageFailure(OpGetTasks));
      }
      rows := [];
      var i := 0;
      while i < |tasks|
        invariant 0 <= i <= |tasks|
        invariant rows == tasks[..i]
      {
        rows := rows + [tasks[i]];
        i := i + 1;
      }
      err := None;
    }

    /**
     * GetTasksByReportID, with the report id bound to its placeholder (see
     * AsWritten.GetTasksByReportIDAsWritten for the code as it stands): the
     * tasks of that report, all columns, in table order; empty, and no error,
     * when the report has none.
     */
    method GetTasksByReportID(id: nat, fault: bool) returns (rows: seq<Task>, err: Option<Error>)
      ensures fault ==> rows == [] && err == Some(StorageFailure(OpGetTasksByReportID))
      ensures !fault ==> err == None && rows == TasksOfReport(tasks, id)
      ensures !fault ==> forall x :: x in rows <==> exists i | 0 <= i < |tasks| :: tasks[i].reportId == id && x == tasks[i]
    {
      if fault {
        return [], Some(StorageFailure(OpGetTasksByReportID));
      }
      rows := [];
      var i := 0;
      while i < |tasks|
        invariant 0 <= i <= |tasks|
        invariant rows == TasksOfReport(tasks[..i], id)
      {
        assert tasks[..i + 1][..i] == tasks[..i];
        if tasks[i].reportId == id {
          rows := rows + [tasks[i]];
        }
        i := i + 1;
      }
      assert tasks[..i] == tasks;
      TasksOfReportMembers(tasks, id);
      err := None;
    }

    // ------------------------------------------------------ developers

    /**
     * SaveDeveloper, with its INSERT binding all six columns and returning
     * created_at (see AsWritten.SaveDeveloperAsWritten for the code as it
     * stands). A developer without a name or last name is refused before an
     * id is drawn; otherwise exactly one row is added, keyed by the fresh
     * `uid` that is returned. A `uid` already in the table is a primary-key
     * violation.
     */
    method SaveDeveloper(developer: Developer, uid: Uuid, now: Time, fault: bool)
      returns (id: Uuid, err: Option<Error>)
      requires Valid()
      modifies this`developers
      ensures Valid()
      ensures developer.name == "" || developer.lastName == "" ==>
        && id == NilUuid && err == Some(Fail(OpSaveDeveloper, Sentinel(ErrInvalidDeveloperData)))
        && developers == old(developers)
      ensures developer.name != "" && developer.lastName != "" && fault ==>
        id == NilUuid && err == Some(StorageFailure(OpSaveDeveloper)) && developers == old(developers)
      ensures developer.name != "" && developer.lastName != "" && !fault && HasDeveloper(old(developers), uid) ==>
        && id == NilUuid && err == Some(Fail(OpSaveDeveloper + ": execute statement", Driver(UniqueViolation)))
        && developers == old(developers)
      ensures developer.name != "" && developer.lastName != "" && !fault && !HasDeveloper(old(developers), uid) ==>
        && id == uid && err == None
        && developers == old(developers) + [Developer(uid, developer.name, developer.lastName, now, now, developer.deletedAt)]
    {
      if developer.name == "" || developer.lastName == "" {
        return NilUuid, Some(Fail(OpSaveDeveloper, Sentinel(ErrInvalidDeveloperData)));
      }
      if fault {
        return NilUuid, Some(StorageFailure(OpSaveDeveloper));
      }
      if exists i | 0 <= i < |developers| :: developers[i].id == uid {
        return NilUuid, Some(Fail(OpSaveDeveloper + ": execute statement", Driver(UniqueViolation)));
      }
      developers := developers + [Developer(uid, developer.name, developer.lastName, now, now, developer.deletedAt)];
      id, err := uid, None;
    }

    /** GetDeveloperByID: the developer with that id, soft-deleted or not. */
    method GetDeveloperByID(uid: Uuid, fault: bool) returns (developer: Developer, err: Option<Error>)
      ensures fault ==> developer == ZeroDeveloper && err == Some(StorageFailure(OpGetDeveloper))
      ensures !fault ==> (developer, err) == DeveloperById(developers, uid)
      ensures !fault ==> (err.None? <==> HasDeveloper(developers, uid))
    {
      if fault {
        return ZeroDeveloper, Some(StorageFailure(OpGetDeveloper));
      }
      developer, err := DeveloperById(developers, uid).0, DeveloperById(developers, uid).1;
    }

    /** GetDevelopers: the selected columns of every developer, in table order, deleted ones included. */
    method GetDevelopers(fault: bool) returns (rows: seq<Developer>, err: Option<Error>)
      ensures fault ==> rows == [] && err == Some(StorageFailure(OpGetDevelopers))
      ensures !fault ==> err == None && |rows| == |developers|
      ensures !fault ==> forall i | 0 <= i < |rows| :: rows[i] == DeveloperColumns(developers[i])
    {
      if fault {
        return [], Some(StorageFailure(OpGetDevelopers));
      }
      rows := [];
      var i := 0;
      while i < |developers|
        invariant 0 <= i <= |developers|
        invariant |rows| == i
        invariant forall k | 0 <= k < i :: rows[k] == DeveloperColumns(developers[k])
      {
        rows := rows + [DeveloperColumns(developers[i])];
        i := i + 1;
      }
      err := None;
    }

    /**
     * UpdateDeveloper: name and last_name of the row with that id are
     * overwritten; nothing else changes. The Exec result is ignored, so an
     * unknown id changes nothing and still reports success. The names are not
     * validated.
     */
    method UpdateDeveloper(uid: Uuid, developer: Developer, fault: bool) returns (err: Option<Error>)
      requires Valid()
      modifies this`developers
      ensures Valid()
      ensures fault ==> err == Some(StorageFailure(OpUpdateDeveloper)) && developers == old(developers)
      ensures !fault ==> err == None && |developers| == |old(developers)|
      ensures !fault ==> forall i | 0 <= i < |developers| ::
        developers[i] == if old(developers)[i].id == uid
                         then old(developers)[i].(name := developer.name, lastName := developer.lastName)
                         else old(developers)[i]
    {
      if fault {
        return Some(StorageFailure(OpUpdateDeveloper));
      }
      var t := developers;
      developers := seq(|t|, i requires 0 <= i < |t| =>
        if t[i].id == uid then t[i].(name := developer.name, lastName := developer.lastName) else t[i]);
      err := None;
    }

    /**
     * SoftDeleteDeveloper: deleted_at and modified_at of the row with that id
     * are set, deleted_at to the text "Удалён" that the code binds (a
     * timestamp column would reject it; the model stores it as written). An
     * unknown id yields "developer not found" wrapping sql.ErrNoRows and
     * changes nothing. An already deleted row is updated again: the operation
     * is not refused a second time.
     */
    method SoftDeleteDeveloper(uid: Uuid, now: Time, fault: bool) returns (err: Option<Error>)
      requires Valid()
      modifies this`developers
      ensures Valid()
      ensures fault ==> err == Some(StorageFailure(OpSoftDeleteDeveloper)) && developers == old(developers)
      ensures !fault && !HasDeveloper(old(developers), uid) ==>
        && err == Some(Fail(OpSoftDeleteDeveloper + ": developer not found", Driver(ErrNoRows)))
        && developers == old(developers)
      ensures !fault && HasDeveloper(old(developers), uid) ==> err == None && |developers| == |old(developers)|
      ensures !fault && HasDeveloper(old(developers), uid) ==> forall i | 0 <= i < |developers| ::
        developers[i] == if old(developers)[i].id == uid
                         then old(developers)[i].(deletedAt := Some(Text(DeletedMarker)), modifiedAt := now)
                         else old(developers)[i]
    {
      if fault {
        return Some(StorageFailure(OpSoftDeleteDeveloper));
      }
      if !exists i | 0 <= i < |developers| :: developers[i].id == uid {
        // UPDATE … RETURNING matched no row, so Scan reports sql.ErrNoRows.
        return Some(Fail(OpSoftDeleteDeveloper + ": developer not found", Driver(ErrNoRows)));
      }
      var t := developers;
      developers := seq(|t|, i requires 0 <= i < |t| =>
        if t[i].id == uid then t[i].(deletedAt := Some(Text(DeletedMarker)), modifiedAt := now) else t[i]);
      err := None;
    }

    // --------------------------------------------------------- reports

    /**
     * SaveReport, with its column list spelled correctly (see
     * AsWritten.SaveReportAsWritten for the code as it stands): one row with
     * the next sequence id, the given developer and the current time. The id
     * is scanned into the callee's copy of the report, so the caller never
     * learns it. The developer's existence is not checked.
     */
    method SaveReport(report: Report, now: Time, fault: bool) returns (err: Option<Error>)
      requires Valid()
      modifies this`reports, this`nextReportId
      ensures Valid()
      ensures fault ==>
        err == Some(StorageFailure(OpSaveReport)) && reports == old(reports) && nextReportId == old(nextReportId)
      ensures !fault ==>
        && err == None
        && reports == old(reports) + [Report(old(nextReportId), report.developerId, now, ZeroTime, None)]
        && nextReportId == old(nextReportId) + 1
    {
      if fault {
        return Some(StorageFailure(OpSaveReport));
      }
      reports := reports + [Report(nextReportId, report.developerId, now, ZeroTime, None)];
      nextReportId := nextReportId + 1;
      err := None;
    }

    /** GetReport: every report, newest first. */
    method GetReport(fault: bool) returns (rows: seq<Report>, err: Option<Error>)
      ensures fault ==> rows == [] && err == Some(StorageFailure(OpGetReport))
      ensures !fault ==> err == None && rows == ReportsNewestFirst(reports)
      ensures !fault ==> SortedDesc(rows, ReportCreatedAt) && |rows| == |reports|
      ensures !fault ==> multiset(rows) == multiset(ReportRows(reports))
    {
      if fault {
        return [], Some(StorageFailure(OpGetReport));
      }
      rows := [];
      var i := 0;
      while i < |reports|
        invariant 0 <= i <= |reports|
        invariant rows == SortDesc(ReportRows(reports[..i]), ReportCreatedAt)
      {
        var prefix := reports[..i + 1];
        assert prefix[..i] == reports[..i];
        assert ReportRows(prefix) == ReportRows(reports[..i]) + [ReportColumns(reports[i])];
        assert ReportRows(prefix)[..i] == ReportRows(reports[..i]);
        rows := InsertDesc(rows, ReportColumns(reports[i]), ReportCreatedAt);
        i := i + 1;
      }
      assert reports[..i] == reports;
      ReportsNewestFirstExact(reports);
      err := None;
    }

    /** GetReportById: the report with that id, or ErrReportNotFound. */
    method GetReportById(id: nat, fault: bool) returns (report: Report, err: Option<Error>)
      ensures fault ==> report == ZeroReport && err == Some(StorageFailure(OpGetReportById))
      ensures !fault ==> (report, err) == ReportById(reports, id)
      ensures !fault ==> (err.None? <==> exists i | 0 <= i < |reports| :: reports[i].id == id)
    {
      if fault {
        return ZeroReport, Some(StorageFailure(OpGetReportById));
      }
      report, err := ReportById(reports, id).0, ReportById(reports, id).1;
    }

    /**
     * GetReportsByDeveloperID: the reports of developer d, newest first;
     * empty, and no error, when d has none.
     */
    method GetReportsByDeveloperID(d: Uuid, fault: bool) returns (rows: seq<Report>, err: Option<Error>)
      ensures fault ==> rows == [] && err == Some(StorageFailure(OpGetReportsByDeveloperID))
      ensures !fault ==> err == None && rows == ReportsOf(reports, d)
      ensures !fault ==> SortedDesc(rows, ReportCreatedAt)
      ensures !fault ==> forall x :: x in rows <==>
        exists i | 0 <= i < |reports| :: reports[i].developerId == d && x == ReportColumns(reports[i])
    {
      if fault {
        return [], Some(StorageFailure(OpGetReportsByDeveloperID));
      }
      rows := [];
      var i := 0;
      while i < |reports|
        invariant 0 <= i <= |reports|
        invariant rows == SortDesc(ReportsOwnedBy(reports[..i], d), ReportCreatedAt)
      {
        var prefix := reports[..i + 1];
        assert prefix[..i] == reports[..i];
        if reports[i].developerId == d {
          assert ReportsOwnedBy(prefix, d) == ReportsOwnedBy(reports[..i], d) + [ReportColumns(reports[i])];
          assert ReportsOwnedBy(prefix, d)[..|ReportsOwnedBy(prefix, d)| - 1] == ReportsOwnedBy(reports[..i], d);
          rows := InsertDesc(rows, ReportColumns(reports[i]), ReportCreatedAt);
        } else {
          assert ReportsOwnedBy(prefix, d) == ReportsOwnedBy(reports[..i], d);
        }
        i := i + 1;
      }
      assert reports[..i] == reports;
      ReportsOfExact(reports, d);
      err := None;
    }

    // -------------------------------------------------------- projects

    /**
     * SaveProject: one row with the next sequence id, the given name and
     * description and the current time. Nothing is validated, and the id is
     * not returned to the caller.
     */
    method SaveProject(project: Project, now: Time, fault: bool) returns (err: Option<Error>)
      requires Valid()
      modifies this`projects, this`nextProjectId
      ensures Valid()
      ensures fault ==>
        err == Some(StorageFailure(OpSaveProject)) && projects == old(projects) && nextProjectId == old(nextProjectId)
      ensures !fault ==>
        && err == None
        && projects == old(projects) + [Project(old(nextProjectId), project.name, project.description, now, ZeroTime, None)]
        && nextProjectId == old(nextProjectId) + 1
    {
      if fault {
        return Some(StorageFailure(OpSaveProject));
      }
      projects := projects + [Project(nextProjectId, project.name, project.description, now, ZeroTime, None)];
      nextProjectId := nextProjectId + 1;
      err := None;
    }

    /** GetProject: every project, newest first. */
    method GetProject(fault: bool) returns (rows: seq<Project>, err: Option<Error>)
      ensures fault ==> rows == [] && err == Some(StorageFailure(OpGetProject))
      ensures !fault ==> err == None && rows == ProjectsNewestFirst(projects)
      ensures !fault ==> SortedDesc(rows, ProjectCreatedAt) && |rows| == |projects|
      ensures !fault ==> multiset(rows) == multiset(ProjectRows(projects))
    {
      if fault {
        return [], Some(StorageFailure(OpGetProject));
      }
      rows := [];
      var i := 0;
      while i < |projects|
        invariant 0 <= i <= |projects|
        invariant rows == SortDesc(ProjectRows(projects[..i]), ProjectCreatedAt)
      {
        var prefix := projects[..i + 1];
        assert prefix[..i] == projects[..i];
        assert ProjectRows(prefix) == ProjectRows(projects[..i]) + [ProjectColumns(projects[i])];
        assert ProjectRows(prefix)[..i] == ProjectRows(projects[..i]);
        rows := InsertDesc(rows, ProjectColumns(projects[i]), ProjectCreatedAt);
        i := i + 1;
      }
      assert projects[..i] == projects;
      ProjectsNewestFirstExact(projects);
      err := None;
    }

    /** GetProjectByID: the project with that id, or ErrProjectNotFound. */
    method GetProjectByID(id: nat, fault: bool) returns (project: Project, err: Option<Error>)
      ensures fault ==> project == ZeroProject && err == Some(StorageFailure(OpGetProjectByID))
      ensures !fault ==> (project, err) == ProjectById(projects, id)
      ensures !fault ==> (err.None? <==> exists i | 0 <= i < |projects| :: projects[i].id == id)
    {
      if fault {
        return ZeroProject, Some(StorageFailure(OpGetProjectByID));
      }
      project, err := ProjectById(projects, id).0, ProjectById(projects, id).1;
    }

    /**
     * UpdateProject: name, description and modified_at (the database's NOW())
     * of the row with that id are overwritten; nothing else changes. The Exec
     * result is ignored, so an unknown id changes nothing and still reports
     * success. The fields are not validated here.
     */
    method UpdateProject(id: nat, project: Project, now: Time, fault: bool) returns (err: Option<Error>)
      requires Valid()
      modifies this`projects
      ensures Valid()
      ensures fault ==> err == Some(StorageFailure(OpUpdateProject)) && projects == old(projects)
      ensures !fault ==> err == None && |projects| == |old(projects)|
      ensures !fault ==> forall i | 0 <= i < |projects| ::
        projects[i] == if old(projects)[i].id == id
                       then old(projects)[i].(name := project.name, description := project.description, modifiedAt := now)
                       else old(projects)[i]
    {
      if fault {
        return Some(StorageFailure(OpUpdateProject));
      }
      var t := projects;
      projects := seq(|t|, i requires 0 <= i < |t| =>
        if t[i].id == id then t[i].(name := project.name, description := project.description, modifiedAt := now) else t[i]);
      err := None;
    }
  }
}
