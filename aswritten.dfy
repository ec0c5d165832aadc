/**
 * The operations of internal/storage/postgres/postgres.go that fail as
 * they are written: SaveDeveloper, SaveReport, GetTaskByID, GetTasks and
 * GetTasksByReportID, each modelled up to its first failure. Each fails on
 * every input that reaches the database, except GetTasks on an empty table,
 * which returns no rows and no error. The store in module Postgres uses the
 * corrected statements.
 */
module AsWritten {

  import opened Wrappers
  import opened Errors
  import opened Entity
  import opened Sql
  import Postgres

  /** A value bound to a statement placeholder. */
  datatype SqlValue = UuidValue(u: Uuid) | TextValue(s: string) | TimeValue(t: Time) | IntValue(i: int)

  /** SaveDeveloper's INSERT names six columns and has placeholders $1 … $6. */
  const DeveloperInsertPlaceholders: nat := 6

  /**
   * SaveDeveloper as it stands: after validation it binds only the id, the
   * two names and one time.Now(), so database/sql refuses the statement and
   * no row is ever added. (Were six values bound, the Scan of an INSERT with
   * no RETURNING clause would still report sql.ErrNoRows.) The result is the
   * returned id, the returned error and the table afterwards.
   */
  function SaveDeveloperAsWritten(table: seq<Developer>, developer: Developer, uid: Uuid, now: Time, fault: bool)
    : (r: (Uuid, Option<Error>, seq<Developer>))
  {
    if developer.name == "" || developer.lastName == "" then
      (NilUuid, Some(Fail(Postgres.OpSaveDeveloper, Sentinel(ErrInvalidDeveloperData))), table)
    else if fault then
      (NilUuid, Some(Postgres.StorageFailure(Postgres.OpSaveDeveloper)), table)
    else
      var bound := [UuidValue(uid), TextValue(developer.name), TextValue(developer.lastName), TimeValue(now)];
      var refusal := CheckArity(DeveloperInsertPlaceholders, |bound|);
      (NilUuid, Some(Fail(Postgres.OpSaveDeveloper + ": execute statement", Driver(refusal.value))), table)
  }

  /**
   * As written, SaveDeveloper never stores a developer: every call with valid
   * names returns uuid.Nil and an error, and the table is unchanged.
   */
  lemma SaveDeveloperAsWrittenNeverStores(table: seq<Developer>, developer: Developer, uid: Uuid, now: Time, fault: bool)
    requires developer.name != "" && developer.lastName != ""
    ensures SaveDeveloperAsWritten(table, developer, uid, now, fault).0 == NilUuid
    ensures SaveDeveloperAsWritten(table, developer, uid, now, fault).1.Some?
    ensures SaveDeveloperAsWritten(table, developer, uid, now, fault).2 == table
    ensures !fault ==> Is(SaveDeveloperAsWritten(table, developer, uid, now, fault).1.value, Driver(ArgCount(6, 4)))
  {
  }

  /** SaveReport's column list as written: a tab splits "created_at" into two words. */
  const ReportInsertColumnsAsWritten: seq<string> := ["developer_id", "c\treated_at"]

  /** The column list the statement evidently intends. */
  const ReportInsertColumns: seq<string> := ["developer_id", "created_at"]

  /**
   * `INSERT INTO reports(<columns>) VALUES ($1, $2) RETURNING id, created_at`
   * for a given column list: PostgreSQL refuses to prepare it unless every
   * entry is a single column name; otherwise the row gets the next sequence
   * id. The result is the error and the table and sequence afterwards.
   */
  function InsertReport(columns: seq<string>, table: seq<Report>, nextId: nat, report: Report, now: Time, fault: bool)
    : (r: (Option<Error>, seq<Report>, nat))
  {
    if fault then (Some(Postgres.StorageFailure(Postgres.OpSaveReport)), table, nextId)
    else if exists i | 0 <= i < |columns| :: !IsColumnName(columns[i]) then
      (Some(Fail(Postgres.OpSaveReport + ": prepare statement", Driver(SyntaxError))), table, nextId)
    else (None, table + [Report(nextId, report.developerId, now, ZeroTime, None)], nextId + 1)
  }

  /** SaveReport as it stands. */
  function SaveReportAsWritten(table: seq<Report>, nextId: nat, report: Report, now: Time, fault: bool)
    : (r: (Option<Error>, seq<Report>, nat))
  {
    InsertReport(ReportInsertColumnsAsWritten, table, nextId, report, now, fault)
  }

  /** As written, SaveReport never stores a report: preparing the statement always fails. */
  lemma SaveReportAsWrittenNeverStores(table: seq<Report>, nextId: nat, report: Report, now: Time, fault: bool)
    ensures SaveReportAsWritten(table, nextId, report, now, fault).0.Some?
    ensures SaveReportAsWritten(table, nextId, report, now, fault).1 == table
    ensures !fault ==> Is(SaveReportAsWritten(table, nextId, report, now, fault).0.value, Driver(SyntaxError))
  {
    assert ReportInsertColumnsAsWritten[1][1] == '\t';
    assert !IsColumnName(ReportInsertColumnsAsWritten[1]);
  }

  /**
   * With the intended column list the insert succeeds whenever the database
   * answers, adding exactly the row that Postgres.Storage.SaveReport adds.
   */
  lemma CorrectedReportInsertStores(table: seq<Report>, nextId: nat, report: Report, now: Time)
    ensures InsertReport(ReportInsertColumns, table, nextId, report, now, false)
      == (None, table + [Report(nextId, report.developerId, now, ZeroTime, None)], nextId + 1)
  {
    assert forall i | 0 <= i < |ReportInsertColumns| :: IsColumnName(ReportInsertColumns[i]);
  }

  // ------------------------------------------------------------------ tasks

  /**
   * What the database hands to Scan for tasks.id. SaveTask scans the id into
   * a Go int, so the column is an integer sequence (`Serial`); a uuid column
   * would arrive as text (`UuidColumn`).
   */
  datatype IdColumn = Serial(n: nat) | UuidColumn(u: Uuid)

  /** Scan into an int: an integer converts; a uuid's text does not parse as a number. */
  function ScanIntoInt(c: IdColumn): Option<nat> {
    match c
    case Serial(n) => Some(n)
    case UuidColumn(_) => None
  }

  /** Scan into a uuid.UUID, which accepts only text or bytes: an int64 is refused. */
  function ScanIntoUuid(c: IdColumn): Option<Uuid> {
    match c
    case Serial(_) => None
    case UuidColumn(u) => Some(u)
  }

  /**
   * Whatever the type of tasks.id, SaveTask's Scan into an int or the reads'
   * Scan into entity.Task.ID fails.
   */
  lemma NoTaskIdColumnServesBoth(c: IdColumn)
    ensures ScanIntoInt(c).None? || ScanIntoUuid(c).None?
  {
  }

  /** Scanning one stored row, whose id column holds `id`, into an entity.Task. */
  function ScanTaskRow(row: Task, id: IdColumn): Option<Task> {
    match ScanIntoUuid(id)
    case None => None
    case Some(u) => Some(row.(id := u))
  }

  /**
   * The `for rows.Next()` loop of GetTasks, for an id column whose value in
   * a row is `column(row)`: the first row that fails to scan ends it.
   */
  function ScanTaskRows(rows: seq<Task>, column: Task -> IdColumn): Option<seq<Task>> {
    if rows == [] then Some([])
    else match ScanTaskRow(rows[0], column(rows[0]))
      case None => None
      case Some(task) =>
        match ScanTaskRows(rows[1..], column)
        case None => None
        case Some(rest) => Some([task] + rest)
  }

  /** GetTaskByID as it stands: the task and the error it returns. */
  function GetTaskByIDAsWritten(table: seq<Task>, id: nat, fault: bool): (Task, Option<Error>) {
    if fault then (ZeroTask, Some(Postgres.StorageFailure(Postgres.OpGetTask)))
    else match IndexWhere(table, (k: Task) => k.id == id)
      case None => (ZeroTask, Some(Fail(Postgres.OpGetTask + ": execute statement", Driver(ErrNoRows))))
      case Some(i) =>
        match ScanTaskRow(table[i], Serial(table[i].id))
        case None => (ZeroTask, Some(Fail(Postgres.OpGetTask + ": execute statement", Driver(ScanError))))
        case Some(task) => (task, None)
  }

  /**
   * As written, GetTaskByID never returns a task: an id with no row gives
   * sql.ErrNoRows, and an id with a row fails at the Scan of its id.
   */
  lemma GetTaskByIDAsWrittenNeverSucceeds(table: seq<Task>, id: nat, fault: bool)
    ensures GetTaskByIDAsWritten(table, id, fault).0 == ZeroTask
    ensures GetTaskByIDAsWritten(table, id, fault).1.Some?
    ensures !fault && (exists i | 0 <= i < |table| :: table[i].id == id) ==>
      Is(GetTaskByIDAsWritten(table, id, fault).1.value, Driver(ScanError))
    ensures !fault && (forall i | 0 <= i < |table| :: table[i].id != id) ==>
      Is(GetTaskByIDAsWritten(table, id, fault).1.value, Driver(ErrNoRows))
  {
  }

  /** GetTasks as it stands: the rows and the error it returns. */
  function GetTasksAsWritten(table: seq<Task>, fault: bool): (seq<Task>, Option<Error>) {
    if fault then ([], Some(Postgres.StorageFailure(Postgres.OpGetTasks)))
    else match ScanTaskRows(table, (k: Task) => Serial(k.id))
      case None => ([], Some(Fail(Postgres.OpGetTasks + ": scan row", Driver(ScanError))))
      case Some(tasks) => (tasks, None)
  }

  /** As written, GetTasks succeeds only on an empty table, and then returns no rows. */
  lemma GetTasksAsWrittenFailsUnlessEmpty(table: seq<Task>)
    ensures GetTasksAsWritten(table, false).0 == []
    ensures GetTasksAsWritten(table, false).1.None? <==> table == []
    ensures table != [] ==> Is(GetTasksAsWritten(table, false).1.value, Driver(ScanError))
  {
  }

  /**
   * GetTasksByReportID as it stands: the statement has one placeholder but
   * Query() is called with no value, so database/sql refuses it before the
   * report id is ever used.
   */
  function GetTasksByReportIDAsWritten(table: seq<Task>, id: nat, fault: bool): (seq<Task>, Option<Error>) {
    if fault then ([], Some(Postgres.StorageFailure(Postgres.OpGetTasksByReportID)))
    else
      var bound: seq<SqlValue> := [];
      var refusal := CheckArity(1, |bound|);
      ([], Some(Fail(Postgres.OpGetTasksByReportID + ": execute statement", Driver(refusal.value))))
  }

  /** As written, GetTasksByReportID fails on every input, whatever the tasks table holds. */
  lemma GetTasksByReportIDAsWrittenNeverSucceeds(table: seq<Task>, id: nat, fault: bool)
    ensures GetTasksByReportIDAsWritten(table, id, fault).0 == []
    ensures GetTasksByReportIDAsWritten(table, id, fault).1.Some?
    ensures !fault ==> Is(GetTasksByReportIDAsWritten(table, id, fault).1.value, Driver(ArgCount(1, 0)))
  {
  }
}
