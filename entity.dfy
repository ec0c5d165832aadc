/**
 * The record types of package entity (internal/storage/postgres/entity).
 * Each is also the row shape of its table.
 */
module Entity {

  import opened Wrappers

  /** A uuid.UUID. Only equality is ever used, so the 128 bits are a number. */
  type Uuid = nat

  /** uuid.Nil, the all-zero UUID. */
  const NilUuid: Uuid := 0

  /** A time.Time. Only the order of instants matters here. */
  type Time = int

  /** The zero time.Time, which a field holds when a query does not select its column. */
  const ZeroTime: Time := 0

  /**
   * What a deleted_at column holds: an instant, or, because SoftDeleteDeveloper
   * binds a string there, a piece of text.
   */
  datatype Stamp = At(instant: Time) | Text(text: string)

  /**
   * entity.Developer. The struct declares the name fields as Firstname and
   * Lastname, but the storage layer and the handlers read and write Name and
   * LastName; the model follows the code that uses them. DeletedAt is a
   * *time.Time in Go; here it is the column's value, which may be text.
   */
  datatype Developer = Developer(
    id: Uuid,
    name: string,
    lastName: string,
    createdAt: Time,
    modifiedAt: Time,
    deletedAt: Option<Stamp>)

  /** entity.Project; the id is a store-assigned sequence number. */
  datatype Project = Project(
    id: nat,
    name: string,
    description: string,
    createdAt: Time,
    modifiedAt: Time,
    deletedAt: Option<Time>)

  /** entity.Report; the id is a store-assigned sequence number. */
  datatype Report = Report(
    id: nat,
    developerId: Uuid,
    createdAt: Time,
    modifiedAt: Time,
    deletedAt: Option<Time>)

  /**
   * entity.Task. The struct declares ID as a uuid.UUID, but SaveTask scans the
   * returned id into an int and GetTaskByID looks it up by a uint, so the
   * model keys tasks by a store-assigned number. (Scanning that number into
   * the uuid.UUID field fails: see AsWritten.GetTaskByIDAsWritten.)
   *
   * ReportID and ProjectID are uuid.UUID values in Go, while reports and
   * projects are keyed by uint sequence numbers. The model gives all of them
   * the one type `nat`, so a task's report reference can equal a report's
   * id. In Go the types disagree: whichever type the schema gives
   * tasks.report_id, either SaveTask's uuid or GetTasksByReportID's integer
   * is refused (a text column would match nothing). The schema is not part
   * of this model.
   */
  datatype Task = Task(
    id: nat,
    reportId: Uuid,
    projectId: Uuid,
    name: string,
    developerNote: string,
    estimatePlaned: int,
    estimateProgress: int,
    startTimestamp: Time,
    endTimestamp: Time,
    createdAt: Time)

  /** The zero values Go returns beside an error (`entity.Developer{}` and so on). */
  const ZeroDeveloper := Developer(NilUuid, "", "", ZeroTime, ZeroTime, None)
  const ZeroProject := Project(0, "", "", ZeroTime, ZeroTime, None)
  const ZeroReport := Report(0, NilUuid, ZeroTime, ZeroTime, None)
  const ZeroTask := Task(0, NilUuid, NilUuid, "", "", 0, 0, ZeroTime, ZeroTime, ZeroTime)

  function ProjectCreatedAt(p: Project): Time { p.createdAt }
  function ReportCreatedAt(r: Report): Time { r.createdAt }
}
