# Calendar storage and handlers, modelled in Dafny

This project models the persistence layer of the calendar backend. It also models the decision logic of three of its HTTP handlers.

- **The PostgreSQL repository** (`internal/storage/postgres/postgres.go`) is the class `Postgres.Storage`. It holds four tables: developers, projects, reports and tasks. It also holds the id sequences of the three tables keyed by serial numbers.
  - Every statement is a method that changes the tables in place:
    - an INSERT appends a row;
    - an UPDATE … WHERE id rewrites the named columns of the matching rows;
    - a SELECT … WHERE is a filter;
    - ORDER BY created_at DESC is a sort.
  - The list methods build their results with a loop, as the `for rows.Next()` loops do.
  - Each method's contract ties the result to a specification function over the tables, or states the whole new state.
  - The invariant `Valid` is preserved by every write: primary keys are distinct, and sequence ids are positive and below their sequence.
- **Errors** (`Errors`) follow Go's wrapping: `fmt.Errorf("%s: %w", …)` builds a chain. `Is` walks that chain as `errors.Is` does. The causes modelled are:
  - the storage sentinels;
  - the driver outcomes the statements can produce: `sql.ErrNoRows`, a placeholder-count refusal, a syntax error, a unique-key violation, a Scan type mismatch, an unavailable database.
- **NewUpdateProjectHandler** (`put_project.go`), **NewDeveloperHandler** (`savedev.go`) and **NewGetDeveloperReportsHandler** (`get_report_dev_id.go`) are pure functions.
  - Their inputs are the parsed request and the store interface, passed as function values.
  - Each returns the status code, the JSON body and the store calls made.
  - Lemmas state each branch of each handler.
  - Further lemmas wire each handler to the store model. This shows how the handler behaves against the repository as written.
- **Text** models two Go functions: `strconv.ParseUint(s, 10, 32)`, and `len` of a string, which is its UTF-8 byte length.
- **Scenario** walks one developer through save, report, list, soft delete and lookup.

Five operations of the repository fail as written. Each fails on every input that reaches the database, with one exception: GetTasks on an empty table returns no rows and no error. `AsWritten` models each one as it stands, up to its first failure. The class `Postgres.Storage` uses the corrected statement, and "## Findings" lists all five:
- `SaveDeveloper` binds four values to six placeholders (`AsWritten.SaveDeveloperAsWritten`). It also scans from an INSERT with no RETURNING clause; that second failure is described, not modelled.
- `SaveReport` names the column `c`‹tab›`reated_at`, which does not prepare (`AsWritten.SaveReportAsWritten`).
- `GetTaskByID` and `GetTasks` scan the integer task id into `entity.Task.ID`, a `uuid.UUID`, which refuses an integer (`AsWritten.GetTaskByIDAsWritten`, `AsWritten.GetTasksAsWritten`).
- `GetTasksByReportID` never binds its one placeholder (`AsWritten.GetTasksByReportIDAsWritten`).

Other places where the code differs from its documented intent. The model follows the code in each:
- `GetDeveloperByID` has no `deleted_at IS NULL` condition, so a soft-deleted developer is still found.
- For a missing row, `GetDeveloperByID` returns a wrapped `sql.ErrNoRows`, not `ErrDeveloperNotFound`. So the developer-reports handler answers 500, never 404, for an unknown developer (`DeveloperReportsHandler.AbsentDeveloperYields500`).
- `UpdateDeveloper` and `UpdateProject` ignore the Exec result. An unknown id therefore changes nothing and still reports success. Neither validates its fields, and neither does `SaveProject`.
- `SoftDeleteDeveloper` on a developer already deleted succeeds again.
- `SaveReport` and `SaveProject` scan the new id into their own copy of the argument, so the caller never receives it.
- `entity.Developer` declares `Firstname`/`Lastname`, but the storage and the handlers use `Name`/`LastName`. The model uses `name`/`lastName`.
- SaveTask scans the task id into an `int`, but `entity.Task` declares its `ID` as a UUID. The model keys tasks by an integer, as SaveTask does. The reads that scan into the UUID field are among the five failures above.
- The handler interfaces call `GetDeveloperById` and `GetProjectById`, but the store defines `GetDeveloperByID` and `GetProjectByID`. The model connects them by meaning.

## Model

| member | source | states |
|---|---|---|
| Errors.IsRoot | internal/http_server/handlers/savedev.go:70 | `errors.Is` on a wrap chain holds exactly when the innermost cause is the target: wrapping with context never hides or changes a sentinel |
| Sql.IndexWhere | internal/storage/postgres/postgres.go:242-245 | the lookup `WHERE id = $1` finds the first row satisfying the condition; it finds none exactly when no row satisfies it |
| Sql.InsertDescRows | internal/storage/postgres/postgres.go:405-416 | adding one scanned row to the ordered result adds exactly that row (multiset) |
| Sql.InsertDescSorted | internal/storage/postgres/postgres.go:389-392 | adding a row to a result in non-increasing created_at order keeps it in that order |
| Sql.SortDescCorrect | internal/storage/postgres/postgres.go:389-392 | the ORDER BY created_at DESC result is in non-increasing key order and is a permutation of the selected rows |
| Sql.SortDescSameRows | internal/storage/postgres/postgres.go:524-527 | ordering keeps the number of rows and exactly the same members |
| Text.ByteLen | internal/http_server/handlers/project/put_project.go:79 | `len` of a string counts UTF-8 bytes: at least one and at most four per character |
| Text.AsciiByteLen | internal/http_server/handlers/project/put_project.go:79-95 | for ASCII text the byte length the bounds check uses equals the number of characters |
| Text.ParseUint32 | internal/http_server/handlers/project/put_project.go:57 | `strconv.ParseUint(s, 10, 32)` accepts only values that fit in 32 bits |
| Text.FormatUint | internal/http_server/handlers/project/put_project.go:57 | the decimal rendering of a number is a non-empty digit string |
| Text.DecimalValueOfFormat | internal/http_server/handlers/project/put_project.go:57 | reading back the decimal rendering of a number gives that number |
| Text.ParseFormatRoundTrip | internal/http_server/handlers/project/put_project.go:57-65 | a project id written in decimal parses back to itself exactly when it is at most 4294967295, and is refused otherwise |
| Text.ParseRejectsNonDigits | internal/http_server/handlers/project/put_project.go:57-65 | an id segment that is empty or holds a non-digit (a sign, a space) is refused |
| Postgres.DeveloperById | internal/storage/postgres/postgres.go:242-262 | a developer is found exactly when a row has the id, soft-deleted or not; the result is that row's id, names and created_at; a missing row is a wrapped sql.ErrNoRows and never ErrDeveloperNotFound |
| Postgres.ProjectById | internal/storage/postgres/postgres.go:564-587 | found exactly when a row has that id, with its id, name, description and created_at; otherwise a zero project and an error wrapping ErrProjectNotFound |
| Postgres.ReportById | internal/storage/postgres/postgres.go:428-450 | found exactly when a row has that id, with its id, developer id and created_at; otherwise a zero report and an error wrapping ErrReportNotFound |
| Postgres.TaskById | internal/storage/postgres/postgres.go:77-105 | the corrected read (id scanned as an integer): found exactly when a row has that id, all columns; otherwise a zero task and a wrapped sql.ErrNoRows |
| Postgres.ProjectByIdUnique | internal/storage/postgres/postgres.go:564-587 | with distinct ids, a successful lookup returns the columns of the one row with that id |
| Postgres.ReportByIdUnique | internal/storage/postgres/postgres.go:428-450 | with distinct ids, a successful lookup returns the columns of the one row with that id |
| Postgres.TaskByIdUnique | internal/storage/postgres/postgres.go:77-105 | with distinct ids, a successful lookup returns the one row with that id |
| Postgres.TasksOfReportMembers | internal/storage/postgres/postgres.go:159-165 | a task is in the `WHERE report_id = $1` result exactly when it is a table row of that report; the result is no longer than the table |
| Postgres.ReportRows | internal/storage/postgres/postgres.go:389-416 | the report scan yields one row per table row |
| Postgres.ProjectRows | internal/storage/postgres/postgres.go:524-552 | the project scan yields one row per table row |
| Postgres.ReportRowsMembers | internal/storage/postgres/postgres.go:389-416 | a row is in the report scan exactly when it is the selected columns of some table row |
| Postgres.ReportsOwnedByMembers | internal/storage/postgres/postgres.go:456-484 | a row is in the `WHERE developer_id = d` scan exactly when it is the selected columns of a row whose developer is d |
| Postgres.ProjectRowsMembers | internal/storage/postgres/postgres.go:524-552 | a row is in the project scan exactly when it is the selected columns of some table row |
| Postgres.ReportsOfExact | internal/storage/postgres/postgres.go:456-490 | the reports of d are in non-increasing created_at order and are a permutation of d's rows; a row is listed exactly when its developer is d; the list is empty exactly when d owns no report |
| Postgres.ReportsNewestFirstExact | internal/storage/postgres/postgres.go:389-422 | all reports, each once, in non-increasing created_at order; an empty table gives an empty list |
| Postgres.ProjectsNewestFirstExact | internal/storage/postgres/postgres.go:524-558 | all projects, each once, in non-increasing created_at order; an empty table gives an empty list |
| Postgres.Storage.constructor | internal/storage/postgres/postgres.go:19-28 | a new store has empty tables, every sequence at 1, and satisfies the invariant |
| Postgres.Storage.SaveTask | internal/storage/postgres/postgres.go:32-72 | an empty name or a non-positive planned estimate returns 0 and ErrInvalidTaskData and changes nothing; otherwise the task is appended with the next sequence id and created_at, and that id is returned; the invariant is kept |
| Postgres.Storage.GetTaskByID | internal/storage/postgres/postgres.go:74-106 | corrected read with the id scanned as an integer: returns the row with that id, or sql.ErrNoRows exactly when there is none; a storage failure gives a zero task |
| Postgres.Storage.GetTasks | internal/storage/postgres/postgres.go:108-154 | corrected read with the id scanned as an integer: returns every task, all columns, in table order |
| Postgres.Storage.GetTasksByReportID | internal/storage/postgres/postgres.go:156-199 | corrected statement with the id bound: exactly the tasks of that report, all columns, in table order; empty with no error when it has none |
| Postgres.Storage.SaveDeveloper | internal/storage/postgres/postgres.go:203-237 | corrected statement (all six values bound): an empty name or last name returns uuid.Nil and ErrInvalidDeveloperData and adds no row; otherwise exactly one row is appended, keyed by the fresh id that is returned and carrying the given names; a reused id is a unique violation and changes nothing |
| Postgres.Storage.GetDeveloperByID | internal/storage/postgres/postgres.go:239-263 | succeeds exactly when a row has the id, deleted or not, and returns that row's selected columns |
| Postgres.Storage.GetDevelopers | internal/storage/postgres/postgres.go:265-302 | returns the selected columns of every developer, soft-deleted ones too, in table order |
| Postgres.Storage.UpdateDeveloper | internal/storage/postgres/postgres.go:304-327 | only name and last_name of the rows with that id change; every other row and column is unchanged; an unknown id changes nothing and returns no error |
| Postgres.Storage.SoftDeleteDeveloper | internal/storage/postgres/postgres.go:329-358 | on an existing id only deleted_at (the bound text "Удалён") and modified_at of that row change; an unknown id returns "developer not found" wrapping sql.ErrNoRows and changes nothing |
| Postgres.Storage.SaveReport | internal/storage/postgres/postgres.go:362-384 | corrected statement (`created_at` spelled correctly): appends exactly one report with the next sequence id, the given developer and the current time, and returns no id |
| Postgres.Storage.GetReport | internal/storage/postgres/postgres.go:386-423 | returns every report once (a permutation of the table's rows), newest first |
| Postgres.Storage.GetReportById | internal/storage/postgres/postgres.go:425-451 | returns the row with the id, or ErrReportNotFound exactly when none has it |
| Postgres.Storage.GetReportsByDeveloperID | internal/storage/postgres/postgres.go:453-491 | returns exactly the reports of d, newest first, and an empty list with no error when d owns none |
| Postgres.Storage.SaveProject | internal/storage/postgres/postgres.go:495-519 | appends exactly one project with the next sequence id, the given name and description and the current time; nothing is validated |
| Postgres.Storage.GetProject | internal/storage/postgres/postgres.go:521-559 | returns every project once (a permutation of the table's rows), newest first |
| Postgres.Storage.GetProjectByID | internal/storage/postgres/postgres.go:561-588 | returns the row with the id, or ErrProjectNotFound exactly when none has it |
| Postgres.Storage.UpdateProject | internal/storage/postgres/postgres.go:590-607 | only name, description and modified_at of the rows with that id change; everything else is unchanged; an unknown id changes nothing and returns no error |
| AsWritten.SaveDeveloperAsWrittenNeverStores | internal/storage/postgres/postgres.go:212-234 | as written, every SaveDeveloper with valid names returns uuid.Nil and an error (expected 6 arguments, got 4) and leaves the table unchanged |
| AsWritten.SaveReportAsWrittenNeverStores | internal/storage/postgres/postgres.go:365-372 | as written, every SaveReport fails, because the column list "c‹tab›reated_at" does not prepare; no row is added |
| AsWritten.CorrectedReportInsertStores | internal/storage/postgres/postgres.go:365-383 | with the column list spelled `created_at` the insert adds exactly the row the store's SaveReport adds |
| AsWritten.NoTaskIdColumnServesBoth | internal/storage/postgres/postgres.go:56-66 | whatever the type of tasks.id, either SaveTask's Scan into an int or the reads' Scan into the uuid.UUID field fails |
| AsWritten.GetTaskByIDAsWrittenNeverSucceeds | internal/storage/postgres/postgres.go:88-103 | as written, GetTaskByID never returns a task: a present id fails at the Scan of its id, an absent one gives sql.ErrNoRows |
| AsWritten.GetTasksAsWrittenFailsUnlessEmpty | internal/storage/postgres/postgres.go:128-146 | as written, GetTasks returns no rows, and no error only on an empty table; otherwise "scan row" fails on the first row |
| AsWritten.GetTasksByReportIDAsWrittenNeverSucceeds | internal/storage/postgres/postgres.go:159-174 | as written, GetTasksByReportID fails on every input, because Query() binds no value for its one placeholder (expected 1 argument, got 0) |
| UpdateProjectHandler.ServeUpdateProject | internal/http_server/handlers/project/put_project.go:32-141 | the reply code is one of 200, 400, 404, 405, 500; it is 200 exactly when the status is "success"; at most two store calls |
| UpdateProjectHandler.StoreCalledOnlyWhenWellFormed | internal/http_server/handlers/project/put_project.go:37-98 | the store is consulted exactly when the method is PUT, the id parses, the body decodes and the field bounds hold |
| UpdateProjectHandler.NonPutRejected | internal/http_server/handlers/project/put_project.go:37-44 | a non-PUT method gives 405 "method not allowed" and no store call |
| UpdateProjectHandler.BadProjectIdRejected | internal/http_server/handlers/project/put_project.go:47-65 | fewer than 3 path segments, or a segment 2 that is not a base-10 uint32, give 400 and no store call |
| UpdateProjectHandler.FieldBoundsRejected | internal/http_server/handlers/project/put_project.go:79-95 | a name outside 2..100 bytes or a description over 500 bytes gives 400 before any store call |
| UpdateProjectHandler.LookupFailureMapped | internal/http_server/handlers/project/put_project.go:98-114 | a lookup error wrapping ErrProjectNotFound gives 404, any other gives 500; UpdateProject is not called |
| UpdateProjectHandler.UpdateGetsComposedRecord | internal/http_server/handlers/project/put_project.go:98-124 | UpdateProject is called only after a successful lookup of the same id, with the path id, the request's name and description and the existing CreatedAt |
| UpdateProjectHandler.UpdateOutcomeMapped | internal/http_server/handlers/project/put_project.go:124-139 | an update error gives 500; otherwise 200, "success" and the composed project |
| UpdateProjectHandler.ServedByStore | internal/http_server/handlers/project/put_project.go:98-139 | against the store, a well-formed request gets 404 exactly when no project has the id, otherwise 200 with the stored creation time kept |
| NewDeveloperHandler.ServeNewDeveloper | internal/http_server/handlers/savedev.go:30-93 | the reply code is one of 201, 400, 405, 500; it is 201 exactly when the status is "ok"; the saver is called at most once |
| NewDeveloperHandler.NonPostRejected | internal/http_server/handlers/savedev.go:34-41 | a non-POST method gives 405 "method not allowed" and the saver is not called |
| NewDeveloperHandler.EmptyNameRejected | internal/http_server/handlers/savedev.go:53-60 | an empty name or last name gives 400 and the saver is not called |
| NewDeveloperHandler.SaverGetsRequestFields | internal/http_server/handlers/savedev.go:43-66 | the saver is called exactly when the method is POST, the body decodes and both names are non-empty, and it receives exactly the request's Name, LastName and DeletedAt |
| NewDeveloperHandler.SaverOutcomeMapped | internal/http_server/handlers/savedev.go:68-91 | a saver error wrapping ErrInvalidDeveloperData gives 400, any other 500; success gives 201, "ok" and the saver's id |
| NewDeveloperHandler.ServedByStoreAsWritten | internal/http_server/handlers/savedev.go:68-85 | against SaveDeveloper as written, every well-formed request gets 500 "failed to save developer" |
| DeveloperReportsHandler.ServeDeveloperReports | internal/http_server/handlers/report/get_report_dev_id.go:26-94 | the reply code is one of 200, 400, 404, 405, 500; a 200 has status "success" and Count equal to the number of reports; at most two store calls |
| DeveloperReportsHandler.MalformedRequestRejected | internal/http_server/handlers/report/get_report_dev_id.go:29-56 | a non-GET method gives 405; fewer than 4 segments or a segment 2 that is not a UUID gives 400; no store call either way |
| DeveloperReportsHandler.LookupFailureMapped | internal/http_server/handlers/report/get_report_dev_id.go:58-74 | a lookup error wrapping ErrDeveloperNotFound gives 404, any other 500; the reports are not fetched |
| DeveloperReportsHandler.ReportsFetchedAfterLookup | internal/http_server/handlers/report/get_report_dev_id.go:58-91 | the reports are fetched only after a successful lookup of the same developer; a reports error gives 500; success gives 200 with the reports unchanged and Count equal to their number |
| DeveloperReportsHandler.AbsentDeveloperYields500 | internal/http_server/handlers/report/get_report_dev_id.go:58-74 | against the store, a developer with no row gets 500 "failed to get developer", never 404 |
| DeveloperReportsHandler.PresentDeveloperListsReports | internal/http_server/handlers/report/get_report_dev_id.go:58-91 | against the store, a developer with a row (deleted or not) gets 200 with exactly their reports, newest first, and their count |
| Scenario.SaveReportDeleteLookup | internal/storage/postgres/postgres.go:203-491 | corrected statements for SaveDeveloper and SaveReport: on an empty store, the saved developer gets the drawn id, their report gets id 1 and is the only one listed, and after a soft delete the lookup still succeeds |

## Left out

- The database connection, Prepare, Close, Query, Scan and `rows.Err` are each collapsed into one `fault` flag per operation. A true flag yields an error wrapping "execute statement" and changes nothing. Which step failed, and the driver's own messages, are not modelled. `New` and `Close` (`postgres.go:19-28, 609-611`) keep no state beyond the connection.
- `time.Now()` and PostgreSQL's `NOW()` become the `now` parameter, and so does every `created_at` a statement binds. Columns that a statement leaves to the schema's defaults and no read selects, such as `modified_at` after SaveReport and SaveProject, are stored as the zero time. Time is an integer, ordered as time is.
- The id sequences advance only when an INSERT succeeds. PostgreSQL's `nextval` also uses up a value when the INSERT fails, so the gaps this leaves in the sequence are not modelled.
- `uuid.New()` becomes the `uid` parameter. A `uid` already present is refused as a unique violation instead of being assumed fresh.
- `uuid.Parse` is the `parseUuid` function parameter. The UUID text format is not modelled.
- JSON decoding and encoding, response headers, `omitempty` and `strings.Split` of the URL path are left out. The handlers take the decoded body (None when it does not decode) and the list of path segments. They return the body as a value.
- Postgres.Storage.SaveDeveloper: "generates no id on invalid input" is not expressible, because the id is a parameter. The contract says instead that no row is added and uuid.Nil is returned.
- database/sql's placeholder count check is not derived from the driver: `Sql.CheckArity` defines it, and the model assumes database/sql refuses a statement exactly when the count of bound values differs from its placeholders.
- Postgres.Storage.GetReport: rows with equal created_at come out in one fixed order (the later table row first). PostgreSQL's `ORDER BY created_at DESC` leaves ties in no particular order; the clauses a caller may rely on are the sorted, permutation and membership ones.
- Postgres.Storage.GetReportsByDeveloperID: fixes the same tie order among equal created_at as GetReport; PostgreSQL promises none.
- Postgres.Storage.GetProject: fixes the same tie order among equal created_at as GetReport; PostgreSQL promises none.
- DeveloperReportsHandler.PresentDeveloperListsReports: its equality with `Postgres.ReportsOf` fixes the same tie order; the sorted and membership clauses are what PostgreSQL promises.
- Postgres.Storage.GetTasks: no ORDER BY, so PostgreSQL promises no order at all; the model returns table order.
- Postgres.Storage.GetDevelopers: no ORDER BY (`postgres.go:268-270`), so PostgreSQL promises no order; the model returns table order.
- Postgres.Storage.GetTasksByReportID: no ORDER BY (`postgres.go:159-165`), so PostgreSQL promises no order; the model returns table order.
- Postgres.Storage.GetTasksByReportID: the model treats a task's report reference as a number that equals a report's sequence id. In Go the types disagree: `entity.Task.ReportID` is a `uuid.UUID`, while reports are keyed by `uint`, and the corrected statement binds a `uint` id. The schema is not part of this model, and its type for `tasks.report_id` decides which statement fails: an integer column refuses SaveTask's uuid, and a uuid column refuses this integer.
- Postgres.Storage.SaveTask: stores the report and project references as numbers comparable with sequence ids. In Go they are `uuid.UUID` values bound into `tasks.report_id` and `tasks.project_id` (`postgres.go:58-59`), while reports and projects are keyed by `uint`. The unseen schema decides whether this insert or the integer-keyed reads fail.
- Postgres.Storage.SoftDeleteDeveloper: `deleted_at` receives the text "Удалён", as written. A typed timestamp column might refuse it, but the schema is not part of this model.
- Foreign keys are left out: a report or task may name a developer, report or project that does not exist, since the code never checks. Schema constraints are not part of this model.
- The other handlers (`get_report_by_id.go`, `get_project_id.go`, `post_project.go`, `post_report.go`, `get_project.go`, `get_all_report.go`) are left out. Each is a method check, one store call and a fixed status mapping. Four of them test the wrong sentinel:
  - `get_project_id.go:65` tests `ErrReportNotFound` on a project lookup;
  - `get_project.go:39` tests `ErrReportNotFound` after `GetProject`, a project list that never returns it;
  - `post_project.go:62` and `post_report.go:63` test `ErrInvalidDeveloperData`.
  In a fifth, `get_all_report.go:36` tests `ErrReportNotFound` after `GetReport`, which never returns it, so its 404 branch cannot be reached.
- `cmd/main/main.go` is left out: it only loads the configuration and starts the listener.
- Concurrency is left out: the code has no in-process concurrency or deadlines. Each operation is atomic in the model.
- AsWritten.SaveDeveloperAsWrittenNeverStores: only the first failure is modelled, the placeholder count. The INSERT also has no RETURNING clause, so even with six bound values its `Scan` would report sql.ErrNoRows. That second failure is described, not modelled.

## Findings

| source | as written | input that shows it | evidently intended | confidence | as-written member | corrected member |
|---|---|---|---|---|---|---|
| internal/storage/postgres/postgres.go:212-231 | the INSERT has six placeholders, but QueryRow binds four values and then scans from a statement with no RETURNING clause | any developer with a non-empty name and last name, e.g. Name "Ada", LastName "Lovelace" | bind id, names, created_at, modified_at and deleted_at, and add the row | not executed | AsWritten.SaveDeveloperAsWrittenNeverStores | Postgres.Storage.SaveDeveloper |
| internal/storage/postgres/postgres.go:88-100 | GetTaskByID scans the id column, an integer (SaveTask scans it into an `int`, lines 56 and 66), into `entity.Task.ID`, a `uuid.UUID`, whose Scan refuses an integer | any stored task, e.g. GetTaskByID(1) after SaveTask returned 1 | scan the id into an integer field and return the row | not executed | AsWritten.GetTaskByIDAsWrittenNeverSucceeds | Postgres.Storage.GetTaskByID |
| internal/storage/postgres/postgres.go:129-145 | GetTasks scans each row's integer id into the `uuid.UUID` field, so the first row ends the loop with "scan row" | any non-empty tasks table, e.g. one task saved | return every row | not executed | AsWritten.GetTasksAsWrittenFailsUnlessEmpty | Postgres.Storage.GetTasks |
| internal/storage/postgres/postgres.go:164-171 | the statement has the placeholder `$1`, but `stmt.Query()` passes no value | any id, e.g. GetTasksByReportID(1) | `stmt.Query(ID)`: the tasks of that report | not executed | AsWritten.GetTasksByReportIDAsWrittenNeverSucceeds | Postgres.Storage.GetTasksByReportID |
| internal/storage/postgres/postgres.go:366-368 | the column list reads `c`, a tab, then `reated_at` in place of `created_at`, so the statement does not prepare | any report, e.g. DeveloperID of an existing developer | insert into `(developer_id, created_at)` | not executed | AsWritten.SaveReportAsWrittenNeverStores | Postgres.Storage.SaveReport |
