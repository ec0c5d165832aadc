/**
 * The end-to-end walk through the store: save a developer, save a report
 * for them, list their reports, soft-delete them and look them up again.
 * This uses the corrected SaveDeveloper and SaveReport statements.
 */
module Scenario {

  import opened Wrappers
  import opened Errors
  import opened Entity
  import Sql
  import Postgres

  /**
   * On an empty database the developer gets the drawn id, the report gets
   * sequence id 1 and is the only one listed, and after the soft delete the
   * lookup still succeeds: GetDeveloperByID does not filter deleted rows.
   */
  method SaveReportDeleteLookup(uid: Uuid, t0: Time, t1: Time, t2: Time)
    returns (d1: Uuid, listed: seq<Report>, afterDelete: Option<Error>, found: Developer)
    ensures d1 == uid
    ensures listed == [Report(1, uid, t1, ZeroTime, None)]
    ensures afterDelete.None?
    ensures found == Developer(uid, "Ada", "Lovelace", t0, ZeroTime, None)
  {
    var store := new Postgres.Storage();
    var saveErr;
    d1, saveErr := store.SaveDeveloper(Developer(NilUuid, "Ada", "Lovelace", ZeroTime, ZeroTime, None), uid, t0, false);
    assert store.developers == [Developer(uid, "Ada", "Lovelace", t0, t0, None)];
    var reportErr := store.SaveReport(Report(0, d1, ZeroTime, ZeroTime, None), t1, false);
    var r1 := Report(1, uid, t1, ZeroTime, None);
    assert store.reports == [r1];
    assert [r1][..0] == [];
    assert Postgres.ReportsOwnedBy([r1], uid) == [r1];
    assert Sql.SortDesc([r1], ReportCreatedAt) == Sql.InsertDesc([], r1, ReportCreatedAt) == [r1];
    var listErr;
    listed, listErr := store.GetReportsByDeveloperID(d1, false);
    var deleteErr := store.SoftDeleteDeveloper(d1, t2, false);
    found, afterDelete := store.GetDeveloperByID(d1, false);
  }
}
