/**
 The work-unit store: the two SQLite tables `workunit` and `app_version`, each
 modelled as a map from its primary key to the stored row. Every operation of
 the store runs under one mutex, so each is an atomic step from one store value
 to the next.
 */
module Database {
  import opened Seqs

  /** Status code the proxy writes for freshly dispatched work ("assigned"). */
  const Assigned: nat := 1
  /** Status code of a cancelled result; the planificator ignores such rows. */
  const Cancelled: nat := 6

  /** One row of the `workunit` table. Resource estimates are exact reals. */
  datatype WorkUnit = WorkUnit(
    cpid: string,
    project: string,
    name: string,
    status: nat,
    appName: string,
    rscFpopsEst: real,
    rscFpopsBound: real,
    rscMemoryBound: real,
    rscDiskBound: real,
    platform: string,
    versionNum: nat,
    planClass: string,
    resultName: string,
    timestamp: nat)

  /** One row of the `app_version` table. */
  datatype AppVersion = AppVersion(
    project: string,
    appName: string,
    userFriendlyName: string,
    version: nat,
    platform: string,
    planClass: string)

  /** `PRIMARY KEY(result_name, project)` */
  datatype WorkUnitKey = WorkUnitKey(resultName: string, project: string)

  /** `PRIMARY KEY(project, app_name, version, platform, plan_class)` */
  datatype AppVersionKey = AppVersionKey(
    project: string, appName: string, version: nat, platform: string, planClass: string)

  datatype DataBase = DataBase(
    workunits: map<WorkUnitKey, WorkUnit>,
    appVersions: map<AppVersionKey, AppVersion>)

  function KeyOf(w: WorkUnit): WorkUnitKey {
    WorkUnitKey(w.resultName, w.project)
  }

  function AppVersionKeyOf(a: AppVersion): AppVersionKey {
    AppVersionKey(a.project, a.appName, a.version, a.platform, a.planClass)
  }

  /** The freshly created database: both tables exist and are empty. */
  function Empty(): DataBase {
    DataBase(map[], map[])
  }

  /** Every row is stored under its own primary key. */
  ghost predicate Valid(db: DataBase) {
    && (forall k :: k in db.workunits ==> KeyOf(db.workunits[k]) == k)
    && (forall k :: k in db.appVersions ==> AppVersionKeyOf(db.appVersions[k]) == k)
  }

  lemma EmptyIsValid()
    ensures Valid(Empty())
  {
  }

  /** The same rows, apart from the status column of the work units. */
  ghost predicate SameButStatus(a: WorkUnit, b: WorkUnit) {
    a.(status := b.status) == b
  }

  /** `add_work_unit`: `INSERT OR IGNORE INTO workunit`. */
  function AddWorkUnit(db: DataBase, w: WorkUnit): (r: DataBase)
    ensures r.appVersions == db.appVersions
    ensures r.workunits.Keys == db.workunits.Keys + {KeyOf(w)}
    ensures forall k :: k in db.workunits ==> r.workunits[k] == db.workunits[k]
    ensures KeyOf(w) !in db.workunits ==> r.workunits[KeyOf(w)] == w
    ensures Valid(db) ==> Valid(r)
  {
    if KeyOf(w) in db.workunits then db
    else db.(workunits := db.workunits[KeyOf(w) := w])
  }

  /** `add_app_version`: `INSERT OR IGNORE INTO app_version`. */
  function AddAppVersion(db: DataBase, a: AppVersion): (r: DataBase)
    ensures r.workunits == db.workunits
    ensures r.appVersions.Keys == db.appVersions.Keys + {AppVersionKeyOf(a)}
    ensures forall k :: k in db.appVersions ==> r.appVersions[k] == db.appVersions[k]
    ensures AppVersionKeyOf(a) !in db.appVersions ==> r.appVersions[AppVersionKeyOf(a)] == a
    ensures Valid(db) ==> Valid(r)
  {
    if AppVersionKeyOf(a) in db.appVersions then db
    else db.(appVersions := db.appVersions[AppVersionKeyOf(a) := a])
  }

  /**
   `update_status`: `UPDATE workunit SET status WHERE project AND result_name`.
   The row's cpid plays no part; a missing row makes this a silent no-op.
   */
  function UpdateStatus(db: DataBase, project: string, name: string, status: nat): (r: DataBase)
    ensures r.appVersions == db.appVersions
    ensures r.workunits.Keys == db.workunits.Keys
    ensures forall k :: k in db.workunits && k != WorkUnitKey(name, project) ==>
      r.workunits[k] == db.workunits[k]
    ensures WorkUnitKey(name, project) in db.workunits ==>
      && r.workunits[WorkUnitKey(name, project)].status == status
      && SameButStatus(db.workunits[WorkUnitKey(name, project)], r.workunits[WorkUnitKey(name, project)])
    ensures WorkUnitKey(name, project) !in db.workunits ==> r == db
    ensures Valid(db) ==> Valid(r)
  {
    var k := WorkUnitKey(name, project);
    if k in db.workunits then
      db.(workunits := db.workunits[k := db.workunits[k].(status := status)])
    else db
  }

  /** `add_work_unit` for each row, in order. */
  function InsertWorkUnits(db: DataBase, rows: seq<WorkUnit>): (r: DataBase)
    ensures r.appVersions == db.appVersions
    ensures forall k :: k in db.workunits ==> k in r.workunits && r.workunits[k] == db.workunits[k]
    ensures Valid(db) ==> Valid(r)
    decreases |rows|
  {
    if |rows| == 0 then db
    else AddWorkUnit(InsertWorkUnits(db, rows[..|rows| - 1]), rows[|rows| - 1])
  }

  /** The primary keys of a batch of rows. */
  function KeysOf(rows: seq<WorkUnit>): set<WorkUnitKey> {
    set w | w in rows :: KeyOf(w)
  }

  /** Inserting a batch adds exactly the keys of the batch. */
  lemma {:induction false} InsertWorkUnitsKeys(db: DataBase, rows: seq<WorkUnit>)
    ensures InsertWorkUnits(db, rows).workunits.Keys == db.workunits.Keys + KeysOf(rows)
    decreases |rows|
  {
    if |rows| > 0 {
      var n := |rows| - 1;
      var prefix := rows[..n];
      InsertWorkUnitsKeys(db, prefix);
      KeysOfSnoc(rows);
    }
  }

  /** The keys of a batch are those of all but its last row, and the last row's. */
  lemma KeysOfSnoc(rows: seq<WorkUnit>)
    requires |rows| > 0
    ensures KeysOf(rows) == KeysOf(rows[..|rows| - 1]) + {KeyOf(rows[|rows| - 1])}
  {
    var n := |rows| - 1;
    assert rows == rows[..n] + [rows[n]];
  }

  /** A row the batch added to the store is one of the batch. */
  lemma {:induction false} InsertWorkUnitsNewRow(db: DataBase, rows: seq<WorkUnit>, k: WorkUnitKey)
    requires k !in db.workunits
    requires k in InsertWorkUnits(db, rows).workunits
    ensures InsertWorkUnits(db, rows).workunits[k] in rows
    decreases |rows|
  {
    var n := |rows| - 1;
    var prefix := rows[..n];
    var before := InsertWorkUnits(db, prefix);
    if k in before.workunits {
      InsertWorkUnitsNewRow(db, prefix, k);
      assert before.workunits[k] in prefix;
    }
  }

  /** A key the store did not hold takes the FIRST row of the batch that carries it. */
  lemma {:induction false} InsertWorkUnitsFirstWins(db: DataBase, rows: seq<WorkUnit>, i: nat)
    requires i < |rows|
    requires KeyOf(rows[i]) !in db.workunits
    requires KeyOf(rows[i]) !in KeysOf(rows[..i])
    ensures KeyOf(rows[i]) in InsertWorkUnits(db, rows).workunits
    ensures InsertWorkUnits(db, rows).workunits[KeyOf(rows[i])] == rows[i]
    decreases |rows|
  {
    var n := |rows| - 1;
    if i < n {
      var prefix := rows[..n];
      assert prefix[i] == rows[i];
      assert prefix[..i] == rows[..i];
      InsertWorkUnitsFirstWins(db, prefix, i);
      InsertWorkUnitsKeepsOld(InsertWorkUnits(db, prefix), rows[n], KeyOf(rows[i]));
    } else {
      InsertWorkUnitsLastNew(db, rows);
    }
  }

  /** Inserting a row never disturbs a row already stored. */
  lemma InsertWorkUnitsKeepsOld(db: DataBase, w: WorkUnit, k: WorkUnitKey)
    requires k in db.workunits
    ensures k in AddWorkUnit(db, w).workunits && AddWorkUnit(db, w).workunits[k] == db.workunits[k]
  {
  }

  /** The last row of a batch is stored when no earlier row or stored row has its key. */
  lemma InsertWorkUnitsLastNew(db: DataBase, rows: seq<WorkUnit>)
    requires |rows| > 0
    requires KeyOf(rows[|rows| - 1]) !in db.workunits
    requires KeyOf(rows[|rows| - 1]) !in KeysOf(rows[..|rows| - 1])
    ensures KeyOf(rows[|rows| - 1]) in InsertWorkUnits(db, rows).workunits
    ensures InsertWorkUnits(db, rows).workunits[KeyOf(rows[|rows| - 1])] == rows[|rows| - 1]
  {
    InsertWorkUnitsKeys(db, rows[..|rows| - 1]);
  }

  /** `add_app_version` for each row, in order. */
  function InsertAppVersions(db: DataBase, rows: seq<AppVersion>): (r: DataBase)
    ensures r.workunits == db.workunits
    ensures forall k :: k in db.appVersions ==> k in r.appVersions && r.appVersions[k] == db.appVersions[k]
    ensures Valid(db) ==> Valid(r)
    decreases |rows|
  {
    if |rows| == 0 then db
    else AddAppVersion(InsertAppVersions(db, rows[..|rows| - 1]), rows[|rows| - 1])
  }

  /** An app version the batch added to the store is one of the batch. */
  lemma {:induction false} InsertAppVersionsNewRow(db: DataBase, rows: seq<AppVersion>, k: AppVersionKey)
    requires k !in db.appVersions
    requires k in InsertAppVersions(db, rows).appVersions
    ensures InsertAppVersions(db, rows).appVersions[k] in rows
    decreases |rows|
  {
    var n := |rows| - 1;
    var prefix := rows[..n];
    var before := InsertAppVersions(db, prefix);
    if k in before.appVersions {
      InsertAppVersionsNewRow(db, prefix, k);
      assert before.appVersions[k] in prefix;
    }
  }

  /** The primary keys of a batch of app versions. */
  function AppVersionKeysOf(rows: seq<AppVersion>): set<AppVersionKey> {
    set a | a in rows :: AppVersionKeyOf(a)
  }

  /** Inserting a batch of app versions adds exactly the keys of the batch. */
  lemma {:induction false} InsertAppVersionsKeys(db: DataBase, rows: seq<AppVersion>)
    ensures InsertAppVersions(db, rows).appVersions.Keys == db.appVersions.Keys + AppVersionKeysOf(rows)
    decreases |rows|
  {
    if |rows| > 0 {
      var n := |rows| - 1;
      InsertAppVersionsKeys(db, rows[..n]);
      AppVersionKeysOfSnoc(rows);
    }
  }

  lemma AppVersionKeysOfSnoc(rows: seq<AppVersion>)
    requires |rows| > 0
    ensures AppVersionKeysOf(rows) == AppVersionKeysOf(rows[..|rows| - 1]) + {AppVersionKeyOf(rows[|rows| - 1])}
  {
    var n := |rows| - 1;
    assert rows == rows[..n] + [rows[n]];
  }

  /** A key the store did not hold takes the FIRST app version of the batch that carries it. */
  lemma {:induction false} InsertAppVersionsFirstWins(db: DataBase, rows: seq<AppVersion>, i: nat)
    requires i < |rows|
    requires AppVersionKeyOf(rows[i]) !in db.appVersions
    requires AppVersionKeyOf(rows[i]) !in AppVersionKeysOf(rows[..i])
    ensures AppVersionKeyOf(rows[i]) in InsertAppVersions(db, rows).appVersions
    ensures InsertAppVersions(db, rows).appVersions[AppVersionKeyOf(rows[i])] == rows[i]
    decreases |rows|
  {
    var n := |rows| - 1;
    if i < n {
      var prefix := rows[..n];
      assert prefix[i] == rows[i];
      assert prefix[..i] == rows[..i];
      InsertAppVersionsFirstWins(db, prefix, i);
      InsertAppVersionsKeepsOld(InsertAppVersions(db, prefix), rows[n], AppVersionKeyOf(rows[i]));
    } else {
      InsertAppVersionsLastNew(db, rows);
    }
  }

  /** Inserting an app version never disturbs one already stored. */
  lemma InsertAppVersionsKeepsOld(db: DataBase, a: AppVersion, k: AppVersionKey)
    requires k in db.appVersions
    ensures k in AddAppVersion(db, a).appVersions && AddAppVersion(db, a).appVersions[k] == db.appVersions[k]
  {
  }

  /** The last app version of a batch is stored when no earlier or stored one has its key. */
  lemma InsertAppVersionsLastNew(db: DataBase, rows: seq<AppVersion>)
    requires |rows| > 0
    requires AppVersionKeyOf(rows[|rows| - 1]) !in db.appVersions
    requires AppVersionKeyOf(rows[|rows| - 1]) !in AppVersionKeysOf(rows[..|rows| - 1])
    ensures AppVersionKeyOf(rows[|rows| - 1]) in InsertAppVersions(db, rows).appVersions
    ensures InsertAppVersions(db, rows).appVersions[AppVersionKeyOf(rows[|rows| - 1])] == rows[|rows| - 1]
  {
    InsertAppVersionsKeys(db, rows[..|rows| - 1]);
  }

  /** The `WHERE cpid=?1 AND timestamp > ?2` condition of `list_workunit_sent_since`. */
  predicate SentTo(w: WorkUnit, cpid: string, since: nat) {
    w.cpid == cpid && w.timestamp > since
  }

  /** The rows `list_workunit_sent_since(cpid, since)` selects. */
  ghost function SentSince(db: DataBase, cpid: string, since: nat): set<WorkUnit> {
    set w | w in db.workunits.Values && SentTo(w, cpid, since)
  }

  /** `rows` is an answer the query can give: every selected row once, in some order. */
  ghost predicate IsListing(db: DataBase, cpid: string, since: nat, rows: seq<WorkUnit>) {
    Distinct(rows) && forall w :: w in rows <==> w in SentSince(db, cpid, since)
  }

  /**
   `list_workunit_sent_since`: the rows of `cpid` dispatched strictly after
   `since`. SQLite promises no order, so the rows are visited in an arbitrary one.
   */
  method ListWorkUnitSentSince(db: DataBase, cpid: string, since: nat) returns (rows: seq<WorkUnit>)
    requires Valid(db)
    ensures Distinct(rows)
    ensures forall w :: w in rows <==> w in db.workunits.Values && SentTo(w, cpid, since)
    ensures forall i :: 0 <= i < |rows| ==> rows[i].cpid == cpid && rows[i].timestamp > since
  {
    rows := [];
    var pending := db.workunits.Keys;
    while pending != {}
      invariant pending <= db.workunits.Keys
      invariant Distinct(rows)
      invariant forall w :: w in rows ==> KeyOf(w) !in pending
      invariant forall i :: 0 <= i < |rows| ==> SentTo(rows[i], cpid, since)
      invariant forall w :: w in rows <==>
        w in db.workunits.Values && KeyOf(w) !in pending && SentTo(w, cpid, since)
      decreases pending
    {
      var k :| k in pending;
      var w := db.workunits[k];
      if SentTo(w, cpid, since) {
        rows := rows + [w];
      }
      pending := pending - {k};
    }
  }

  /** Inserting a row whose key is taken keeps the first row, whatever the second holds. */
  lemma {:induction false} InsertOnce(db: DataBase, first: WorkUnit, second: WorkUnit)
    requires KeyOf(first) !in db.workunits
    requires KeyOf(second) == KeyOf(first)
    ensures AddWorkUnit(AddWorkUnit(db, first), second).workunits[KeyOf(first)] == first
    ensures AddWorkUnit(AddWorkUnit(db, first), second) == AddWorkUnit(db, first)
  {
    var once := AddWorkUnit(db, first);
    assert KeyOf(second) in once.workunits;
  }

  /**
   After a status update of an existing row, the query with a cutoff below
   that row's timestamp returns the row with the new status and never with
   the old one.
   */
  lemma {:induction false} UpdateThenList(db: DataBase, project: string, name: string, status: nat, since: nat)
    requires Valid(db)
    requires WorkUnitKey(name, project) in db.workunits
    requires db.workunits[WorkUnitKey(name, project)].timestamp > since
    ensures var before := db.workunits[WorkUnitKey(name, project)];
      var after := UpdateStatus(db, project, name, status);
      && before.(status := status) in SentSince(after, before.cpid, since)
      && (before.status != status ==> before !in SentSince(after, before.cpid, since))
  {
    var k := WorkUnitKey(name, project);
    var after := UpdateStatus(db, project, name, status);
    assert after.workunits[k] == db.workunits[k].(status := status);
    assert after.workunits[k] in after.workunits.Values;
  }
}
