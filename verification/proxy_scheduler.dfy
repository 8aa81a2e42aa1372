/**
 The scheduler proxy: one exchange between a BOINC client and a project's
 upstream scheduler, relayed through the gateway. The exchange applies the
 client's status reports to the store, forwards the request unchanged,
 relays the upstream answer unchanged and, when the upstream answered 200,
 correlates the reply's sections into store rows.

 The HTTP client is the function `upstream`, and the XML decoder of the
 upstream reply is the function `decodeReply`; the client's request arrives
 already decoded as a `Query`.
 */
module ProxyScheduler {
  import opened Wrappers
  import opened Seqs
  import opened Device
  import opened Database
  import opened App

  /** A `<workunit>` of a scheduler reply; omitted estimates decode as 0. */
  datatype SchedulerWorkUnit = SchedulerWorkUnit(
    name: string,
    appName: string,
    rscFpopsEst: real,
    rscFpopsBound: real,
    rscMemoryBound: real,
    rscDiskBound: real)

  /** A `<result>` of a scheduler reply. */
  datatype SchedulerResult = SchedulerResult(
    wuName: string,
    name: string,
    platform: string,
    versionNum: nat,
    planClass: string)

  /** An `<app>` of a scheduler reply. */
  datatype SchedulerApp = SchedulerApp(name: string, userFriendlyName: string)

  /** An `<app_version>` of a scheduler reply; an omitted plan class decodes as "". */
  datatype SchedulerAppVersion = SchedulerAppVersion(
    appName: string,
    versionNum: nat,
    platform: string,
    planClass: string)

  /** A decoded scheduler reply; each omitted section decodes as empty. */
  datatype SchedulerReply = SchedulerReply(
    workunit: seq<SchedulerWorkUnit>,
    result: seq<SchedulerResult>,
    app: seq<SchedulerApp>,
    appVersion: seq<SchedulerAppVersion>)

  /** A `<result>` the client reports back, with its current state code. */
  datatype ResultQuery = ResultQuery(name: string, state: nat)

  /** A decoded client scheduler request. */
  datatype Query = Query(result: seq<ResultQuery>, hostInfo: HostInfo)

  datatype HttpResponse = HttpResponse(status: nat, body: string)

  /** What the gateway posts upstream: the client's body and User-Agent, to the project's scheduler. */
  datatype UpstreamRequest = UpstreamRequest(url: string, userAgent: string, body: string)

  /** The client's POST to `/proxy/{project_id}/scheduler`. */
  datatype ProxyRequest = ProxyRequest(projectId: string, userAgent: Option<string>, body: string)

  /** The answer to the client, the store afterwards, and the upstream request if one was made. */
  datatype ProxyOutcome = ProxyOutcome(
    response: HttpResponse,
    db: DataBase,
    forwarded: Option<UpstreamRequest>)

  const StatusOk: nat := 200
  const StatusBadRequest: nat := 400
  const StatusNotFound: nat := 404

  function ProjectNotFound(): HttpResponse {
    HttpResponse(StatusNotFound, "Project not found")
  }

  function MissingUserAgent(): HttpResponse {
    HttpResponse(StatusBadRequest, "No user-agent provided")
  }

  // ---------------------------------------------------------------------------
  // Status reports

  /** Index of the last report naming `name`: the update that decides the row's status. */
  function LastReport(reports: seq<ResultQuery>, name: string): Option<nat> {
    FindLast(reports, (q: ResultQuery) => q.name == name)
  }

  /** A row stored under `k` once the reports for `project` have been applied. */
  function AfterReports(k: WorkUnitKey, row: WorkUnit, project: string, reports: seq<ResultQuery>): WorkUnit {
    if k.project != project then row
    else
      match LastReport(reports, k.resultName)
      case None => row
      case Some(i) => row.(status := reports[i].state)
  }

  /** The `update_status` loop, one call per report, in report order. */
  function ApplyStatusUpdates(db: DataBase, project: string, reports: seq<ResultQuery>): (r: DataBase)
    ensures r.appVersions == db.appVersions
    ensures r.workunits.Keys == db.workunits.Keys
    ensures forall k :: k in db.workunits ==> SameButStatus(db.workunits[k], r.workunits[k])
    ensures Valid(db) ==> Valid(r)
    decreases |reports|
  {
    if |reports| == 0 then db
    else
      var last := reports[|reports| - 1];
      UpdateStatus(ApplyStatusUpdates(db, project, reports[..|reports| - 1]), project, last.name, last.state)
  }

  /**
   After the update loop a row carries the state of the last report naming it,
   when its project is the exchange's, and is unchanged otherwise.
   */
  lemma {:induction false} LastReportWins(db: DataBase, project: string, reports: seq<ResultQuery>, k: WorkUnitKey)
    requires k in db.workunits
    ensures ApplyStatusUpdates(db, project, reports).workunits[k] ==
      AfterReports(k, db.workunits[k], project, reports)
    decreases |reports|
  {
    if |reports| > 0 {
      var n := |reports| - 1;
      var prefix := reports[..n];
      LastReportWins(db, project, prefix, k);
      AfterReportsStep(k, db.workunits[k], project, reports);
      var before := ApplyStatusUpdates(db, project, prefix);
      var after := UpdateStatus(before, project, reports[n].name, reports[n].state);
      if k == WorkUnitKey(reports[n].name, project) {
        assert after.workunits[k] == before.workunits[k].(status := reports[n].state);
      } else {
        assert after.workunits[k] == before.workunits[k];
      }
    }
  }

  /** One more report changes a row only when it names the row's key. */
  lemma AfterReportsStep(k: WorkUnitKey, row: WorkUnit, project: string, reports: seq<ResultQuery>)
    requires |reports| > 0
    ensures var n := |reports| - 1;
      AfterReports(k, row, project, reports) ==
        if k == WorkUnitKey(reports[n].name, project) then row.(status := reports[n].state)
        else AfterReports(k, row, project, reports[..n])
  {
    var n := |reports| - 1;
    if reports[n].name != k.resultName {
      assert LastReport(reports, k.resultName) == LastReport(reports[..n], k.resultName);
    }
  }

  // ---------------------------------------------------------------------------
  // The `&` repair

  function AmpersandCount(s: string): nat
    decreases |s|
  {
    if |s| == 0 then 0 else (if s[0] == '&' then 1 else 0) + AmpersandCount(s[1..])
  }

  const AmpEntity: string := "&amp;"

  /** What the repair turns one character into. */
  function EscapeChar(c: char): string {
    if c == '&' then AmpEntity else [c]
  }

  /** The repair of the upstream text: every ampersand becomes the entity `&amp;`. */
  function EscapeAmpersands(s: string): (r: string)
    ensures |r| == |s| + 4 * AmpersandCount(s)
    decreases |s|
  {
    if |s| == 0 then "" else EscapeChar(s[0]) + EscapeAmpersands(s[1..])
  }

  /** Within the repair of one character, an `&` can only be the head of the entity. */
  lemma EscapeCharAmpersand(c: char, i: nat)
    requires i < |EscapeChar(c)| && EscapeChar(c)[i] == '&'
    ensures i == 0 && c == '&' && EscapeChar(c) == AmpEntity
  {
  }

  /** A slice lying wholly in the second part of a concatenation. */
  lemma SliceOfSuffix<T>(a: seq<T>, b: seq<T>, i: nat, j: nat)
    requires |a| <= i <= j <= |a| + |b|
    ensures (a + b)[i..j] == b[i - |a|..j - |a|]
  {
  }

  /** After the repair every `&` opens an `&amp;` entity. */
  lemma {:induction false} EscapedAmpersandsAreEntities(s: string, i: nat)
    requires i < |EscapeAmpersands(s)| && EscapeAmpersands(s)[i] == '&'
    ensures i + 5 <= |EscapeAmpersands(s)| && EscapeAmpersands(s)[i..i + 5] == AmpEntity
    decreases |s|
  {
    var head := EscapeChar(s[0]);
    var tail := EscapeAmpersands(s[1..]);
    assert EscapeAmpersands(s) == head + tail;
    if i < |head| {
      EscapeCharAmpersand(s[0], i);
    } else {
      EscapedAmpersandsAreEntities(s[1..], i - |head|);
      SliceOfSuffix(head, tail, i, i + 5);
    }
  }

  /** Reads every `&amp;` back as `&`: the decoder's view of the repaired text. */
  function UnescapeAmpersands(s: string): string
    decreases |s|
  {
    if |s| == 0 then ""
    else if |s| >= 5 && s[..5] == AmpEntity then "&" + UnescapeAmpersands(s[5..])
    else [s[0]] + UnescapeAmpersands(s[1..])
  }

  /** Reading back undoes the repair of one character, whatever follows it. */
  lemma UnescapeEscapedChar(c: char, rest: string)
    ensures UnescapeAmpersands(EscapeChar(c) + rest) == [c] + UnescapeAmpersands(rest)
  {
    var t := EscapeChar(c) + rest;
    if c == '&' {
      assert t[..5] == AmpEntity;
      assert t[5..] == rest;
    } else {
      assert t[0] != '&';
      assert t[1..] == rest;
    }
  }

  /** The repair loses nothing: reading the entities back gives the upstream text. */
  lemma {:induction false} EscapeRoundTrip(s: string)
    ensures UnescapeAmpersands(EscapeAmpersands(s)) == s
    decreases |s|
  {
    if |s| > 0 {
      EscapeRoundTrip(s[1..]);
      UnescapeEscapedChar(s[0], EscapeAmpersands(s[1..]));
      assert s == [s[0]] + s[1..];
    }
  }

  // ---------------------------------------------------------------------------
  // Correlation of a scheduler reply

  /** Index of the first result whose `wu_name` is `wuName`. */
  function FirstResultFor(results: seq<SchedulerResult>, wuName: string): Option<nat> {
    FindFirst(results, (r: SchedulerResult) => r.wuName == wuName)
  }

  /** Some result of the reply belongs to `wu`. */
  predicate HasResult(results: seq<SchedulerResult>, wu: SchedulerWorkUnit) {
    exists j :: 0 <= j < |results| && results[j].wuName == wu.name
  }

  /**
   The row built from a workunit and its result. It is filed under the
   result's name in the exchange's project, as assigned to the device now.
   */
  function MergeWorkUnit(cpid: string, project: string, wu: SchedulerWorkUnit, res: SchedulerResult, now: nat): (w: WorkUnit)
    ensures KeyOf(w) == WorkUnitKey(res.name, project)
    ensures w.cpid == cpid && w.status == Assigned && w.timestamp == now
  {
    WorkUnit(cpid, project, wu.name, Assigned, wu.appName,
      wu.rscFpopsEst, wu.rscFpopsBound, wu.rscMemoryBound, wu.rscDiskBound,
      res.platform, res.versionNum, res.planClass, res.name, now)
  }

  /** The inner loop of the workunit pass: merge with the first matching result, if any. */
  function CorrelateWorkUnit(cpid: string, project: string, wu: SchedulerWorkUnit,
                             results: seq<SchedulerResult>, now: nat): (r: Option<WorkUnit>)
    ensures r.Some? <==> HasResult(results, wu)
    ensures r.Some? ==> exists j :: (0 <= j < |results| && results[j].wuName == wu.name &&
      (forall i :: 0 <= i < j ==> results[i].wuName != wu.name) &&
      r.value == MergeWorkUnit(cpid, project, wu, results[j], now))
  {
    match FirstResultFor(results, wu.name)
    case None => None
    case Some(j) => Some(MergeWorkUnit(cpid, project, wu, results[j], now))
  }

  /** Reference count: the workunits that some result belongs to. */
  function MatchedCount(wus: seq<SchedulerWorkUnit>, results: seq<SchedulerResult>): nat
    decreases |wus|
  {
    if |wus| == 0 then 0
    else (if HasResult(results, wus[0]) then 1 else 0) + MatchedCount(wus[1..], results)
  }

  /** The workunit pass: one row per workunit that has a result, in reply order. */
  function CorrelateWorkUnits(cpid: string, project: string, wus: seq<SchedulerWorkUnit>,
                              results: seq<SchedulerResult>, now: nat): seq<WorkUnit>
    decreases |wus|
  {
    if |wus| == 0 then []
    else
      var rest := CorrelateWorkUnits(cpid, project, wus[1..], results, now);
      match CorrelateWorkUnit(cpid, project, wus[0], results, now)
      case None => rest
      case Some(row) => [row] + rest
  }

  /** The workunit pass yields one row per workunit that some result names. */
  lemma {:induction false} CorrelatedRowsCount(cpid: string, project: string, wus: seq<SchedulerWorkUnit>,
                                               results: seq<SchedulerResult>, now: nat)
    ensures |CorrelateWorkUnits(cpid, project, wus, results, now)| == MatchedCount(wus, results)
    decreases |wus|
  {
    if |wus| > 0 {
      CorrelatedRowsCount(cpid, project, wus[1..], results, now);
    }
  }

  /** Every row of the workunit pass is the correlation of a workunit of the reply. */
  lemma {:induction false} CorrelatedRowFromReply(cpid: string, project: string, wus: seq<SchedulerWorkUnit>,
                                                  results: seq<SchedulerResult>, now: nat, w: WorkUnit)
    requires w in CorrelateWorkUnits(cpid, project, wus, results, now)
    ensures exists i :: 0 <= i < |wus| && CorrelateWorkUnit(cpid, project, wus[i], results, now) == Some(w)
    decreases |wus|
  {
    var tail := wus[1..];
    var rest := CorrelateWorkUnits(cpid, project, tail, results, now);
    var head := CorrelateWorkUnit(cpid, project, wus[0], results, now);
    if head == Some(w) {
      assert CorrelateWorkUnit(cpid, project, wus[0], results, now) == Some(w);
    } else {
      assert w in rest;
      CorrelatedRowFromReply(cpid, project, tail, results, now, w);
      var i :| 0 <= i < |tail| && CorrelateWorkUnit(cpid, project, tail[i], results, now) == Some(w);
      assert tail[i] == wus[i + 1];
    }
  }

  /** The row of every workunit that some result names is among the rows of the workunit pass. */
  lemma {:induction false} CorrelatedRowsComplete(cpid: string, project: string, wus: seq<SchedulerWorkUnit>,
                                                  results: seq<SchedulerResult>, now: nat)
    ensures forall i :: 0 <= i < |wus| && HasResult(results, wus[i]) ==>
      CorrelateWorkUnit(cpid, project, wus[i], results, now).value in CorrelateWorkUnits(cpid, project, wus, results, now)
    decreases |wus|
  {
    if |wus| > 0 {
      var tail := wus[1..];
      CorrelatedRowsComplete(cpid, project, tail, results, now);
      forall i | 0 <= i < |wus| && HasResult(results, wus[i])
        ensures CorrelateWorkUnit(cpid, project, wus[i], results, now).value in CorrelateWorkUnits(cpid, project, wus, results, now)
      {
        if i > 0 {
          assert tail[i - 1] == wus[i];
        }
      }
    }
  }

  /** Index of the first app named `appName`. */
  function FirstAppFor(apps: seq<SchedulerApp>, appName: string): Option<nat> {
    FindFirst(apps, (a: SchedulerApp) => a.name == appName)
  }

  predicate HasApp(apps: seq<SchedulerApp>, v: SchedulerAppVersion) {
    exists j :: 0 <= j < |apps| && apps[j].name == v.appName
  }

  /**
   The row built from an app version and its app. Its key is made of the
   exchange's project, the app's name and the version's own columns.
   */
  function MergeAppVersion(project: string, v: SchedulerAppVersion, app: SchedulerApp): (a: AppVersion)
    ensures AppVersionKeyOf(a) == AppVersionKey(project, app.name, v.versionNum, v.platform, v.planClass)
    ensures a.userFriendlyName == app.userFriendlyName
  {
    AppVersion(project, app.name, app.userFriendlyName, v.versionNum, v.platform, v.planClass)
  }

  /** The inner loop of the app-version pass: merge with the first app of that name, if any. */
  function CorrelateAppVersion(project: string, v: SchedulerAppVersion, apps: seq<SchedulerApp>): (r: Option<AppVersion>)
    ensures r.Some? <==> HasApp(apps, v)
    ensures r.Some? ==> exists j :: (0 <= j < |apps| && apps[j].name == v.appName &&
      (forall i :: 0 <= i < j ==> apps[i].name != v.appName) &&
      r.value == MergeAppVersion(project, v, apps[j]))
  {
    match FirstAppFor(apps, v.appName)
    case None => None
    case Some(j) => Some(MergeAppVersion(project, v, apps[j]))
  }

  /** The app-version pass: one row per app version whose app is in the reply, in reply order. */
  function CorrelateAppVersions(project: string, versions: seq<SchedulerAppVersion>,
                                apps: seq<SchedulerApp>): (rows: seq<AppVersion>)
    ensures |rows| <= |versions|
    ensures forall k :: 0 <= k < |rows| ==> exists i :: (0 <= i < |versions| &&
      CorrelateAppVersion(project, versions[i], apps) == Some(rows[k]))
    ensures forall i :: 0 <= i < |versions| && HasApp(apps, versions[i]) ==>
      CorrelateAppVersion(project, versions[i], apps).value in rows
    decreases |versions|
  {
    if |versions| == 0 then []
    else
      var rest := CorrelateAppVersions(project, versions[1..], apps);
      match CorrelateAppVersion(project, versions[0], apps)
      case None => rest
      case Some(row) => [row] + rest
  }

  // ---------------------------------------------------------------------------
  // Persistence

  /**
   Both correlation passes over a 200 reply, each persisting as it goes: the
   workunit table gains the keys of the correlated workunits and the
   app_version table those of the correlated app versions; no stored row of
   either table changes.
   */
  function RecordReply(db: DataBase, project: string, cpid: string, reply: SchedulerReply, now: nat): (r: DataBase)
    ensures r.workunits.Keys ==
      db.workunits.Keys + KeysOf(CorrelateWorkUnits(cpid, project, reply.workunit, reply.result, now))
    ensures r.appVersions.Keys ==
      db.appVersions.Keys + AppVersionKeysOf(CorrelateAppVersions(project, reply.appVersion, reply.app))
    ensures forall k :: k in db.workunits ==> k in r.workunits && r.workunits[k] == db.workunits[k]
    ensures forall k :: k in db.appVersions ==> k in r.appVersions && r.appVersions[k] == db.appVersions[k]
    ensures Valid(db) ==> Valid(r)
  {
    var units := CorrelateWorkUnits(cpid, project, reply.workunit, reply.result, now);
    var versions := CorrelateAppVersions(project, reply.appVersion, reply.app);
    InsertWorkUnitsKeys(db, units);
    var withUnits := InsertWorkUnits(db, units);
    InsertAppVersionsKeys(withUnits, versions);
    InsertAppVersions(withUnits, versions)
  }

  // ---------------------------------------------------------------------------
  // The route

  /** `proxy_scheduler_route` */
  function ProxySchedulerRoute(state: AppState, db: DataBase, req: ProxyRequest, query: Query,
                               upstream: UpstreamRequest -> HttpResponse,
                               decodeReply: string -> SchedulerReply, now: nat): (o: ProxyOutcome)
    ensures req.projectId !in state.projects ==>
      o.response == ProjectNotFound() && o.db == db && o.forwarded.None?
    ensures req.projectId in state.projects && req.userAgent.None? ==>
      o.response == MissingUserAgent() && o.db == db && o.forwarded.None?
    ensures req.projectId in state.projects && req.userAgent.Some? ==>
      && o.forwarded == Some(UpstreamRequest(state.projects[req.projectId].schedulerUrl,
                                             req.userAgent.value, req.body))
      && o.response == upstream(o.forwarded.value)
    ensures o.response.status != StatusOk ==>
      o.db == ApplyStatusUpdates(db, req.projectId, if o.forwarded.Some? then query.result else [])
    ensures o.forwarded.Some? && o.response.status == StatusOk ==>
      var reply := decodeReply(EscapeAmpersands(o.response.body));
      && o.db.workunits.Keys == db.workunits.Keys +
           KeysOf(CorrelateWorkUnits(query.hostInfo.hostCpid, req.projectId, reply.workunit, reply.result, now))
      && o.db.appVersions.Keys == db.appVersions.Keys +
           AppVersionKeysOf(CorrelateAppVersions(req.projectId, reply.appVersion, reply.app))
    ensures Valid(db) ==> Valid(o.db)
  {
    if req.projectId !in state.projects then ProxyOutcome(ProjectNotFound(), db, None)
    else if req.userAgent.None? then ProxyOutcome(MissingUserAgent(), db, None)
    else
      var updated := ApplyStatusUpdates(db, req.projectId, query.result);
      var forward := UpstreamRequest(state.projects[req.projectId].schedulerUrl, req.userAgent.value, req.body);
      var answer := upstream(forward);
      var stored :=
        if answer.status == StatusOk then
          RecordReply(updated, req.projectId, query.hostInfo.hostCpid,
                      decodeReply(EscapeAmpersands(answer.body)), now)
        else updated;
      ProxyOutcome(HttpResponse(answer.status, answer.body), stored, Some(forward))
  }

  /** The reply the route decodes once the upstream answered. */
  function DecodedReply(state: AppState, req: ProxyRequest, upstream: UpstreamRequest -> HttpResponse,
                        decodeReply: string -> SchedulerReply): SchedulerReply
    requires req.projectId in state.projects && req.userAgent.Some?
  {
    var forward := UpstreamRequest(state.projects[req.projectId].schedulerUrl, req.userAgent.value, req.body);
    decodeReply(EscapeAmpersands(upstream(forward).body))
  }

  /**
   Rows that existed before the exchange come out of it changed only by the
   client's status reports: correlation never overwrites a stored row.
   */
  lemma ProxyKeepsExistingRows(state: AppState, db: DataBase, req: ProxyRequest, query: Query,
                               upstream: UpstreamRequest -> HttpResponse,
                               decodeReply: string -> SchedulerReply, now: nat, k: WorkUnitKey)
    requires req.projectId in state.projects && req.userAgent.Some?
    requires k in db.workunits
    ensures var o := ProxySchedulerRoute(state, db, req, query, upstream, decodeReply, now);
      k in o.db.workunits &&
      o.db.workunits[k] == AfterReports(k, db.workunits[k], req.projectId, query.result)
  {
    LastReportWins(db, req.projectId, query.result, k);
  }

  /**
   A row the exchange creates is the merge of a workunit of the decoded reply
   with its first result, recorded as assigned to the requesting device now;
   status reports of the same request never reach it, because they are applied
   before the upstream call.
   */
  lemma ProxyFreshRows(state: AppState, db: DataBase, req: ProxyRequest, query: Query,
                       upstream: UpstreamRequest -> HttpResponse,
                       decodeReply: string -> SchedulerReply, now: nat, k: WorkUnitKey)
    requires req.projectId in state.projects && req.userAgent.Some?
    ensures var after := ProxySchedulerRoute(state, db, req, query, upstream, decodeReply, now).db;
      k !in db.workunits && k in after.workunits ==>
      var row := after.workunits[k];
      var reply := DecodedReply(state, req, upstream, decodeReply);
      && row.status == Assigned
      && row.cpid == query.hostInfo.hostCpid
      && row.project == req.projectId
      && row.timestamp == now
      && exists i :: 0 <= i < |reply.workunit| &&
           CorrelateWorkUnit(query.hostInfo.hostCpid, req.projectId, reply.workunit[i], reply.result, now) == Some(row)
  {
    var reply := DecodedReply(state, req, upstream, decodeReply);
    var updated := ApplyStatusUpdates(db, req.projectId, query.result);
    RouteWorkUnits(state, db, req, query, upstream, decodeReply, now);
    FreshRowCorrelated(updated, query.hostInfo.hostCpid, req.projectId, reply.workunit, reply.result, now, k);
  }

  /** The workunit table after a forwarded exchange. */
  lemma RouteWorkUnits(state: AppState, db: DataBase, req: ProxyRequest, query: Query,
                       upstream: UpstreamRequest -> HttpResponse,
                       decodeReply: string -> SchedulerReply, now: nat)
    requires req.projectId in state.projects && req.userAgent.Some?
    ensures var forward := UpstreamRequest(state.projects[req.projectId].schedulerUrl, req.userAgent.value, req.body);
      var reply := DecodedReply(state, req, upstream, decodeReply);
      var updated := ApplyStatusUpdates(db, req.projectId, query.result);
      ProxySchedulerRoute(state, db, req, query, upstream, decodeReply, now).db.workunits ==
        if upstream(forward).status == StatusOk then
          InsertWorkUnits(updated, CorrelateWorkUnits(query.hostInfo.hostCpid, req.projectId,
                                                      reply.workunit, reply.result, now)).workunits
        else updated.workunits
  {
  }

  /** A row a batch of correlated rows adds to the store comes from one of the workunits. */
  lemma FreshRowCorrelated(db: DataBase, cpid: string, project: string, workunits: seq<SchedulerWorkUnit>,
                           results: seq<SchedulerResult>, now: nat, k: WorkUnitKey)
    ensures var after := InsertWorkUnits(db, CorrelateWorkUnits(cpid, project, workunits, results, now));
      k !in db.workunits && k in after.workunits ==>
      var row := after.workunits[k];
      && row.status == Assigned && row.cpid == cpid && row.project == project && row.timestamp == now
      && exists i :: 0 <= i < |workunits| && CorrelateWorkUnit(cpid, project, workunits[i], results, now) == Some(row)
  {
    var rows := CorrelateWorkUnits(cpid, project, workunits, results, now);
    if k !in db.workunits && k in InsertWorkUnits(db, rows).workunits {
      var row := InsertWorkUnits(db, rows).workunits[k];
      InsertWorkUnitsNewRow(db, rows, k);
      CorrelatedRowFromReply(cpid, project, workunits, results, now, row);
      var i :| 0 <= i < |workunits| && CorrelateWorkUnit(cpid, project, workunits[i], results, now) == Some(row);
      CorrelatedRowShape(cpid, project, workunits[i], results, now);
    }
  }

  /**
   The correlated rows follow reply order: correlating a reply split in two
   gives the rows of the first part followed by those of the second.
   */
  lemma {:induction false} CorrelateWorkUnitsAppend(cpid: string, project: string, a: seq<SchedulerWorkUnit>,
                                                    b: seq<SchedulerWorkUnit>, results: seq<SchedulerResult>, now: nat)
    ensures CorrelateWorkUnits(cpid, project, a + b, results, now) ==
      CorrelateWorkUnits(cpid, project, a, results, now) + CorrelateWorkUnits(cpid, project, b, results, now)
    decreases |a|
  {
    if |a| > 0 {
      assert (a + b)[0] == a[0];
      assert (a + b)[1..] == a[1..] + b;
      CorrelateWorkUnitsAppend(cpid, project, a[1..], b, results, now);
    } else {
      assert a + b == b;
    }
  }

  /**
   Among the workunits of one reply whose rows share a fresh key, the store
   keeps the row of the FIRST in reply order: INSERT OR IGNORE drops the rest.
   */
  lemma FirstCorrelatedRowStored(db: DataBase, cpid: string, project: string, wus: seq<SchedulerWorkUnit>,
                                 results: seq<SchedulerResult>, now: nat, i: nat)
    ensures i < |wus| ==>
      var c := CorrelateWorkUnit(cpid, project, wus[i], results, now);
      var after := InsertWorkUnits(db, CorrelateWorkUnits(cpid, project, wus, results, now));
      c.Some? && KeyOf(c.value) !in db.workunits &&
      (forall e :: 0 <= e < i && CorrelateWorkUnit(cpid, project, wus[e], results, now).Some? ==>
         KeyOf(CorrelateWorkUnit(cpid, project, wus[e], results, now).value) != KeyOf(c.value)) ==>
      KeyOf(c.value) in after.workunits && after.workunits[KeyOf(c.value)] == c.value
  {
    if i < |wus| {
      var c := CorrelateWorkUnit(cpid, project, wus[i], results, now);
      if c.Some? && KeyOf(c.value) !in db.workunits &&
         (forall e :: 0 <= e < i && CorrelateWorkUnit(cpid, project, wus[e], results, now).Some? ==>
            KeyOf(CorrelateWorkUnit(cpid, project, wus[e], results, now).value) != KeyOf(c.value)) {
        var before := CorrelateWorkUnits(cpid, project, wus[..i], results, now);
        var rows := RowsAroundIndex(cpid, project, wus, results, now, i);
        CorrelatedKeysAvoid(cpid, project, wus[..i], results, now, KeyOf(c.value));
        InsertWorkUnitsFirstWins(db, rows, |before|);
      }
    }
  }

  /** No correlated row carries a key that none of the workunits' rows carries. */
  lemma {:induction false} CorrelatedKeysAvoid(cpid: string, project: string, wus: seq<SchedulerWorkUnit>,
                                               results: seq<SchedulerResult>, now: nat, key: WorkUnitKey)
    requires forall e :: 0 <= e < |wus| && CorrelateWorkUnit(cpid, project, wus[e], results, now).Some? ==>
      KeyOf(CorrelateWorkUnit(cpid, project, wus[e], results, now).value) != key
    ensures key !in KeysOf(CorrelateWorkUnits(cpid, project, wus, results, now))
    decreases |wus|
  {
    if |wus| > 0 {
      var tail := wus[1..];
      forall e | 0 <= e < |tail| && CorrelateWorkUnit(cpid, project, tail[e], results, now).Some?
        ensures KeyOf(CorrelateWorkUnit(cpid, project, tail[e], results, now).value) != key
      {
        assert tail[e] == wus[e + 1];
      }
      CorrelatedKeysAvoid(cpid, project, tail, results, now, key);
      var rest := CorrelateWorkUnits(cpid, project, tail, results, now);
      var rows := CorrelateWorkUnits(cpid, project, wus, results, now);
      assert forall w :: w in rows ==> w in rest || Some(w) == CorrelateWorkUnit(cpid, project, wus[0], results, now);
    }
  }

  /** The row of a matched workunit sits right after the rows of the workunits before it. */
  lemma RowsAroundIndex(cpid: string, project: string, wus: seq<SchedulerWorkUnit>,
                        results: seq<SchedulerResult>, now: nat, i: nat) returns (rows: seq<WorkUnit>)
    requires i < |wus| && CorrelateWorkUnit(cpid, project, wus[i], results, now).Some?
    ensures rows == CorrelateWorkUnits(cpid, project, wus, results, now)
    ensures var before := CorrelateWorkUnits(cpid, project, wus[..i], results, now);
      |before| < |rows| && rows[..|before|] == before &&
      Some(rows[|before|]) == CorrelateWorkUnit(cpid, project, wus[i], results, now)
  {
    rows := CorrelateWorkUnits(cpid, project, wus, results, now);
    var before := CorrelateWorkUnits(cpid, project, wus[..i], results, now);
    var from := wus[i..];
    assert wus == wus[..i] + from;
    CorrelateWorkUnitsAppend(cpid, project, wus[..i], from, results, now);
    assert from[0] == wus[i];
    var after := CorrelateWorkUnits(cpid, project, from, results, now);
    assert after[0] == CorrelateWorkUnit(cpid, project, wus[i], results, now).value;
  }

  /**
   The fresh row an exchange stores under a key is the row of the first
   workunit of the decoded reply, in reply order, whose row carries that key.
   */
  lemma ProxyFreshRowIsFirst(state: AppState, db: DataBase, req: ProxyRequest, query: Query,
                             upstream: UpstreamRequest -> HttpResponse,
                             decodeReply: string -> SchedulerReply, now: nat, i: nat)
    requires req.projectId in state.projects && req.userAgent.Some?
    ensures var forward := UpstreamRequest(state.projects[req.projectId].schedulerUrl, req.userAgent.value, req.body);
      var reply := DecodedReply(state, req, upstream, decodeReply);
      var cpid := query.hostInfo.hostCpid;
      var after := ProxySchedulerRoute(state, db, req, query, upstream, decodeReply, now).db;
      upstream(forward).status == StatusOk && i < |reply.workunit| ==>
      var c := CorrelateWorkUnit(cpid, req.projectId, reply.workunit[i], reply.result, now);
      c.Some? && KeyOf(c.value) !in db.workunits &&
      (forall e :: 0 <= e < i && CorrelateWorkUnit(cpid, req.projectId, reply.workunit[e], reply.result, now).Some? ==>
         KeyOf(CorrelateWorkUnit(cpid, req.projectId, reply.workunit[e], reply.result, now).value) != KeyOf(c.value)) ==>
      KeyOf(c.value) in after.workunits && after.workunits[KeyOf(c.value)] == c.value
  {
    var reply := DecodedReply(state, req, upstream, decodeReply);
    var updated := ApplyStatusUpdates(db, req.projectId, query.result);
    RouteWorkUnits(state, db, req, query, upstream, decodeReply, now);
    FirstCorrelatedRowStored(updated, query.hostInfo.hostCpid, req.projectId, reply.workunit, reply.result, now, i);
  }

  /**
   The app_version table after a forwarded exchange: on a 200 answer it gains
   exactly the keys of the correlated app versions of the decoded reply, and
   otherwise it is untouched; a stored app version never changes.
   */
  lemma RouteAppVersions(state: AppState, db: DataBase, req: ProxyRequest, query: Query,
                         upstream: UpstreamRequest -> HttpResponse,
                         decodeReply: string -> SchedulerReply, now: nat)
    requires req.projectId in state.projects && req.userAgent.Some?
    ensures var forward := UpstreamRequest(state.projects[req.projectId].schedulerUrl, req.userAgent.value, req.body);
      var reply := DecodedReply(state, req, upstream, decodeReply);
      var after := ProxySchedulerRoute(state, db, req, query, upstream, decodeReply, now).db;
      && (forall k :: k in db.appVersions ==> k in after.appVersions && after.appVersions[k] == db.appVersions[k])
      && after.appVersions.Keys ==
           if upstream(forward).status == StatusOk then
             db.appVersions.Keys + AppVersionKeysOf(CorrelateAppVersions(req.projectId, reply.appVersion, reply.app))
           else db.appVersions.Keys
  {
  }

  /** An app version an exchange adds is the merge of an app version of the decoded reply with its app. */
  lemma ProxyFreshAppVersions(state: AppState, db: DataBase, req: ProxyRequest, query: Query,
                              upstream: UpstreamRequest -> HttpResponse,
                              decodeReply: string -> SchedulerReply, now: nat, k: AppVersionKey)
    requires req.projectId in state.projects && req.userAgent.Some?
    ensures var after := ProxySchedulerRoute(state, db, req, query, upstream, decodeReply, now).db;
      var reply := DecodedReply(state, req, upstream, decodeReply);
      k !in db.appVersions && k in after.appVersions ==>
      exists i :: 0 <= i < |reply.appVersion| &&
        CorrelateAppVersion(req.projectId, reply.appVersion[i], reply.app) == Some(after.appVersions[k])
  {
    var forward := UpstreamRequest(state.projects[req.projectId].schedulerUrl, req.userAgent.value, req.body);
    var reply := DecodedReply(state, req, upstream, decodeReply);
    var updated := ApplyStatusUpdates(db, req.projectId, query.result);
    var units := CorrelateWorkUnits(query.hostInfo.hostCpid, req.projectId, reply.workunit, reply.result, now);
    var versions := CorrelateAppVersions(req.projectId, reply.appVersion, reply.app);
    var withUnits := InsertWorkUnits(updated, units);
    if upstream(forward).status == StatusOk && k !in db.appVersions && k in InsertAppVersions(withUnits, versions).appVersions {
      InsertAppVersionsNewRow(withUnits, versions, k);
    }
  }

  /**
   Two correlated app versions under one key are the same row, so neither the
   order nor the repetition of app versions in a reply shows in the store.
   */
  lemma SameKeySameAppVersion(project: string, v: SchedulerAppVersion, u: SchedulerAppVersion, apps: seq<SchedulerApp>)
    ensures var a := CorrelateAppVersion(project, v, apps);
      var b := CorrelateAppVersion(project, u, apps);
      a.Some? && b.Some? && AppVersionKeyOf(a.value) == AppVersionKeyOf(b.value) ==> a == b
  {
  }

  /** A correlated row is assigned to the device at the time of the exchange. */
  lemma CorrelatedRowShape(cpid: string, project: string, wu: SchedulerWorkUnit,
                           results: seq<SchedulerResult>, now: nat)
    ensures var r := CorrelateWorkUnit(cpid, project, wu, results, now);
      r.Some? ==> r.value.status == Assigned && r.value.cpid == cpid && r.value.project == project &&
                  r.value.timestamp == now && r.value.name == wu.name
  {
  }

  /**
   Where every column of a correlated row comes from: the identity of the
   device and project, the workunit's name, app and resource estimates, and
   the platform, version, plan class and name of the FIRST result for it.
   */
  lemma CorrelatedRowFields(cpid: string, project: string, wu: SchedulerWorkUnit,
                            results: seq<SchedulerResult>, now: nat, j: nat)
    requires j < |results| && results[j].wuName == wu.name
    requires forall i :: 0 <= i < j ==> results[i].wuName != wu.name
    ensures var r := CorrelateWorkUnit(cpid, project, wu, results, now);
      && r.Some?
      && r.value.cpid == cpid && r.value.project == project
      && r.value.status == Assigned && r.value.timestamp == now
      && r.value.name == wu.name && r.value.appName == wu.appName
      && r.value.rscFpopsEst == wu.rscFpopsEst && r.value.rscFpopsBound == wu.rscFpopsBound
      && r.value.rscMemoryBound == wu.rscMemoryBound && r.value.rscDiskBound == wu.rscDiskBound
      && r.value.platform == results[j].platform && r.value.versionNum == results[j].versionNum
      && r.value.planClass == results[j].planClass && r.value.resultName == results[j].name
  {
    var first := FirstResultFor(results, wu.name);
    assert first.Some? && first.value == j;
  }

  /**
   Where every column of a correlated app version comes from: the version's
   own fields and the user-friendly name of the FIRST app of the same name.
   */
  lemma CorrelatedAppVersionFields(project: string, v: SchedulerAppVersion, apps: seq<SchedulerApp>, j: nat)
    requires j < |apps| && apps[j].name == v.appName
    requires forall i :: 0 <= i < j ==> apps[i].name != v.appName
    ensures var r := CorrelateAppVersion(project, v, apps);
      && r.Some?
      && r.value.project == project && r.value.appName == v.appName
      && r.value.userFriendlyName == apps[j].userFriendlyName
      && r.value.version == v.versionNum && r.value.platform == v.platform
      && r.value.planClass == v.planClass
  {
    var first := FirstAppFor(apps, v.appName);
    assert first.Some? && first.value == j;
  }

  /**
   The situation of the correlation example: two workunits and two results of
   which only one pair shares a name give exactly one row.
   */
  lemma OnePairOneRow(cpid: string, project: string, now: nat,
                      a: SchedulerWorkUnit, b: SchedulerWorkUnit,
                      r: SchedulerResult, s: SchedulerResult)
    requires r.wuName == a.name
    requires b.name != r.wuName && b.name != s.wuName && a.name != s.wuName
    ensures |CorrelateWorkUnits(cpid, project, [a, b], [r, s], now)| == 1
    ensures CorrelateWorkUnits(cpid, project, [a, b], [r, s], now)[0] == MergeWorkUnit(cpid, project, a, r, now)
  {
    assert [r, s][0].wuName == a.name;
    assert !HasResult([r, s], b);
    assert [a, b][1..] == [b];
    assert CorrelateWorkUnits(cpid, project, [b], [r, s], now) == [];
  }
}
