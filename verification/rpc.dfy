/**
 The account-manager endpoint `rpc.php`: a client that names the configured
 weak secret receives one account per registered project, with the
 planificator's priority as resource share and a detach flag for every
 project the plan leaves out.
 */
module Rpc {
  import opened Seqs
  import opened Device
  import opened Database
  import opened App
  import opened Planificator

  /** Rust's `u8`, the type of the detach flag. */
  type U8 = x: int | 0 <= x < 0x100

  datatype RpcAccount = RpcAccount(
    url: string,
    urlSignature: string,
    authenticator: string,
    resourceShare: U16,
    detach: U8)

  /** The body of `<acct_mgr_reply>`. */
  datatype RpcResponse = RpcResponse(name: string, signingKey: string, account: seq<RpcAccount>)

  /** A decoded account-manager request. */
  datatype RpcQuery = RpcQuery(name: string, hostInfo: HostInfo)

  datatype RpcOutcome = Forbidden(body: string) | Reply(response: RpcResponse)

  /** The loop body of `new_from_planificator_result` for one registered project. */
  function AccountFor(state: AppState, plan: PlanificatorResult, project: string): (a: RpcAccount)
    requires project in state.projects
    ensures a.url == GetProxyUrl(state, project)
    ensures a.urlSignature == state.projects[project].urlSignature
    ensures a.authenticator == state.projects[project].authenticator
    ensures project in plan ==> a.resourceShare == plan[project]
    ensures project !in plan ==> a.resourceShare == 0
    ensures a.detach == 1 <==> a.resourceShare == 0
    ensures a.detach == 0 <==> project in plan && plan[project] != 0
  {
    var priority := if project in plan then plan[project] else 0;
    RpcAccount(
      GetProxyUrl(state, project),
      state.projects[project].urlSignature,
      state.projects[project].authenticator,
      priority,
      if priority == 0 then 1 else 0)
  }

  /** Accounts of distinct projects carry distinct URLs. */
  lemma AccountsDistinguished(state: AppState, plan: PlanificatorResult, p: string, q: string)
    requires p in state.projects && q in state.projects && p != q
    ensures AccountFor(state, plan, p).url != AccountFor(state, plan, q).url
  {
    if AccountFor(state, plan, p).url == AccountFor(state, plan, q).url {
      ProxyUrlInjective(state.baseUrl, p, q);
    }
  }

  /**
   `RpcResponse::new_from_planificator_result`: one account per registered
   project, visited in an arbitrary order.
   */
  method NewFromPlanificatorResult(state: AppState, plan: PlanificatorResult) returns (r: RpcResponse)
    ensures r.name == state.accountManagerName && r.signingKey == state.signingKey
    ensures |r.account| == |state.projects|
    ensures forall p :: p in state.projects ==> AccountFor(state, plan, p) in r.account
    ensures forall a :: a in r.account ==>
      exists p :: p in state.projects && a == AccountFor(state, plan, p)
    ensures forall i, j :: 0 <= i < j < |r.account| ==> r.account[i].url != r.account[j].url
  {
    var account: seq<RpcAccount> := [];
    ghost var ids: seq<string> := [];
    var pending := state.projects.Keys;
    while pending != {}
      invariant pending <= state.projects.Keys
      invariant |ids| == |account|
      invariant forall i :: 0 <= i < |ids| ==> ids[i] in state.projects && ids[i] !in pending
      invariant forall i :: 0 <= i < |ids| ==> account[i] == AccountFor(state, plan, ids[i])
      invariant forall p :: p in state.projects && p !in pending ==> p in ids
      invariant Distinct(ids)
      decreases pending
    {
      var p :| p in pending;
      account := account + [AccountFor(state, plan, p)];
      ids := ids + [p];
      pending := pending - {p};
    }
    AccountListProperties(state, plan, ids, account);
    r := RpcResponse(state.accountManagerName, state.signingKey, account);
  }

  /**
   A list holding the accounts of the projects `ids`, where `ids` lists every
   registered project once, holds one account per project.
   */
  lemma AccountListProperties(state: AppState, plan: PlanificatorResult, ids: seq<string>, account: seq<RpcAccount>)
    requires |ids| == |account|
    requires Distinct(ids)
    requires forall i :: 0 <= i < |ids| ==> ids[i] in state.projects
    requires forall p :: p in state.projects ==> p in ids
    requires forall i :: 0 <= i < |ids| ==> account[i] == AccountFor(state, plan, ids[i])
    ensures |account| == |state.projects|
    ensures forall p :: p in state.projects ==> AccountFor(state, plan, p) in account
    ensures forall a :: a in account ==> exists p :: p in state.projects && a == AccountFor(state, plan, p)
    ensures forall i, j :: 0 <= i < j < |account| ==> account[i].url != account[j].url
  {
    assert (set p | p in ids) == state.projects.Keys;
    DistinctCardinality(ids);
    forall i, j | 0 <= i < j < |account|
      ensures account[i].url != account[j].url
    {
      AccountsDistinguished(state, plan, ids[i], ids[j]);
    }
    forall p | p in state.projects
      ensures AccountFor(state, plan, p) in account
    {
      var i :| 0 <= i < |ids| && ids[i] == p;
      assert account[i] == AccountFor(state, plan, p);
    }
    forall a | a in account
      ensures exists p :: p in state.projects && a == AccountFor(state, plan, p)
    {
      var i :| 0 <= i < |account| && account[i] == a;
      assert ids[i] in state.projects;
    }
  }

  /** A repetition-free sequence has as many elements as its set. */
  lemma {:induction false} DistinctCardinality<T>(s: seq<T>)
    requires Distinct(s)
    ensures |set x | x in s| == |s|
    decreases |s|
  {
    if |s| > 0 {
      var tail := s[1..];
      assert Distinct(tail);
      DistinctCardinality(tail);
      assert (set x | x in s) == (set x | x in tail) + {s[0]};
      assert s[0] !in tail;
    }
  }

  /**
   Fed by the planificator, an account is detached exactly when the plan
   dropped its project: `loda` on a NixOS host. Every kept project has a share
   of at least 100.
   */
  lemma DetachExactlyExcluded(state: AppState, host: HostInfo, records: seq<WorkUnit>, project: string)
    requires project in state.projects
    ensures var a := AccountFor(state, Planify(state, host, records), project);
      && (a.detach == 1 <==> project == NixosExcluded && IsNixos(host.osName))
      && (a.detach == 0 ==> BasePriority <= a.resourceShare <= BasePriority + MaxBoost)
  {
  }

  /**
   `account` holds the account of every registered project, priced by the plan
   of one answer of the history query for the host (any answer gives the same
   plan, see `ListingsAgree`).
   */
  ghost predicate PlannedFromHistory(state: AppState, db: DataBase, host: HostInfo, account: seq<RpcAccount>) {
    exists rows :: IsListing(db, host.hostCpid, 0, rows) &&
      forall p :: p in state.projects ==> AccountFor(state, Planify(state, host, rows), p) in account
  }

  lemma PlannedFromListing(state: AppState, db: DataBase, host: HostInfo, rows: seq<WorkUnit>, account: seq<RpcAccount>)
    requires IsListing(db, host.hostCpid, 0, rows)
    requires forall p :: p in state.projects ==> AccountFor(state, Planify(state, host, rows), p) in account
    ensures PlannedFromHistory(state, db, host, account)
  {
  }

  /**
   Only the account of `loda`, and only on a NixOS host, is detached; every
   other account has a share between 100 and 1100.
   */
  ghost predicate DetachOnlyExcluded(state: AppState, host: HostInfo, account: seq<RpcAccount>) {
    forall a :: a in account ==>
      && (a.detach == 1 <==> a.url == GetProxyUrl(state, NixosExcluded) &&
                             NixosExcluded in state.projects && IsNixos(host.osName))
      && (a.detach == 0 ==> BasePriority <= a.resourceShare <= BasePriority + MaxBoost)
  }

  /** The detach flags of a whole account list built from a plan. */
  lemma PlannedAccountsDetach(state: AppState, host: HostInfo, records: seq<WorkUnit>, account: seq<RpcAccount>)
    requires forall a :: a in account ==>
      exists p :: p in state.projects && a == AccountFor(state, Planify(state, host, records), p)
    ensures DetachOnlyExcluded(state, host, account)
  {
    forall a | a in account
      ensures && (a.detach == 1 <==> a.url == GetProxyUrl(state, NixosExcluded) &&
                                     NixosExcluded in state.projects && IsNixos(host.osName))
              && (a.detach == 0 ==> BasePriority <= a.resourceShare <= BasePriority + MaxBoost)
    {
      var p :| p in state.projects && a == AccountFor(state, Planify(state, host, records), p);
      DetachExactlyExcluded(state, host, records, p);
      if NixosExcluded in state.projects && a.url == GetProxyUrl(state, NixosExcluded) {
        ProxyUrlInjective(state.baseUrl, p, NixosExcluded);
      }
    }
  }

  /**
   `rpc_endpoint`: a request whose name is not the weak secret is refused before
   any planning; otherwise the device's whole history (cutoff 0) is planned and
   turned into the account list.
   */
  method RpcEndpoint(state: AppState, db: DataBase, query: RpcQuery) returns (o: RpcOutcome)
    requires Valid(db)
    ensures o.Forbidden? <==> query.name != state.weakAuth
    ensures o.Forbidden? ==> o.body == "Invalid name"
    ensures o.Reply? ==> o.response.name == state.accountManagerName
    ensures o.Reply? ==> o.response.signingKey == state.signingKey
    ensures o.Reply? ==> |o.response.account| == |state.projects|
    ensures o.Reply? ==> PlannedFromHistory(state, db, query.hostInfo, o.response.account)
    ensures o.Reply? ==> DetachOnlyExcluded(state, query.hostInfo, o.response.account)
  {
    if query.name != state.weakAuth {
      return Forbidden("Invalid name");
    }
    var rows := ListWorkUnitSentSince(db, query.hostInfo.hostCpid, 0);

    var plan := Planify(state, query.hostInfo, rows);
    var response := NewFromPlanificatorResult(state, plan);
    PlannedAccountsDetach(state, query.hostInfo, rows, response.account);
    PlannedFromListing(state, db, query.hostInfo, rows, response.account);
    o := Reply(response);
  }
}
