# hacky-account-manager, modelled in Dafny

This project models the core of hacky-account-manager. That program is a BOINC
account manager that sits between volunteer-computing clients and the
upstream project schedulers. It does three things:

- It relays every client scheduler request to the real project scheduler.
- It records in a SQLite store which work the client was handed.
- On the client's periodic `rpc.php` call, it turns that history into one
  resource share per project.

The model covers five parts:

- **Store** (`database.dfy`, module `Database`). The tables `workunit` and
  `app_version` are maps from primary key to row. The operations are the
  insert-or-ignore writes, the status update and the "sent since" query. The
  query's row order is unspecified in SQLite, so the method picks rows in an
  arbitrary order.
- **Scheduler proxy** (`proxy_scheduler.dfy`, module `ProxyScheduler`). One
  exchange is a pure function:
  - the project lookup and the User-Agent check;
  - the status updates from the client's `<result>` reports, in report order;
  - forwarding the request;
  - the `&` to `&amp;` repair of the upstream text;
  - the workunit/result and app_version/app correlation passes, which persist
    rows only on a 200 answer;
  - relaying the upstream status and body unchanged.

  The HTTP client (`upstream`) and the reply's XML decoder (`decodeReply`) are
  function parameters. The client's request arrives already decoded. The
  wall-clock second is the parameter `now`.
- **Planificator** (`planificator.dfy`, module `Planificator`). `Planify` takes
  the registry, the host description and the rows of the history query. For
  each project it returns 100 plus a boost:
  - 1000 for a project never served to the device;
  - otherwise `(10000 / max(TFLOP, 10000)) * 1000`, truncated. TFLOP is the
    live (not cancelled) estimate summed in listing order, halved for
    `worldcommunitygrid`.

  `loda` is dropped when the lower-cased OS name contains `nixos`.
- **Account reply** (`rpc.dfy`, module `Rpc`). The weak-secret gate, and the
  account list with one account per registered project. An account carries
  the proxy URL, the signature, the authenticator, the planned share and a
  detach flag.
- **Registry and URLs** (`app_state.dfy`, module `App`). Building the
  registry from the decoded configuration and the signature files, and the
  two URL formats.

`wrappers.dfy`, `seqs.dfy`, `strings.dfy` and `device_info.dfy` hold small
shared definitions: `Option`, first and last index search, ASCII lower-casing
and substring search, and the host description. The source's `DeviceInfo`
wrapper around the host description is not kept: the planificator takes the
host description directly.

Some properties depend on a choice the program leaves open:

- **Listing order.** `ListingsAgree` and `PlanIgnoresOrder` show that every
  answer the history query can give leads to the same plan.
- **Registry visiting order.** The account list is characterised as a set of
  accounts with distinct URLs, one per project.

## Model

| member | source | states |
|---|---|---|
| Database.AddWorkUnit | src/database.rs:121-143 | INSERT OR IGNORE on the workunit table. The key set grows by exactly the row's primary key `(result_name, project)`. A row already stored under that key is kept, otherwise the new row is stored. `app_version` is untouched and every row stays under its own key. |
| Database.AddAppVersion | src/database.rs:106-119 | The same insert-once behaviour for `app_version`, keyed by `(project, app_name, version, platform, plan_class)`. The workunit table is untouched. |
| Database.UpdateStatus | src/database.rs:145-151 | `UPDATE … WHERE project AND result_name`. Only the row with that key changes, and only its status, which becomes the given value. A missing key changes nothing. The row's cpid plays no part. |
| Database.ListWorkUnitSentSince | src/database.rs:153-176 | Returns each stored row with the given cpid and a timestamp strictly after the cutoff, exactly once, in some order. |
| Database.EmptyIsValid | src/database.rs:63-104 | The freshly created store, with both tables empty, satisfies the invariant that every row sits under its own primary key, which the route and the account endpoint rely on. |
| Database.InsertOnce | src/database.rs:121-143 | A second insert under a taken key leaves the store as the first insert left it, whatever the second row holds. |
| Database.UpdateThenList | src/database.rs:145-176 | After a status update of a listed row, the listing holds the row with the new status. It no longer holds the row with the old status. |
| Database.InsertWorkUnitsKeys | src/boinc_api/proxy_scheduler.rs:130-156 | Inserting a batch of rows in order adds exactly the keys of the batch to the store. |
| Database.InsertWorkUnitsNewRow | src/boinc_api/proxy_scheduler.rs:130-156 | Every row a batch adds to the store is a row of the batch. |
| Database.InsertWorkUnitsFirstWins | src/boinc_api/proxy_scheduler.rs:130-156 | For a key the store did not hold, the stored row is the first row of the batch that carries the key. |
| Database.InsertWorkUnits | src/boinc_api/proxy_scheduler.rs:129-156 | The `add_work_unit` loop leaves `app_version` untouched. It keeps every row already stored and preserves the key invariant. |
| Database.InsertAppVersions | src/boinc_api/proxy_scheduler.rs:158-173 | The `add_app_version` loop leaves the workunit table untouched. It keeps every app version already stored and preserves the key invariant. |
| Database.InsertAppVersionsKeys | src/boinc_api/proxy_scheduler.rs:158-173 | Inserting a batch of app versions in order adds exactly the keys of the batch. |
| Database.InsertAppVersionsNewRow | src/boinc_api/proxy_scheduler.rs:158-173 | Every app version a batch adds to the store is one of the batch. |
| Database.InsertAppVersionsFirstWins | src/boinc_api/proxy_scheduler.rs:158-173 | For a key the store did not hold, the stored app version is the first of the batch that carries the key. |
| ProxyScheduler.ProxySchedulerRoute | src/boinc_api/proxy_scheduler.rs:82-178 | The outcome for each request: <br>- unknown project: 404 "Project not found", store and upstream untouched; <br>- no User-Agent: 400 "No user-agent provided", store and upstream untouched; <br>- otherwise the request goes to the project's scheduler URL with the client's User-Agent and body, and the upstream status and body are relayed unchanged; <br>- a non-200 answer leaves only the status updates in the store; <br>- a 200 answer adds to the workunit table exactly the keys of the rows correlated from the repaired and decoded relayed body, and to `app_version` exactly the keys of the correlated app versions. <br>Store validity is preserved in every case. |
| ProxyScheduler.ApplyStatusUpdates | src/boinc_api/proxy_scheduler.rs:105-110 | The report loop keeps the key set and `app_version`. It changes no stored row except for its status. |
| ProxyScheduler.LastReportWins | src/boinc_api/proxy_scheduler.rs:105-110 | After the loop, a row of the exchange's project carries the state of the last report that names it. Rows of other projects, and unreported rows, are unchanged. |
| ProxyScheduler.EscapeAmpersands | src/boinc_api/proxy_scheduler.rs:127 | The repaired text is four characters longer per `&` of the upstream text. |
| ProxyScheduler.EscapedAmpersandsAreEntities | src/boinc_api/proxy_scheduler.rs:127 | Every `&` in the repaired text opens an `&amp;` entity. |
| ProxyScheduler.EscapeRoundTrip | src/boinc_api/proxy_scheduler.rs:127 | Reading the `&amp;` entities back as `&` gives exactly the upstream text. |
| ProxyScheduler.CorrelateWorkUnit | src/boinc_api/proxy_scheduler.rs:131-155 | A workunit yields a row if and only if some result names it. The row is the merge with the first such result. |
| ProxyScheduler.MergeWorkUnit | src/boinc_api/proxy_scheduler.rs:132-151 | The merged row is filed under the result's name in the exchange's project. It is assigned (status 1) to the device at the exchange's time. |
| ProxyScheduler.CorrelatedRowsCount | src/boinc_api/proxy_scheduler.rs:130-156 | The workunit pass emits one row per workunit that some result names. |
| ProxyScheduler.CorrelatedRowFromReply | src/boinc_api/proxy_scheduler.rs:130-156 | Every row of the workunit pass is the correlation of a workunit of the reply. |
| ProxyScheduler.CorrelatedRowsComplete | src/boinc_api/proxy_scheduler.rs:130-156 | The row of every workunit that some result names is among the rows of the pass. |
| ProxyScheduler.CorrelateWorkUnitsAppend | src/boinc_api/proxy_scheduler.rs:129-156 | The rows follow reply order: correlating a reply split in two gives the rows of the first part, then those of the second. |
| ProxyScheduler.FirstCorrelatedRowStored | src/boinc_api/proxy_scheduler.rs:129-156 | When several workunits of a reply give rows under one fresh key, the store keeps the row of the first of them in reply order. |
| ProxyScheduler.CorrelatedRowShape | src/boinc_api/proxy_scheduler.rs:133-151 | A correlated row has status 1 (assigned), the requesting device's cpid, the exchange's project and the exchange's time. |
| ProxyScheduler.CorrelatedRowFields | src/boinc_api/proxy_scheduler.rs:130-153 | Given the first result that names a workunit, the row exists and takes the device cpid, the project, status 1 and the time of the exchange. It takes the name, app and the four resource estimates from the workunit. It takes the platform, version, plan class and result name from that first result. |
| ProxyScheduler.CorrelateAppVersion | src/boinc_api/proxy_scheduler.rs:159-172 | An app version yields a row if and only if some app has its name. The row is the merge with the first such app. |
| ProxyScheduler.MergeAppVersion | src/boinc_api/proxy_scheduler.rs:160-167 | The merged app version is keyed by the project, the app's name and the version's number, platform and plan class. It takes the app's user-friendly name. |
| ProxyScheduler.CorrelatedAppVersionFields | src/boinc_api/proxy_scheduler.rs:158-170 | Given the first app that has a version's app name, the row exists. It takes the project and the user-friendly name of that first app. It takes the app name, version, platform and plan class from the version. |
| ProxyScheduler.CorrelateAppVersions | src/boinc_api/proxy_scheduler.rs:158-173 | The app-version pass emits rows only for app versions whose app is present, and emits a row for every such app version. |
| ProxyScheduler.SameKeySameAppVersion | src/boinc_api/proxy_scheduler.rs:158-173 | Two correlated app versions under one key are the same row, so the order and repetition of app versions in a reply do not show in the store. |
| ProxyScheduler.ProxyKeepsExistingRows | src/boinc_api/proxy_scheduler.rs:104-156 | A row stored before a forwarded exchange survives it. Only the status reports change it; correlation never overwrites it. |
| ProxyScheduler.ProxyFreshRows | src/boinc_api/proxy_scheduler.rs:126-156 | A row created by an exchange is the merge of a reply workunit with its first result. It is assigned to the requesting device at the exchange's time. |
| ProxyScheduler.ProxyFreshRowIsFirst | src/boinc_api/proxy_scheduler.rs:125-156 | On a 200 answer, the row stored under a fresh key is the row of the first workunit of the decoded reply, in reply order, whose row carries that key. |
| ProxyScheduler.RouteAppVersions | src/boinc_api/proxy_scheduler.rs:125-173 | After a forwarded exchange every stored app version is unchanged. A 200 answer adds exactly the keys of the correlated app versions of the decoded reply; any other answer adds none. |
| ProxyScheduler.ProxyFreshAppVersions | src/boinc_api/proxy_scheduler.rs:157-173 | An app version an exchange adds is the merge of an app version of the decoded reply with its first app. |
| ProxyScheduler.FreshRowCorrelated | src/boinc_api/proxy_scheduler.rs:130-156 | A row that a correlated batch adds to the store comes from one workunit of the reply and carries the assignment fields. |
| ProxyScheduler.OnePairOneRow | src/boinc_api/proxy_scheduler.rs:130-156 | Two workunits and two results, with one matching pair, give exactly one row: that pair's merge. |
| ProxyScheduler.RecordReply | src/boinc_api/proxy_scheduler.rs:125-175 | Both passes over a 200 reply: the workunit table gains exactly the keys of the correlated rows, and `app_version` those of the correlated app versions. No stored row of either table changes, and the key invariant is preserved. |
| Planificator.NewFromAppState | src/planificator.rs:14-25 | One entry per registered project, each with the default priority. |
| Planificator.IsNixos | src/planificator.rs:33 | The host counts as NixOS if and only if some five consecutive characters of its OS name spell `nixos` in any mix of cases. |
| Planificator.NixosIgnoresCase | src/planificator.rs:33 | The NixOS test gives the same answer for an OS name and for its lower-cased form. |
| Planificator.DiscountLeader | src/planificator.rs:47 | The same projects. Only `worldcommunitygrid` is halved, and only when it is present. |
| Planificator.Boost | src/planificator.rs:50-54 | The boost is at most 1000. It is exactly 1000 if and only if the aggregate is at most 10^16 FLOPs (10000 TFLOP). |
| Planificator.Planify | src/planificator.rs:28-61 | The plan holds every registered project, minus `loda` on a NixOS host. Every priority lies between 100 and 1100. |
| Planificator.AggregateIsLiveSum | src/planificator.rs:39-46 | The fold in listing order has an entry for a project if and only if the listing has a live row of that project. The entry is the sum of that project's live estimates. |
| Planificator.Aggregate | src/planificator.rs:39-46 | The `sent_wu` fold: rows in listing order, cancelled rows skipped, a project's first live row inserting its estimate and later ones adding to it. It has no contract of its own; `AggregateIsLiveSum` states its content. |
| Planificator.PlannedPriority | src/planificator.rs:37-58 | A planned priority is 100 plus the boost of the (discounted) live sum, or 100 + 1000 when the project has no live row. |
| Planificator.UnservedProjectPriority | src/planificator.rs:41-56 | A project whose rows are all cancelled gets 1100. |
| Planificator.NoHistoryPriorities | src/planificator.rs:49-57 | A device without history gets 1100 for every planned project. |
| Planificator.LiveSumPermutation | src/planificator.rs:39-46 | Reordering the listing leaves every project's live sum unchanged. |
| Planificator.HasLivePermutation | src/planificator.rs:39-46 | Reordering the listing leaves unchanged whether a project has a live row. |
| Planificator.PlanIgnoresOrder | src/planificator.rs:39-58 | Two listings with the same rows in different orders give the same plan. |
| Planificator.ListingsAgree | src/planificator.rs:38-46 | Any two answers of the history query give the same plan. |
| Planificator.BoostAntitone | src/planificator.rs:50-54 | A larger aggregate never earns a larger boost. |
| Planificator.BoostClosedForm | src/planificator.rs:50-54 | The boost equals 10^19 / max(aggregate, 10^16), truncated. |
| Planificator.UnregisteredNeverPlanned | src/planificator.rs:28-35 | A project that is not in the registry never appears in the plan, whatever rows mention it. |
| Rpc.AccountFor | src/boinc_api/rpc.rs:27-39 | The account points at the project's proxy URL. It copies the project's URL signature and authenticator from the registry. Its share is the plan's priority for the project, or 0 when the plan leaves the project out. Its detach flag is 1 if and only if its share is 0. The flag is 0 if and only if the plan holds the project with a non-zero priority. |
| Rpc.AccountsDistinguished | src/boinc_api/rpc.rs:32-38 | The accounts of two different projects have different URLs. |
| Rpc.NewFromPlanificatorResult | src/boinc_api/rpc.rs:22-45 | The reply carries the manager's name and signing key. It holds exactly one account per registered project: every project's account is present, every account belongs to a project, and no URL repeats. |
| Rpc.DetachExactlyExcluded | src/boinc_api/rpc.rs:27-38 | Fed by the planificator, an account is detached if and only if it is `loda` on a NixOS host. Every other share lies between 100 and 1100. |
| Rpc.PlannedAccountsDetach | src/boinc_api/rpc.rs:27-38 | The detach property holds over a whole account list built from a plan. |
| Rpc.RpcEndpoint | src/boinc_api/rpc.rs:55-67 | The request is Forbidden ("Invalid name") if and only if the name is not the weak secret. Otherwise the reply has one account per project, priced by the plan of the device's full history (cutoff 0), and only `loda` on NixOS is detached. |
| App.ProxyUrlFor | src/app_state.rs:95-97 | A proxy URL splits back into the base URL, `/proxy/`, the project id and a final `/`. |
| App.ProxyUrlInjective | src/app_state.rs:95-97 | Under one base URL, distinct projects have distinct proxy URLs. |
| App.GetSchedulerUrl | src/app_state.rs:99-101 | The scheduler URL starts with the base URL, ends with `scheduler`, and has the length of the format. |
| App.GetProxyUrl | src/app_state.rs:91-101 | The scheduler URL of a project is its proxy URL under the gateway's base URL, followed by `scheduler`. |
| App.ProjectFrom | src/app_state.rs:69-77 | A registry entry copies name, scheduler URL and authenticator from the config, and takes the signature file's content. |
| App.New | src/app_state.rs:48-89 | The registry has exactly the config's project ids, each built from its entry and its signature. The scalar settings are copied from the config. |
| Strings.ToLower | src/planificator.rs:33 | Lower-casing keeps the length and lower-cases each character. |
| Seqs.FindFirst | src/boinc_api/proxy_scheduler.rs:131-155 | The index of the first element that satisfies the test, or none when no element does. This is the `break` of both correlation loops. |
| Seqs.FindLast | src/boinc_api/proxy_scheduler.rs:105-110 | The index of the last element that satisfies the test, or none. |

## Left out

- HTTP serving (actix-web routes) and the upstream client (awc) are not modelled. The upstream call is the function `upstream`. Only a response's status and body are modelled, not its other headers.
- XML decoding (quick_xml/serde) is not modelled:
  - The client's request arrives already decoded.
  - The upstream reply's decoder is the function `decodeReply`.
  - A body that fails to decode makes the source panic via `unwrap`. The model has no such path.
  - The same holds for failed upstream calls and for SQLite errors that are unwrapped.
- The `rpc.php` reply is not serialised (`xml_to_response`, src/boinc_api/xml_response.rs). The model stops at the `RpcResponse` value.
- The SQLite connection, `check_table_exist` and the table creation in `upgrade` are modelled only as the empty store `Empty`. The model starts from any valid pair of tables, empty or not.
- The mutex around the connection is not modelled: every store operation is one atomic step. Concurrent exchanges interleaving between steps are not modelled.
- File reads in `AppState::new` are inputs: the signing-key text and a map from project key to signature text. A missing file makes the source panic. The model instead requires a signature for every configured project.
- The clock is the parameter `now`: one value for every row of an exchange. The source reads the clock once per row, so rows of one exchange may differ by a second.
- Floating point is replaced by exact reals. Infinities, NaN and rounding are not modelled.
- Planificator.PlanIgnoresOrder: in `f64`, summing the same estimates in another order can round differently, so the property holds only in exact arithmetic.
- Database.UpdateStatus: statuses are unbounded naturals. The source writes a client-reported `u64` state and later reads the column back as `u32`; a state above 2^32 - 1 would make that read fail. That failure is not modelled.
- Strings.ToLower: only ASCII letters are lower-cased, whereas Rust's `to_lowercase` is Unicode-wide. For the test "contains `nixos`" this makes no difference: apart from ASCII capitals, the only character whose lower case starts with one of those letters is `İ`, and it becomes `i` followed by a combining dot, which breaks the match.
- `String::from_utf8_lossy` is taken as the identity on the upstream text.
- The upstream request carries the raw client body. The model treats that body as opaque and does not re-encode the decoded `Query`.
- A `u16` priority overflow is not modelled: `Planify` proves every priority lies within 100..1100, so the `+=` cannot wrap.
- The entry point and router (src/main.rs, src/lib.rs, src/boinc_api/mod.rs) are not modelled: they only wire the routes together.
- The static routes (src/boinc_api/project_config.rs, src/boinc_api/proxy_root.rs) are not modelled: they serve fixed documents and touch no state.
- Logging (`println!`, `info!`) is not modelled.
