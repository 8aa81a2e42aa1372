/**
 The process-wide configuration: the project registry, the account-manager
 identity and the gateway's externally visible base URL, plus the two URL
 formats derived from it.
 */
module App {

  /** A registry entry; `urlSignature` is the content of the project's `<key>.pub` file. */
  datatype Project = Project(
    name: string,
    schedulerUrl: string,
    urlSignature: string,
    authenticator: string)

  /** The state shared by every request handler (the store handle is kept apart). */
  datatype AppState = AppState(
    projects: map<string, Project>,
    accountManagerName: string,
    signingKey: string,
    baseUrl: string,
    weakAuth: string)

  /** A project entry of `config.json`. */
  datatype JsonProject = JsonProject(name: string, schedulerUrl: string, authenticator: string)

  /** The decoded `config.json`. */
  datatype JsonConfig = JsonConfig(
    projects: map<string, JsonProject>,
    accountManagerName: string,
    signingKeyPath: string,
    signatureFolder: string,
    baseUrl: string,
    weakAuth: string)

  const ProxySegment: string := "/proxy/"
  const SchedulerSegment: string := "scheduler"

  /**
   `_get_proxy_url`: the `{base}/proxy/{project}/` format. A proxy URL splits
   back into the base URL, `/proxy/`, the project id and a final `/`.
   */
  function ProxyUrlFor(baseUrl: string, project: string): (url: string)
    ensures |url| == |baseUrl| + |ProxySegment| + |project| + 1
    ensures url[..|baseUrl|] == baseUrl
    ensures url[|baseUrl|..|baseUrl| + |ProxySegment|] == ProxySegment
    ensures url[|baseUrl| + |ProxySegment|..|url| - 1] == project
    ensures url[|url| - 1] == '/'
  {
    baseUrl + ProxySegment + project + "/"
  }

  /**
   `get_proxy_url`: the proxy URL under this gateway's own base URL; the
   project's scheduler URL is that URL followed by `scheduler`.
   */
  function GetProxyUrl(state: AppState, project: string): (url: string)
    ensures GetSchedulerUrl(state, project) == url + SchedulerSegment
  {
    ProxyUrlFor(state.baseUrl, project)
  }

  /** `get_scheduler_url`: the `{base}/proxy/{project}/scheduler` format. */
  function GetSchedulerUrl(state: AppState, project: string): (url: string)
    ensures |url| == |state.baseUrl| + |ProxySegment| + |project| + 1 + |SchedulerSegment|
    ensures url[..|state.baseUrl|] == state.baseUrl
    ensures url[|url| - |SchedulerSegment|..] == SchedulerSegment
  {
    state.baseUrl + ProxySegment + project + "/" + SchedulerSegment
  }

  /** Under one base URL, distinct projects have distinct proxy URLs. */
  lemma {:induction false} ProxyUrlInjective(baseUrl: string, p: string, q: string)
    requires ProxyUrlFor(baseUrl, p) == ProxyUrlFor(baseUrl, q)
    ensures p == q
  {
    var url := ProxyUrlFor(baseUrl, p);
    assert p == url[|baseUrl| + |ProxySegment|..|url| - 1];
    assert q == url[|baseUrl| + |ProxySegment|..|url| - 1];
  }

  /** The registry entry `AppState::new` builds from a config entry and its signature file. */
  function ProjectFrom(entry: JsonProject, signature: string): (p: Project)
    ensures p.name == entry.name && p.schedulerUrl == entry.schedulerUrl
    ensures p.authenticator == entry.authenticator && p.urlSignature == signature
  {
    Project(entry.name, entry.schedulerUrl, signature, entry.authenticator)
  }

  /**
   `AppState::new`, with its file reads supplied as inputs: `signingKey` is the
   content of the signing-key file and `signatures[key]` that of `<key>.pub`.
   The source panics when one of those files is missing, hence the requirement.
   The config's projects are visited in an arbitrary order.
   */
  method New(config: JsonConfig, signingKey: string, signatures: map<string, string>)
    returns (state: AppState)
    requires config.projects.Keys <= signatures.Keys
    ensures state.projects.Keys == config.projects.Keys
    ensures forall key :: key in state.projects ==>
      && state.projects[key].name == config.projects[key].name
      && state.projects[key].schedulerUrl == config.projects[key].schedulerUrl
      && state.projects[key].authenticator == config.projects[key].authenticator
      && state.projects[key].urlSignature == signatures[key]
    ensures state.accountManagerName == config.accountManagerName
    ensures state.signingKey == signingKey
    ensures state.baseUrl == config.baseUrl
    ensures state.weakAuth == config.weakAuth
  {
    var projects: map<string, Project> := map[];
    var pending := config.projects.Keys;
    while pending != {}
      invariant pending <= config.projects.Keys
      invariant projects.Keys == config.projects.Keys - pending
      invariant forall key :: key in projects ==>
        projects[key] == ProjectFrom(config.projects[key], signatures[key])
      decreases pending
    {
      var key :| key in pending;
      projects := projects[key := ProjectFrom(config.projects[key], signatures[key])];
      pending := pending - {key};
    }
    state := AppState(projects, config.accountManagerName, signingKey, config.baseUrl, config.weakAuth);
  }
}
