/** The records the scanner builds: projects, project references ("k_project"),
    protected resources of the six inventory types, pipeline definitions and
    builds, and the parsed answer of the pipeline-permission endpoint. */
module Resources {
  import opened Wrappers
  import opened Text
  import opened PipelineKeys

  /** The keys of the starter inventory, in its order. */
  datatype ResourceType = Endpoint | Pools | Queue | VariableGroup | SecureFile | Repository

  /** The inventory key, which is also the `resourceType` of an entry and the
      kind written into reverse-index tags. */
  function TypeName(t: ResourceType): (name: string)
    ensures Separator !in name
  {
    match t
    case Endpoint => "endpoint"
    case Pools => "pools"
    case Queue => "queue"
    case VariableGroup => "variablegroup"
    case SecureFile => "securefile"
    case Repository => "repository"
  }

  lemma TypeNamesDistinct(s: ResourceType, t: ResourceType)
    ensures TypeName(s) == TypeName(t) <==> s == t
  {
  }

  datatype Level = OrgLevel | ProjectLevel

  /** An entry of the project table (`self.projects`). */
  datatype Project = Project(id: string, name: string)

  /** The project table as discovered: ids are distinct. */
  predicate ProjectTable(projects: seq<Project>) {
    forall i, j :: 0 <= i < j < |projects| ==> projects[i].id != projects[j].id
  }

  function FindProject(projects: seq<Project>, id: string): (r: Option<Project>)
    ensures r.Some? <==> exists i :: 0 <= i < |projects| && projects[i].id == id
    ensures r.Some? ==> r.value in projects && r.value.id == id
    decreases |projects|
  {
    if projects == [] then None
    else if projects[0].id == id then Some(projects[0])
    else
      var r := FindProject(projects[1..], id);
      assert forall i :: 0 <= i < |projects| - 1 ==> projects[1..][i] == projects[i + 1];
      r
  }

  /** A "k_project": the empty dict, a project reference, or the org-scoped
      reference of a pool (`{scope: {type: "org", ...}}`). */
  datatype KProject =
    | NoProject
    | ProjectRef(id: string, name: string, selfAttribute: Option<string>)
    | OrgScope(scope: string, orgName: string, orgLink: string)

  /** `k_project['id']` as the scanner prints it into a URL: "None" when absent. */
  function ProjectIdText(kp: KProject): string {
    if kp.ProjectRef? then kp.id else "None"
  }

  /** Python truthiness of an optional string. */
  predicate Truthy(s: Option<string>) {
    s.Some? && s.value != ""
  }

  /** One entry of an endpoint's `serviceEndpointProjectReferences`, with the
      fields the permission resolver adds to it. */
  datatype EndpointReference = EndpointReference(
    projectId: string,
    projectName: string,
    pipelinePermissions: Option<seq<Key>>,
    warning: Option<Warning>)

  /** The warning put on a reference whose answer grants nothing: "Project ID
      <id> not found in self.projects. Do you need to increase the scope of
      the observability in config? PAT token may not have necessary
      permissions". */
  datatype Warning = ScopeWarning(projectId: string)

  /** `k_project_shared_from` of an endpoint: absent, None (lookup failed) or
      the list of matching project references. */
  datatype SharedFrom = NotLookedUp | LookupFailed | Matched(matches: seq<SharedMatch>)
  datatype SharedMatch = SharedMatch(projectId: string, name: string)

  /** Pull-request counts of a repository, by status. */
  datatype PrCounts = PrCounts(active: nat, abandoned: nat, completed: nat, other: nat, all: nat)

  datatype RepoState = Active | Stale | Dormant | Unknown

  /** The activity part of a repository's `stats` (second crawl pass). */
  datatype Activity = Activity(
    firstCommitDate: Option<int>,
    lastCommitDate: Option<int>,
    age: Option<int>,
    branchCount: nat,
    pullRequests: PrCounts,
    state: RepoState)

  /** `stats['committers']` of a repository. */
  datatype CommitterSummary = CommitterSummary(totalCommits: nat, count: nat, uniqueCommitters: seq<string>)

  datatype RepoStats = RepoStats(activity: Option<Activity>, committers: Option<CommitterSummary>)

  /** The type-specific part of a listed resource. */
  datatype Detail =
    | PoolDetail(scope: string)
    | QueueDetail(poolId: Option<string>, projectId: string)
    | EndpointDetail(
        references: seq<EndpointReference>,
        isShared: bool,
        projectsRefs: Option<seq<KProject>>,
        sharedFrom: SharedFrom)
    | RepositoryDetail(
        projectId: string,
        projectName: string,
        webUrl: Option<string>,
        branches: Option<seq<string>>,
        stats: Option<RepoStats>)
    | PlainDetail

  datatype Protection = Protected | Unprotected

  /** A protected resource (the `resource` dict of an inventory entry). Fields
      the scanner adds later start out as None; `kProjects` stands for the
      key 'k_projects', which the classifier reads and nothing writes. */
  datatype Resource = Resource(
    id: string,
    name: string,
    detail: Detail,
    kUrl: Option<string>,
    kProject: KProject,
    checks: Option<seq<string>>,
    pipelinePermissions: Option<seq<Key>>,
    queues: Option<seq<string>>,
    protectedState: Option<Protection>,
    isCrossProject: Option<bool>,
    kProjects: Option<seq<KProject>>)

  /** The listing payload has the shape the type's code path reads; a
      mismatch raises inside the crawl. */
  predicate Shaped(t: ResourceType, r: Resource) {
    match t
    case Pools => r.detail.PoolDetail?
    case Queue => r.detail.QueueDetail?
    case Endpoint => r.detail.EndpointDetail?
    case Repository => r.detail.RepositoryDetail?
    case VariableGroup => true
    case SecureFile => true
  }

  predicate HasId(rs: seq<Resource>, id: string) {
    exists i :: 0 <= i < |rs| && rs[i].id == id
  }

  predicate DistinctIds(rs: seq<Resource>) {
    forall i, j :: 0 <= i < j < |rs| ==> rs[i].id != rs[j].id
  }

  /** A pipeline definition; `resourcePermissions` is filled by the reverse index. */
  datatype Definition = Definition(
    key: Key,
    projectId: string,
    repositoryId: string,
    kProject: KProject,
    resourcePermissions: Option<map<string, seq<string>>>)

  /** A build (run) of a definition; `key` is "<project id>_<build id>". */
  datatype Build = Build(
    key: string,
    definitionId: nat,
    definitionProjectId: string,
    repositoryId: string,
    kProject: KProject)

  /** The parsed answer of the pipeline-permission endpoint: None from the
      fetch, a dict with 'allPipelines' (whatever its value), a dict with
      'pipelines' (their ids), or any other dict. */
  datatype Response = Missing | AllPipelines | Pipelines(ids: seq<nat>) | Other

  /** The pipeline-permission endpoint: (type, project queried, resource id) to answer. */
  type PermissionFetch = (ResourceType, string, string) -> Response
}
