/** The per-project resource counts of `get_enriched_stats`: how many
    definitions, builds, protected resources and commits belong to each
    project of the statistics, and how many distinct committers it has. */
module ProjectCounts {
  import opened Wrappers
  import opened Resources
  import opened Commits

  datatype ResourceCounts = ResourceCounts(
    pipelines: nat,
    builds: nat,
    endpoint: nat,
    variablegroup: nat,
    securefile: nat,
    queue: nat,
    repository: nat,
    commits: nat,
    uniqueCommitters: nat)

  /** `x.get('k_project') and project == x['k_project']['id']`: an empty
      k_project is falsy; an org-scoped one has no 'id' and raises KeyError. */
  function InProject(kp: KProject, project: string): (r: Result<bool>)
    ensures r.Ok? <==> !kp.OrgScope?
    ensures r == Ok(true) <==> kp.ProjectRef? && kp.id == project
  {
    match kp
    case NoProject => Ok(false)
    case ProjectRef(id, _, _) => Ok(id == project)
    case OrgScope(_, _, _) => Err(KeyError("id"))
  }

  predicate Owned(kp: KProject, project: string) {
    kp.ProjectRef? && kp.id == project
  }

  /** The positions of a list whose k_project is the project. */
  function OwnedPositions(kps: seq<KProject>, project: string): set<int> {
    set i | 0 <= i < |kps| && Owned(kps[i], project)
  }

  /** `len([x for x in xs if <x in project>])` over the k_projects of a list. */
  function CountOwned(kps: seq<KProject>, project: string): (r: Result<nat>)
    ensures r.Ok? <==> forall i :: 0 <= i < |kps| ==> !kps[i].OrgScope?
    ensures r.Err? ==> r.error == KeyError("id")
    ensures r.Ok? ==> r.value == |OwnedPositions(kps, project)|
    decreases |kps|
  {
    if kps == [] then Ok(0)
    else
      var n := |kps| - 1;
      var earlier :- CountOwned(kps[..n], project);
      var here :- InProject(kps[n], project);
      OwnedPositionsSnoc(kps, project);
      Ok(earlier + if here then 1 else 0)
  }

  /** One more k_project adds its position when it is the project's. */
  lemma OwnedPositionsSnoc(kps: seq<KProject>, project: string)
    requires kps != []
    ensures var n := |kps| - 1;
      && (forall i :: 0 <= i < n ==> kps[..n][i] == kps[i])
      && |OwnedPositions(kps, project)| == |OwnedPositions(kps[..n], project)| + if Owned(kps[n], project) then 1 else 0
  {
    var n := |kps| - 1;
    var init := kps[..n];
    assert forall i :: 0 <= i < n ==> init[i] == kps[i];
    assert OwnedPositions(kps, project) == OwnedPositions(init, project) + (if Owned(kps[n], project) then {n} else {});
  }

  /** The k_projects of the definitions, builds, resources and commits. */
  function DefinitionProjects(defs: seq<Definition>): (r: seq<KProject>)
    ensures |r| == |defs| && forall i :: 0 <= i < |defs| ==> r[i] == defs[i].kProject
  {
    seq(|defs|, i requires 0 <= i < |defs| => defs[i].kProject)
  }

  function BuildProjects(builds: seq<Build>): (r: seq<KProject>)
    ensures |r| == |builds| && forall i :: 0 <= i < |builds| ==> r[i] == builds[i].kProject
  {
    seq(|builds|, i requires 0 <= i < |builds| => builds[i].kProject)
  }

  function ResourceProjects(rs: seq<Resource>): (r: seq<KProject>)
    ensures |r| == |rs| && forall i :: 0 <= i < |rs| ==> r[i] == rs[i].kProject
  {
    seq(|rs|, i requires 0 <= i < |rs| => rs[i].kProject)
  }

  function CommitProjects(commits: seq<Commit>): (r: seq<KProject>)
    ensures |r| == |commits| && forall i :: 0 <= i < |commits| ==> r[i] == commits[i].kProject
  {
    seq(|commits|, i requires 0 <= i < |commits| => commits[i].kProject)
  }

  /** An endpoint counts for a project when one of its 'k_projects_refs'
      names that project. */
  predicate SharedWith(r: Resource, project: string) {
    r.detail.EndpointDetail? && r.detail.projectsRefs.Some? &&
    exists k :: 0 <= k < |r.detail.projectsRefs.value| && Owned(r.detail.projectsRefs.value[k], project)
  }

  function CountShared(endpoints: seq<Resource>, project: string): (n: nat)
    ensures n == |set i | 0 <= i < |endpoints| && SharedWith(endpoints[i], project)|
    decreases |endpoints|
  {
    if endpoints == [] then 0
    else
      var n := |endpoints| - 1;
      var init := endpoints[..n];
      assert forall i :: 0 <= i < n ==> init[i] == endpoints[i];
      assert (set i | 0 <= i < |endpoints| && SharedWith(endpoints[i], project)) ==
        (set i | 0 <= i < n && SharedWith(init[i], project)) + (if SharedWith(endpoints[n], project) then {n} else {});
      CountShared(init, project) + if SharedWith(endpoints[n], project) then 1 else 0
  }

  /** The committer emails of a project's commits (with a non-empty email). */
  function ProjectCommitters(commits: seq<Commit>, project: string): set<string> {
    set i | 0 <= i < |commits| && Owned(commits[i].kProject, project) && Truthy(commits[i].committerEmail) :: commits[i].committerEmail.value
  }

  /** The inventory lists the counts read. */
  datatype Inventory = Inventory(
    endpoints: seq<Resource>,
    variableGroups: seq<Resource>,
    secureFiles: seq<Resource>,
    queues: seq<Resource>,
    repositories: seq<Resource>)

  /** No k_project of the counted lists is org-scoped. */
  predicate Readable(defs: seq<Definition>, builds: seq<Build>, inv: Inventory, commits: seq<Commit>) {
    (forall i :: 0 <= i < |defs| ==> !defs[i].kProject.OrgScope?) &&
    (forall i :: 0 <= i < |builds| ==> !builds[i].kProject.OrgScope?) &&
    (forall i :: 0 <= i < |inv.variableGroups| ==> !inv.variableGroups[i].kProject.OrgScope?) &&
    (forall i :: 0 <= i < |inv.secureFiles| ==> !inv.secureFiles[i].kProject.OrgScope?) &&
    (forall i :: 0 <= i < |inv.queues| ==> !inv.queues[i].kProject.OrgScope?) &&
    (forall i :: 0 <= i < |inv.repositories| ==> !inv.repositories[i].kProject.OrgScope?) &&
    (forall i :: 0 <= i < |commits| ==> !commits[i].kProject.OrgScope?)
  }

  /** The counts of one project, in the order the source evaluates them. */
  function CountsOf(project: string, defs: seq<Definition>, builds: seq<Build>, inv: Inventory, commits: seq<Commit>): (r: Result<ResourceCounts>)
    ensures r.Ok? <==> Readable(defs, builds, inv, commits)
    ensures r.Err? ==> r.error == KeyError("id")
  {
    var pipelines :- CountOwned(DefinitionProjects(defs), project);
    var builds :- CountOwned(BuildProjects(builds), project);
    var endpoint := CountShared(inv.endpoints, project);
    var variablegroup :- CountOwned(ResourceProjects(inv.variableGroups), project);
    var securefile :- CountOwned(ResourceProjects(inv.secureFiles), project);
    var queue :- CountOwned(ResourceProjects(inv.queues), project);
    var repository :- CountOwned(ResourceProjects(inv.repositories), project);
    var commitCount :- CountOwned(CommitProjects(commits), project);
    Ok(ResourceCounts(pipelines, builds, endpoint, variablegroup, securefile, queue, repository,
      commitCount, |ProjectCommitters(commits, project)|))
  }

  /** `get_enriched_stats`: the counts of every project of the statistics;
      any org-scoped k_project in a counted list aborts the call, unless
      there is no project to count. */
  function EnrichedStats(projects: set<string>, defs: seq<Definition>, builds: seq<Build>, inv: Inventory, commits: seq<Commit>): (r: Result<map<string, ResourceCounts>>)
    ensures r.Ok? <==> projects == {} || Readable(defs, builds, inv, commits)
    ensures r.Ok? ==> r.value.Keys == projects && forall p :: p in projects ==> Ok(r.value[p]) == CountsOf(p, defs, builds, inv, commits)
  {
    if projects == {} then Ok(map[])
    else if !Readable(defs, builds, inv, commits) then Err(KeyError("id"))
    else Ok(map p | p in projects :: CountsOf(p, defs, builds, inv, commits).value)
  }

  /** The positions of a project's commits. */
  function OwnedCommits(commits: seq<Commit>, project: string): set<int> {
    set i | 0 <= i < |commits| && Owned(commits[i].kProject, project)
  }

  /** A project never has more distinct committers than commits. */
  lemma CommittersAtMostCommits(project: string, commits: seq<Commit>)
    requires CountOwned(CommitProjects(commits), project).Ok?
    ensures |ProjectCommitters(commits, project)| <= CountOwned(CommitProjects(commits), project).value
  {
    assert OwnedCommits(commits, project) == set i | 0 <= i < |commits| && Owned(CommitProjects(commits)[i], project);
    CommittersAtMostOwned(project, commits);
  }

  lemma {:induction false} CommittersAtMostOwned(project: string, commits: seq<Commit>)
    ensures |ProjectCommitters(commits, project)| <= |OwnedCommits(commits, project)|
    decreases |commits|
  {
    if commits != [] {
      var n := |commits| - 1;
      var init := commits[..n];
      var c := commits[n];
      CommittersAtMostOwned(project, init);
      OwnedCommitsSnoc(project, commits);
      ProjectCommittersSnoc(project, commits);
    }
  }

  lemma OwnedCommitsSnoc(project: string, commits: seq<Commit>)
    requires commits != []
    ensures var n := |commits| - 1;
      OwnedCommits(commits, project) == OwnedCommits(commits[..n], project) + (if Owned(commits[n].kProject, project) then {n} else {})
  {
    var n := |commits| - 1;
    assert forall i :: 0 <= i < n ==> commits[..n][i] == commits[i];
  }

  lemma ProjectCommittersSnoc(project: string, commits: seq<Commit>)
    requires commits != []
    ensures var n := |commits| - 1; var c := commits[n];
      ProjectCommitters(commits, project) == ProjectCommitters(commits[..n], project) +
        (if Owned(c.kProject, project) && Truthy(c.committerEmail) then {c.committerEmail.value} else {})
  {
    var n := |commits| - 1;
    assert forall i :: 0 <= i < n ==> commits[..n][i] == commits[i];
  }

  /** Counts gathered for every project, all of them readable, are what
      `get_enriched_stats` returns. */
  lemma EnrichedFromCounts(projects: set<string>, defs: seq<Definition>, builds: seq<Build>, inv: Inventory, commits: seq<Commit>,
                           counts: map<string, ResourceCounts>)
    requires counts.Keys == projects
    requires forall p :: p in counts ==> Ok(counts[p]) == CountsOf(p, defs, builds, inv, commits)
    ensures EnrichedStats(projects, defs, builds, inv, commits) == Ok(counts)
  {
    if projects != {} {
      var p :| p in projects;
      assert CountsOf(p, defs, builds, inv, commits).Ok?;
      var r := EnrichedStats(projects, defs, builds, inv, commits);
      assert r.Ok?;
      assert r.value.Keys == counts.Keys;
      assert forall q :: q in counts ==> r.value[q] == counts[q];
      assert r.value == counts;
    }
  }

  /** The loop of `get_enriched_stats` over the projects of the statistics. */
  method EnrichStats(projects: set<string>, defs: seq<Definition>, builds: seq<Build>, inv: Inventory, commits: seq<Commit>)
    returns (out: Result<map<string, ResourceCounts>>)
    ensures out == EnrichedStats(projects, defs, builds, inv, commits)
  {
    var counts: map<string, ResourceCounts> := map[];
    var todo := projects;
    while todo != {}
      invariant todo <= projects
      invariant counts.Keys == projects - todo
      invariant forall p :: p in counts ==> Ok(counts[p]) == CountsOf(p, defs, builds, inv, commits)
      decreases |todo|
    {
      var p :| p in todo;
      var c := CountsOf(p, defs, builds, inv, commits);
      if c.Err? {
        assert !Readable(defs, builds, inv, commits) && projects != {};
        return Err(c.error);
      }
      counts := counts[p := c.value];
      todo := todo - {p};
    }
    EnrichedFromCounts(projects, defs, builds, inv, commits, counts);
    out := Ok(counts);
  }
}
