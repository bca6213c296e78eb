/** The protected-resource inventory the scan builds and then enriches in
    place, stage by stage: discovery, the pool/queue merge, repository
    activity, checks, pipeline permissions, classification, committer
    summaries; and the views the reverse index and the per-project counts
    read from it. */
module Inventories {
  import opened Wrappers
  import opened Resources
  import Crawler
  import Merger
  import Checks
  import Resolver
  import Classifier
  import ReverseIndex
  import Commits
  import Committers
  import ProjectCounts

  /** The inventory types, in the order of the starter inventory. */
  const Types: seq<ResourceType> := [Endpoint, Pools, Queue, VariableGroup, SecureFile, Repository]

  lemma TypesListed(t: ResourceType)
    ensures t in Types
  {
  }

  /** The starter inventory's levels: only pools are listed organization-wide. */
  function StarterLevel(t: ResourceType): (l: Level)
    ensures l == OrgLevel <==> t == Pools
  {
    if t == Pools then OrgLevel else ProjectLevel
  }

  /** The entries of every type. */
  type Lists = map<ResourceType, seq<Resource>>

  predicate Complete(m: Lists) {
    forall t :: t in m
  }

  predicate Distinct(m: Lists) {
    forall t :: t in m ==> DistinctIds(m[t])
  }

  /** Every queue a pool holds is in the queue list (the pool and the queue
      list share those records). */
  predicate Linked(m: Lists)
    requires Complete(m)
  {
    forall i, id :: 0 <= i < |m[Pools]| && m[Pools][i].queues.Some? && id in m[Pools][i].queues.value ==>
      ReverseIndex.QueueListed(m[Queue], id)
  }

  /** `b` holds the same entries as `a`, position by position, with the same
      ids and the same queues: what every stage after the merge keeps. */
  predicate Reshaped(a: Lists, b: Lists) {
    Complete(a) && Complete(b) &&
    forall t :: |b[t]| == |a[t]| && forall i :: 0 <= i < |a[t]| ==> b[t][i].id == a[t][i].id && b[t][i].queues == a[t][i].queues
  }

  lemma ReshapedKeeps(a: Lists, b: Lists)
    requires Reshaped(a, b)
    ensures Distinct(a) ==> Distinct(b)
    ensures Linked(a) ==> Linked(b)
  {
    if Linked(a) {
      forall i, id | 0 <= i < |b[Pools]| && b[Pools][i].queues.Some? && id in b[Pools][i].queues.value
        ensures ReverseIndex.QueueListed(b[Queue], id)
      {
        assert ReverseIndex.QueueListed(a[Queue], id);
        var k :| 0 <= k < |a[Queue]| && a[Queue][k].id == id;
        assert b[Queue][k].id == id;
      }
    }
  }

  // ---------------------------------------------------------------------------
  // discovery

  /** The listing of a type in a project, None when the request or the
      payload fails. */
  type Listings = (ResourceType, Project) -> Option<seq<Resource>>

  function ListingStep(ctx: Crawler.CrawlContext, m: Lists, t: ResourceType, project: Project, listing: Option<seq<Resource>>): (r: Lists)
    requires Complete(m)
    ensures Complete(r)
  {
    if listing.Some? then m[t := Crawler.AppendListing(ctx, t, project, m[t], listing.value)] else m
  }

  /** One project's listings, type by type. */
  function CrawlTypes(ctx: Crawler.CrawlContext, m: Lists, project: Project, listings: Listings, ts: seq<ResourceType>): (r: Lists)
    requires Complete(m)
    ensures Complete(r)
    decreases |ts|
  {
    if ts == [] then m
    else
      var t := ts[|ts| - 1];
      ListingStep(ctx, CrawlTypes(ctx, m, project, listings, ts[..|ts| - 1]), t, project, listings(t, project))
  }

  /** The discovery loop of `get_protected_resources`: every project, every type. */
  function CrawlAll(ctx: Crawler.CrawlContext, m: Lists, projects: seq<Project>, listings: Listings): (r: Lists)
    requires Complete(m)
    ensures Complete(r)
    decreases |projects|
  {
    if projects == [] then m
    else CrawlTypes(ctx, CrawlAll(ctx, m, projects[..|projects| - 1], listings), projects[|projects| - 1], listings, Types)
  }

  /** The entries discovered so far are never changed or reordered, and ids
      stay distinct within a type. */
  lemma {:induction false} CrawlTypesGrows(ctx: Crawler.CrawlContext, m: Lists, project: Project, listings: Listings, ts: seq<ResourceType>)
    requires Complete(m)
    ensures forall t :: m[t] <= CrawlTypes(ctx, m, project, listings, ts)[t]
    ensures Distinct(m) ==> Distinct(CrawlTypes(ctx, m, project, listings, ts))
    decreases |ts|
  {
    if ts != [] {
      var t := ts[|ts| - 1];
      var before := CrawlTypes(ctx, m, project, listings, ts[..|ts| - 1]);
      CrawlTypesGrows(ctx, m, project, listings, ts[..|ts| - 1]);
      if listings(t, project).Some? {
        var grown := Crawler.AppendListing(ctx, t, project, before[t], listings(t, project).value);
        assert before[t] <= grown;
        if Distinct(m) {
          Crawler.AppendListingKeepsIdsDistinct(ctx, t, project, before[t], listings(t, project).value);
        }
      }
    }
  }

  lemma {:induction false} CrawlAllGrows(ctx: Crawler.CrawlContext, m: Lists, projects: seq<Project>, listings: Listings)
    requires Complete(m)
    ensures forall t :: m[t] <= CrawlAll(ctx, m, projects, listings)[t]
    ensures Distinct(m) ==> Distinct(CrawlAll(ctx, m, projects, listings))
    decreases |projects|
  {
    if projects != [] {
      var init := projects[..|projects| - 1];
      CrawlAllGrows(ctx, m, init, listings);
      CrawlTypesGrows(ctx, CrawlAll(ctx, m, init, listings), projects[|projects| - 1], listings, Types);
    }
  }

  /** An entry the discovery adds is the enrichment of an entry of some
      project's listing of its type. */
  predicate FromListings(ctx: Crawler.CrawlContext, t: ResourceType, projects: seq<Project>, listings: Listings, e: Resource) {
    exists p :: 0 <= p < |projects| && ListedFor(ctx, t, projects[p], listings, e)
  }

  /** `e` comes from the listing of its type in `project`. */
  predicate ListedFor(ctx: Crawler.CrawlContext, t: ResourceType, project: Project, listings: Listings, e: Resource) {
    listings(t, project).Some? && Crawler.Listed(ctx, t, project, listings(t, project).value, e)
  }

  lemma {:induction false} CrawlTypesAddsListed(ctx: Crawler.CrawlContext, m: Lists, project: Project, listings: Listings,
                                                ts: seq<ResourceType>, t: ResourceType, i: int)
    requires Complete(m) && |m[t]| <= i < |CrawlTypes(ctx, m, project, listings, ts)[t]|
    ensures listings(t, project).Some?
    ensures Crawler.Listed(ctx, t, project, listings(t, project).value, CrawlTypes(ctx, m, project, listings, ts)[t][i])
    decreases |ts|
  {
    assert ts != [];
    var u := ts[|ts| - 1];
    var before := CrawlTypes(ctx, m, project, listings, ts[..|ts| - 1]);
    var after := CrawlTypes(ctx, m, project, listings, ts);
    assert after == ListingStep(ctx, before, u, project, listings(u, project));
    if t == u && listings(u, project).Some? {
      var grown := Crawler.AppendListing(ctx, u, project, before[u], listings(u, project).value);
      assert after[t] == grown;
      if i >= |before[t]| {
        Crawler.AppendListingAddsListed(ctx, u, project, before[u], listings(u, project).value);
      } else {
        assert grown[i] == before[u][i];
        CrawlTypesAddsListed(ctx, m, project, listings, ts[..|ts| - 1], t, i);
      }
    } else {
      assert after[t] == before[t];
      CrawlTypesAddsListed(ctx, m, project, listings, ts[..|ts| - 1], t, i);
    }
  }

  lemma {:induction false} CrawlAllAddsListed(ctx: Crawler.CrawlContext, m: Lists, projects: seq<Project>, listings: Listings,
                                              t: ResourceType, i: int)
    requires Complete(m) && |m[t]| <= i < |CrawlAll(ctx, m, projects, listings)[t]|
    ensures FromListings(ctx, t, projects, listings, CrawlAll(ctx, m, projects, listings)[t][i])
    decreases |projects|
  {
    var n := |projects| - 1;
    var init := projects[..n];
    var before := CrawlAll(ctx, m, init, listings);
    var after := CrawlAll(ctx, m, projects, listings);
    assert after == CrawlTypes(ctx, before, projects[n], listings, Types);
    CrawlTypesGrows(ctx, before, projects[n], listings, Types);
    assert before[t] <= after[t];
    if i < |before[t]| {
      CrawlAllGrows(ctx, m, init, listings);
      CrawlAllAddsListed(ctx, m, init, listings, t, i);
      assert after[t][i] == before[t][i];
      FromListingsPrefix(ctx, t, projects, n, listings, before[t][i]);
    } else {
      CrawlTypesAddsListed(ctx, before, projects[n], listings, Types, t, i);
      FromListingsLast(ctx, t, projects, listings, after[t][i]);
    }
  }

  lemma FromListingsPrefix(ctx: Crawler.CrawlContext, t: ResourceType, projects: seq<Project>, n: nat, listings: Listings, e: Resource)
    requires n <= |projects| && FromListings(ctx, t, projects[..n], listings, e)
    ensures FromListings(ctx, t, projects, listings, e)
  {
    var init := projects[..n];
    var p :| 0 <= p < |init| && ListedFor(ctx, t, init[p], listings, e);
    assert init[p] == projects[p];
  }

  lemma FromListingsLast(ctx: Crawler.CrawlContext, t: ResourceType, projects: seq<Project>, listings: Listings, e: Resource)
    requires projects != [] && listings(t, projects[|projects| - 1]).Some?
    requires Crawler.Listed(ctx, t, projects[|projects| - 1], listings(t, projects[|projects| - 1]).value, e)
    ensures FromListings(ctx, t, projects, listings, e)
  {
  }

  // ---------------------------------------------------------------------------
  // the pool/queue merge

  /** `merge_pools_and_queues` on the whole pool list. */
  function MergedPools(pools: seq<Resource>, queues: seq<Resource>): (r: seq<Resource>)
    ensures |r| == |pools| && forall i :: 0 <= i < |pools| ==> r[i] == Merger.MergedPool(pools[i], queues)
  {
    seq(|pools|, i requires 0 <= i < |pools| => Merger.MergedPool(pools[i], queues))
  }

  /** After the merge every queue a pool holds is a listed queue. */
  lemma MergedPoolsLinked(m: Lists)
    requires Complete(m)
    ensures Linked(m[Pools := MergedPools(m[Pools], m[Queue])])
  {
    var r: Lists := m[Pools := MergedPools(m[Pools], m[Queue])];
    forall i, id | 0 <= i < |r[Pools]| && r[Pools][i].queues.Some? && id in r[Pools][i].queues.value
      ensures ReverseIndex.QueueListed(r[Queue], id)
    {
      var qs := Merger.QueuesWithPool(Some(m[Pools][i].id), m[Queue]);
      Merger.MergedPoolQueues(m[Pools][i], m[Queue]);
      var ids := Merger.QueueIds(qs);
      var k :| 0 <= k < |ids| && ids[k] == id;
      assert qs[k] in m[Queue];
      var j :| 0 <= j < |m[Queue]| && m[Queue][j] == qs[k];
      assert m[Queue][j].id == id;
    }
  }

  lemma MergedPoolsDistinct(pools: seq<Resource>, queues: seq<Resource>)
    requires DistinctIds(pools)
    ensures DistinctIds(MergedPools(pools, queues))
  {
  }

  // ---------------------------------------------------------------------------
  // repository activity

  /** A repository after the activity pass: its branch names and a fresh
      statistics record holding only the activity. */
  function WithActivity(now: int, r: Resource, branchNames: seq<string>, first: Option<int>, last: Option<int>, prs: PrCounts): (e: Resource)
    ensures r.detail.RepositoryDetail? ==>
      e.detail.RepositoryDetail? && e.detail.branches == Some(branchNames) &&
      e.detail.stats == Some(RepoStats(Some(Commits.ActivityOf(now, first, last, branchNames, prs)), None)) &&
      e == r.(detail := e.detail) && e.detail.projectId == r.detail.projectId
    ensures !r.detail.RepositoryDetail? ==> e == r
  {
    if r.detail.RepositoryDetail? then
      r.(detail := r.detail.(branches := Some(branchNames), stats := Some(RepoStats(Some(Commits.ActivityOf(now, first, last, branchNames, prs)), None))))
    else r
  }

  /** What the activity pass reads per (project id, repository id): branch
      names, first and last commit dates, pull-request pages. */
  datatype ActivitySources = ActivitySources(
    branchNames: (string, string) -> seq<string>,
    commitDates: (string, string) -> (Option<int>, Option<int>),
    pullRequestPages: (string, string) -> seq<seq<Option<string>>>)

  function RepositoryKey(r: Resource): (string, string) {
    (if r.detail.RepositoryDetail? then r.detail.projectId else "", r.id)
  }

  function ActivityFor(now: int, src: ActivitySources, r: Resource): Resource {
    var (pid, rid) := RepositoryKey(r);
    WithActivity(now, r, src.branchNames(pid, rid), src.commitDates(pid, rid).0, src.commitDates(pid, rid).1,
      Commits.Tally(Commits.Collected(src.pullRequestPages(pid, rid))))
  }

  function WithActivities(now: int, src: ActivitySources, rs: seq<Resource>): (out: seq<Resource>)
    ensures |out| == |rs| && forall i :: 0 <= i < |rs| ==> out[i] == ActivityFor(now, src, rs[i])
  {
    seq(|rs|, i requires 0 <= i < |rs| => ActivityFor(now, src, rs[i]))
  }

  // ---------------------------------------------------------------------------
  // checks, permissions, classification, committer summaries

  function CheckedList(fetch: Checks.ChecksFetch, t: ResourceType, rs: seq<Resource>): (out: seq<Resource>)
    ensures |out| == |rs| && forall i :: 0 <= i < |rs| ==> out[i] == Checks.AttachChecks(fetch, t, StarterLevel(t), rs[i])
  {
    seq(|rs|, i requires 0 <= i < |rs| => Checks.AttachChecks(fetch, t, StarterLevel(t), rs[i]))
  }

  function ClassifiedList(t: ResourceType, rs: seq<Resource>): (out: seq<Resource>)
    ensures |out| == |rs| && forall i :: 0 <= i < |rs| ==> out[i] == Classifier.Classify(t, rs[i])
  {
    seq(|rs|, i requires 0 <= i < |rs| => Classifier.Classify(t, rs[i]))
  }

  /** What `get_permissions` reads besides the inventory. */
  datatype PermissionSources = PermissionSources(
    projects: seq<Project>,
    fetch: PermissionFetch,
    defs: seq<Definition>,
    builds: seq<Build>)

  function Resolve(src: PermissionSources, t: ResourceType, r: Resource): Result<Resource> {
    Resolver.ResolveResource(t, StarterLevel(t), r, src.projects, src.fetch, src.defs, src.builds)
  }

  /** The answers for the entries of one type, in order. */
  function Results(src: PermissionSources, t: ResourceType, rs: seq<Resource>): (out: seq<Result<Resource>>)
    ensures |out| == |rs| && forall i :: 0 <= i < |rs| ==> out[i] == Resolve(src, t, rs[i])
  {
    seq(|rs|, i requires 0 <= i < |rs| => Resolve(src, t, rs[i]))
  }

  /** The values of `results` in order, or the first error among them. */
  function Collect(results: seq<Result<Resource>>): (out: Result<seq<Resource>>)
    ensures out.Ok? <==> forall i :: 0 <= i < |results| ==> results[i].Ok?
    ensures out.Ok? ==> |out.value| == |results| && forall i :: 0 <= i < |results| ==> out.value[i] == results[i].value
    decreases |results|
  {
    if results == [] then Ok([])
    else
      var init := results[..|results| - 1];
      assert forall i :: 0 <= i < |init| ==> init[i] == results[i];
      var done :- Collect(init);
      var r :- results[|results| - 1];
      Ok(done + [r])
  }

  /** The entries of one type resolved in order; the first failure ends the scan. */
  function ResolvedList(src: PermissionSources, t: ResourceType, rs: seq<Resource>): (out: Result<seq<Resource>>)
    ensures out.Ok? <==> forall i :: 0 <= i < |rs| ==> Resolve(src, t, rs[i]).Ok?
    ensures out.Ok? ==> |out.value| == |rs| && forall i :: 0 <= i < |rs| ==> out.value[i] == Resolve(src, t, rs[i]).value
  {
    Collect(Results(src, t, rs))
  }

  /** The answer for every type's list. */
  function Answers(src: PermissionSources, m: Lists): (a: map<ResourceType, Result<seq<Resource>>>)
    requires Complete(m)
    ensures forall t :: t in a && a[t] == ResolvedList(src, t, m[t])
  {
    map t | t in m :: ResolvedList(src, t, m[t])
  }

  /** The lists of the types in `ts` replaced by their answers, type by type;
      the first failing answer ends the pass. */
  function Gather(m: Lists, answers: map<ResourceType, Result<seq<Resource>>>, ts: seq<ResourceType>): (out: Result<Lists>)
    requires Complete(m) && forall t :: t in answers
    ensures out.Ok? ==> Complete(out.value)
    ensures out.Ok? ==> forall t :: t !in ts ==> out.value[t] == m[t]
    ensures out.Ok? ==> forall t :: t in ts ==> answers[t] == Ok(out.value[t])
    decreases |ts|
  {
    if ts == [] then Ok(m)
    else
      var t := ts[|ts| - 1];
      var done :- Gather(m, answers, ts[..|ts| - 1]);
      var rs :- answers[t];
      Ok(done[t := rs])
  }

  /** `get_permissions` over the types in `ts`, in inventory order. */
  function ResolvedLists(src: PermissionSources, m: Lists, ts: seq<ResourceType>): (out: Result<Lists>)
    requires Complete(m)
    ensures out.Ok? ==> Complete(out.value)
    ensures out.Ok? ==> forall t :: t !in ts ==> out.value[t] == m[t]
    ensures out.Ok? ==> forall t :: t in ts ==> ResolvedList(src, t, m[t]) == Ok(out.value[t])
  {
    Gather(m, Answers(src, m), ts)
  }

  /** A failure anywhere is a failure of some type's list. */
  lemma ResolvedListsFails(src: PermissionSources, m: Lists, ts: seq<ResourceType>)
    requires Complete(m)
    ensures ResolvedLists(src, m, ts).Err? <==> exists t :: t in ts && ResolvedList(src, t, m[t]).Err?
  {
    GatherFails(m, Answers(src, m), ts);
  }

  lemma {:induction false} GatherFails(m: Lists, answers: map<ResourceType, Result<seq<Resource>>>, ts: seq<ResourceType>)
    requires Complete(m) && forall t :: t in answers
    ensures Gather(m, answers, ts).Err? <==> exists t :: t in ts && answers[t].Err?
    decreases |ts|
  {
    if ts != [] {
      var init := ts[..|ts| - 1];
      GatherFails(m, answers, init);
      assert forall t :: t in ts <==> t in init || t == ts[|ts| - 1];
    }
  }

  /** Resolution keeps every entry's id and queues. */
  lemma ResolvedListsReshape(src: PermissionSources, m: Lists)
    requires Complete(m) && ResolvedLists(src, m, Types).Ok?
    ensures Reshaped(m, ResolvedLists(src, m, Types).value)
  {
    var r: Lists := ResolvedLists(src, m, Types).value;
    forall t, i | 0 <= i < |m[t]|
      ensures r[t][i].id == m[t][i].id && r[t][i].queues == m[t][i].queues
    {
      TypesListed(t);
      Resolver.ResolveKeepsIdentity(t, StarterLevel(t), m[t][i], src.projects, src.fetch, src.defs, src.builds);
    }
    forall t ensures |r[t]| == |m[t]| {
      TypesListed(t);
    }
  }

  // ---------------------------------------------------------------------------
  // the flattened view the reverse index reads

  function Tagged(t: ResourceType, rs: seq<Resource>): (es: seq<ReverseIndex.Entry>)
    ensures |es| == |rs| && forall i :: 0 <= i < |rs| ==> es[i] == (t, rs[i])
  {
    seq(|rs|, i requires 0 <= i < |rs| => (t, rs[i]))
  }

  /** Every `(resourceType, resource)` of the inventory, type by type. */
  function EntriesOf(m: Lists, ts: seq<ResourceType>): seq<ReverseIndex.Entry>
    requires Complete(m)
    decreases |ts|
  {
    if ts == [] then [] else EntriesOf(m, ts[..|ts| - 1]) + Tagged(ts[|ts| - 1], m[ts[|ts| - 1]])
  }

  /** Each entry is some entry of its own type's list. */
  lemma {:induction false} EntriesOfTyped(m: Lists, ts: seq<ResourceType>)
    requires Complete(m)
    ensures forall i :: 0 <= i < |EntriesOf(m, ts)| ==> EntriesOf(m, ts)[i].1 in m[EntriesOf(m, ts)[i].0]
    decreases |ts|
  {
    if ts != [] {
      EntriesOfTyped(m, ts[..|ts| - 1]);
    }
  }

  lemma EntriesLinked(m: Lists)
    requires Complete(m) && Linked(m)
    ensures ReverseIndex.PoolQueuesListed(EntriesOf(m, Types), m[Queue])
  {
    var es := EntriesOf(m, Types);
    EntriesOfTyped(m, Types);
    forall i, id | 0 <= i < |es| && es[i].0 == Pools && es[i].1.queues.Some? && id in es[i].1.queues.value
      ensures ReverseIndex.QueueListed(m[Queue], id)
    {
      var k :| 0 <= k < |m[Pools]| && m[Pools][k] == es[i].1;
    }
  }

  /** The lists `get_enriched_stats` counts. */
  function CountedLists(m: Lists): ProjectCounts.Inventory
    requires Complete(m)
  {
    ProjectCounts.Inventory(m[Endpoint], m[VariableGroup], m[SecureFile], m[Queue], m[Repository])
  }

  // ---------------------------------------------------------------------------
  // the inventory object

  class Inventory {
    var resources: Lists

    ghost predicate Valid()
      reads this
    {
      Complete(resources) && Distinct(resources)
    }

    /** The starter inventory: every type present, nothing discovered. */
    constructor Starter()
      ensures Valid() && forall t :: resources[t] == []
    {
      resources := map t | t in Types :: [];
      new;
      forall t ensures t in resources {
        TypesListed(t);
      }
    }

    /** One listing of `get_protected_resources` appended to its type. */
    method AddListing(ctx: Crawler.CrawlContext, t: ResourceType, project: Project, listing: Option<seq<Resource>>)
      requires Valid()
      modifies this
      ensures Valid()
      ensures resources == ListingStep(ctx, old(resources), t, project, listing)
    {
      if listing.Some? {
        var rs := Crawler.AppendNewResources(ctx, t, project, resources[t], listing.value);
        Crawler.AppendListingKeepsIdsDistinct(ctx, t, project, resources[t], listing.value);
        resources := resources[t := rs];
      }
    }

    /** The discovery loop of `get_protected_resources`. */
    method Discover(ctx: Crawler.CrawlContext, projects: seq<Project>, listings: Listings)
      requires Valid()
      modifies this
      ensures Valid()
      ensures resources == CrawlAll(ctx, old(resources), projects, listings)
    {
      for i := 0 to |projects|
        invariant Valid()
        invariant resources == CrawlAll(ctx, old(resources), projects[..i], listings)
      {
        assert projects[..i + 1][..i] == projects[..i];
        ghost var start := resources;
        for j := 0 to |Types|
          invariant Valid()
          invariant resources == CrawlTypes(ctx, start, projects[i], listings, Types[..j])
        {
          assert Types[..j + 1][..j] == Types[..j];
          AddListing(ctx, Types[j], projects[i], listings(Types[j], projects[i]));
        }
        assert Types[..|Types|] == Types;
      }
      assert projects[..|projects|] == projects;
    }

    /** The merge that ends `get_protected_resources`. */
    method MergePools()
      requires Valid()
      modifies this
      ensures Valid() && Linked(resources)
      ensures resources == old(resources)[Pools := MergedPools(old(resources[Pools]), old(resources[Queue]))]
    {
      var merged := Merger.MergePoolsAndQueues(resources[Pools], resources[Queue]);
      assert merged == MergedPools(resources[Pools], resources[Queue]);
      MergedPoolsLinked(resources);
      MergedPoolsDistinct(resources[Pools], resources[Queue]);
      resources := resources[Pools := merged];
    }

    /** The repository pass of `get_protected_resources`: branches and activity. */
    method RecordActivity(now: int, src: ActivitySources)
      requires Valid()
      modifies this
      ensures Valid()
      ensures Complete(old(resources)) && Linked(old(resources)) ==> Linked(resources)
      ensures resources == old(resources)[Repository := WithActivities(now, src, old(resources[Repository]))]
    {
      var rs := resources[Repository];
      var out: seq<Resource> := [];
      for i := 0 to |rs|
        invariant resources == old(resources)
        invariant |out| == i
        invariant forall k :: 0 <= k < i ==> out[k] == ActivityFor(now, src, rs[k])
      {
        var r := rs[i];
        var (pid, rid) := RepositoryKey(r);
        var prs := Commits.PullRequestCounts(src.pullRequestPages(pid, rid));
        var dates := src.commitDates(pid, rid);
        out := out + [WithActivity(now, r, src.branchNames(pid, rid), dates.0, dates.1, prs)];
      }
      assert out == WithActivities(now, src, rs);
      var next := resources[Repository := out];
      assert forall i :: 0 <= i < |rs| ==> out[i].id == rs[i].id && out[i].queues == rs[i].queues;
      ReshapedKeeps(resources, next);
      resources := next;
    }

    /** `get_checks_approvals`. */
    method AttachChecks(fetch: Checks.ChecksFetch)
      requires Valid()
      modifies this
      ensures Valid()
      ensures Linked(old(resources)) ==> Linked(resources)
      ensures resources.Keys == old(resources).Keys
      ensures forall t :: resources[t] == CheckedList(fetch, t, old(resources[t]))
    {
      ghost var start := resources;
      for j := 0 to |Types|
        invariant Complete(resources)
        invariant forall k :: 0 <= k < j ==> resources[Types[k]] == CheckedList(fetch, Types[k], start[Types[k]])
        invariant forall k :: j <= k < |Types| ==> resources[Types[k]] == start[Types[k]]
      {
        var t := Types[j];
        var rs := Checks.AttachChecksToAll(fetch, t, StarterLevel(t), resources[t]);
        assert rs == CheckedList(fetch, t, resources[t]);
        resources := resources[t := rs];
      }
      forall t ensures resources[t] == CheckedList(fetch, t, start[t]) {
        TypesListed(t);
      }
      ReshapedKeeps(start, resources);
    }

    /** `get_permissions`: on the first failure the scan stops and the
        inventory is left as it was. */
    method ResolvePermissions(src: PermissionSources) returns (err: Option<Error>)
      requires Valid()
      modifies this
      ensures Valid()
      ensures Linked(old(resources)) ==> Linked(resources)
      ensures ResolvedLists(src, old(resources), Types).Ok? ==> err.None? && resources == ResolvedLists(src, old(resources), Types).value
      ensures ResolvedLists(src, old(resources), Types).Err? ==> err == Some(ResolvedLists(src, old(resources), Types).error) && resources == old(resources)
    {
      var out := ResolveAll(src, resources);
      if out.Err? {
        return Some(out.error);
      }
      ResolvedListsReshape(src, resources);
      ReshapedKeeps(resources, out.value);
      resources := out.value;
      err := None;
    }

    /** `enrich_resource_protection_and_cross_project`. */
    method Classify()
      requires Valid()
      modifies this
      ensures Valid()
      ensures Linked(old(resources)) ==> Linked(resources)
      ensures resources.Keys == old(resources).Keys
      ensures forall t :: resources[t] == ClassifiedList(t, old(resources[t]))
    {
      ghost var start := resources;
      for j := 0 to |Types|
        invariant Complete(resources)
        invariant forall k :: 0 <= k < j ==> resources[Types[k]] == ClassifiedList(Types[k], start[Types[k]])
        invariant forall k :: j <= k < |Types| ==> resources[Types[k]] == start[Types[k]]
      {
        var t := Types[j];
        var rs := Classifier.ClassifyAll(t, resources[t]);
        assert rs == ClassifiedList(t, resources[t]);
        resources := resources[t := rs];
      }
      forall t ensures resources[t] == ClassifiedList(t, start[t]) {
        TypesListed(t);
      }
      ReshapedKeeps(start, resources);
    }

    /** The inventory as `(resourceType, resource)` entries. */
    function Entries(): seq<ReverseIndex.Entry>
      reads this
      requires Complete(resources)
    {
      EntriesOf(resources, Types)
    }

    /** `get_enriched_build_definitions` over this inventory. */
    method EnrichDefinitions(defs: seq<Definition>) returns (out: Result<seq<Definition>>)
      requires Valid() && Linked(resources)
      ensures ReverseIndex.PoolQueuesListed(Entries(), resources[Queue])
      ensures out == ReverseIndex.ReverseIndex(defs, Entries(), resources[Queue])
    {
      EntriesLinked(resources);
      out := ReverseIndex.EnrichBuildDefinitions(defs, Entries(), resources[Queue]);
    }

    /** `enrich_repositories_with_committer_stats` on the repository list. */
    method EnrichRepositories(commits: seq<Commits.Commit>)
      requires Valid()
      modifies this
      ensures Valid()
      ensures Linked(old(resources)) ==> Linked(resources)
      ensures resources == old(resources)[Repository := Committers.EnrichedRepositories(old(resources[Repository]), commits)]
    {
      var rs := Committers.EnrichRepositoriesWithCommitters(resources[Repository], commits);
      var next := resources[Repository := rs];
      assert forall i :: 0 <= i < |rs| ==> rs[i].id == resources[Repository][i].id && rs[i].queues == resources[Repository][i].queues;
      ReshapedKeeps(resources, next);
      resources := next;
    }

    /** `get_enriched_stats` over this inventory. */
    method ProjectResourceCounts(projects: set<string>, defs: seq<Definition>, builds: seq<Build>, commits: seq<Commits.Commit>)
      returns (out: Result<map<string, ProjectCounts.ResourceCounts>>)
      requires Valid()
      ensures out == ProjectCounts.EnrichedStats(projects, defs, builds, CountedLists(resources), commits)
    {
      out := ProjectCounts.EnrichStats(projects, defs, builds, CountedLists(resources), commits);
    }
  }

  /** A method's local resolve step: the per-type dispatch of `get_permissions`. */
  method ResolveOne(src: PermissionSources, t: ResourceType, r: Resource) returns (out: Result<Resource>)
    ensures out == Resolve(src, t, r)
  {
    if t == Endpoint {
      out := Resolver.ResolveEndpointPermissions(r, src.fetch, src.defs);
    } else if t == Repository {
      out := Resolver.ResolveRepositoryPermissions(r, src.projects, src.fetch, src.defs, src.builds);
    } else {
      var perms := Resolver.ResolveGenericPermissions(t, StarterLevel(t), r, src.projects, src.fetch, src.defs);
      out := Ok(r.(pipelinePermissions := perms));
    }
  }

  /** The outer loop of `get_permissions`: the types in turn, stopping at
      the first failure. */
  method ResolveAll(src: PermissionSources, m: Lists) returns (out: Result<Lists>)
    requires Complete(m)
    ensures out == ResolvedLists(src, m, Types)
  {
    var done := m;
    for j := 0 to |Types|
      invariant Complete(done)
      invariant ResolvedLists(src, m, Types[..j]) == Ok(done)
    {
      var t := Types[j];
      var rs := ResolveList(src, t, m[t]);
      if rs.Err? {
        FirstFailure(src, m, j);
        return Err(rs.error);
      }
      ResolvedListsStep(src, m, j, done, rs.value);
      done := done[t := rs.value];
    }
    assert Types[..|Types|] == Types;
    out := Ok(done);
  }

  lemma ResolvedListsStep(src: PermissionSources, m: Lists, j: nat, done: Lists, rs: seq<Resource>)
    requires Complete(m) && j < |Types|
    requires ResolvedLists(src, m, Types[..j]) == Ok(done)
    requires ResolvedList(src, Types[j], m[Types[j]]) == Ok(rs)
    ensures ResolvedLists(src, m, Types[..j + 1]) == Ok(done[Types[j] := rs])
  {
    GatherStep(m, Answers(src, m), j, done);
  }

  lemma GatherStep(m: Lists, answers: map<ResourceType, Result<seq<Resource>>>, j: nat, done: Lists)
    requires Complete(m) && (forall t :: t in answers) && j < |Types|
    requires Gather(m, answers, Types[..j]) == Ok(done) && answers[Types[j]].Ok?
    ensures Gather(m, answers, Types[..j + 1]) == Ok(done[Types[j] := answers[Types[j]].value])
  {
    assert Types[..j + 1][..j] == Types[..j];
  }

  /** The inner loop of `get_permissions`: the resources of one type in
      turn, stopping at the first failure. */
  method ResolveList(src: PermissionSources, t: ResourceType, rs: seq<Resource>) returns (out: Result<seq<Resource>>)
    ensures out == ResolvedList(src, t, rs)
  {
    ghost var results := Results(src, t, rs);
    var done := [];
    for i := 0 to |rs|
      invariant Collect(results[..i]) == Ok(done)
    {
      var r := ResolveOne(src, t, rs[i]);
      if r.Err? {
        CollectPrefixFails(results, i);
        return Err(r.error);
      }
      CollectStep(results, i, done);
      done := done + [r.value];
    }
    assert results[..|rs|] == results;
    out := Ok(done);
  }

  lemma CollectStep(results: seq<Result<Resource>>, i: nat, done: seq<Resource>)
    requires i < |results| && Collect(results[..i]) == Ok(done) && results[i].Ok?
    ensures Collect(results[..i + 1]) == Ok(done + [results[i].value])
  {
    assert results[..i + 1][..i] == results[..i];
  }

  lemma FirstFailure(src: PermissionSources, m: Lists, j: nat)
    requires Complete(m) && j < |Types|
    requires ResolvedLists(src, m, Types[..j]).Ok?
    requires ResolvedList(src, Types[j], m[Types[j]]).Err?
    ensures ResolvedLists(src, m, Types) == Err(ResolvedList(src, Types[j], m[Types[j]]).error)
  {
    GatherFirstFailure(m, Answers(src, m), j);
  }

  lemma GatherFirstFailure(m: Lists, answers: map<ResourceType, Result<seq<Resource>>>, j: nat)
    requires Complete(m) && (forall t :: t in answers) && j < |Types|
    requires Gather(m, answers, Types[..j]).Ok? && answers[Types[j]].Err?
    ensures Gather(m, answers, Types) == Err(answers[Types[j]].error)
  {
    assert Types[..j + 1][..j] == Types[..j];
    GatherErrPersists(m, answers, j + 1);
  }

  /** A failure after a prefix without one is the failure of the list. */
  lemma {:induction false} CollectPrefixFails(results: seq<Result<Resource>>, i: nat)
    requires i < |results| && Collect(results[..i]).Ok? && results[i].Err?
    ensures Collect(results) == Err(results[i].error)
    decreases |results|
  {
    if i < |results| - 1 {
      var init := results[..|results| - 1];
      assert init[..i] == results[..i] && init[i] == results[i];
      CollectPrefixFails(init, i);
    } else {
      assert results[..i] == results[..|results| - 1];
    }
  }

  lemma ResolvedListsErrPersists(src: PermissionSources, m: Lists, n: nat)
    requires Complete(m) && n <= |Types| && ResolvedLists(src, m, Types[..n]).Err?
    ensures ResolvedLists(src, m, Types) == ResolvedLists(src, m, Types[..n])
  {
    GatherErrPersists(m, Answers(src, m), n);
  }

  lemma {:induction false} GatherErrPersists(m: Lists, answers: map<ResourceType, Result<seq<Resource>>>, n: nat)
    requires Complete(m) && (forall t :: t in answers) && n <= |Types| && Gather(m, answers, Types[..n]).Err?
    ensures Gather(m, answers, Types) == Gather(m, answers, Types[..n])
    decreases |Types| - n
  {
    if n < |Types| {
      assert Types[..n + 1][..n] == Types[..n];
      GatherErrPersists(m, answers, n + 1);
    } else {
      assert Types[..n] == Types;
    }
  }
}
