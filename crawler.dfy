/** Discovery of protected resources: the type-specific deep link, the project
    information attached to each new entry, and the id-deduplicating append of
    one listing to the inventory list of its type. */
module Crawler {
  import opened Wrappers
  import opened Text
  import opened Resources

  /** What the crawl knows besides the listings: the organization, the project
      table, the URL quoting function and, per endpoint id, the display names
      of the role-assignment identities (None when that fetch fails). */
  datatype CrawlContext = CrawlContext(
    org: string,
    projects: seq<Project>,
    quote: string -> string,
    identities: string -> Option<seq<string>>)

  /** The fixed parts of the links the crawl builds. */
  const Host: string := "https://dev.azure.com/"
  const PoolSettings: string := "_settings/agentpools?poolId="
  const QueueSettings: string := "_settings/agentqueues?queueId="
  const AgentsView: string := "&view=agents"
  const ServiceSettings: string := "_settings/adminservices?resourceId="
  const VariableGroupLibrary: string := "_library?itemType=VariableGroups&view=VariableGroupView&variableGroupId="
  const SecureFileLibrary: string := "_library?itemType=SecureFiles&view=SecureFileView&secureFileId="

  function Base(org: string): string {
    Host + org + "/"
  }

  /** The k_project of a resource owned by project `id`: the project's table
      entry if known, else a reference built from `fallbackName` when that is
      non-empty, else the empty dict. A self link is kept only when non-empty. */
  function EnrichKProject(projects: seq<Project>, id: string, selfAttribute: Option<string>, fallbackName: Option<string>): (kp: KProject)
    ensures kp.ProjectRef? <==> FindProject(projects, id).Some? || Truthy(fallbackName)
    ensures kp.ProjectRef? ==> kp.id == id
    ensures kp.ProjectRef? && FindProject(projects, id).Some? ==> kp.name == FindProject(projects, id).value.name
    ensures kp.ProjectRef? && FindProject(projects, id).None? ==> Some(kp.name) == fallbackName
    ensures kp.ProjectRef? ==> if Truthy(selfAttribute) then kp.selfAttribute == selfAttribute else kp.selfAttribute.None?
    ensures !kp.OrgScope?
  {
    var link := if Truthy(selfAttribute) then selfAttribute else None;
    match FindProject(projects, id)
    case Some(p) => ProjectRef(id, p.name, link)
    case None => if Truthy(fallbackName) then ProjectRef(id, fallbackName.value, link) else NoProject
  }

  /** The deep link of a newly discovered resource; all but pools carry the
      quoted project name. */
  function KUrl(ctx: CrawlContext, t: ResourceType, project: Project, r: Resource): (url: string)
    ensures StartsWith(url, Base(ctx.org))
    ensures t != Pools ==> StartsWith(url, Base(ctx.org) + ctx.quote(project.name) + "/")
  {
    var base := Base(ctx.org);
    var pname := ctx.quote(project.name);
    if t == Pools then
      StartsWithConcat(base, PoolSettings + r.id);
      base + PoolSettings + r.id
    else
      var rest :=
        match t
        case Queue => QueueSettings + r.id
        case Endpoint => ServiceSettings + r.id
        case Repository => "_git/" + r.name
        case SecureFile => SecureFileLibrary + r.id
        case VariableGroup => VariableGroupLibrary + r.id;
      StartsWithConcat(base + pname + "/", rest);
      StartsWithConcat(base, pname + "/" + rest);
      assert base + pname + "/" + rest == base + (pname + "/" + rest);
      base + pname + "/" + rest
  }

  /** `k_project_shared_from`: every (reference, identity) pair whose non-empty
      project name occurs in the identity's display name, reference by
      reference. With references to walk, a failed fetch makes it None. */
  function SharedFrom(refs: seq<EndpointReference>, identities: Option<seq<string>>): (s: Resources.SharedFrom)
    ensures s.LookupFailed? <==> identities.None? && refs != []
  {
    if identities.None? then (if refs == [] then Matched([]) else LookupFailed)
    else Matched(SharedMatches(refs, identities.value))
  }

  function MatchesOf(ref: EndpointReference, names: seq<string>): seq<SharedMatch>
    decreases |names|
  {
    if names == [] then []
    else
      var rest := MatchesOf(ref, names[..|names| - 1]);
      var n := names[|names| - 1];
      if ref.projectName != "" && Contains(n, ref.projectName)
      then rest + [SharedMatch(ref.projectId, ref.projectName)]
      else rest
  }

  function SharedMatches(refs: seq<EndpointReference>, names: seq<string>): seq<SharedMatch>
    decreases |refs|
  {
    if refs == [] then []
    else SharedMatches(refs[..|refs| - 1], names) + MatchesOf(refs[|refs| - 1], names)
  }

  /** A match comes from some reference's matches, and each reference's
      matches are all kept. */
  lemma {:induction false} SharedMatchesExact(refs: seq<EndpointReference>, names: seq<string>, m: SharedMatch)
    ensures m in SharedMatches(refs, names) <==> exists i :: 0 <= i < |refs| && m in MatchesOf(refs[i], names)
    decreases |refs|
  {
    if refs != [] {
      var p := refs[..|refs| - 1];
      SharedMatchesExact(p, names, m);
      assert forall i :: 0 <= i < |p| ==> p[i] == refs[i];
    }
  }

  /** The matches of one reference: one per identity whose display name holds
      the reference's non-empty project name. */
  lemma {:induction false} MatchesOfExact(ref: EndpointReference, names: seq<string>, m: SharedMatch)
    ensures m in MatchesOf(ref, names) <==>
      exists j :: 0 <= j < |names| &&
        ref.projectName != "" && Contains(names[j], ref.projectName) &&
        m == SharedMatch(ref.projectId, ref.projectName)
    decreases |names|
  {
    if names != [] {
      var p := names[..|names| - 1];
      MatchesOfExact(ref, p, m);
      assert forall j :: 0 <= j < |p| ==> p[j] == names[j];
    }
  }

  /** `get_k_shared_from_endpoint` after its fetch: the nested loop over
      references and identities. */
  method GetSharedFrom(refs: seq<EndpointReference>, identities: Option<seq<string>>) returns (s: Resources.SharedFrom)
    ensures s == SharedFrom(refs, identities)
  {
    if identities.None? {
      if refs == [] {
        return Matched([]);
      }
      return LookupFailed;
    }
    var names := identities.value;
    var matches: seq<SharedMatch> := [];
    var i := 0;
    while i < |refs|
      invariant 0 <= i <= |refs|
      invariant matches == SharedMatches(refs[..i], names)
    {
      var ref := refs[i];
      var j := 0;
      while j < |names|
        invariant 0 <= j <= |names|
        invariant matches == SharedMatches(refs[..i], names) + MatchesOf(ref, names[..j])
      {
        if ref.projectName != "" && Contains(names[j], ref.projectName) {
          matches := matches + [SharedMatch(ref.projectId, ref.projectName)];
        }
        assert names[..j + 1][..j] == names[..j];
        j := j + 1;
      }
      assert names[..j] == names;
      assert refs[..i + 1][..i] == refs[..i];
      i := i + 1;
    }
    assert refs[..i] == refs;
    return Matched(matches);
  }

  /** The project information of a new entry (its properties are stated by
      `ProjectInfoAttaches`). */
  function ProjectInfo(ctx: CrawlContext, t: ResourceType, r: Resource, curr: string): (e: Resource)
    requires Shaped(t, r)
    ensures Shaped(t, e)
    ensures e.id == r.id && e.name == r.name && e.kUrl == r.kUrl
  {
    var base := Base(ctx.org);
    match t
    case Pools =>
      r.(kProject := OrgScope(r.detail.scope, ctx.org, base + PoolSettings + r.id + AgentsView))
    case Queue =>
      var pid := r.detail.projectId;
      r.(kProject := EnrichKProject(ctx.projects, pid, Some(base + pid + "/" + QueueSettings + r.id + AgentsView), None))
    case Endpoint =>
      var refs := r.detail.references;
      var kp := EnrichKProject(ctx.projects, curr, Some(base + curr + "/" + ServiceSettings + r.id), None);
      var projectRefs := seq(|refs|, i requires 0 <= i < |refs| =>
        EnrichKProject(ctx.projects, refs[i].projectId, Some(base + refs[i].projectId + "/" + ServiceSettings + r.id), Some(refs[i].projectName)));
      var shared := if r.detail.isShared then SharedFrom(refs, ctx.identities(r.id)) else r.detail.sharedFrom;
      r.(kProject := kp, detail := r.detail.(projectsRefs := Some(projectRefs), sharedFrom := shared))
    case VariableGroup =>
      r.(kProject := EnrichKProject(ctx.projects, curr, Some(base + curr + "/" + VariableGroupLibrary + r.id), None))
    case SecureFile =>
      r.(kProject := EnrichKProject(ctx.projects, curr, Some(base + curr + "/" + SecureFileLibrary + r.id), None))
    case Repository =>
      r.(kProject := EnrichKProject(ctx.projects, curr, r.detail.webUrl, None))
  }


  /** Pools point at the organization scope, queues at their own project,
      endpoints, variable groups and secure files at the project being crawled
      (with a settings link), and repositories at the project being crawled
      (with their web URL). Endpoints also get a reference per project they
      are shared with, and a shared endpoint its shared-from lookup. */
  lemma ProjectInfoAttaches(ctx: CrawlContext, t: ResourceType, r: Resource, curr: string)
    requires Shaped(t, r)
    ensures t == Pools ==>
      ProjectInfo(ctx, t, r, curr).kProject == OrgScope(r.detail.scope, ctx.org, Base(ctx.org) + PoolSettings + r.id + AgentsView)
    ensures t == Queue ==>
      ProjectInfo(ctx, t, r, curr).kProject == EnrichKProject(ctx.projects, r.detail.projectId, Some(Base(ctx.org) + r.detail.projectId + "/" + QueueSettings + r.id + AgentsView), None)
    ensures t == Repository ==> ProjectInfo(ctx, t, r, curr).kProject == EnrichKProject(ctx.projects, curr, r.detail.webUrl, None)
    ensures t in {Endpoint, VariableGroup, SecureFile} ==>
      (ProjectInfo(ctx, t, r, curr).kProject.ProjectRef? <==> FindProject(ctx.projects, curr).Some?)
    ensures t != Endpoint ==> ProjectInfo(ctx, t, r, curr).detail == r.detail
    ensures t == Endpoint ==>
      var d := ProjectInfo(ctx, t, r, curr).detail;
      && d.references == r.detail.references
      && d.projectsRefs.Some? && |d.projectsRefs.value| == |r.detail.references|
      && (forall i :: 0 <= i < |r.detail.references| ==> (d.projectsRefs.value[i].ProjectRef? <==>
            FindProject(ctx.projects, r.detail.references[i].projectId).Some? || r.detail.references[i].projectName != ""))
      && (r.detail.isShared ==> d.sharedFrom == SharedFrom(r.detail.references, ctx.identities(r.id)))
      && (!r.detail.isShared ==> d.sharedFrom == r.detail.sharedFrom)
  {
    match t
    case Endpoint => EndpointInfo(ctx, r, curr);
    case VariableGroup => LibraryInfo(ctx, t, r, curr);
    case SecureFile => LibraryInfo(ctx, t, r, curr);
    case _ =>
  }

  lemma LibraryInfo(ctx: CrawlContext, t: ResourceType, r: Resource, curr: string)
    requires Shaped(t, r) && (t == VariableGroup || t == SecureFile)
    ensures ProjectInfo(ctx, t, r, curr).kProject.ProjectRef? <==> FindProject(ctx.projects, curr).Some?
    ensures ProjectInfo(ctx, t, r, curr).detail == r.detail
  {
  }

  lemma EndpointInfo(ctx: CrawlContext, r: Resource, curr: string)
    requires Shaped(Endpoint, r)
    ensures ProjectInfo(ctx, Endpoint, r, curr).kProject.ProjectRef? <==> FindProject(ctx.projects, curr).Some?
    ensures var d := ProjectInfo(ctx, Endpoint, r, curr).detail;
      && d.references == r.detail.references
      && d.projectsRefs.Some? && |d.projectsRefs.value| == |r.detail.references|
      && (forall i :: 0 <= i < |r.detail.references| ==> (d.projectsRefs.value[i].ProjectRef? <==>
            FindProject(ctx.projects, r.detail.references[i].projectId).Some? || r.detail.references[i].projectName != ""))
      && (r.detail.isShared ==> d.sharedFrom == SharedFrom(r.detail.references, ctx.identities(r.id)))
      && (!r.detail.isShared ==> d.sharedFrom == r.detail.sharedFrom)
  {
  }

  /** A new entry as appended: deep link first, then project information. */
  function Enrich(ctx: CrawlContext, t: ResourceType, project: Project, r: Resource): (e: Resource)
    requires Shaped(t, r)
    ensures e.id == r.id && e.name == r.name && Shaped(t, e)
    ensures e.kUrl == Some(KUrl(ctx, t, project, r))
  {
    ProjectInfo(ctx, t, r.(kUrl := Some(KUrl(ctx, t, project, r))), project.id)
  }

  /** One listing appended to the entries of its type: an entry whose id is
      already present is skipped, a new one is enriched and appended, and a
      new entry whose payload lacks what its type reads raises, which ends the
      listing with what was appended so far. */
  function AppendListing(ctx: CrawlContext, t: ResourceType, project: Project, acc: seq<Resource>, listing: seq<Resource>): (r: seq<Resource>)
    ensures |acc| <= |r| && r[..|acc|] == acc
    decreases |listing|
  {
    if listing == [] then acc
    else
      var x := listing[0];
      if HasId(acc, x.id) then AppendListing(ctx, t, project, acc, listing[1..])
      else if !Shaped(t, x) then acc
      else
        var r := AppendListing(ctx, t, project, acc + [Enrich(ctx, t, project, x)], listing[1..]);
        assert r[..|acc|] == r[..|acc| + 1][..|acc|];
        r
  }

  /** `e` is the enrichment of some well-shaped entry of `listing`. */
  predicate Listed(ctx: CrawlContext, t: ResourceType, project: Project, listing: seq<Resource>, e: Resource) {
    exists j :: 0 <= j < |listing| && EnrichedFrom(ctx, t, project, listing[j], e)
  }

  /** `e` is the enrichment of the well-shaped entry `x`. */
  predicate EnrichedFrom(ctx: CrawlContext, t: ResourceType, project: Project, x: Resource, e: Resource) {
    Shaped(t, x) && e == Enrich(ctx, t, project, x)
  }

  lemma ListedTail(ctx: CrawlContext, t: ResourceType, project: Project, listing: seq<Resource>, e: Resource)
    requires listing != [] && Listed(ctx, t, project, listing[1..], e)
    ensures Listed(ctx, t, project, listing, e)
  {
    var tail := listing[1..];
    var j :| 0 <= j < |tail| && EnrichedFrom(ctx, t, project, tail[j], e);
    assert tail[j] == listing[j + 1];
  }

  /** Every appended entry is the enrichment of a listed entry. */
  lemma {:induction false} AppendListingAddsListed(ctx: CrawlContext, t: ResourceType, project: Project, acc: seq<Resource>, listing: seq<Resource>)
    ensures forall i :: |acc| <= i < |AppendListing(ctx, t, project, acc, listing)| ==>
      Listed(ctx, t, project, listing, AppendListing(ctx, t, project, acc, listing)[i])
    decreases |listing|
  {
    if listing != [] {
      var x := listing[0];
      var rest := listing[1..];
      var r := AppendListing(ctx, t, project, acc, listing);
      if HasId(acc, x.id) {
        assert r == AppendListing(ctx, t, project, acc, rest);
        AppendListingAddsListed(ctx, t, project, acc, rest);
        forall i | |acc| <= i < |r| ensures Listed(ctx, t, project, listing, r[i]) {
          ListedTail(ctx, t, project, listing, r[i]);
        }
      } else if Shaped(t, x) {
        var e := Enrich(ctx, t, project, x);
        var acc' := acc + [e];
        assert r == AppendListing(ctx, t, project, acc', rest);
        AppendListingAddsListed(ctx, t, project, acc', rest);
        assert r[|acc|] == r[..|acc'|][|acc|] == e;
        assert Listed(ctx, t, project, listing, e);
        forall i | |acc| < i < |r| ensures Listed(ctx, t, project, listing, r[i]) {
          ListedTail(ctx, t, project, listing, r[i]);
        }
      }
    }
  }

  /** Ids stay distinct within a type. */
  lemma {:induction false} AppendListingKeepsIdsDistinct(ctx: CrawlContext, t: ResourceType, project: Project, acc: seq<Resource>, listing: seq<Resource>)
    requires DistinctIds(acc)
    ensures DistinctIds(AppendListing(ctx, t, project, acc, listing))
    decreases |listing|
  {
    if listing != [] {
      var x := listing[0];
      if HasId(acc, x.id) {
        AppendListingKeepsIdsDistinct(ctx, t, project, acc, listing[1..]);
      } else if Shaped(t, x) {
        var acc' := acc + [Enrich(ctx, t, project, x)];
        assert DistinctIds(acc') by {
          forall i, j | 0 <= i < j < |acc'| ensures acc'[i].id != acc'[j].id {
            if j == |acc| {
              assert acc'[i] == acc[i];
            }
          }
        }
        AppendListingKeepsIdsDistinct(ctx, t, project, acc', listing[1..]);
      }
    }
  }

  /** When every listed entry is well shaped, every listed id ends up present. */
  lemma {:induction false} AppendListingCoversListing(ctx: CrawlContext, t: ResourceType, project: Project, acc: seq<Resource>, listing: seq<Resource>)
    requires forall j :: 0 <= j < |listing| ==> Shaped(t, listing[j])
    ensures forall j :: 0 <= j < |listing| ==> HasId(AppendListing(ctx, t, project, acc, listing), listing[j].id)
    decreases |listing|
  {
    if listing != [] {
      var x := listing[0];
      var rest := listing[1..];
      var r := AppendListing(ctx, t, project, acc, listing);
      assert forall j :: 0 <= j < |rest| ==> rest[j] == listing[j + 1];
      if HasId(acc, x.id) {
        assert r == AppendListing(ctx, t, project, acc, rest);
        AppendListingCoversListing(ctx, t, project, acc, rest);
        HasIdPrefix(acc, r, x.id);
      } else {
        var acc' := acc + [Enrich(ctx, t, project, x)];
        assert r == AppendListing(ctx, t, project, acc', rest);
        AppendListingCoversListing(ctx, t, project, acc', rest);
        assert acc'[|acc|].id == x.id;
        HasIdPrefix(acc', r, x.id);
      }
      forall j | 0 <= j < |listing| ensures HasId(r, listing[j].id) {
        if j > 0 {
          assert listing[j] == rest[j - 1];
        }
      }
    }
  }

  lemma HasIdPrefix(acc: seq<Resource>, r: seq<Resource>, id: string)
    requires |acc| <= |r| && r[..|acc|] == acc
    requires HasId(acc, id)
    ensures HasId(r, id)
  {
    var i :| 0 <= i < |acc| && acc[i].id == id;
    assert r[..|acc|][i] == r[i];
  }

  lemma HasIdSnoc(rs: seq<Resource>, e: Resource)
    ensures forall id :: HasId(rs + [e], id) <==> HasId(rs, id) || e.id == id
  {
    forall id ensures HasId(rs + [e], id) <==> HasId(rs, id) || e.id == id {
      if HasId(rs, id) {
        var k :| 0 <= k < |rs| && rs[k].id == id;
        assert (rs + [e])[k].id == id;
      }
      assert (rs + [e])[|rs|] == e;
    }
  }

  /** Listing the same data again adds nothing. */
  lemma {:induction false} AppendListingIdempotent(ctx: CrawlContext, t: ResourceType, project: Project, acc: seq<Resource>, listing: seq<Resource>)
    ensures var r := AppendListing(ctx, t, project, acc, listing);
      AppendListing(ctx, t, project, r, listing) == r
    decreases |listing|
  {
    if listing != [] {
      var x := listing[0];
      var rest := listing[1..];
      var r := AppendListing(ctx, t, project, acc, listing);
      if HasId(acc, x.id) {
        AppendListingIdempotent(ctx, t, project, acc, rest);
        HasIdPrefix(acc, r, x.id);
      } else if Shaped(t, x) {
        var acc' := acc + [Enrich(ctx, t, project, x)];
        AppendListingIdempotent(ctx, t, project, acc', rest);
        assert acc'[|acc|].id == x.id;
        HasIdPrefix(acc', r, x.id);
      }
    }
  }

  /** The ids of `rs`, in order. */
  function IdsOf(rs: seq<Resource>): (ids: seq<string>)
    ensures forall id :: id in ids <==> HasId(rs, id)
  {
    var ids := seq(|rs|, i requires 0 <= i < |rs| => rs[i].id);
    assert forall id :: id in ids <==> HasId(rs, id) by {
      forall id ensures id in ids <==> HasId(rs, id) {
        if id in ids {
          var k :| 0 <= k < |ids| && ids[k] == id;
          assert rs[k].id == id;
        }
        if HasId(rs, id) {
          var k :| 0 <= k < |rs| && rs[k].id == id;
          assert ids[k] == id;
        }
      }
    }
    ids
  }

  /** The entry at `i`: skipped when its id is known, ending the listing when
      it is malformed, enriched and appended otherwise. */
  lemma AppendListingStep(ctx: CrawlContext, t: ResourceType, project: Project, acc: seq<Resource>, listing: seq<Resource>, i: nat)
    requires i < |listing|
    ensures AppendListing(ctx, t, project, acc, listing[i..]) ==
      if HasId(acc, listing[i].id) then AppendListing(ctx, t, project, acc, listing[i + 1..])
      else if !Shaped(t, listing[i]) then acc
      else AppendListing(ctx, t, project, acc + [Enrich(ctx, t, project, listing[i])], listing[i + 1..])
  {
    assert listing[i..][0] == listing[i] && listing[i..][1..] == listing[i + 1..];
  }

  /** `ids` lists exactly the ids of `rs`. */
  ghost predicate IdsMatch(ids: seq<string>, rs: seq<Resource>) {
    forall id :: id in ids <==> HasId(rs, id)
  }

  /** The loop of `get_protected_resources` over one listing, keeping the
      list of ids seen so far beside the entries. */
  method AppendNewResources(ctx: CrawlContext, t: ResourceType, project: Project, current: seq<Resource>, listing: seq<Resource>)
    returns (resources: seq<Resource>)
    ensures resources == AppendListing(ctx, t, project, current, listing)
  {
    resources := current;
    var ids := IdsOf(current);
    var i := 0;
    while i < |listing|
      invariant 0 <= i <= |listing|
      invariant IdsMatch(ids, resources)
      invariant AppendListing(ctx, t, project, resources, listing[i..]) == AppendListing(ctx, t, project, current, listing)
    {
      var stop;
      resources, ids, stop := AppendEntry(ctx, t, project, listing, i, resources, ids);
      if stop {
        return;
      }
      i := i + 1;
    }
  }

  /** One entry of the listing: skipped when its id is known, ending the
      loop when malformed, enriched and appended otherwise. */
  method AppendEntry(ctx: CrawlContext, t: ResourceType, project: Project, listing: seq<Resource>, i: nat,
                     resources: seq<Resource>, ids: seq<string>)
    returns (resources': seq<Resource>, ids': seq<string>, stop: bool)
    requires i < |listing| && IdsMatch(ids, resources)
    ensures IdsMatch(ids', resources')
    ensures stop ==> resources' == AppendListing(ctx, t, project, resources, listing[i..])
    ensures !stop ==> AppendListing(ctx, t, project, resources', listing[i + 1..]) == AppendListing(ctx, t, project, resources, listing[i..])
  {
    var x := listing[i];
    AppendListingStep(ctx, t, project, resources, listing, i);
    resources', ids', stop := resources, ids, false;
    if x.id !in ids {
      if !Shaped(t, x) {
        stop := true;
        return;
      }
      var e := Enrich(ctx, t, project, x);
      HasIdSnoc(resources, e);
      resources' := resources + [e];
      ids' := ids + [e.id];
    }
  }
}
