/** Protection state and the cross-project flag of each protected resource. */
module Classifier {
  import opened Wrappers
  import opened Text
  import opened PipelineKeys
  import opened Resources
  import opened Checks

  /** "protected" exactly when the resource carries a non-empty check list. */
  function ProtectionOf(r: Resource): (p: Protection)
    ensures p == Protected <==> r.checks.Some? && r.checks.value != []
  {
    if r.checks.Some? && |r.checks.value| > 0 then Protected else Unprotected
  }

  /** The projects the permitted PipelineKeys belong to, each key cut at its
      first separator. */
  function Owners(perms: seq<Key>): set<string> {
    set k | k in perms :: OwnerProject(k)
  }

  /** The set the classifier's loop builds. */
  method DistinctOwners(perms: seq<Key>) returns (owners: set<string>)
    ensures owners == Owners(perms)
  {
    owners := {};
    var i := 0;
    while i < |perms|
      invariant 0 <= i <= |perms|
      invariant owners == Owners(perms[..i])
    {
      assert perms[..i + 1] == perms[..i] + [perms[i]];
      owners := owners + {OwnerProject(perms[i])};
      i := i + 1;
    }
    assert perms[..i] == perms;
  }

  /** The cross-project flag, first matching rule wins: an endpoint's
      reference count; more than one queue; more than one 'k_projects' entry;
      more than one owning project among the permissions; otherwise false. */
  function CrossProject(t: ResourceType, r: Resource): bool {
    if t == Endpoint && r.detail.EndpointDetail? then |r.detail.references| > 1
    else if r.queues.Some? && |r.queues.value| > 1 then true
    else if r.kProjects.Some? && |r.kProjects.value| > 1 then true
    else if r.pipelinePermissions.Some? then |Owners(r.pipelinePermissions.value)| > 1
    else false
  }

  /** A resource after `enrich_resource_protection_and_cross_project`: both
      fields set, nothing else touched. */
  function Classify(t: ResourceType, r: Resource): (c: Resource)
    ensures c.protectedState.Some? && c.isCrossProject.Some?
    ensures c.(protectedState := r.protectedState, isCrossProject := r.isCrossProject) == r
  {
    r.(protectedState := Some(ProtectionOf(r)), isCrossProject := Some(CrossProject(t, r)))
  }

  /** Classifying twice changes nothing more. */
  lemma ClassifyIdempotent(t: ResourceType, r: Resource)
    ensures Classify(t, Classify(t, r)) == Classify(t, r)
  {
    assert Classify(t, r).checks == r.checks;
  }

  /** A missing check list and an empty one both leave a resource unprotected. */
  lemma ProtectedIffChecks(t: ResourceType, r: Resource)
    ensures Classify(t, r).protectedState == Some(Protected) <==> r.checks.Some? && r.checks.value != []
    ensures r.checks.None? ==> Classify(t, r).protectedState == Some(Unprotected)
  {
  }

  /** Organization-level resources always end up unprotected, and a fetched
      check list decides protection of a project-level resource. */
  lemma ChecksDecideProtection(fetch: ChecksFetch, t: ResourceType, level: Level, r: Resource)
    ensures level == OrgLevel ==> ProtectionOf(AttachChecks(fetch, t, level, r)) == Unprotected
    ensures level == ProjectLevel && FetchChecks(fetch, t, level, r).Some? ==>
      (ProtectionOf(AttachChecks(fetch, t, level, r)) == Protected <==> FetchChecks(fetch, t, level, r).value != [])
  {
  }

  /** More than one owner is the same as two permissions of different owners. */
  lemma {:induction false} SeveralOwnersIffTwoDiffer(perms: seq<Key>)
    ensures |Owners(perms)| > 1 <==>
      exists i, j :: 0 <= i < |perms| && 0 <= j < |perms| && OwnerProject(perms[i]) != OwnerProject(perms[j])
  {
    var s := Owners(perms);
    if |s| > 1 {
      var a :| a in s;
      assert s == (s - {a}) + {a};
      assert |s - {a}| > 0;
      var b :| b in s - {a};
      var i :| 0 <= i < |perms| && OwnerProject(perms[i]) == a;
      var j :| 0 <= j < |perms| && OwnerProject(perms[j]) == b;
      assert OwnerProject(perms[i]) != OwnerProject(perms[j]);
    }
    if exists i, j :: 0 <= i < |perms| && 0 <= j < |perms| && OwnerProject(perms[i]) != OwnerProject(perms[j]) {
      var i, j :| 0 <= i < |perms| && 0 <= j < |perms| && OwnerProject(perms[i]) != OwnerProject(perms[j]);
      var pair := {OwnerProject(perms[i]), OwnerProject(perms[j])};
      assert pair <= s;
      assert |pair| == 2;
      SubsetCard(pair, s);
    }
  }

  lemma SubsetCard(a: set<string>, b: set<string>)
    requires a <= b
    ensures |a| <= |b|
  {
    assert b == a + (b - a);
  }

  /** Keys of one project never make a resource cross-project by rule 4; keys
      of two projects (with separator-free ids) always do. */
  lemma OwnersOfEncodedKeys(p: string, q: string, m: nat, n: nat)
    requires Separator !in p && Separator !in q
    ensures |Owners([EncodeKey(p, m), EncodeKey(q, n)])| > 1 <==> p != q
  {
    OwnerOfEncoded(p, m);
    OwnerOfEncoded(q, n);
    var perms := [EncodeKey(p, m), EncodeKey(q, n)];
    SeveralOwnersIffTwoDiffer(perms);
    assert OwnerProject(perms[0]) == p && OwnerProject(perms[1]) == q;
  }

  /** A merged pool whose own permissions were reset to [] (and which has no
      'k_projects') is cross-project exactly when more than one queue names it. */
  lemma PoolCrossProjectIffSeveralQueues(r: Resource)
    requires r.queues.Some? && r.kProjects.None? && r.pipelinePermissions == Some([])
    ensures CrossProject(Pools, r) <==> |r.queues.value| > 1
  {
    assert Owners([]) == {};
  }

  /** The 'k_projects' rule only fires on a resource that carries that key,
      which the crawl never writes: for crawled resources the flag is decided
      by the other rules alone. */
  lemma KProjectsRuleNeedsTheKey(t: ResourceType, r: Resource)
    requires r.kProjects.None?
    ensures CrossProject(t, r) ==
      if t == Endpoint && r.detail.EndpointDetail? then |r.detail.references| > 1
      else if r.queues.Some? && |r.queues.value| > 1 then true
      else r.pipelinePermissions.Some? && |Owners(r.pipelinePermissions.value)| > 1
  {
  }

  /** The classifier's loop over the entries of one type. */
  method ClassifyAll(t: ResourceType, rs: seq<Resource>) returns (out: seq<Resource>)
    ensures |out| == |rs|
    ensures forall i :: 0 <= i < |rs| ==> out[i] == Classify(t, rs[i])
  {
    out := [];
    var i := 0;
    while i < |rs|
      invariant 0 <= i <= |rs|
      invariant |out| == i
      invariant forall n :: 0 <= n < i ==> out[n] == Classify(t, rs[n])
    {
      var r := rs[i];
      var state := if r.checks.Some? && |r.checks.value| > 0 then Protected else Unprotected;
      var cross: bool;
      if t == Endpoint && r.detail.EndpointDetail? {
        cross := |r.detail.references| > 1;
      } else if r.queues.Some? && |r.queues.value| > 1 {
        cross := true;
      } else if r.kProjects.Some? && |r.kProjects.value| > 1 {
        cross := true;
      } else if r.pipelinePermissions.Some? {
        var owners := DistinctOwners(r.pipelinePermissions.value);
        cross := |owners| > 1;
      } else {
        cross := false;
      }
      out := out + [r.(protectedState := Some(state), isCrossProject := Some(cross))];
      i := i + 1;
    }
  }
}
