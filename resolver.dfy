/** The permission resolver: which pipelines may use each protected resource.
    Each answer of the pipeline-permission endpoint grants a list of
    PipelineKeys; endpoints are resolved once per project reference,
    repositories once per project plus a reverse lookup over builds and
    definitions, and the other types once per project. */
module Resolver {
  import opened Wrappers
  import opened Text
  import opened Seqs
  import opened PipelineKeys
  import opened Resources

  /** The messages of the errors the resolver raises. */
  const NoneHasNoKeys: string := "'NoneType' object has no attribute 'keys'"
  const DictHasNoStartswith: string := "'dict' object has no attribute 'startswith'"
  const ProjectReferencesKey: string := "serviceEndpointProjectReferences"

  // ---------------------------------------------------------------------------
  // what one answer grants

  /** The known definition keys that start with `project` (the prefix test of
      an "all pipelines" answer), in definition order. */
  function ProjectDefinitionKeys(defs: seq<Definition>, project: string): (ks: seq<Key>)
    ensures forall k :: k in ks <==> exists i :: 0 <= i < |defs| && defs[i].key == k && StartsWith(k, project)
    decreases |defs|
  {
    if defs == [] then []
    else
      var p := defs[..|defs| - 1];
      var d := defs[|defs| - 1];
      var rest := ProjectDefinitionKeys(p, project);
      assert forall i :: 0 <= i < |p| ==> p[i] == defs[i];
      if StartsWith(d.key, project) then rest + [d.key] else rest
  }

  /** `project + "_" + str(id)` for each listed pipeline. */
  function ListedKeys(project: string, ids: seq<nat>): (ks: seq<Key>)
    ensures |ks| == |ids| && forall i :: 0 <= i < |ids| ==> ks[i] == EncodeKey(project, ids[i])
  {
    seq(|ids|, i requires 0 <= i < |ids| => EncodeKey(project, ids[i]))
  }

  /** The keys an answer grants in `project`: all its known definitions, the
      listed pipelines, or nothing. */
  function Granted(defs: seq<Definition>, project: string, resp: Response): seq<Key> {
    match resp
    case AllPipelines => ProjectDefinitionKeys(defs, project)
    case Pipelines(ids) => ListedKeys(project, ids)
    case _ => []
  }

  /** Every key a listed answer grants belongs to the project asked about. */
  lemma GrantedBelongToProject(defs: seq<Definition>, project: string, resp: Response, k: Key)
    requires k in Granted(defs, project, resp)
    ensures StartsWith(k, project)
  {
  }

  /** A "pipelines" answer grants exactly the encoded keys of its ids, and
      they name the project asked about when its id is separator-free. */
  lemma ListedKeysOwned(project: string, ids: seq<nat>, k: Key)
    requires Separator !in project
    requires k in ListedKeys(project, ids)
    ensures OwnerProject(k) == project
    ensures exists i :: 0 <= i < |ids| && DecodeKey(k) == Ok((project, Decimal(ids[i])))
  {
    var i :| 0 <= i < |ids| && ListedKeys(project, ids)[i] == k;
    OwnerOfEncoded(project, ids[i]);
    DecodeEncode(project, ids[i]);
  }

  function DedupIfPresent(p: Option<seq<Key>>): (q: Option<seq<Key>>)
    ensures q.Some? <==> p.Some?
    ensures q.Some? ==> NoDup(q.value) && forall k :: k in q.value <==> k in p.value
  {
    if p.Some? then Some(Dedup(p.value)) else None
  }

  /** `list.extend(granted)` on a list that starts as [] when absent, then de-duplicated. */
  function AddGranted(p: Option<seq<Key>>, granted: seq<Key>): (q: seq<Key>)
    ensures NoDup(q)
    ensures forall k :: k in q <==> k in p.GetOr([]) || k in granted
  {
    Dedup(Extend(p.GetOr([]), granted))
  }

  // ---------------------------------------------------------------------------
  // endpoints: one answer per project reference

  /** A project reference after its answer: granted keys added, or, for an
      answer that is neither "all pipelines" nor "pipelines", emptied and
      flagged with a warning. */
  function ResolvedReference(ref: EndpointReference, resp: Response, defs: seq<Definition>): (e: EndpointReference)
    requires !resp.Missing?
    ensures e.projectId == ref.projectId && e.projectName == ref.projectName
    ensures e.pipelinePermissions.Some? && NoDup(e.pipelinePermissions.value)
    ensures resp.Other? ==> e.pipelinePermissions == Some([]) && e.warning == Some(ScopeWarning(ref.projectId))
    ensures !resp.Other? ==> e.warning == ref.warning
  {
    if resp.Other? then ref.(pipelinePermissions := Some([]), warning := Some(ScopeWarning(ref.projectId)))
    else ref.(pipelinePermissions := Some(AddGranted(ref.pipelinePermissions, Granted(defs, ref.projectId, resp))))
  }

  /** A granting answer leaves the reference's list holding what it held plus
      the granted keys. */
  lemma ResolvedReferenceKeys(ref: EndpointReference, resp: Response, defs: seq<Definition>)
    requires !resp.Missing? && !resp.Other?
    ensures var e := ResolvedReference(ref, resp, defs);
      forall k :: k in e.pipelinePermissions.value <==> k in ref.pipelinePermissions.GetOr([]) || k in Granted(defs, ref.projectId, resp)
  {
  }

  /** The resource's own list after one reference's answer. */
  function EndpointPermissionsAfter(perms: Option<seq<Key>>, project: string, resp: Response, defs: seq<Definition>): (q: Option<seq<Key>>)
    requires !resp.Missing?
    ensures resp.Other? ==> q == DedupIfPresent(perms)
    ensures !resp.Other? ==> q.Some? && NoDup(q.value)
  {
    if resp.Other? then DedupIfPresent(perms) else Some(AddGranted(perms, Granted(defs, project, resp)))
  }

  /** A granting answer leaves the resource's list holding what it held plus
      the granted keys. */
  lemma EndpointPermissionsAfterKeys(perms: Option<seq<Key>>, project: string, resp: Response, defs: seq<Definition>)
    requires !resp.Missing? && !resp.Other?
    ensures var q := EndpointPermissionsAfter(perms, project, resp, defs);
      forall k :: k in q.value <==> k in perms.GetOr([]) || k in Granted(defs, project, resp)
  {
  }

  /** The references still to resolve, with the resource's list and the
      references already resolved; a missing answer (`None.keys()`) raises. */
  function EndpointFold(perms: Option<seq<Key>>, done: seq<EndpointReference>, refs: seq<EndpointReference>,
                        fetch: PermissionFetch, resourceId: string, defs: seq<Definition>): Result<(Option<seq<Key>>, seq<EndpointReference>)>
    decreases |refs|
  {
    if refs == [] then Ok((perms, done))
    else
      var ref := refs[0];
      var resp := fetch(Endpoint, ref.projectId, resourceId);
      if resp.Missing? then Err(AttributeError(NoneHasNoKeys))
      else EndpointFold(EndpointPermissionsAfter(perms, ref.projectId, resp, defs), done + [ResolvedReference(ref, resp, defs)],
                        refs[1..], fetch, resourceId, defs)
  }

  /** The answer for reference `ref` of resource `resourceId`. */
  function EndpointAnswer(fetch: PermissionFetch, resourceId: string, ref: EndpointReference): Response {
    fetch(Endpoint, ref.projectId, resourceId)
  }

  /** The key `k` is granted by the answer for one of `refs`. */
  predicate GrantedToSome(defs: seq<Definition>, refs: seq<EndpointReference>, fetch: PermissionFetch, resourceId: string, k: Key) {
    exists j :: 0 <= j < |refs| && k in Granted(defs, refs[j].projectId, EndpointAnswer(fetch, resourceId, refs[j]))
  }

  /** Endpoint resolution fails exactly when some reference's answer is missing. */
  lemma {:induction false} EndpointFoldFails(perms: Option<seq<Key>>, done: seq<EndpointReference>, refs: seq<EndpointReference>,
                                            fetch: PermissionFetch, resourceId: string, defs: seq<Definition>)
    ensures EndpointFold(perms, done, refs, fetch, resourceId, defs).Err? <==>
      exists j :: 0 <= j < |refs| && EndpointAnswer(fetch, resourceId, refs[j]).Missing?
    decreases |refs|
  {
    if refs != [] {
      var ref := refs[0];
      var rest := refs[1..];
      var resp := EndpointAnswer(fetch, resourceId, ref);
      assert forall j :: 0 <= j < |rest| ==> rest[j] == refs[j + 1];
      if !resp.Missing? {
        var perms' := EndpointPermissionsAfter(perms, ref.projectId, resp, defs);
        var done' := done + [ResolvedReference(ref, resp, defs)];
        EndpointFoldFails(perms', done', rest, fetch, resourceId, defs);
        if exists j :: 0 <= j < |refs| && EndpointAnswer(fetch, resourceId, refs[j]).Missing? {
          var j :| 0 <= j < |refs| && EndpointAnswer(fetch, resourceId, refs[j]).Missing?;
          assert refs[j] == rest[j - 1];
        }
      }
    }
  }

  /** Every reference is resolved from its own answer, in place. */
  lemma EndpointFoldReferences(perms: Option<seq<Key>>, done: seq<EndpointReference>, refs: seq<EndpointReference>,
                               fetch: PermissionFetch, resourceId: string, defs: seq<Definition>)
    requires EndpointFold(perms, done, refs, fetch, resourceId, defs).Ok?
    ensures var all := EndpointFold(perms, done, refs, fetch, resourceId, defs).value.1;
      && |all| == |done| + |refs| && all[..|done|] == done
      && forall j :: 0 <= j < |refs| ==>
           !EndpointAnswer(fetch, resourceId, refs[j]).Missing? &&
           all[|done| + j] == ResolvedReference(refs[j], EndpointAnswer(fetch, resourceId, refs[j]), defs)
  {
    EndpointFoldDone(perms, done, refs, fetch, resourceId, defs);
    var all := EndpointFold(perms, done, refs, fetch, resourceId, defs).value.1;
    assert all[..|done|] == done;
    assert forall j :: 0 <= j < |refs| ==> all[|done| + j] == Resolutions(fetch, resourceId, refs, defs)[j];
  }

  /** Every reference has an answer. */
  predicate AllAnswered(fetch: PermissionFetch, resourceId: string, refs: seq<EndpointReference>) {
    forall j :: 0 <= j < |refs| ==> !EndpointAnswer(fetch, resourceId, refs[j]).Missing?
  }

  /** Each reference resolved from its own answer, in order. */
  function Resolutions(fetch: PermissionFetch, resourceId: string, refs: seq<EndpointReference>, defs: seq<Definition>): (rs: seq<EndpointReference>)
    requires AllAnswered(fetch, resourceId, refs)
    ensures |rs| == |refs|
  {
    seq(|refs|, j requires 0 <= j < |refs| => ResolvedReference(refs[j], EndpointAnswer(fetch, resourceId, refs[j]), defs))
  }

  /** The resolutions are the first reference's, then the rest's. */
  lemma ResolutionsCons(fetch: PermissionFetch, resourceId: string, refs: seq<EndpointReference>, defs: seq<Definition>)
    requires refs != [] && !EndpointAnswer(fetch, resourceId, refs[0]).Missing?
    requires AllAnswered(fetch, resourceId, refs[1..])
    ensures AllAnswered(fetch, resourceId, refs)
    ensures Resolutions(fetch, resourceId, refs, defs) ==
      [ResolvedReference(refs[0], EndpointAnswer(fetch, resourceId, refs[0]), defs)] + Resolutions(fetch, resourceId, refs[1..], defs)
  {
    assert forall j :: 0 < j < |refs| ==> refs[j] == refs[1..][j - 1];
  }

  /** A fold that succeeds had an answer for every reference, and appends
      their resolutions to the references already resolved. */
  lemma {:induction false} EndpointFoldDone(perms: Option<seq<Key>>, done: seq<EndpointReference>, refs: seq<EndpointReference>,
                                           fetch: PermissionFetch, resourceId: string, defs: seq<Definition>)
    requires EndpointFold(perms, done, refs, fetch, resourceId, defs).Ok?
    ensures AllAnswered(fetch, resourceId, refs)
    ensures EndpointFold(perms, done, refs, fetch, resourceId, defs).value.1 == done + Resolutions(fetch, resourceId, refs, defs)
    decreases |refs|
  {
    if refs != [] {
      var perms', done' := EndpointFoldStep(perms, done, refs, fetch, resourceId, defs);
      EndpointFoldDone(perms', done', refs[1..], fetch, resourceId, defs);
      ResolutionsCons(fetch, resourceId, refs, defs);
      AppendOne(done, ResolvedReference(refs[0], EndpointAnswer(fetch, resourceId, refs[0]), defs), Resolutions(fetch, resourceId, refs[1..], defs));
    }
  }

  /** One reference resolved: its answer is present, and the fold goes on
      with the list it leaves and the reference appended. */
  lemma EndpointFoldStep(perms: Option<seq<Key>>, done: seq<EndpointReference>, refs: seq<EndpointReference>,
                         fetch: PermissionFetch, resourceId: string, defs: seq<Definition>)
    returns (perms': Option<seq<Key>>, done': seq<EndpointReference>)
    requires EndpointFold(perms, done, refs, fetch, resourceId, defs).Ok? && refs != []
    ensures !EndpointAnswer(fetch, resourceId, refs[0]).Missing?
    ensures perms' == EndpointPermissionsAfter(perms, refs[0].projectId, EndpointAnswer(fetch, resourceId, refs[0]), defs)
    ensures done' == done + [ResolvedReference(refs[0], EndpointAnswer(fetch, resourceId, refs[0]), defs)]
    ensures EndpointFold(perms, done, refs, fetch, resourceId, defs) == EndpointFold(perms', done', refs[1..], fetch, resourceId, defs)
  {
    var resp := EndpointAnswer(fetch, resourceId, refs[0]);
    perms' := EndpointPermissionsAfter(perms, refs[0].projectId, resp, defs);
    done' := done + [ResolvedReference(refs[0], resp, defs)];
  }

  /** The resource's list holds what it held plus every granted key, once
      each; it stays absent only when it was absent and no answer granted. */
  lemma {:induction false} EndpointFoldPermissions(perms: Option<seq<Key>>, done: seq<EndpointReference>, refs: seq<EndpointReference>,
                                                  fetch: PermissionFetch, resourceId: string, defs: seq<Definition>)
    requires EndpointFold(perms, done, refs, fetch, resourceId, defs).Ok?
    ensures var p := EndpointFold(perms, done, refs, fetch, resourceId, defs).value.0;
      && (p.None? <==> perms.None? && forall j :: 0 <= j < |refs| ==> EndpointAnswer(fetch, resourceId, refs[j]).Other?)
      && (p.Some? ==> forall k :: k in p.value <==> k in perms.GetOr([]) || GrantedToSome(defs, refs, fetch, resourceId, k))
      && (p.Some? && (refs != [] || NoDup(perms.value)) ==> NoDup(p.value))
    decreases |refs|
  {
    if refs != [] {
      var ref := refs[0];
      var rest := refs[1..];
      var resp := EndpointAnswer(fetch, resourceId, ref);
      assert forall j :: 0 <= j < |rest| ==> rest[j] == refs[j + 1];
      var perms' := EndpointPermissionsAfter(perms, ref.projectId, resp, defs);
      var done' := done + [ResolvedReference(ref, resp, defs)];
      if !resp.Other? {
        EndpointPermissionsAfterKeys(perms, ref.projectId, resp, defs);
      }
      EndpointFoldPermissions(perms', done', rest, fetch, resourceId, defs);
      var p := EndpointFold(perms, done, refs, fetch, resourceId, defs).value.0;
      assert p == EndpointFold(perms', done', rest, fetch, resourceId, defs).value.0;
      forall k | p.Some? ensures k in p.value <==> k in perms.GetOr([]) || GrantedToSome(defs, refs, fetch, resourceId, k) {
        if GrantedToSome(defs, rest, fetch, resourceId, k) {
          var j :| 0 <= j < |rest| && k in Granted(defs, rest[j].projectId, EndpointAnswer(fetch, resourceId, rest[j]));
          assert refs[j + 1] == rest[j];
        }
        if GrantedToSome(defs, refs, fetch, resourceId, k) {
          var j :| 0 <= j < |refs| && k in Granted(defs, refs[j].projectId, EndpointAnswer(fetch, resourceId, refs[j]));
          if j > 0 {
            assert refs[j] == rest[j - 1];
          }
        }
      }
      assert p.None? <==> perms.None? && forall j :: 0 <= j < |refs| ==> EndpointAnswer(fetch, resourceId, refs[j]).Other? by {
        if forall j :: 0 <= j < |refs| ==> EndpointAnswer(fetch, resourceId, refs[j]).Other? {
          assert resp.Other?;
        }
      }
    }
  }

  lemma EndpointFoldUnfold(perms: Option<seq<Key>>, done: seq<EndpointReference>, refs: seq<EndpointReference>,
                           fetch: PermissionFetch, resourceId: string, defs: seq<Definition>)
    requires refs != [] && !fetch(Endpoint, refs[0].projectId, resourceId).Missing?
    ensures var resp := fetch(Endpoint, refs[0].projectId, resourceId);
      EndpointFold(perms, done, refs, fetch, resourceId, defs)
      == EndpointFold(EndpointPermissionsAfter(perms, refs[0].projectId, resp, defs), done + [ResolvedReference(refs[0], resp, defs)],
                      refs[1..], fetch, resourceId, defs)
  {
  }

  /** One reference's answer, applied to the resource's list and to the
      reference's own list. */
  method ResolveReference(perms: Option<seq<Key>>, ref: EndpointReference, data: Response, defs: seq<Definition>)
    returns (perms': Option<seq<Key>>, resolved: EndpointReference)
    requires !data.Missing?
    ensures perms' == EndpointPermissionsAfter(perms, ref.projectId, data, defs)
    ensures resolved == ResolvedReference(ref, data, defs)
  {
    perms' := perms;
    var refPerms := ref.pipelinePermissions;
    var warning := ref.warning;
    if data.AllPipelines? || data.Pipelines? {
      var granted := Granted(defs, ref.projectId, data);
      perms' := Some(Extend(perms'.GetOr([]), granted));
      refPerms := Some(Extend(refPerms.GetOr([]), granted));
    } else {
      refPerms := Some([]);
      warning := Some(ScopeWarning(ref.projectId));
    }
    if perms'.Some? {
      perms' := Some(Dedup(perms'.value));
    }
    if refPerms.Some? {
      refPerms := Some(Dedup(refPerms.value));
    }
    resolved := ref.(pipelinePermissions := refPerms, warning := warning);
  }

  /** An endpoint after resolution; an endpoint payload without project
      references raises. */
  function ResolveEndpoint(r: Resource, fetch: PermissionFetch, defs: seq<Definition>): Result<Resource> {
    if !r.detail.EndpointDetail? then Err(KeyError(ProjectReferencesKey))
    else
      var res :- EndpointFold(r.pipelinePermissions, [], r.detail.references, fetch, r.id, defs);
      Ok(r.(pipelinePermissions := res.0, detail := r.detail.(references := res.1)))
  }

  /** The endpoint branch of `get_permissions`: the loop over project
      references, each answer extending both lists in place. */
  method ResolveEndpointPermissions(r: Resource, fetch: PermissionFetch, defs: seq<Definition>) returns (out: Result<Resource>)
    ensures out == ResolveEndpoint(r, fetch, defs)
  {
    if !r.detail.EndpointDetail? {
      return Err(KeyError(ProjectReferencesKey));
    }
    var refs := r.detail.references;
    var perms := r.pipelinePermissions;
    var done: seq<EndpointReference> := [];
    var i := 0;
    while i < |refs|
      invariant 0 <= i <= |refs|
      invariant EndpointFold(perms, done, refs[i..], fetch, r.id, defs) == EndpointFold(r.pipelinePermissions, [], refs, fetch, r.id, defs)
    {
      var ref := refs[i];
      var data := fetch(Endpoint, ref.projectId, r.id);
      assert refs[i..][0] == ref && refs[i..][1..] == refs[i + 1..];
      if data.Missing? {
        return Err(AttributeError(NoneHasNoKeys));
      }
      var perms', resolved := ResolveReference(perms, ref, data, defs);
      EndpointFoldUnfold(perms, done, refs[i..], fetch, r.id, defs);
      perms, done := perms', done + [resolved];
      i := i + 1;
    }
    out := Ok(r.(pipelinePermissions := perms, detail := r.detail.(references := done)));
  }

  // ---------------------------------------------------------------------------
  // repositories: one answer per project, then a reverse lookup

  /** A build or definition touches the repository when it ran from that
      repository or lives in the repository's project. */
  predicate Touches(repositoryId: string, projectId: string, repoId: string, repoProjectId: string) {
    repositoryId == repoId || projectId == repoProjectId
  }

  /** The builds loop: every build key is taken apart first (raising when it
      does not hold exactly one separator), and a build touching the
      repository appends the key of its definition. The membership test in
      front of the append compares a number with keys and never holds. */
  function BuildLookup(perms: seq<Key>, builds: seq<Build>, repoId: string, repoProjectId: string): Result<seq<Key>>
    decreases |builds|
  {
    if builds == [] then Ok(perms)
    else
      var b := builds[0];
      var parts :- DecodeKey(b.key);
      var perms' := if Touches(b.repositoryId, b.definitionProjectId, repoId, repoProjectId)
                    then perms + [EncodeKey(parts.0, b.definitionId)] else perms;
      BuildLookup(perms', builds[1..], repoId, repoProjectId)
  }

  /** The definitions loop: a definition touching the repository appends its
      key unless the list already holds it. */
  function DefinitionLookup(perms: seq<Key>, defs: seq<Definition>, repoId: string, repoProjectId: string): seq<Key>
    decreases |defs|
  {
    if defs == [] then perms
    else
      var d := defs[0];
      var perms' := if Touches(d.repositoryId, d.projectId, repoId, repoProjectId) && d.key !in perms
                    then perms + [d.key] else perms;
      DefinitionLookup(perms', defs[1..], repoId, repoProjectId)
  }

  predicate BuildKeysDecode(builds: seq<Build>) {
    forall i :: 0 <= i < |builds| ==> DecodeKey(builds[i].key).Ok?
  }

  /** Build `b` touches the repository and its key names the definition key `k`. */
  predicate BuildReaches(b: Build, repoId: string, repoProjectId: string, k: Key) {
    && Touches(b.repositoryId, b.definitionProjectId, repoId, repoProjectId)
    && DecodeKey(b.key).Ok?
    && k == EncodeKey(DecodeKey(b.key).value.0, b.definitionId)
  }

  /** `k` is reached by the reverse lookup: through a build or a definition
      that touches the repository. */
  predicate ReachedByLookup(k: Key, builds: seq<Build>, defs: seq<Definition>, repoId: string, repoProjectId: string) {
    || (exists i :: 0 <= i < |builds| && BuildReaches(builds[i], repoId, repoProjectId, k))
    || (exists i :: 0 <= i < |defs| && Touches(defs[i].repositoryId, defs[i].projectId, repoId, repoProjectId) && defs[i].key == k)
  }

  /** The builds loop fails exactly on an undecodable build key, and
      otherwise adds the key of every touching build. */
  lemma {:induction false} BuildLookupSpec(perms: seq<Key>, builds: seq<Build>, repoId: string, repoProjectId: string, k: Key)
    ensures BuildLookup(perms, builds, repoId, repoProjectId).Ok? <==> BuildKeysDecode(builds)
    ensures BuildLookup(perms, builds, repoId, repoProjectId).Ok? ==>
      (k in BuildLookup(perms, builds, repoId, repoProjectId).value <==>
        k in perms || exists i :: 0 <= i < |builds| && BuildReaches(builds[i], repoId, repoProjectId, k))
    decreases |builds|
  {
    if builds != [] {
      var b := builds[0];
      var rest := builds[1..];
      assert forall i :: 0 <= i < |rest| ==> rest[i] == builds[i + 1];
      if DecodeKey(b.key).Ok? {
        var parts := DecodeKey(b.key).value;
        var perms' := if Touches(b.repositoryId, b.definitionProjectId, repoId, repoProjectId)
                      then perms + [EncodeKey(parts.0, b.definitionId)] else perms;
        BuildLookupSpec(perms', rest, repoId, repoProjectId, k);
        assert BuildLookup(perms, builds, repoId, repoProjectId) == BuildLookup(perms', rest, repoId, repoProjectId);
        assert BuildKeysDecode(builds) <==> BuildKeysDecode(rest);
        if exists i :: 0 <= i < |builds| && BuildReaches(builds[i], repoId, repoProjectId, k) {
          var i :| 0 <= i < |builds| && BuildReaches(builds[i], repoId, repoProjectId, k);
          if i > 0 {
            assert builds[i] == rest[i - 1];
          }
        }
      } else {
        assert !BuildKeysDecode(builds) by {
          assert DecodeKey(builds[0].key).Err?;
        }
      }
    }
  }

  /** The definitions loop adds the key of every touching definition and
      nothing else. */
  lemma {:induction false} DefinitionLookupSpec(perms: seq<Key>, defs: seq<Definition>, repoId: string, repoProjectId: string, k: Key)
    ensures k in DefinitionLookup(perms, defs, repoId, repoProjectId) <==>
      k in perms || exists i :: 0 <= i < |defs| && Touches(defs[i].repositoryId, defs[i].projectId, repoId, repoProjectId) && defs[i].key == k
    decreases |defs|
  {
    if defs != [] {
      var d := defs[0];
      var rest := defs[1..];
      assert forall i :: 0 <= i < |rest| ==> rest[i] == defs[i + 1];
      var perms' := if Touches(d.repositoryId, d.projectId, repoId, repoProjectId) && d.key !in perms
                    then perms + [d.key] else perms;
      DefinitionLookupSpec(perms', rest, repoId, repoProjectId, k);
      if exists i :: 0 <= i < |defs| && Touches(defs[i].repositoryId, defs[i].projectId, repoId, repoProjectId) && defs[i].key == k {
        var i :| 0 <= i < |defs| && Touches(defs[i].repositoryId, defs[i].projectId, repoId, repoProjectId) && defs[i].key == k;
        if i > 0 {
          assert defs[i] == rest[i - 1];
        }
      }
    }
  }

  /** One project's answer for a repository: granted keys, then the reverse
      lookup, then de-duplication. A missing answer (`None.keys()`) and an
      answer without 'pipelines' (`data['pipelines']`) raise. */
  function RepositoryProjectStep(perms: Option<seq<Key>>, project: string, resp: Response, repoId: string, repoProjectId: string,
                                 defs: seq<Definition>, builds: seq<Build>): Result<seq<Key>>
  {
    match resp
    case Missing => Err(AttributeError(NoneHasNoKeys))
    case Other => Err(KeyError("pipelines"))
    case _ =>
      var p1 := Extend(perms.GetOr([]), Granted(defs, project, resp));
      var p2 :- BuildLookup(p1, builds, repoId, repoProjectId);
      Ok(Dedup(DefinitionLookup(p2, defs, repoId, repoProjectId)))
  }

  /** The answer for repository `repoId` of project `repoProjectId`, asked in `project`. */
  function RepositoryAnswer(fetch: PermissionFetch, project: string, repoId: string, repoProjectId: string): Response {
    fetch(Repository, project, repoProjectId + "." + repoId)
  }

  function RepositoryFold(perms: Option<seq<Key>>, projects: seq<Project>, fetch: PermissionFetch, repoId: string, repoProjectId: string,
                          defs: seq<Definition>, builds: seq<Build>): Result<Option<seq<Key>>>
    decreases |projects|
  {
    if projects == [] then Ok(perms)
    else
      var resp := RepositoryAnswer(fetch, projects[0].id, repoId, repoProjectId);
      var p :- RepositoryProjectStep(perms, projects[0].id, resp, repoId, repoProjectId, defs, builds);
      RepositoryFold(Some(p), projects[1..], fetch, repoId, repoProjectId, defs, builds)
  }

  /** Some project's answer grants `k` to the repository. */
  predicate GrantedInSomeProject(defs: seq<Definition>, projects: seq<Project>, fetch: PermissionFetch, t: ResourceType, resourceId: string, k: Key) {
    exists i :: 0 <= i < |projects| && k in Granted(defs, projects[i].id, fetch(t, projects[i].id, resourceId))
  }

  /** Every answer is "all pipelines" or "pipelines". */
  predicate AllAnswersUsable(projects: seq<Project>, fetch: PermissionFetch, t: ResourceType, resourceId: string) {
    forall i :: 0 <= i < |projects| ==> fetch(t, projects[i].id, resourceId).AllPipelines? || fetch(t, projects[i].id, resourceId).Pipelines?
  }

  lemma RepositoryStepSpec(perms: Option<seq<Key>>, project: string, resp: Response, repoId: string, repoProjectId: string,
                           defs: seq<Definition>, builds: seq<Build>, k: Key)
    ensures RepositoryProjectStep(perms, project, resp, repoId, repoProjectId, defs, builds).Ok? <==>
      (resp.AllPipelines? || resp.Pipelines?) && BuildKeysDecode(builds)
    ensures RepositoryProjectStep(perms, project, resp, repoId, repoProjectId, defs, builds).Ok? ==>
      var p := RepositoryProjectStep(perms, project, resp, repoId, repoProjectId, defs, builds).value;
      NoDup(p) &&
      (k in p <==> k in perms.GetOr([]) || k in Granted(defs, project, resp) || ReachedByLookup(k, builds, defs, repoId, repoProjectId))
  {
    if resp.AllPipelines? || resp.Pipelines? {
      var p1 := Extend(perms.GetOr([]), Granted(defs, project, resp));
      BuildLookupSpec(p1, builds, repoId, repoProjectId, k);
      if BuildKeysDecode(builds) {
        var p2 := BuildLookup(p1, builds, repoId, repoProjectId).value;
        DefinitionLookupSpec(p2, defs, repoId, repoProjectId, k);
        RepositoryStepKeys(p1, p2, DefinitionLookup(p2, defs, repoId, repoProjectId), builds, defs, repoId, repoProjectId, k);
        assert RepositoryProjectStep(perms, project, resp, repoId, repoProjectId, defs, builds) ==
          Ok(Dedup(DefinitionLookup(p2, defs, repoId, repoProjectId)));
      }
    }
  }

  /** The keys after both lookups are the granted ones plus those reached. */
  lemma RepositoryStepKeys(p1: seq<Key>, p2: seq<Key>, p3: seq<Key>, builds: seq<Build>, defs: seq<Definition>,
                           repoId: string, repoProjectId: string, k: Key)
    requires k in p2 <==> k in p1 || exists i :: 0 <= i < |builds| && BuildReaches(builds[i], repoId, repoProjectId, k)
    requires k in p3 <==>
      k in p2 || exists i :: 0 <= i < |defs| && Touches(defs[i].repositoryId, defs[i].projectId, repoId, repoProjectId) && defs[i].key == k
    ensures NoDup(Dedup(p3))
    ensures k in Dedup(p3) <==> k in p1 || ReachedByLookup(k, builds, defs, repoId, repoProjectId)
  {
  }

  /** Repository resolution fails exactly when there is a project to ask and
      some answer is unusable or some build key undecodable; otherwise the
      list holds what it held, every key an answer granted and every key the
      reverse lookup reached, once each. */
  lemma {:induction false} RepositoryFoldSpec(perms: Option<seq<Key>>, projects: seq<Project>, fetch: PermissionFetch, repoId: string,
                                             repoProjectId: string, defs: seq<Definition>, builds: seq<Build>, k: Key)
    ensures RepositoryFold(perms, projects, fetch, repoId, repoProjectId, defs, builds).Ok? <==>
      projects == [] || (AllAnswersUsable(projects, fetch, Repository, repoProjectId + "." + repoId) && BuildKeysDecode(builds))
    ensures projects == [] ==> RepositoryFold(perms, projects, fetch, repoId, repoProjectId, defs, builds) == Ok(perms)
    ensures projects != [] && RepositoryFold(perms, projects, fetch, repoId, repoProjectId, defs, builds).Ok? ==>
      var p := RepositoryFold(perms, projects, fetch, repoId, repoProjectId, defs, builds).value;
      && p.Some? && NoDup(p.value)
      && (k in p.value <==>
            || k in perms.GetOr([])
            || GrantedInSomeProject(defs, projects, fetch, Repository, repoProjectId + "." + repoId, k)
            || ReachedByLookup(k, builds, defs, repoId, repoProjectId))
    decreases |projects|
  {
    if projects != [] {
      var rid := repoProjectId + "." + repoId;
      var resp := RepositoryAnswer(fetch, projects[0].id, repoId, repoProjectId);
      var rest := projects[1..];
      assert forall i :: 0 <= i < |rest| ==> rest[i] == projects[i + 1];
      RepositoryStepSpec(perms, projects[0].id, resp, repoId, repoProjectId, defs, builds, k);
      var step := RepositoryProjectStep(perms, projects[0].id, resp, repoId, repoProjectId, defs, builds);
      if step.Ok? {
        RepositoryFoldSpec(Some(step.value), rest, fetch, repoId, repoProjectId, defs, builds, k);
        assert AllAnswersUsable(projects, fetch, Repository, rid) <==> AllAnswersUsable(rest, fetch, Repository, rid);
        if GrantedInSomeProject(defs, projects, fetch, Repository, rid, k) {
          var i :| 0 <= i < |projects| && k in Granted(defs, projects[i].id, fetch(Repository, projects[i].id, rid));
          if i > 0 {
            assert projects[i] == rest[i - 1];
          }
        }
        if GrantedInSomeProject(defs, rest, fetch, Repository, rid, k) {
          var i :| 0 <= i < |rest| && k in Granted(defs, rest[i].id, fetch(Repository, rest[i].id, rid));
          assert projects[i + 1] == rest[i];
        }
      } else {
        assert !AllAnswersUsable(projects, fetch, Repository, rid) || !BuildKeysDecode(builds) by {
          assert resp == fetch(Repository, projects[0].id, rid);
        }
      }
    }
  }

  /** A repository after resolution; with projects to ask, a repository
      payload without its project raises. */
  function ResolveRepository(r: Resource, projects: seq<Project>, fetch: PermissionFetch, defs: seq<Definition>, builds: seq<Build>): Result<Resource> {
    if projects == [] then Ok(r)
    else if !r.detail.RepositoryDetail? then Err(KeyError("project"))
    else
      var p :- RepositoryFold(r.pipelinePermissions, projects, fetch, r.id, r.detail.projectId, defs, builds);
      Ok(r.(pipelinePermissions := p))
  }

  /** The repository branch of `get_permissions`: per project an answer, a
      loop over builds and a loop over definitions. */
  method ResolveRepositoryPermissions(r: Resource, projects: seq<Project>, fetch: PermissionFetch, defs: seq<Definition>, builds: seq<Build>)
    returns (out: Result<Resource>)
    ensures out == ResolveRepository(r, projects, fetch, defs, builds)
  {
    if projects == [] {
      return Ok(r);
    }
    if !r.detail.RepositoryDetail? {
      return Err(KeyError("project"));
    }
    var repoId := r.id;
    var repoProjectId := r.detail.projectId;
    var perms := r.pipelinePermissions;
    var i := 0;
    while i < |projects|
      invariant 0 <= i <= |projects|
      invariant RepositoryFold(perms, projects[i..], fetch, repoId, repoProjectId, defs, builds)
             == RepositoryFold(r.pipelinePermissions, projects, fetch, repoId, repoProjectId, defs, builds)
    {
      var project := projects[i].id;
      assert projects[i..][0].id == project && projects[i..][1..] == projects[i + 1..];
      var data := fetch(Repository, project, repoProjectId + "." + repoId);
      if data.Missing? {
        return Err(AttributeError(NoneHasNoKeys));
      }
      if data.Other? {
        return Err(KeyError("pipelines"));
      }
      var p := Extend(perms.GetOr([]), Granted(defs, project, data));
      var j := 0;
      while j < |builds|
        invariant 0 <= j <= |builds|
        invariant BuildLookup(p, builds[j..], repoId, repoProjectId) == BuildLookup(Extend(perms.GetOr([]), Granted(defs, project, data)), builds, repoId, repoProjectId)
      {
        var b := builds[j];
        assert builds[j..][0] == b && builds[j..][1..] == builds[j + 1..];
        var parts := DecodeKey(b.key);
        if parts.Err? {
          return Err(parts.error);
        }
        if Touches(b.repositoryId, b.definitionProjectId, repoId, repoProjectId) {
          p := p + [EncodeKey(parts.value.0, b.definitionId)];
        }
        j := j + 1;
      }
      var n := 0;
      while n < |defs|
        invariant 0 <= n <= |defs|
        invariant BuildLookup(Extend(perms.GetOr([]), Granted(defs, project, data)), builds, repoId, repoProjectId).Ok?
        invariant DefinitionLookup(p, defs[n..], repoId, repoProjectId)
               == DefinitionLookup(BuildLookup(Extend(perms.GetOr([]), Granted(defs, project, data)), builds, repoId, repoProjectId).value, defs, repoId, repoProjectId)
      {
        var d := defs[n];
        assert defs[n..][0] == d && defs[n..][1..] == defs[n + 1..];
        if Touches(d.repositoryId, d.projectId, repoId, repoProjectId) && d.key !in p {
          p := p + [d.key];
        }
        n := n + 1;
      }
      perms := Some(Dedup(p));
      i := i + 1;
    }
    out := Ok(r.(pipelinePermissions := perms));
  }

  // ---------------------------------------------------------------------------
  // the other types: one answer per project

  /** One project's answer for a project-level resource: a missing answer is
      caught before the list is touched; any other unusable answer is caught
      after the list was created. */
  function GenericProjectStep(perms: Option<seq<Key>>, project: string, resp: Response, defs: seq<Definition>): Option<seq<Key>> {
    match resp
    case Missing => perms
    case Other => Some(perms.GetOr([]))
    case _ => Some(AddGranted(perms, Granted(defs, project, resp)))
  }

  /** The projects still to ask; organization-level resources get `[]`. */
  function GenericFold(perms: Option<seq<Key>>, level: Level, projects: seq<Project>, fetch: PermissionFetch, t: ResourceType,
                       resourceId: string, defs: seq<Definition>): Option<seq<Key>>
    decreases |projects|
  {
    if projects == [] then perms
    else
      var perms' := if level == OrgLevel then Some([])
                    else GenericProjectStep(perms, projects[0].id, fetch(t, projects[0].id, resourceId), defs);
      GenericFold(perms', level, projects[1..], fetch, t, resourceId, defs)
  }

  /** Organization-level resources get `[]` as soon as there is a project;
      project-level ones hold what they held plus every granted key, without
      duplicates when they started without; the list stays absent only when
      it was absent and every answer was missing. */
  lemma GenericFoldSpec(perms: Option<seq<Key>>, level: Level, projects: seq<Project>, fetch: PermissionFetch,
                        t: ResourceType, resourceId: string, defs: seq<Definition>, k: Key)
    ensures level == OrgLevel && projects != [] ==> GenericFold(perms, level, projects, fetch, t, resourceId, defs) == Some([])
    ensures level == ProjectLevel ==>
      var p := GenericFold(perms, level, projects, fetch, t, resourceId, defs);
      && (p.None? <==> perms.None? && forall i :: 0 <= i < |projects| ==> fetch(t, projects[i].id, resourceId).Missing?)
      && (p.Some? ==> (k in p.value <==> k in perms.GetOr([]) || GrantedInSomeProject(defs, projects, fetch, t, resourceId, k)))
      && (p.Some? && (perms.None? || NoDup(perms.value)) ==> NoDup(p.value))
  {
    if level == OrgLevel && projects != [] {
      GenericFoldOrg(perms, projects, fetch, t, resourceId, defs);
    }
    if level == ProjectLevel {
      GenericFoldAbsent(perms, projects, fetch, t, resourceId, defs);
      GenericFoldMembers(perms, projects, fetch, t, resourceId, defs, k);
      if perms.None? || NoDup(perms.value) {
        GenericFoldDistinct(perms, projects, fetch, t, resourceId, defs);
      }
    }
  }

  lemma {:induction false} GenericFoldOrg(perms: Option<seq<Key>>, projects: seq<Project>, fetch: PermissionFetch,
                                         t: ResourceType, resourceId: string, defs: seq<Definition>)
    requires projects != []
    ensures GenericFold(perms, OrgLevel, projects, fetch, t, resourceId, defs) == Some([])
    decreases |projects|
  {
    if |projects| > 1 {
      GenericFoldOrg(Some([]), projects[1..], fetch, t, resourceId, defs);
    }
  }

  /** Every one of `projects` answered that the resource is not found. */
  predicate AllMissing(projects: seq<Project>, fetch: PermissionFetch, t: ResourceType, resourceId: string) {
    forall i :: 0 <= i < |projects| ==> fetch(t, projects[i].id, resourceId).Missing?
  }

  lemma AllMissingCons(projects: seq<Project>, fetch: PermissionFetch, t: ResourceType, resourceId: string)
    requires projects != []
    ensures AllMissing(projects, fetch, t, resourceId) <==>
      fetch(t, projects[0].id, resourceId).Missing? && AllMissing(projects[1..], fetch, t, resourceId)
  {
    var rest := projects[1..];
    assert forall i :: 0 <= i < |rest| ==> rest[i] == projects[i + 1];
  }

  lemma GrantedInSomeProjectCons(defs: seq<Definition>, projects: seq<Project>, fetch: PermissionFetch, t: ResourceType,
                                 resourceId: string, k: Key)
    requires projects != []
    ensures GrantedInSomeProject(defs, projects, fetch, t, resourceId, k) <==>
      k in Granted(defs, projects[0].id, fetch(t, projects[0].id, resourceId)) ||
      GrantedInSomeProject(defs, projects[1..], fetch, t, resourceId, k)
  {
    var rest := projects[1..];
    if GrantedInSomeProject(defs, projects, fetch, t, resourceId, k) {
      var i :| 0 <= i < |projects| && k in Granted(defs, projects[i].id, fetch(t, projects[i].id, resourceId));
      if i > 0 {
        assert projects[i] == rest[i - 1];
      }
    }
    if GrantedInSomeProject(defs, rest, fetch, t, resourceId, k) {
      var i :| 0 <= i < |rest| && k in Granted(defs, rest[i].id, fetch(t, rest[i].id, resourceId));
      assert projects[i + 1] == rest[i];
    }
  }

  lemma {:induction false} GenericFoldAbsent(perms: Option<seq<Key>>, projects: seq<Project>, fetch: PermissionFetch,
                                            t: ResourceType, resourceId: string, defs: seq<Definition>)
    ensures GenericFold(perms, ProjectLevel, projects, fetch, t, resourceId, defs).None? <==>
      perms.None? && AllMissing(projects, fetch, t, resourceId)
    decreases |projects|
  {
    if projects != [] {
      var perms' := GenericProjectStep(perms, projects[0].id, fetch(t, projects[0].id, resourceId), defs);
      GenericFoldAbsent(perms', projects[1..], fetch, t, resourceId, defs);
      AllMissingCons(projects, fetch, t, resourceId);
    }
  }

  lemma {:induction false} GenericFoldMembers(perms: Option<seq<Key>>, projects: seq<Project>, fetch: PermissionFetch,
                                             t: ResourceType, resourceId: string, defs: seq<Definition>, k: Key)
    ensures GenericFold(perms, ProjectLevel, projects, fetch, t, resourceId, defs).Some? ==>
      (k in GenericFold(perms, ProjectLevel, projects, fetch, t, resourceId, defs).value <==>
       k in perms.GetOr([]) || GrantedInSomeProject(defs, projects, fetch, t, resourceId, k))
    decreases |projects|
  {
    if projects != [] {
      var perms' := GenericProjectStep(perms, projects[0].id, fetch(t, projects[0].id, resourceId), defs);
      GenericFoldMembers(perms', projects[1..], fetch, t, resourceId, defs, k);
      GrantedInSomeProjectCons(defs, projects, fetch, t, resourceId, k);
      if perms'.None? {
        GenericFoldAbsent(perms', projects[1..], fetch, t, resourceId, defs);
      }
    }
  }

  lemma {:induction false} GenericFoldDistinct(perms: Option<seq<Key>>, projects: seq<Project>, fetch: PermissionFetch,
                                              t: ResourceType, resourceId: string, defs: seq<Definition>)
    requires perms.None? || NoDup(perms.value)
    ensures GenericFold(perms, ProjectLevel, projects, fetch, t, resourceId, defs).Some? ==>
      NoDup(GenericFold(perms, ProjectLevel, projects, fetch, t, resourceId, defs).value)
    decreases |projects|
  {
    if projects != [] {
      var perms' := GenericProjectStep(perms, projects[0].id, fetch(t, projects[0].id, resourceId), defs);
      GenericFoldDistinct(perms', projects[1..], fetch, t, resourceId, defs);
    }
  }

  /** The branch of `get_permissions` for the other types. */
  method ResolveGenericPermissions(t: ResourceType, level: Level, r: Resource, projects: seq<Project>, fetch: PermissionFetch,
                                   defs: seq<Definition>) returns (perms: Option<seq<Key>>)
    ensures perms == GenericFold(r.pipelinePermissions, level, projects, fetch, t, r.id, defs)
  {
    perms := r.pipelinePermissions;
    var i := 0;
    while i < |projects|
      invariant 0 <= i <= |projects|
      invariant GenericFold(perms, level, projects[i..], fetch, t, r.id, defs) == GenericFold(r.pipelinePermissions, level, projects, fetch, t, r.id, defs)
    {
      assert projects[i..][0] == projects[i] && projects[i..][1..] == projects[i + 1..];
      if level == OrgLevel {
        perms := Some([]);
      } else {
        var project := projects[i].id;
        var data := fetch(t, project, r.id);
        if !data.Missing? {
          var p := perms.GetOr([]);
          if !data.Other? {
            p := Dedup(Extend(p, Granted(defs, project, data)));
          }
          perms := Some(p);
        }
      }
      i := i + 1;
    }
  }

  /** A resource of any type after `get_permissions`. */
  function ResolveResource(t: ResourceType, level: Level, r: Resource, projects: seq<Project>, fetch: PermissionFetch,
                           defs: seq<Definition>, builds: seq<Build>): Result<Resource> {
    if t == Endpoint then ResolveEndpoint(r, fetch, defs)
    else if t == Repository then ResolveRepository(r, projects, fetch, defs, builds)
    else Ok(r.(pipelinePermissions := GenericFold(r.pipelinePermissions, level, projects, fetch, t, r.id, defs)))
  }

  /** Resolution touches nothing but the permission lists (and an endpoint's
      references). */
  lemma ResolveKeepsIdentity(t: ResourceType, level: Level, r: Resource, projects: seq<Project>, fetch: PermissionFetch,
                             defs: seq<Definition>, builds: seq<Build>)
    requires ResolveResource(t, level, r, projects, fetch, defs, builds).Ok?
    ensures var e := ResolveResource(t, level, r, projects, fetch, defs, builds).value;
      e.id == r.id && e.name == r.name && e.kProject == r.kProject && e.checks == r.checks && e.queues == r.queues
  {
  }

  // ---------------------------------------------------------------------------
  // the "all pipelines" branch of the repository and generic cases, as written

  /** As written, the "all pipelines" branch of the repository and generic
      cases filters the definition records themselves with `startswith`, a
      method records do not have: with any definition present it raises. */
  function GrantedAsWritten(defs: seq<Definition>, project: string, resp: Response): (g: Result<seq<Key>>)
    ensures g.Err? <==> resp.AllPipelines? && defs != []
    ensures g.Ok? ==> g.value == Granted(defs, project, resp)
  {
    if resp.AllPipelines? && defs != [] then Err(AttributeError(DictHasNoStartswith))
    else Ok(Granted(defs, project, resp))
  }

  /** The generic step as written: the error is caught after the list was
      created, so the grant is lost. */
  function GenericProjectStepAsWritten(perms: Option<seq<Key>>, project: string, resp: Response, defs: seq<Definition>): Option<seq<Key>> {
    match resp
    case Missing => perms
    case Other => Some(perms.GetOr([]))
    case _ =>
      match GrantedAsWritten(defs, project, resp)
      case Err(_) => Some(perms.GetOr([]))
      case Ok(g) => Some(AddGranted(perms, g))
  }

  /** The repository step as written: the error escapes. */
  function RepositoryProjectStepAsWritten(perms: Option<seq<Key>>, project: string, resp: Response, repoId: string, repoProjectId: string,
                                          defs: seq<Definition>, builds: seq<Build>): Result<seq<Key>>
  {
    match resp
    case Missing => Err(AttributeError(NoneHasNoKeys))
    case Other => Err(KeyError("pipelines"))
    case _ =>
      var g :- GrantedAsWritten(defs, project, resp);
      var p1 := Extend(perms.GetOr([]), g);
      var p2 :- BuildLookup(p1, builds, repoId, repoProjectId);
      Ok(Dedup(DefinitionLookup(p2, defs, repoId, repoProjectId)))
  }

  /** The code as written and the corrected steps differ only on an
      "all pipelines" answer while definitions exist. */
  lemma AsWrittenDiffersOnlyOnAllPipelines(perms: Option<seq<Key>>, project: string, resp: Response, repoId: string, repoProjectId: string,
                                          defs: seq<Definition>, builds: seq<Build>)
    ensures !(resp.AllPipelines? && defs != []) ==>
      GenericProjectStepAsWritten(perms, project, resp, defs) == GenericProjectStep(perms, project, resp, defs)
    ensures !(resp.AllPipelines? && defs != []) ==>
      RepositoryProjectStepAsWritten(perms, project, resp, repoId, repoProjectId, defs, builds)
      == RepositoryProjectStep(perms, project, resp, repoId, repoProjectId, defs, builds)
    ensures resp.AllPipelines? && defs != [] ==>
      GenericProjectStepAsWritten(perms, project, resp, defs) == Some(perms.GetOr([]))
    ensures resp.AllPipelines? && defs != [] ==>
      RepositoryProjectStepAsWritten(perms, project, resp, repoId, repoProjectId, defs, builds).Err?
  {
  }

  /** One definition "P_1" of project "P" and an "all pipelines" answer in
      "P": as written the pipeline is not recorded for a variable group and
      the repository pass raises; the corrected steps grant "P_1". */
  lemma AllPipelinesCounterexample()
    ensures var defs := [Definition("P_1", "P", "R", NoProject, None)];
      && GenericProjectStepAsWritten(None, "P", AllPipelines, defs) == Some([])
      && "P_1" in GenericProjectStep(None, "P", AllPipelines, defs).value
      && RepositoryProjectStepAsWritten(None, "P", AllPipelines, "R", "P", defs, []).Err?
      && RepositoryProjectStep(None, "P", AllPipelines, "R", "P", defs, []).Ok?
      && "P_1" in RepositoryProjectStep(None, "P", AllPipelines, "R", "P", defs, []).value
  {
    var defs := [Definition("P_1", "P", "R", NoProject, None)];
    assert StartsWith(defs[0].key, "P");
    assert "P_1" in Granted(defs, "P", AllPipelines);
    RepositoryStepSpec(None, "P", AllPipelines, "R", "P", defs, [], "P_1");
  }
}
