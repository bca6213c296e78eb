/** Checks and approvals attached to protected resources. Organization-level
    resources cannot be queried and get an empty list; a failed fetch leaves
    the resource as it was. */
module Checks {
  import opened Wrappers
  import opened Resources

  /** The checks endpoint: (type, project id as printed, resource id) to the
      check configurations, or None when the fetch fails. */
  type ChecksFetch = (ResourceType, string, string) -> Option<seq<string>>

  /** The resource id the checks endpoint is asked about: repositories are
      addressed as "<project id>.<repository id>". */
  function ChecksResourceId(t: ResourceType, r: Resource): (id: string)
    ensures t != Repository ==> id == r.id
    ensures t == Repository ==> id == ProjectIdText(r.kProject) + "." + r.id
  {
    if t == Repository then ProjectIdText(r.kProject) + "." + r.id else r.id
  }

  /** The fetch result for a resource, or None when the level forbids the query. */
  function FetchChecks(fetch: ChecksFetch, t: ResourceType, level: Level, r: Resource): Option<seq<string>> {
    if level == OrgLevel then None else fetch(t, ProjectIdText(r.kProject), ChecksResourceId(t, r))
  }

  /** A resource after the checks pass. */
  function AttachChecks(fetch: ChecksFetch, t: ResourceType, level: Level, r: Resource): (e: Resource)
    ensures level == OrgLevel ==> e.checks == Some([])
    ensures level == ProjectLevel && FetchChecks(fetch, t, level, r).None? ==> e == r
    ensures level == ProjectLevel ==> e.checks == (if FetchChecks(fetch, t, level, r).Some? then FetchChecks(fetch, t, level, r) else r.checks)
    ensures e == r.(checks := e.checks)
  {
    if level == OrgLevel then r.(checks := Some([]))
    else
      match FetchChecks(fetch, t, level, r)
      case None => r
      case Some(c) => r.(checks := Some(c))
  }

  /** The loop of `get_checks_approvals` over the entries of one type. */
  method AttachChecksToAll(fetch: ChecksFetch, t: ResourceType, level: Level, rs: seq<Resource>) returns (out: seq<Resource>)
    ensures |out| == |rs|
    ensures forall i :: 0 <= i < |rs| ==> out[i] == AttachChecks(fetch, t, level, rs[i])
  {
    out := [];
    var i := 0;
    while i < |rs|
      invariant 0 <= i <= |rs|
      invariant |out| == i
      invariant forall n :: 0 <= n < i ==> out[n] == AttachChecks(fetch, t, level, rs[n])
    {
      var r := rs[i];
      if level == OrgLevel {
        out := out + [r.(checks := Some([]))];
      } else {
        var fetched := fetch(t, ProjectIdText(r.kProject), ChecksResourceId(t, r));
        if fetched.None? {
          out := out + [r];
        } else {
          out := out + [r.(checks := fetched)];
        }
      }
      i := i + 1;
    }
  }
}
