/** Statistics per committer email (`get_committer_stats`) and the committer
    summary of each repository (`enrich_repositories_with_committer_stats`).
    Python sets are kept as duplicate-free sequences in insertion order. */
module Committers {
  import opened Wrappers
  import opened Text
  import opened Seqs
  import opened Resources
  import opened Commits
  import opened Accounts

  // ---------------------------------------------------------------- the tally

  /** A commit counts for committer `e` when its committer email is `e`, which
      must be non-empty. */
  predicate ByCommitter(c: Commit, e: string) {
    c.committerEmail == Some(e) && e != ""
  }

  /** The commits of committer `e`, in order. */
  function Mine(commits: seq<Commit>, e: string): seq<Commit>
    decreases |commits|
  {
    if commits == [] then []
    else
      var earlier := Mine(commits[..|commits| - 1], e);
      var c := commits[|commits| - 1];
      if ByCommitter(c, e) then earlier + [c] else earlier
  }

  /** What one committer's entry accumulates for one of its projects. */
  datatype ProjectTally = ProjectTally(projectId: string, repoIds: seq<string>, commitCount: nat, projectName: Option<string>)

  /** One committer's entry while the commits are read; `projects` stands for
      both the 'projects' set and the per-project table, whose keys are the
      same non-empty project ids in the same order. */
  datatype Accum = Accum(
    commitCount: nat,
    repos: seq<string>,
    changes: ChangeCounts,
    authorEmails: seq<string>,
    pusherEmails: seq<string>,
    prsMerged: nat,
    projects: seq<ProjectTally>)

  function Fresh(): Accum {
    Accum(0, [], ChangeCounts(0, 0, 0), [], [], 0, [])
  }

  /** The project name a commit carries: its k_project's name, None when the
      k_project is empty or has no name. */
  function ProjectNameOf(kp: KProject): Option<string> {
    if kp.ProjectRef? then Some(kp.name) else None
  }

  function AddChanges(a: ChangeCounts, b: ChangeCounts): ChangeCounts {
    ChangeCounts(a.add + b.add, a.edit + b.edit, a.delete + b.delete)
  }

  function AddRepo(ids: seq<string>, c: Commit): seq<string> {
    if c.repositoryId != "" then AddOnce(ids, c.repositoryId) else ids
  }

  function AddIfTruthy(s: seq<string>, x: Option<string>): seq<string> {
    if Truthy(x) then AddOnce(s, x.value) else s
  }

  /** Where project `id` sits in the per-project table. */
  function FindTally(ts: seq<ProjectTally>, id: string): (k: Option<nat>)
    ensures k.Some? ==> k.value < |ts| && ts[k.value].projectId == id
    ensures k.None? ==> forall j :: 0 <= j < |ts| ==> ts[j].projectId != id
    decreases |ts|
  {
    if ts == [] then None
    else if ts[0].projectId == id then Some(0)
    else
      match FindTally(ts[1..], id)
      case None => None
      case Some(j) => Some(j + 1)
  }

  /** The row of project `id`, if there is one. */
  function RowOf(ts: seq<ProjectTally>, id: string): Option<ProjectTally> {
    match FindTally(ts, id)
    case None => None
    case Some(k) => Some(ts[k])
  }

  /** A project's row after one more commit of that project: created on
      first sight with the commit's project name. */
  function Bumped(row: Option<ProjectTally>, c: Commit): ProjectTally {
    match row
    case None => ProjectTally(c.projectId, AddRepo([], c), 1, ProjectNameOf(c.kProject))
    case Some(t) => t.(repoIds := AddRepo(t.repoIds, c), commitCount := t.commitCount + 1)
  }

  /** A commit with a project id counted in its project's row. */
  function BumpProject(ts: seq<ProjectTally>, c: Commit): seq<ProjectTally> {
    match FindTally(ts, c.projectId)
    case None => ts + [Bumped(None, c)]
    case Some(k) => ts[k := Bumped(Some(ts[k]), c)]
  }

  /** One commit read into its committer's entry. */
  function Step(a: Accum, c: Commit): Accum {
    Accum(
      a.commitCount + 1,
      AddRepo(a.repos, c),
      AddChanges(a.changes, c.changes),
      AddIfTruthy(a.authorEmails, c.authorEmail),
      AddIfTruthy(a.pusherEmails, c.pushEmail),
      a.prsMerged + (if c.pushEmail == Some(MergeIdentity) then 1 else 0),
      if c.projectId != "" then BumpProject(a.projects, c) else a.projects)
  }

  /** The entry of a committer whose commits are `cs`. */
  function Accumulate(cs: seq<Commit>): Accum
    decreases |cs|
  {
    if cs == [] then Fresh() else Step(Accumulate(cs[..|cs| - 1]), cs[|cs| - 1])
  }

  /** The per-project table of an entry alone. */
  function ProjectRows(cs: seq<Commit>): seq<ProjectTally>
    decreases |cs|
  {
    if cs == [] then []
    else
      var ts := ProjectRows(cs[..|cs| - 1]);
      var c := cs[|cs| - 1];
      if c.projectId != "" then BumpProject(ts, c) else ts
  }

  lemma {:induction false} AccumulateProjects(cs: seq<Commit>)
    ensures Accumulate(cs).projects == ProjectRows(cs)
    decreases |cs|
  {
    if cs != [] {
      AccumulateProjects(cs[..|cs| - 1]);
    }
  }

  /** The first loop of `get_committer_stats`: the entry of every committer. */
  function Tally(commits: seq<Commit>): map<string, Accum>
    decreases |commits|
  {
    if commits == [] then map[]
    else
      var t := Tally(commits[..|commits| - 1]);
      var c := commits[|commits| - 1];
      if !Truthy(c.committerEmail) then t
      else
        var e := c.committerEmail.value;
        t[e := Step(if e in t then t[e] else Fresh(), c)]
  }

  /** Each committer's entry depends on that committer's commits alone, and
      there is an entry exactly for every committer with a commit. */
  lemma {:induction false} TallyPerCommitter(commits: seq<Commit>, e: string)
    ensures e in Tally(commits) <==> Mine(commits, e) != []
    ensures e in Tally(commits) ==> Tally(commits)[e] == Accumulate(Mine(commits, e))
    decreases |commits|
  {
    if commits != [] {
      var init := commits[..|commits| - 1];
      var c := commits[|commits| - 1];
      TallyPerCommitter(init, e);
      if ByCommitter(c, e) {
        var m := Mine(init, e);
        assert (m + [c])[..|m + [c]| - 1] == m;
      }
    }
  }

  // ---------------------------------------------------------------- one committer

  predicate Merged(c: Commit) {
    c.pushEmail == Some(MergeIdentity)
  }

  /** How many of `cs` were pushed by the merge identity. */
  function CountMerged(cs: seq<Commit>): nat
    decreases |cs|
  {
    if cs == [] then 0 else CountMerged(cs[..|cs| - 1]) + (if Merged(cs[|cs| - 1]) then 1 else 0)
  }

  /** An entry counts every commit, and the merged pushes among them. */
  lemma {:induction false} AccumulateCounts(cs: seq<Commit>)
    ensures Accumulate(cs).commitCount == |cs|
    ensures Accumulate(cs).prsMerged == CountMerged(cs)
    decreases |cs|
  {
    if cs != [] {
      AccumulateCounts(cs[..|cs| - 1]);
    }
  }

  /** The repositories of an entry: each non-empty repository id of the
      commits, once. */
  lemma {:induction false} AccumulateRepos(cs: seq<Commit>)
    ensures NoDup(Accumulate(cs).repos)
    ensures forall x :: x in Accumulate(cs).repos <==> exists i :: 0 <= i < |cs| && cs[i].repositoryId == x && x != ""
    decreases |cs|
  {
    if cs != [] {
      var init := cs[..|cs| - 1];
      AccumulateRepos(init);
      assert forall i :: 0 <= i < |init| ==> init[i] == cs[i];
    }
  }

  /** The author emails of an entry: each non-empty author email of the
      commits, once. */
  lemma {:induction false} AccumulateAuthors(cs: seq<Commit>)
    ensures NoDup(Accumulate(cs).authorEmails)
    ensures forall x :: x in Accumulate(cs).authorEmails <==> exists i :: 0 <= i < |cs| && cs[i].authorEmail == Some(x) && x != ""
    decreases |cs|
  {
    if cs != [] {
      var init := cs[..|cs| - 1];
      AccumulateAuthors(init);
      assert forall i :: 0 <= i < |init| ==> init[i] == cs[i];
    }
  }

  /** The push emails of an entry: each non-empty push email of the commits,
      once. */
  lemma {:induction false} AccumulatePushers(cs: seq<Commit>)
    ensures NoDup(Accumulate(cs).pusherEmails)
    ensures forall x :: x in Accumulate(cs).pusherEmails <==> exists i :: 0 <= i < |cs| && cs[i].pushEmail == Some(x) && x != ""
    decreases |cs|
  {
    if cs != [] {
      var init := cs[..|cs| - 1];
      AccumulatePushers(init);
      assert forall i :: 0 <= i < |init| ==> init[i] == cs[i];
    }
  }

  function ProjectIds(ts: seq<ProjectTally>): (ids: seq<string>)
    ensures |ids| == |ts| && forall k :: 0 <= k < |ts| ==> ids[k] == ts[k].projectId
  {
    seq(|ts|, k requires 0 <= k < |ts| => ts[k].projectId)
  }

  /** How many of `cs` belong to project `p`. */
  function CountInProject(cs: seq<Commit>, p: string): nat
    decreases |cs|
  {
    if cs == [] then 0 else CountInProject(cs[..|cs| - 1], p) + (if cs[|cs| - 1].projectId == p then 1 else 0)
  }

  lemma FindTallyUnique(ts: seq<ProjectTally>, id: string)
    ensures FindTally(ts, id).Some? ==> forall j :: 0 <= j < FindTally(ts, id).value ==> ts[j].projectId != id
    ensures forall j :: 0 <= j < |ts| && ts[j].projectId == id && (forall i :: 0 <= i < j ==> ts[i].projectId != id) ==> FindTally(ts, id) == Some(j)
  {
  }

  /** Counting a commit changes its project's row and no other. */
  lemma BumpRow(ts: seq<ProjectTally>, c: Commit, p: string)
    ensures RowOf(BumpProject(ts, c), p) == if p == c.projectId then Some(Bumped(RowOf(ts, p), c)) else RowOf(ts, p)
  {
    FindTallyUnique(BumpProject(ts, c), p);
    FindTallyUnique(ts, p);
    if FindTally(ts, c.projectId).None? {
      FindTallyUnique(BumpProject(ts, c), c.projectId);
      assert BumpProject(ts, c)[|ts|].projectId == c.projectId;
    }
  }

  /** The per-project table of an entry: a row for each non-empty project id
      of the commits, once, in first-seen order. */
  lemma {:induction false} AccumulateProjectIds(cs: seq<Commit>)
    ensures NoDup(ProjectIds(ProjectRows(cs)))
    ensures forall p :: p in ProjectIds(ProjectRows(cs)) <==> HasProjectCommit(cs, p)
    decreases |cs|
  {
    if cs != [] {
      var init := cs[..|cs| - 1];
      var c := cs[|cs| - 1];
      AccumulateProjectIds(init);
      HasProjectCommitSnoc(cs);
      if c.projectId != "" {
        BumpProjectIds(ProjectRows(init), c);
      }
    }
  }

  /** Some commit of `cs` belongs to project `p`, a non-empty id. */
  predicate HasProjectCommit(cs: seq<Commit>, p: string) {
    exists i :: 0 <= i < |cs| && cs[i].projectId == p && p != ""
  }

  lemma HasProjectCommitSnoc(cs: seq<Commit>)
    requires cs != []
    ensures var n := |cs| - 1;
      forall p :: HasProjectCommit(cs, p) <==> HasProjectCommit(cs[..n], p) || (cs[n].projectId == p && p != "")
  {
    var n := |cs| - 1;
    assert forall i :: 0 <= i < n ==> cs[..n][i] == cs[i];
  }

  /** A commit of a new project adds its id at the end; one of a known
      project leaves the ids as they were. */
  lemma BumpProjectIds(ts: seq<ProjectTally>, c: Commit)
    ensures FindTally(ts, c.projectId).None? ==>
      c.projectId !in ProjectIds(ts) && ProjectIds(BumpProject(ts, c)) == ProjectIds(ts) + [c.projectId]
    ensures FindTally(ts, c.projectId).Some? ==> ProjectIds(BumpProject(ts, c)) == ProjectIds(ts)
  {
  }

  /** A project's row counts that project's commits, and there is a row
      exactly for the projects of the commits. */
  lemma {:induction false} AccumulateProjectRow(cs: seq<Commit>, p: string)
    requires p != ""
    ensures RowOf(ProjectRows(cs), p).Some? ==> RowOf(ProjectRows(cs), p).value.commitCount == CountInProject(cs, p)
    ensures RowOf(ProjectRows(cs), p).None? <==> forall i :: 0 <= i < |cs| ==> cs[i].projectId != p
    decreases |cs|
  {
    if cs != [] {
      var init := cs[..|cs| - 1];
      var c := cs[|cs| - 1];
      AccumulateProjectRow(init, p);
      assert forall i :: 0 <= i < |init| ==> init[i] == cs[i];
      var ts := ProjectRows(init);
      if c.projectId != "" {
        BumpRow(ts, c, p);
      }
      if c.projectId == p && RowOf(ts, p).None? {
        CountInProjectZero(init, p);
      }
    }
  }

  /** The repository ids of project `p`'s commits, once each, in first-seen order. */
  function ProjectRepoIds(cs: seq<Commit>, p: string): seq<string>
    decreases |cs|
  {
    if cs == [] then []
    else
      var ids := ProjectRepoIds(cs[..|cs| - 1], p);
      var c := cs[|cs| - 1];
      if c.projectId == p then AddRepo(ids, c) else ids
  }

  /** A project's row holds that project's repository ids. */
  lemma {:induction false} RowRepoIds(cs: seq<Commit>, p: string)
    requires p != ""
    ensures RowOf(ProjectRows(cs), p).Some? ==> RowOf(ProjectRows(cs), p).value.repoIds == ProjectRepoIds(cs, p)
    decreases |cs|
  {
    if cs != [] {
      var init := cs[..|cs| - 1];
      var c := cs[|cs| - 1];
      RowRepoIds(init, p);
      var ts := ProjectRows(init);
      if c.projectId != "" {
        BumpRow(ts, c, p);
      }
      if c.projectId == p && RowOf(ts, p).None? {
        AccumulateProjectRow(init, p);
        ProjectRepoIdsNone(init, p);
      }
    }
  }

  lemma {:induction false} ProjectRepoIdsNone(cs: seq<Commit>, p: string)
    requires forall i :: 0 <= i < |cs| ==> cs[i].projectId != p
    ensures ProjectRepoIds(cs, p) == []
    decreases |cs|
  {
    if cs != [] {
      ProjectRepoIdsNone(cs[..|cs| - 1], p);
    }
  }

  /** Commit `i` of `cs` belongs to project `p` and repository `x`. */
  predicate InProjectRepo(cs: seq<Commit>, i: int, p: string, x: string) {
    0 <= i < |cs| && cs[i].projectId == p && cs[i].repositoryId == x && x != ""
  }

  /** The non-empty repository ids of project `p`'s commits, once each. */
  lemma {:induction false} ProjectRepoIdsSpec(cs: seq<Commit>, p: string)
    ensures NoDup(ProjectRepoIds(cs, p))
    ensures forall x :: x in ProjectRepoIds(cs, p) <==> exists i :: InProjectRepo(cs, i, p, x)
    decreases |cs|
  {
    if cs != [] {
      var init := cs[..|cs| - 1];
      ProjectRepoIdsSpec(init, p);
      forall x
        ensures x in ProjectRepoIds(cs, p) <==> exists i :: InProjectRepo(cs, i, p, x)
      {
        if exists i :: InProjectRepo(cs, i, p, x) {
          var i :| InProjectRepo(cs, i, p, x);
          if i < |init| {
            assert InProjectRepo(init, i, p, x);
          }
        }
        if exists i :: InProjectRepo(init, i, p, x) {
          var i :| InProjectRepo(init, i, p, x);
          assert InProjectRepo(cs, i, p, x);
        }
        if x in ProjectRepoIds(cs, p) && x !in ProjectRepoIds(init, p) {
          assert InProjectRepo(cs, |cs| - 1, p, x);
        }
      }
    }
  }

  lemma {:induction false} CountInProjectZero(cs: seq<Commit>, p: string)
    requires forall i :: 0 <= i < |cs| ==> cs[i].projectId != p
    ensures CountInProject(cs, p) == 0
    decreases |cs|
  {
    if cs != [] {
      CountInProjectZero(cs[..|cs| - 1], p);
    }
  }

  // ---------------------------------------------------------------- finalisation

  /** A pusher as reported: a known build service account id is replaced by
      the account's name. */
  function Renamed(p: string, accounts: map<string, string>): string {
    if StartsWith(p, AccountPrefix) && p in accounts then accounts[p] else p
  }

  /** The reported pushers: the merge identity dropped, the others renamed. */
  function MapPushers(ps: seq<string>, accounts: map<string, string>): seq<string>
    decreases |ps|
  {
    if ps == [] then []
    else
      var earlier := MapPushers(ps[..|ps| - 1], accounts);
      var p := ps[|ps| - 1];
      if p == MergeIdentity then earlier else earlier + [Renamed(p, accounts)]
  }

  /** Some pusher other than the merge identity is a known build service account. */
  predicate UsesBuildAccount(ps: seq<string>, accounts: map<string, string>) {
    exists i :: 0 <= i < |ps| && ps[i] != MergeIdentity && StartsWith(ps[i], AccountPrefix) && ps[i] in accounts
  }

  /** Each pusher but the merge identity is reported, renamed, and nothing
      else is; the merge identity can only come back as an account's name. */
  lemma {:induction false} MapPushersSpec(ps: seq<string>, accounts: map<string, string>)
    ensures forall x :: x in MapPushers(ps, accounts) <==>
      exists i :: 0 <= i < |ps| && ps[i] != MergeIdentity && x == Renamed(ps[i], accounts)
    ensures NoDup(ps) ==> |MapPushers(ps, accounts)| + (if MergeIdentity in ps then 1 else 0) == |ps|
    ensures MergeIdentity in MapPushers(ps, accounts) ==> MergeIdentity in accounts.Values
    decreases |ps|
  {
    if ps != [] {
      var init := ps[..|ps| - 1];
      MapPushersSpec(init, accounts);
      assert forall i :: 0 <= i < |init| ==> init[i] == ps[i];
      assert ps == init + [ps[|ps| - 1]];
    }
  }

  datatype ProjectStat = ProjectStat(projectId: string, projectName: Option<string>, repoCount: nat, commitCount: nat)

  /** A committer's entry as `get_committer_stats` returns it. */
  datatype CommitterStats = CommitterStats(
    commitCount: nat,
    repoCount: nat,
    projectCount: nat,
    totalChangeCounts: ChangeCounts,
    authorEmails: seq<string>,
    pusherEmails: seq<string>,
    prsMerged: nat,
    usesBuildServiceAccount: nat,
    hasMultipleAuthors: nat,
    hasMultiplePushers: nat,
    projectStats: seq<ProjectStat>)

  function StatOf(t: ProjectTally): ProjectStat {
    ProjectStat(t.projectId, t.projectName, |t.repoIds|, t.commitCount)
  }

  /** The second loop of `get_committer_stats`, on one entry. */
  function Finalise(a: Accum, accounts: map<string, string>): CommitterStats {
    var pushers := MapPushers(a.pusherEmails, accounts);
    CommitterStats(
      a.commitCount, |a.repos|, |a.projects|, a.changes,
      a.authorEmails, pushers, a.prsMerged,
      Flag(UsesBuildAccount(a.pusherEmails, accounts)),
      Flag(|a.authorEmails| > 1),
      Flag(|pushers| > 1),
      seq(|a.projects|, k requires 0 <= k < |a.projects| => StatOf(a.projects[k])))
  }

  /** `get_committer_stats(commits, build_service_accounts)`. */
  function Stats(commits: seq<Commit>, accounts: seq<Account>): map<string, CommitterStats> {
    var t := Tally(commits);
    var names := AccountNames(accounts);
    map e | e in t :: Finalise(t[e], names)
  }

  /** The distinct non-empty repository ids of `cs`. */
  function RepoIdSet(cs: seq<Commit>): set<string> {
    set i | 0 <= i < |cs| && cs[i].repositoryId != "" :: cs[i].repositoryId
  }

  /** The distinct non-empty project ids of `cs`. */
  function ProjectIdSet(cs: seq<Commit>): set<string> {
    set i | 0 <= i < |cs| && cs[i].projectId != "" :: cs[i].projectId
  }

  /** Commits without a committer email are ignored; every other committer
      gets an entry that counts its commits and its merged pull requests. */
  lemma CommitterCounts(commits: seq<Commit>, accounts: seq<Account>, e: string)
    ensures e in Stats(commits, accounts) <==> exists i :: 0 <= i < |commits| && ByCommitter(commits[i], e)
    ensures e in Stats(commits, accounts) ==>
      Stats(commits, accounts)[e].commitCount == |Mine(commits, e)| &&
      Stats(commits, accounts)[e].prsMerged == CountMerged(Mine(commits, e))
  {
    TallyPerCommitter(commits, e);
    MineSpec(commits, e);
    AccumulateCounts(Mine(commits, e));
  }

  /** A committer's repository and project counts are the numbers of distinct
      non-empty repository and project ids of its commits. */
  lemma CommitterDistinctCounts(commits: seq<Commit>, accounts: seq<Account>, e: string)
    requires e in Stats(commits, accounts)
    ensures Stats(commits, accounts)[e].repoCount == |RepoIdSet(Mine(commits, e))|
    ensures Stats(commits, accounts)[e].projectCount == |ProjectIdSet(Mine(commits, e))|
  {
    TallyPerCommitter(commits, e);
    var mine := Mine(commits, e);
    var a := Accumulate(mine);
    assert Stats(commits, accounts)[e] == Finalise(a, AccountNames(accounts));
    AccumulateRepos(mine);
    NoDupCard(a.repos);
    assert (set x | x in a.repos) == RepoIdSet(mine);
    AccumulateProjects(mine);
    AccumulateProjectIds(mine);
    var ids := ProjectIds(a.projects);
    NoDupCard(ids);
    assert (set x | x in ids) == ProjectIdSet(mine);
  }

  /** The reported pushers of an entry: each pusher of its commits once,
      renamed when it is a known build service account, without the merge
      identity. */
  lemma EntryPushers(cs: seq<Commit>, names: map<string, string>)
    ensures forall x :: x in MapPushers(Accumulate(cs).pusherEmails, names) <==>
      exists i :: 0 <= i < |cs| && Pusher(cs[i]) && x == Renamed(cs[i].pushEmail.value, names)
  {
    var ps := Accumulate(cs).pusherEmails;
    AccumulatePushers(cs);
    MapPushersSpec(ps, names);
    forall x
      ensures x in MapPushers(ps, names) <==> exists i :: 0 <= i < |cs| && Pusher(cs[i]) && x == Renamed(cs[i].pushEmail.value, names)
    {
      if x in MapPushers(ps, names) {
        var j :| 0 <= j < |ps| && ps[j] != MergeIdentity && x == Renamed(ps[j], names);
        assert ps[j] in ps;
        var i :| 0 <= i < |cs| && cs[i].pushEmail == Some(ps[j]) && ps[j] != "";
        assert Pusher(cs[i]);
      }
      if exists i :: 0 <= i < |cs| && Pusher(cs[i]) && x == Renamed(cs[i].pushEmail.value, names) {
        var i :| 0 <= i < |cs| && Pusher(cs[i]) && x == Renamed(cs[i].pushEmail.value, names);
        assert cs[i].pushEmail.value in ps;
      }
    }
  }

  /** An entry uses a build service account exactly when one of its commits
      was pushed by a known account id. */
  lemma EntryUsesBuildAccount(cs: seq<Commit>, names: map<string, string>)
    ensures UsesBuildAccount(Accumulate(cs).pusherEmails, names) <==>
      exists i :: 0 <= i < |cs| && Pusher(cs[i]) && StartsWith(cs[i].pushEmail.value, AccountPrefix) && cs[i].pushEmail.value in names
  {
    AccumulatePushers(cs);
    UsesBuildAccountOf(cs, Accumulate(cs).pusherEmails, names);
  }

  /** The same for any list holding exactly the non-empty push emails of `cs`. */
  lemma UsesBuildAccountOf(cs: seq<Commit>, ps: seq<string>, names: map<string, string>)
    requires forall x :: x in ps <==> exists i :: 0 <= i < |cs| && cs[i].pushEmail == Some(x) && x != ""
    ensures UsesBuildAccount(ps, names) <==>
      exists i :: 0 <= i < |cs| && Pusher(cs[i]) && StartsWith(cs[i].pushEmail.value, AccountPrefix) && cs[i].pushEmail.value in names
  {
    if UsesBuildAccount(ps, names) {
      var j :| 0 <= j < |ps| && ps[j] != MergeIdentity && StartsWith(ps[j], AccountPrefix) && ps[j] in names;
      assert ps[j] in ps;
      var i :| 0 <= i < |cs| && cs[i].pushEmail == Some(ps[j]) && ps[j] != "";
      assert Pusher(cs[i]);
    }
    if exists i :: 0 <= i < |cs| && Pusher(cs[i]) && StartsWith(cs[i].pushEmail.value, AccountPrefix) && cs[i].pushEmail.value in names {
      var i :| 0 <= i < |cs| && Pusher(cs[i]) && StartsWith(cs[i].pushEmail.value, AccountPrefix) && cs[i].pushEmail.value in names;
      var p := cs[i].pushEmail.value;
      assert p in ps;
      var j :| 0 <= j < |ps| && ps[j] == p;
    }
  }

  /** In a committer's statistics the pusher list reports each pusher of the
      committer's commits once, renamed when it is a known build service
      account, without the merge identity (which can only come back as an
      account's name); the build-account flag says whether any pusher was
      such an account; the multiple-author and multiple-pusher flags look at
      the reported lists. */
  lemma CommitterPushers(commits: seq<Commit>, accounts: seq<Account>, e: string)
    requires e in Stats(commits, accounts)
    ensures var s := Stats(commits, accounts)[e];
      var mine := Mine(commits, e);
      var names := AccountNames(accounts);
      (forall x :: x in s.pusherEmails <==>
        exists i :: 0 <= i < |mine| && Pusher(mine[i]) && x == Renamed(mine[i].pushEmail.value, names)) &&
      (MergeIdentity in s.pusherEmails ==> MergeIdentity in names.Values) &&
      (s.usesBuildServiceAccount == 1 <==>
        exists i :: 0 <= i < |mine| && Pusher(mine[i]) && StartsWith(mine[i].pushEmail.value, AccountPrefix) &&
          mine[i].pushEmail.value in names) &&
      (s.hasMultipleAuthors == 1 <==> |s.authorEmails| > 1) &&
      (s.hasMultiplePushers == 1 <==> |s.pusherEmails| > 1)
  {
    TallyPerCommitter(commits, e);
    var mine := Mine(commits, e);
    var names := AccountNames(accounts);
    assert Stats(commits, accounts)[e] == Finalise(Accumulate(mine), names);
    EntryPushers(mine, names);
    EntryUsesBuildAccount(mine, names);
    MapPushersSpec(Accumulate(mine).pusherEmails, names);
  }

  /** A commit whose pusher is reported: a non-empty push email other than
      the merge identity. */
  predicate Pusher(c: Commit) {
    c.pushEmail.Some? && c.pushEmail.value != "" && c.pushEmail.value != MergeIdentity
  }

  /** The committers of `commits` from the stated properties of `Mine`. */
  lemma {:induction false} MineSpec(commits: seq<Commit>, e: string)
    ensures forall c :: c in Mine(commits, e) ==> ByCommitter(c, e)
    ensures Mine(commits, e) != [] <==> exists i :: 0 <= i < |commits| && ByCommitter(commits[i], e)
    decreases |commits|
  {
    if commits != [] {
      var init := commits[..|commits| - 1];
      MineSpec(init, e);
      assert forall i :: 0 <= i < |init| ==> init[i] == commits[i];
    }
  }

  /** The distinct non-empty repository ids of project `p`'s commits. */
  function ProjectRepoSet(cs: seq<Commit>, p: string): set<string> {
    set i | 0 <= i < |cs| && cs[i].projectId == p && cs[i].repositoryId != "" :: cs[i].repositoryId
  }

  /** Each row of a committer's project statistics is one of its projects,
      with that project's commit count and number of distinct repositories. */
  lemma CommitterProjectStats(commits: seq<Commit>, accounts: seq<Account>, e: string, k: nat)
    requires e in Stats(commits, accounts) && k < |Stats(commits, accounts)[e].projectStats|
    ensures var st := Stats(commits, accounts)[e].projectStats[k];
      st.projectId in ProjectIdSet(Mine(commits, e)) &&
      st.commitCount == CountInProject(Mine(commits, e), st.projectId) &&
      st.repoCount == |ProjectRepoSet(Mine(commits, e), st.projectId)|
  {
    TallyPerCommitter(commits, e);
    var mine := Mine(commits, e);
    var a := Accumulate(mine);
    assert Stats(commits, accounts)[e] == Finalise(a, AccountNames(accounts));
    AccumulateProjects(mine);
    AccumulateProjectIds(mine);
    var ts := a.projects;
    var p := ts[k].projectId;
    assert p in ProjectIds(ts);
    FindTallyUnique(ts, p);
    assert RowOf(ts, p) == Some(ts[k]);
    AccumulateProjectRow(mine, p);
    RowRepoIds(mine, p);
    ProjectRepoIdsSpec(mine, p);
    NoDupCard(ts[k].repoIds);
    assert (set x | x in ts[k].repoIds) == ProjectRepoSet(mine, p) by {
      forall x | x in ProjectRepoSet(mine, p)
        ensures x in ts[k].repoIds
      {
        var i :| 0 <= i < |mine| && mine[i].projectId == p && mine[i].repositoryId != "" && mine[i].repositoryId == x;
        assert InProjectRepo(mine, i, p, x);
      }
    }
  }

  // ---------------------------------------------------------------- the loops

  /** One commit read into its committer's entry, field by field. */
  method StepEntry(entry: Accum, c: Commit) returns (out: Accum)
    ensures out == Step(entry, c)
  {
    var repos := entry.repos;
    if c.repositoryId != "" {
      repos := AddOnce(repos, c.repositoryId);
    }
    var authors := AddAuthor(entry.authorEmails, c.authorEmail);
    var pushers, merged := StepPusher(entry.pusherEmails, entry.prsMerged, c.pushEmail);
    var projects := entry.projects;
    if c.projectId != "" {
      projects := BumpProject(projects, c);
    }
    out := Accum(entry.commitCount + 1, repos, AddChanges(entry.changes, c.changes), authors, pushers, merged, projects);
  }

  /** The author email recorded once. */
  method AddAuthor(authors: seq<string>, authorEmail: Option<string>) returns (authors': seq<string>)
    ensures authors' == AddIfTruthy(authors, authorEmail)
  {
    authors' := authors;
    if authorEmail.Some? && authorEmail.value != "" {
      authors' := AddOnce(authors', authorEmail.value);
    }
  }

  /** The push email recorded once, and a merge by the merge identity counted. */
  method StepPusher(pushers: seq<string>, merged: nat, pushEmail: Option<string>) returns (pushers': seq<string>, merged': nat)
    ensures pushers' == AddIfTruthy(pushers, pushEmail)
    ensures merged' == merged + (if pushEmail == Some(MergeIdentity) then 1 else 0)
  {
    pushers', merged' := pushers, merged;
    if pushEmail.Some? && pushEmail.value != "" {
      pushers' := AddOnce(pushers', pushEmail.value);
      if pushEmail.value == MergeIdentity {
        merged' := merged' + 1;
      }
    }
  }

  /** The pusher loop of the second pass. */
  method ReportPushers(ps: seq<string>, accounts: map<string, string>) returns (reported: seq<string>, usesAccount: bool)
    ensures reported == MapPushers(ps, accounts)
    ensures usesAccount == UsesBuildAccount(ps, accounts)
  {
    reported := [];
    usesAccount := false;
    for i := 0 to |ps|
      invariant reported == MapPushers(ps[..i], accounts)
      invariant usesAccount == UsesBuildAccount(ps[..i], accounts)
    {
      assert ps[..i + 1][..i] == ps[..i];
      var p := ps[i];
      if p == MergeIdentity {
        continue;
      }
      if StartsWith(p, "Build\\") && p in accounts {
        usesAccount := true;
        reported := reported + [accounts[p]];
      } else {
        reported := reported + [p];
      }
    }
    assert ps[..|ps|] == ps;
  }

  /** The second pass on one entry. */
  method FinaliseEntry(a: Accum, accounts: map<string, string>) returns (s: CommitterStats)
    ensures s == Finalise(a, accounts)
  {
    var pushers, usesAccount := ReportPushers(a.pusherEmails, accounts);
    var projectStats: seq<ProjectStat> := [];
    for k := 0 to |a.projects|
      invariant |projectStats| == k
      invariant forall j :: 0 <= j < k ==> projectStats[j] == StatOf(a.projects[j])
    {
      var t := a.projects[k];
      projectStats := projectStats + [ProjectStat(t.projectId, t.projectName, |t.repoIds|, t.commitCount)];
    }
    s := CommitterStats(
      a.commitCount, |a.repos|, |a.projects|, a.changes,
      a.authorEmails, pushers, a.prsMerged,
      if usesAccount then 1 else 0,
      if |a.authorEmails| > 1 then 1 else 0,
      if |pushers| > 1 then 1 else 0,
      projectStats);
  }

  /** `get_committer_stats`: the account table, the pass over the commits and
      the pass over the entries. */
  method CommitterStatsOf(commits: seq<Commit>, accounts: seq<Account>) returns (stats: map<string, CommitterStats>)
    ensures stats == Stats(commits, accounts)
  {
    var names := AccountTable(accounts);
    var entries := TallyCommits(commits);
    stats := FinaliseAll(entries, names);
  }

  /** The table from account id to account name. */
  method AccountTable(accounts: seq<Account>) returns (names: map<string, string>)
    ensures names == AccountNames(accounts)
  {
    names := map[];
    for i := 0 to |accounts|
      invariant names == AccountNames(accounts[..i])
    {
      assert accounts[..i + 1][..i] == accounts[..i];
      names := names[accounts[i].id := accounts[i].name];
    }
    assert accounts[..|accounts|] == accounts;
  }

  /** The first pass: one entry per committer email. */
  method TallyCommits(commits: seq<Commit>) returns (entries: map<string, Accum>)
    ensures entries == Tally(commits)
  {
    entries := map[];
    for i := 0 to |commits|
      invariant entries == Tally(commits[..i])
    {
      assert commits[..i + 1][..i] == commits[..i];
      var c := commits[i];
      if c.committerEmail.None? || c.committerEmail.value == "" {
        continue;
      }
      var e := c.committerEmail.value;
      if e !in entries {
        entries := entries[e := Fresh()];
      }
      var entry := StepEntry(entries[e], c);
      entries := entries[e := entry];
    }
    assert commits[..|commits|] == commits;
  }

  /** The second pass over every entry. */
  method FinaliseAll(entries: map<string, Accum>, names: map<string, string>) returns (stats: map<string, CommitterStats>)
    ensures stats == map e | e in entries :: Finalise(entries[e], names)
  {
    stats := map[];
    var todo := entries.Keys;
    while todo != {}
      invariant todo <= entries.Keys
      invariant stats.Keys == entries.Keys - todo
      invariant forall e :: e in stats ==> stats[e] == Finalise(entries[e], names)
      decreases |todo|
    {
      var e :| e in todo;
      var s := FinaliseEntry(entries[e], names);
      stats := stats[e := s];
      todo := todo - {e};
    }
  }

  // ---------------------------------------------------------------- repository summaries

  /** A commit counts for repository `id`: it names that (non-empty)
      repository and has a committer email. */
  predicate CountsFor(c: Commit, id: string) {
    c.repositoryId == id && id != "" && Truthy(c.committerEmail)
  }

  /** The committer emails of the commits that count for repository `id`,
      one per commit. */
  function RepoEmails(commits: seq<Commit>, id: string): seq<string>
    decreases |commits|
  {
    if commits == [] then []
    else
      var earlier := RepoEmails(commits[..|commits| - 1], id);
      var c := commits[|commits| - 1];
      if CountsFor(c, id) then earlier + [c.committerEmail.value] else earlier
  }

  /** `stats['committers']` of repository `id`. */
  function SummaryFor(commits: seq<Commit>, id: string): CommitterSummary {
    var unique := SortStrings(Dedup(RepoEmails(commits, id)));
    CommitterSummary(|RepoEmails(commits, id)|, |unique|, unique)
  }

  /** The positions of the commits that count for repository `id`. */
  function CountedCommits(commits: seq<Commit>, id: string): set<nat> {
    set i: nat | i < |commits| && CountsFor(commits[i], id)
  }

  lemma {:induction false} RepoEmailsSpec(commits: seq<Commit>, id: string)
    ensures |RepoEmails(commits, id)| == |CountedCommits(commits, id)|
    ensures forall x :: x in RepoEmails(commits, id) <==>
      exists i :: 0 <= i < |commits| && CountsFor(commits[i], id) && commits[i].committerEmail == Some(x)
    decreases |commits|
  {
    if commits != [] {
      var n := |commits| - 1;
      var init := commits[..n];
      RepoEmailsSpec(init, id);
      CountedSnoc(commits, id);
      forall x ensures x in RepoEmails(commits, id) <==> CommittedTo(commits, id, x) {
        CommittedToSnoc(commits, id, x);
      }
    }
  }

  lemma CountedSnoc(commits: seq<Commit>, id: string)
    requires commits != []
    ensures CountedCommits(commits, id) ==
      CountedCommits(commits[..|commits| - 1], id) + (if CountsFor(commits[|commits| - 1], id) then {|commits| - 1} else {})
  {
    var init := commits[..|commits| - 1];
    assert forall i :: 0 <= i < |init| ==> init[i] == commits[i];
  }

  /** Some commit counting for repository `id` has committer email `x`. */
  predicate CommittedTo(commits: seq<Commit>, id: string, x: string) {
    exists i :: 0 <= i < |commits| && CountsFor(commits[i], id) && commits[i].committerEmail == Some(x)
  }

  lemma CommittedToSnoc(commits: seq<Commit>, id: string, x: string)
    requires commits != []
    ensures CommittedTo(commits, id, x) <==>
      CommittedTo(commits[..|commits| - 1], id, x) ||
      (CountsFor(commits[|commits| - 1], id) && commits[|commits| - 1].committerEmail == Some(x))
  {
    var init := commits[..|commits| - 1];
    if CommittedTo(init, id, x) {
      var i :| 0 <= i < |init| && CountsFor(init[i], id) && init[i].committerEmail == Some(x);
      assert commits[i] == init[i];
    }
    if CommittedTo(commits, id, x) {
      var i :| 0 <= i < |commits| && CountsFor(commits[i], id) && commits[i].committerEmail == Some(x);
      if i < |init| {
        assert commits[i] == init[i];
      }
    }
  }

  /** A repository's summary: `totalCommits` counts the commits that name it
      and have a committer email; `uniqueCommitters` holds each of their
      committer emails once, sorted; `count` is its length; a repository
      without such commits gets 0, 0 and []. */
  lemma SummarySpec(commits: seq<Commit>, id: string)
    ensures SummaryFor(commits, id).totalCommits == |CountedCommits(commits, id)|
    ensures SummaryFor(commits, id).count == |SummaryFor(commits, id).uniqueCommitters|
    ensures Ascending(SummaryFor(commits, id).uniqueCommitters) && NoDup(SummaryFor(commits, id).uniqueCommitters)
    ensures forall x :: x in SummaryFor(commits, id).uniqueCommitters <==>
      exists i :: 0 <= i < |commits| && CountsFor(commits[i], id) && commits[i].committerEmail == Some(x)
    ensures CountedCommits(commits, id) == {} ==> SummaryFor(commits, id) == CommitterSummary(0, 0, [])
  {
    RepoEmailsSpec(commits, id);
    var d := Dedup(RepoEmails(commits, id));
    SortStringsSpec(d);
    AscendingDistinct(SortStrings(d));
    if CountedCommits(commits, id) == {} {
      assert RepoEmails(commits, id) == [];
    }
  }

  /** A resource with its committer summary set; the repository's other
      stats are kept, and a repository without stats gets them. */
  function WithCommitters(r: Resource, s: CommitterSummary): (e: Resource)
    ensures r.detail.RepositoryDetail? ==>
      e.detail.RepositoryDetail? && e.detail.stats.Some? && e.detail.stats.value.committers == Some(s) &&
      e.detail.stats.value.activity == (if r.detail.stats.Some? then r.detail.stats.value.activity else None) &&
      e == r.(detail := r.detail.(stats := e.detail.stats))
    ensures !r.detail.RepositoryDetail? ==> e == r
  {
    if r.detail.RepositoryDetail? then
      var before := r.detail.stats.GetOr(RepoStats(None, None));
      r.(detail := r.detail.(stats := Some(before.(committers := Some(s)))))
    else r
  }

  /** `enrich_repositories_with_committer_stats` on the repository entries. */
  function EnrichedRepositories(rs: seq<Resource>, commits: seq<Commit>): (out: seq<Resource>)
    ensures |out| == |rs|
    ensures forall k :: 0 <= k < |rs| ==> out[k] == WithCommitters(rs[k], SummaryFor(commits, rs[k].id))
  {
    seq(|rs|, k requires 0 <= k < |rs| => WithCommitters(rs[k], SummaryFor(commits, rs[k].id)))
  }

  /** Reading one more commit extends the emails of its repository only. */
  lemma RepoEmailsStep(commits: seq<Commit>, i: nat, id: string)
    requires i < |commits|
    ensures RepoEmails(commits[..i + 1], id) ==
      RepoEmails(commits[..i], id) + (if CountsFor(commits[i], id) then [commits[i].committerEmail.value] else [])
  {
    assert commits[..i + 1][..i] == commits[..i];
  }

  /** The two dictionaries of the first loop describe the commits read so far. */
  ghost predicate TallyState(committers: map<string, seq<string>>, counts: map<string, nat>, cs: seq<Commit>) {
    counts.Keys == committers.Keys &&
    (forall id :: id in committers <==> RepoEmails(cs, id) != []) &&
    (forall id :: id in committers ==> committers[id] == Dedup(RepoEmails(cs, id)) && counts[id] == |RepoEmails(cs, id)|)
  }

  /** Adding a counted commit to the two dictionaries, seen from repository `other`. */
  lemma TallyStepAt(committers: map<string, seq<string>>, counts: map<string, nat>, commits: seq<Commit>, i: nat, other: string)
    requires i < |commits| && CountsFor(commits[i], commits[i].repositoryId)
    requires counts.Keys == committers.Keys
    requires other in committers <==> RepoEmails(commits[..i], other) != []
    requires other in committers ==> committers[other] == Dedup(RepoEmails(commits[..i], other))
    requires other in committers ==> other in counts && counts[other] == |RepoEmails(commits[..i], other)|
    ensures var id := commits[i].repositoryId;
      var committers' := committers[id := AddOnce(if id in committers then committers[id] else [], commits[i].committerEmail.value)];
      var counts' := counts[id := (if id in counts then counts[id] else 0) + 1];
      (other in committers' <==> RepoEmails(commits[..i + 1], other) != []) &&
      (other in committers' ==> committers'[other] == Dedup(RepoEmails(commits[..i + 1], other))) &&
      (other in committers' ==> counts'[other] == |RepoEmails(commits[..i + 1], other)|)
  {
    var id := commits[i].repositoryId;
    var email := commits[i].committerEmail.value;
    RepoEmailsStep(commits, i, other);
    if other == id {
      var before := RepoEmails(commits[..i], id);
      assert RepoEmails(commits[..i + 1], id) == before + [email];
      DedupSnoc(before, email);
      if id !in committers {
        assert before == [];
      }
    } else {
      assert RepoEmails(commits[..i + 1], other) == RepoEmails(commits[..i], other);
    }
  }

  /** Adding a counted commit keeps the dictionaries describing the commits read. */
  lemma TallyStateStep(committers: map<string, seq<string>>, counts: map<string, nat>, commits: seq<Commit>, i: nat)
    requires i < |commits| && TallyState(committers, counts, commits[..i])
    requires CountsFor(commits[i], commits[i].repositoryId)
    ensures var id := commits[i].repositoryId;
      var email := commits[i].committerEmail.value;
      TallyState(
        committers[id := AddOnce(if id in committers then committers[id] else [], email)],
        counts[id := (if id in counts then counts[id] else 0) + 1],
        commits[..i + 1])
  {
    forall other {:trigger RepoEmails(commits[..i + 1], other)} {
      TallyStepAt(committers, counts, commits, i, other);
    }
  }

  /** A commit that counts for no repository changes nothing. */
  lemma TallyStateSkip(committers: map<string, seq<string>>, counts: map<string, nat>, commits: seq<Commit>, i: nat)
    requires i < |commits| && TallyState(committers, counts, commits[..i])
    requires !CountsFor(commits[i], commits[i].repositoryId)
    ensures TallyState(committers, counts, commits[..i + 1])
  {
    forall other
      ensures RepoEmails(commits[..i + 1], other) == RepoEmails(commits[..i], other)
    {
      RepoEmailsStep(commits, i, other);
    }
  }

  /** The first loop of `enrich_repositories_with_committer_stats`: each
      repository's committer set and commit count. */
  method TallyRepositories(commits: seq<Commit>) returns (committers: map<string, seq<string>>, counts: map<string, nat>)
    ensures TallyState(committers, counts, commits)
  {
    committers := map[];
    counts := map[];
    for i := 0 to |commits|
      invariant TallyState(committers, counts, commits[..i])
    {
      var c := commits[i];
      if c.repositoryId == "" || c.committerEmail.None? || c.committerEmail.value == "" {
        TallyStateSkip(committers, counts, commits, i);
        continue;
      }
      TallyStateStep(committers, counts, commits, i);
      var id := c.repositoryId;
      if id !in committers {
        committers := committers[id := []];
      }
      if id !in counts {
        counts := counts[id := 0];
      }
      committers := committers[id := AddOnce(committers[id], c.committerEmail.value)];
      counts := counts[id := counts[id] + 1];
    }
    assert commits[..|commits|] == commits;
  }

  /** `enrich_repositories_with_committer_stats`: the tally, then the summary
      written into every repository entry. */
  method EnrichRepositoriesWithCommitters(rs: seq<Resource>, commits: seq<Commit>) returns (out: seq<Resource>)
    ensures out == EnrichedRepositories(rs, commits)
  {
    var committers, counts := TallyRepositories(commits);
    out := [];
    for k := 0 to |rs|
      invariant |out| == k
      invariant forall j :: 0 <= j < k ==> out[j] == WithCommitters(rs[j], SummaryFor(commits, rs[j].id))
    {
      var id := rs[k].id;
      var unique := SortStrings(if id in committers then committers[id] else []);
      var total := if id in counts then counts[id] else 0;
      out := out + [WithCommitters(rs[k], CommitterSummary(total, |unique|, unique))];
    }
  }
}
