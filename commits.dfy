/** Commit records of repositories, the `$top`/`$skip` paging of the commit
    and pull-request listings, the pull-request tally and the activity state
    of a repository. Listings are inputs: `pages[n]` is the answer to the
    request with `$skip = 100 * n`, and a page past the end of the sequence,
    like a failed fetch, is empty. Dates are integer seconds. */
module Commits {
  import opened Wrappers
  import opened Text
  import opened Resources

  /** `$top`: the page size of the commit and pull-request listings. */
  const BatchSize: nat := 100

  /** The identity Azure DevOps pushes merged pull requests as. */
  const MergeIdentity: string := "00000002-0000-8888-8000-000000000000@2c895908-04e0-4952-89fd-54b0046d6288"

  // ---------------------------------------------------------------- paging

  /** What a paged read collects: it stops at an empty page, and after a page
      shorter than `$top`. */
  function Collected<T>(pages: seq<seq<T>>): seq<T> {
    if pages == [] || pages[0] == [] then []
    else if |pages[0]| < BatchSize then pages[0]
    else pages[0] + Collected(pages[1..])
  }

  /** The pages a server answers with for the list `items`: full pages of
      `$top` items, then the remainder (and nothing after it). */
  function Chunks<T>(items: seq<T>): (pages: seq<seq<T>>)
    ensures forall n :: 0 <= n < |pages| ==> 0 < |pages[n]| <= BatchSize
    decreases |items|
  {
    if items == [] then []
    else if |items| < BatchSize then [items]
    else [items[..BatchSize]] + Chunks(items[BatchSize..])
  }

  /** The stop rule reads every item of a list served in pages, whether or
      not its length is a multiple of the page size. */
  lemma {:induction false} CollectedChunks<T>(items: seq<T>)
    ensures Collected(Chunks(items)) == items
    decreases |items|
  {
    if items != [] && |items| >= BatchSize {
      var pages := Chunks(items);
      assert pages[0] == items[..BatchSize];
      assert pages[1..] == Chunks(items[BatchSize..]);
      CollectedChunks(items[BatchSize..]);
      assert items == items[..BatchSize] + items[BatchSize..];
    }
  }

  /** Nothing after a short or empty page is read. */
  lemma {:induction false} CollectedStopsAt<T>(pages: seq<seq<T>>, n: nat)
    requires n < |pages| && |pages[n]| < BatchSize
    ensures Collected(pages) == Collected(pages[..n + 1])
    decreases n
  {
    if n > 0 && pages[0] != [] && |pages[0]| >= BatchSize {
      assert pages[..n + 1][1..] == pages[1..][..n];
      CollectedStopsAt(pages[1..], n - 1);
    }
  }

  /** Going on past a page of at least `$top` items adds that page's items. */
  lemma CollectedFullPage<T>(pages: seq<seq<T>>, i: nat)
    requires i < |pages| && |pages[i]| >= BatchSize
    ensures Collected(pages[i..]) == pages[i] + Collected(pages[i + 1..])
  {
    assert pages[i..][1..] == pages[i + 1..];
  }

  // ---------------------------------------------------------------- commits

  /** The 'Add'/'Edit'/'Delete' change counts of a commit, 0 where absent. */
  datatype ChangeCounts = ChangeCounts(add: int, edit: int, delete: int)

  /** A commit as the listing returns it; absent fields are None. */
  datatype RawCommit = RawCommit(
    commitId: Option<string>,
    authorEmail: Option<string>,
    authorName: Option<string>,
    committerEmail: Option<string>,
    committerName: Option<string>,
    committerDate: Option<string>,
    pushEmail: Option<string>,
    pushName: Option<string>,
    pushId: Option<int>,
    pushDate: Option<string>,
    changeCounts: ChangeCounts)

  /** The repository a commit listing belongs to. */
  datatype RepoRef = RepoRef(id: string, name: string, projectId: string, kProject: KProject)

  /** A commit record of the scan, with its three 0/1 flags. */
  datatype Commit = Commit(
    repositoryId: string,
    repositoryName: string,
    projectId: string,
    kProject: KProject,
    commitId: Option<string>,
    authorEmail: Option<string>,
    authorName: Option<string>,
    committerEmail: Option<string>,
    committerName: Option<string>,
    committerDate: Option<string>,
    changes: ChangeCounts,
    pushEmail: Option<string>,
    pushId: Option<int>,
    pushDate: Option<string>,
    committerAuthorMatch: nat,
    committerPusherMatch: nat,
    commitByAdo: nat)

  function Flag(b: bool): nat {
    if b then 1 else 0
  }

  /** The record derived from one listed commit. Names compare as Python
      values: two absent names are equal. */
  function DeriveCommit(repo: RepoRef, c: RawCommit): (r: Commit)
    ensures r.committerAuthorMatch <= 1 && r.committerPusherMatch <= 1 && r.commitByAdo <= 1
    ensures r.committerAuthorMatch == 1 <==> c.committerName == c.authorName
    ensures r.committerPusherMatch == 1 <==> c.committerName == c.pushName
    ensures r.commitByAdo == 1 <==> c.pushEmail == Some(MergeIdentity)
    ensures r.repositoryId == repo.id && r.projectId == repo.projectId && r.kProject == repo.kProject
    ensures r.committerEmail == c.committerEmail && r.authorEmail == c.authorEmail
    ensures r.pushEmail == c.pushEmail && r.changes == c.changeCounts
  {
    Commit(repo.id, repo.name, repo.projectId, repo.kProject,
      c.commitId, c.authorEmail, c.authorName, c.committerEmail, c.committerName, c.committerDate,
      c.changeCounts, c.pushEmail, c.pushId, c.pushDate,
      Flag(c.committerName == c.authorName),
      Flag(c.committerName == c.pushName),
      Flag(c.pushEmail == Some(MergeIdentity)))
  }

  function DeriveAll(repo: RepoRef, raws: seq<RawCommit>): (r: seq<Commit>)
    ensures |r| == |raws|
    ensures forall i :: 0 <= i < |raws| ==> r[i] == DeriveCommit(repo, raws[i])
  {
    seq(|raws|, i requires 0 <= i < |raws| => DeriveCommit(repo, raws[i]))
  }

  lemma DeriveAllConcat(repo: RepoRef, a: seq<RawCommit>, b: seq<RawCommit>)
    ensures DeriveAll(repo, a + b) == DeriveAll(repo, a) + DeriveAll(repo, b)
  {
  }

  /** The commit listing: (project id, repository id) to its pages. */
  type CommitPages = (string, string) -> seq<seq<RawCommit>>

  /** `repo['project']['id']` and the other fields the commit loop reads; a
      resource without a project raises KeyError. */
  function RepoRefOf(r: Resource): (ref: Result<RepoRef>)
    ensures ref.Ok? <==> r.detail.RepositoryDetail?
    ensures ref.Ok? ==> ref.value == RepoRef(r.id, r.name, r.detail.projectId, r.kProject)
  {
    if r.detail.RepositoryDetail? then Ok(RepoRef(r.id, r.name, r.detail.projectId, r.kProject))
    else Err(KeyError("project"))
  }

  /** The commits of one repository. */
  function RepositoryCommits(fetch: CommitPages, ref: RepoRef): seq<Commit> {
    DeriveAll(ref, Collected(fetch(ref.projectId, ref.id)))
  }

  /** `get_commits_per_repository`: the commits of every repository, in
      order; a repository without a project aborts the whole call. */
  function AllCommits(repos: seq<Resource>, fetch: CommitPages): Result<seq<Commit>> {
    if repos == [] then Ok([])
    else
      var earlier :- AllCommits(repos[..|repos| - 1], fetch);
      var ref :- RepoRefOf(repos[|repos| - 1]);
      Ok(earlier + RepositoryCommits(fetch, ref))
  }

  /** The call fails exactly when some repository has no project, and then
      the commits of the repositories before it are lost too. */
  lemma {:induction false} AllCommitsOk(repos: seq<Resource>, fetch: CommitPages)
    ensures AllCommits(repos, fetch).Ok? <==> forall i :: 0 <= i < |repos| ==> repos[i].detail.RepositoryDetail?
    ensures AllCommits(repos, fetch).Err? ==> AllCommits(repos, fetch).error == KeyError("project")
  {
    if repos != [] {
      var init := repos[..|repos| - 1];
      AllCommitsOk(init, fetch);
      assert forall i :: 0 <= i < |init| ==> init[i] == repos[i];
    }
  }

  /** Every commit record belongs to one of the repositories and is derived
      from an item of that repository's listing. */
  lemma {:induction false} AllCommitsFrom(repos: seq<Resource>, fetch: CommitPages, c: Commit)
    requires AllCommits(repos, fetch).Ok? && c in AllCommits(repos, fetch).value
    ensures exists i :: (0 <= i < |repos| && repos[i].detail.RepositoryDetail? && repos[i].id == c.repositoryId &&
                         c in RepositoryCommits(fetch, RepoRefOf(repos[i]).value))
  {
    var last := |repos| - 1;
    var init := repos[..last];
    var ref := RepoRefOf(repos[last]).value;
    if c in AllCommits(init, fetch).value {
      AllCommitsFrom(init, fetch, c);
      var i :| 0 <= i < |init| && init[i].detail.RepositoryDetail? && init[i].id == c.repositoryId &&
        c in RepositoryCommits(fetch, RepoRefOf(init[i]).value);
      assert repos[i] == init[i];
    } else {
      assert c in RepositoryCommits(fetch, ref);
    }
  }

  /** A failed prefix fails the whole call. */
  lemma {:induction false} AllCommitsErrPersists(repos: seq<Resource>, fetch: CommitPages, n: nat)
    requires n <= |repos| && AllCommits(repos[..n], fetch).Err?
    ensures AllCommits(repos, fetch) == AllCommits(repos[..n], fetch)
    decreases |repos| - n
  {
    if n < |repos| {
      assert repos[..n + 1][..n] == repos[..n];
      AllCommitsErrPersists(repos, fetch, n + 1);
    } else {
      assert repos[..n] == repos;
    }
  }

  /** The records of one page, in order. */
  method DerivePage(ref: RepoRef, page: seq<RawCommit>) returns (out: seq<Commit>)
    ensures out == DeriveAll(ref, page)
  {
    out := [];
    for k := 0 to |page|
      invariant out == DeriveAll(ref, page[..k])
    {
      assert page[..k + 1] == page[..k] + [page[k]];
      DeriveAllConcat(ref, page[..k], [page[k]]);
      out := out + [DeriveCommit(ref, page[k])];
    }
    assert page[..|page|] == page;
  }

  /** The `while True` loop over the pages of one repository. */
  method ReadCommitPages(ref: RepoRef, pages: seq<seq<RawCommit>>) returns (out: seq<Commit>)
    ensures out == DeriveAll(ref, Collected(pages))
  {
    out := [];
    var i := 0;
    while i < |pages|
      invariant 0 <= i <= |pages|
      invariant out + DeriveAll(ref, Collected(pages[i..])) == DeriveAll(ref, Collected(pages))
    {
      var page := pages[i];
      if page == [] {
        assert Collected(pages[i..]) == [];
        break;
      }
      var derived := DerivePage(ref, page);
      if |page| < BatchSize {
        assert Collected(pages[i..]) == page;
        out := out + derived;
        break;
      }
      CollectedFullPage(pages, i);
      DeriveAllConcat(ref, page, Collected(pages[i + 1..]));
      out := out + derived;
      i := i + 1;
    }
  }

  /** `get_commits_per_repository` over the repository entries. */
  method CommitsPerRepository(repos: seq<Resource>, fetch: CommitPages) returns (out: Result<seq<Commit>>)
    ensures out == AllCommits(repos, fetch)
  {
    var all: seq<Commit> := [];
    var i := 0;
    while i < |repos|
      invariant 0 <= i <= |repos|
      invariant AllCommits(repos[..i], fetch) == Ok(all)
    {
      assert repos[..i + 1][..i] == repos[..i];
      var r := repos[i];
      if !r.detail.RepositoryDetail? {
        AllCommitsErrPersists(repos, fetch, i + 1);
        return Err(KeyError("project"));
      }
      var ref := RepoRef(r.id, r.name, r.detail.projectId, r.kProject);
      var commits := ReadCommitPages(ref, fetch(ref.projectId, ref.id));
      all := all + commits;
      i := i + 1;
    }
    assert repos[..i] == repos;
    out := Ok(all);
  }

  // ---------------------------------------------------------------- pull requests

  function Zero(): PrCounts {
    PrCounts(0, 0, 0, 0, 0)
  }

  /** One pull request of the tally: its status, lower-cased, picks the
      counter; an absent or empty status counts only towards `all`. */
  function TallyOne(c: PrCounts, status: Option<string>): PrCounts {
    var s := Lower(status.GetOr(""));
    var c := c.(all := c.all + 1);
    if s == "active" then c.(active := c.active + 1)
    else if s == "abandoned" then c.(abandoned := c.abandoned + 1)
    else if s == "completed" then c.(completed := c.completed + 1)
    else if s != "" then c.(other := c.other + 1)
    else c
  }

  /** The counts over a sequence of statuses, starting from `c`. */
  function TallyFrom(c: PrCounts, statuses: seq<Option<string>>): PrCounts
    decreases |statuses|
  {
    if statuses == [] then c
    else TallyOne(TallyFrom(c, statuses[..|statuses| - 1]), statuses[|statuses| - 1])
  }

  function Tally(statuses: seq<Option<string>>): PrCounts {
    TallyFrom(Zero(), statuses)
  }

  /** How many statuses lower-case to `s`. */
  function CountStatus(statuses: seq<Option<string>>, s: string): nat
    decreases |statuses|
  {
    if statuses == [] then 0
    else CountStatus(statuses[..|statuses| - 1], s) + (if Lower(statuses[|statuses| - 1].GetOr("")) == s then 1 else 0)
  }

  /** `all` counts every pull request; each status counter counts the pull
      requests of that status; `other` is what remains besides the ones with
      no status. */
  lemma {:induction false} TallyCounts(statuses: seq<Option<string>>)
    ensures Tally(statuses).all == |statuses|
    ensures Tally(statuses).active == CountStatus(statuses, "active")
    ensures Tally(statuses).abandoned == CountStatus(statuses, "abandoned")
    ensures Tally(statuses).completed == CountStatus(statuses, "completed")
    ensures Tally(statuses).active + Tally(statuses).abandoned + Tally(statuses).completed
      + Tally(statuses).other + CountStatus(statuses, "") == |statuses|
    decreases |statuses|
  {
    if statuses != [] {
      TallyCounts(statuses[..|statuses| - 1]);
    }
  }

  /** Tallying page by page from the running counts is tallying the
      concatenation. */
  lemma {:induction false} TallyConcat(c: PrCounts, a: seq<Option<string>>, b: seq<Option<string>>)
    ensures TallyFrom(c, a + b) == TallyFrom(TallyFrom(c, a), b)
    decreases |b|
  {
    if b == [] {
      assert a + b == a;
    } else {
      assert (a + b)[..|a + b| - 1] == a + b[..|b| - 1];
      TallyConcat(c, a, b[..|b| - 1]);
    }
  }

  /** The counts of one page added to `c`. */
  method TallyPage(c: PrCounts, page: seq<Option<string>>) returns (out: PrCounts)
    ensures out == TallyFrom(c, page)
  {
    out := c;
    for k := 0 to |page|
      invariant out == TallyFrom(c, page[..k])
    {
      assert page[..k + 1][..k] == page[..k];
      var s := Lower(page[k].GetOr(""));
      if s == "active" {
        out := out.(active := out.active + 1);
      } else if s == "abandoned" {
        out := out.(abandoned := out.abandoned + 1);
      } else if s == "completed" {
        out := out.(completed := out.completed + 1);
      } else if s != "" {
        out := out.(other := out.other + 1);
      }
      out := out.(all := out.all + 1);
    }
    assert page[..|page|] == page;
  }

  /** `get_repository_pull_requests_count` over the pages of the pull-request
      listing (the statuses of its items). */
  method PullRequestCounts(pages: seq<seq<Option<string>>>) returns (counts: PrCounts)
    ensures counts == Tally(Collected(pages))
  {
    counts := Zero();
    var i := 0;
    while i < |pages|
      invariant 0 <= i <= |pages|
      invariant TallyFrom(counts, Collected(pages[i..])) == Tally(Collected(pages))
    {
      var page := pages[i];
      if page == [] {
        assert Collected(pages[i..]) == [];
        break;
      }
      if |page| < BatchSize {
        assert Collected(pages[i..]) == page;
        counts := TallyPage(counts, page);
        break;
      }
      CollectedFullPage(pages, i);
      TallyConcat(counts, page, Collected(pages[i + 1..]));
      counts := TallyPage(counts, page);
      i := i + 1;
    }
    if i == |pages| {
      assert Collected(pages[i..]) == [];
    }
  }

  // ---------------------------------------------------------------- activity

  const Day: int := 86400

  /** The state of a repository from its last commit date: active within 90
      days (strictly after), stale within 365 days, dormant before, and
      unknown without a date. */
  function StateOf(now: int, last: Option<int>): (s: RepoState)
    ensures s == Unknown <==> last.None?
    ensures s == Active <==> last.Some? && last.value > now - 90 * Day
    ensures s == Stale <==> last.Some? && now - 365 * Day < last.value <= now - 90 * Day
    ensures s == Dormant <==> last.Some? && last.value <= now - 365 * Day
  {
    if last.None? then Unknown
    else if last.value > now - 90 * Day then Active
    else if last.value > now - 365 * Day then Stale
    else Dormant
  }

  /** `timedelta.days` of `now - last`: whole days, rounded down. */
  function AgeInDays(now: int, last: int): (d: int)
    ensures d * Day <= now - last < (d + 1) * Day
  {
    (now - last) / Day
  }

  /** The state agrees with the age the same record shows. */
  lemma StateMatchesAge(now: int, last: int)
    ensures StateOf(now, Some(last)) == Active <==> AgeInDays(now, last) < 90
    ensures StateOf(now, Some(last)) == Dormant <==> AgeInDays(now, last) >= 365
  {
    var d := AgeInDays(now, last);
    if d < 90 {
      assert (d + 1) * Day <= 90 * Day;
    }
    if d >= 365 {
      assert 365 * Day <= d * Day;
    }
  }

  function Staleness(s: RepoState): nat {
    match s
    case Active => 0
    case Stale => 1
    case Dormant => 2
    case Unknown => 3
  }

  /** A repository only gets older: a later clock never gives a fresher state. */
  lemma StateOnlyAges(now: int, later: int, last: Option<int>)
    requires now <= later
    ensures Staleness(StateOf(now, last)) <= Staleness(StateOf(later, last))
  {
  }

  /** The activity stats of a repository: its commit dates, age, branch
      count, pull-request counts and state. */
  function ActivityOf(now: int, first: Option<int>, last: Option<int>, branchNames: seq<string>, prs: PrCounts): (a: Activity)
    ensures a.age.Some? <==> last.Some?
    ensures last.Some? ==> a.age.value == AgeInDays(now, last.value)
    ensures a.state == StateOf(now, last) && a.branchCount == |branchNames|
    ensures a.firstCommitDate == first && a.lastCommitDate == last && a.pullRequests == prs
  {
    Activity(first, last, if last.Some? then Some(AgeInDays(now, last.value)) else None,
      |branchNames|, prs, StateOf(now, last))
  }
}
