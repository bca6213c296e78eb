# observes-scanner: the authorization and exposure graph, in Dafny

This project models the in-memory core of an Azure DevOps scanner. The
scanner lists an organization's protected resources: service endpoints,
agent pools and queues, variable groups, secure files and repositories.
It then works out which pipelines may use each resource, whether a
resource is protected by checks and whether it crosses project
boundaries. It also builds a reverse index from each pipeline definition
to the resources it may use, and aggregates commit, committer,
pull-request and per-project statistics.

Every HTTP request of the scanner is a parameter of the model: a function
from the request's arguments (type, project, resource id) to the parsed
answer. The clock is an integer `now` in seconds, and dates are integer
timestamps.

Modules, one per concern:

- `Wrappers`: `Option`, `Result` and the Python exception kinds the code raises.
- `Text`, `Seqs`: `str.split`, `"sep".join`, `rsplit`, `strip`, `lower`, `sorted`, `str(int)`, and order-preserving de-duplication.
- `PipelineKeys`: PipelineKeys `"<project>_<definition id>"` and the reverse-index tags `"<type>_<id>"`.
- `Resources`: the records (resource types, k_project, resources, definitions, builds, permission answers).
- `Crawler`: discovery of new entries, their deep links and project information.
- `Merger`: the pool/queue merge.
- `Checks`: checks and approvals.
- `Resolver`: the pipeline-permission resolver.
- `Classifier`: the protection state and the cross-project flag.
- `ReverseIndex`: the definition-to-resources index.
- `Commits`: commit records, paging, pull-request tallies and repository activity.
- `Accounts`: build service accounts.
- `Committers`: the per-committer and per-repository statistics.
- `ProjectCounts`: the per-project resource counts.
- `Inventories`: the inventory as a class whose methods are the scan's stages, in the order the scan runs them.
- `Scan`: the pure pieces of the entry point.

The inventory is a `class Inventory` whose field `resources` maps each
resource type to its list of entries. Its methods update that field in
place, as the scanner's stages do.

- Its invariant `Valid()`: every type is present, and ids are distinct within a type.
- From the merge on, the methods also keep `Linked`: every queue a pool holds is a listed queue. The scanner shares queue records between a pool and the queue list; the model has pools hold queue ids and resolve them against the queue list.

Where the code and the scanner's documented behaviour disagree, the model follows the code, with one exception. On an "all pipelines" answer, the repository and generic branches of the permission resolver filter definition records as if they were key strings (azuredevops.py:576 and 628). As written, that raises: the repository branch aborts the scan, and the generic branch loses the grant. The resolver and the `Inventory` pipeline use the corrected grant instead, the keys of the project's definitions, as the endpoint branch grants them. The code as written is modelled beside it and recorded under "## Findings". Otherwise:

- The permission resolver asks every project of the project table. There is no filter on project state.
- The cross-project classifier reads a `k_projects` key that the crawler never writes, since the crawler writes `k_projects_refs`. The rule is modelled, and `Classifier.KProjectsRuleNeedsTheKey` states that it is dead for crawled resources.
- The classifier cuts PipelineKeys at the first `_`, while the reverse index cuts tags at the last `_`. Both are modelled as written.
- The resolver's project test is a raw `startswith` on the key. `PipelineKeys.PrefixTestAdmitsLongerIds` shows that project `P1` admits keys of project `P10`.

## Model

| member | source | states |
|---|---|---|
| PipelineKeys.EncodeKey | azuredevops.py:780 | a key starts with its project id, and the separator follows it |
| PipelineKeys.DecodeKey | azuredevops.py:734 | `split("_")` unpacks into two parts exactly when the key holds one separator, and the parts rejoin to the key |
| PipelineKeys.DecodeEncode | azuredevops.py:780 | decoding an encoded key gives back the project and the decimal id when the project holds no `_` |
| PipelineKeys.DecodeRejectsSeparatorInProject | azuredevops.py:998 | a project id holding `_` makes its own keys raise on decoding |
| PipelineKeys.OwnerProject | azuredevops.py:500 | the owner cut at the first `_` holds no separator |
| PipelineKeys.OwnerOfEncoded | azuredevops.py:500 | the owner of an encoded key is its project |
| PipelineKeys.PrefixTestExactForEqualLengths | azuredevops.py:533 | the `startswith(project)` test is exact between project ids of equal length |
| PipelineKeys.PrefixTestAdmitsLongerIds | azuredevops.py:533 | a key of project "P10" passes the test for "P1" |
| PipelineKeys.DecodeEncodeTag | azuredevops.py:1399-1409 | `rsplit("_", 1)` of a tag gives back its kind and id when the id holds no `_` |
| PipelineKeys.FirstSplitBreaksPoolMergedTag | azuredevops.py:1393 | cutting a `pool_merged_` tag at its first `_` gives "pool" |
| Resources.TypeName | azuredevops.py:1399 | the inventory key of a type holds no `_`, so it survives the tag round trip |
| Resources.TypeNamesDistinct | azuredevops.py:1385-1399 | distinct types have distinct inventory keys |
| Resources.FindProject | azuredevops.py:1220-1221 | a project is found exactly when the table holds its id, and the found record has that id |
| Crawler.EnrichKProject | azuredevops.py:1216-1240 | a project reference is built exactly when the project is known or a fallback name is given; it carries the id, the table's name or else the fallback, and the self link only when it is non-empty; it is never org-scoped |
| Crawler.KUrl | azuredevops.py:1315-1327 | every deep link starts with the organization's base URL, and all but pools add the quoted project name |
| Crawler.SharedFrom | azuredevops.py:1467-1492 | the lookup fails only when the fetch failed and there are references to match |
| Crawler.SharedMatchesExact | azuredevops.py:1476-1486 | the matches are the matches of each reference |
| Crawler.MatchesOfExact | azuredevops.py:1477-1486 | a reference matches once per identity whose display name contains its non-empty project name |
| Crawler.GetSharedFrom | azuredevops.py:1467-1492 | the nested loop computes `SharedFrom` |
| Crawler.ProjectInfo | azuredevops.py:1242-1280 | project information keeps the entry's id, name, link and shape |
| Crawler.ProjectInfoAttaches | azuredevops.py:1242-1280 | pools get the org scope with its agent-pool link, queues their own project, repositories the current project with their web URL, and the other types the current project; an endpoint gets one project reference per `serviceEndpointProjectReferences` entry |
| Crawler.Enrich | azuredevops.py:1315-1329 | a new entry keeps its id and name and gets the type's deep link |
| Crawler.AppendListing | azuredevops.py:1307-1337 | appending a listing never changes or reorders the entries already present |
| Crawler.AppendListingAddsListed | azuredevops.py:1312-1336 | every appended entry is the enrichment of a well-shaped entry of the listing |
| Crawler.AppendListingKeepsIdsDistinct | azuredevops.py:1313 | ids stay distinct within a type |
| Crawler.AppendListingCoversListing | azuredevops.py:1312-1337 | when the listing is well shaped, every listed id is present afterwards |
| Crawler.AppendListingIdempotent | azuredevops.py:1313 | appending the same listing again adds nothing |
| Crawler.AppendNewResources | azuredevops.py:1307-1337 | the loop over one listing computes `AppendListing` |
| Crawler.IdsOf | azuredevops.py:1308 | the list of current ids holds exactly the ids of the current resources |
| Crawler.AppendEntry | azuredevops.py:1312-1337 | one listing entry: a known id is skipped, a malformed entry ends the listing, and a new one is enriched and appended with its id recorded; the rest of the listing then computes the same `AppendListing` |
| Merger.QueuesWithPool | azuredevops.py:1199-1206 | a pool's group holds exactly the queues whose pool id is that pool's |
| Merger.QueuesWithPoolConcat | azuredevops.py:1200-1206 | grouping keeps input order |
| Merger.QueueIds | azuredevops.py:1211 | the queue ids of a group, position by position |
| Merger.PermissionLists | azuredevops.py:1191-1192 | each queue's permission list, `[]` when absent |
| Merger.PoolPermissionsExact | azuredevops.py:1188-1195 | a pool's permissions hold each queue permission exactly once, in first-occurrence order, and nothing else |
| Merger.UnresolvedQueuesGiveNoPermissions | azuredevops.py:1191 | queues with no permission list give a pool no permissions |
| Merger.CalculatePoolPipelinePermissions | azuredevops.py:1188-1195 | the loop computes the de-duplicated union of the queues' permissions |
| Merger.MergedPool | azuredevops.py:1208-1212 | the merge keeps a pool's id, name, details and project, and sets its queues and permissions |
| Merger.MergedPoolQueues | azuredevops.py:1211 | a pool's queues are those naming it, in input order, or `[]` when none do |
| Merger.MergePoolsAndQueues | azuredevops.py:1198-1214 | the pool list keeps its length and order, and each pool is merged |
| Merger.GroupQueues | azuredevops.py:1199-1206 | the map has an entry for each pool id some queue names, holding those queues in input order, and no other |
| Checks.ChecksResourceId | azuredevops.py:453-457 | the checks request names the resource id, except for repositories, which use `project_id.repo_id` |
| Checks.AttachChecks | azuredevops.py:438-465 | org-level resources get `[]`; a `None` answer leaves the resource unchanged; otherwise the answer is stored; nothing but `checks` changes |
| Checks.AttachChecksToAll | azuredevops.py:441-465 | the loop attaches checks to each entry of a type |
| Resolver.ProjectDefinitionKeys | azuredevops.py:531-533 | "all pipelines" grants exactly the known definition keys that start with the project id |
| Resolver.ListedKeys | azuredevops.py:544 | a "pipelines" answer grants `project_id + "_" + id` for each listed pipeline, in order |
| Resolver.GrantedBelongToProject | azuredevops.py:533-544 | every granted key starts with the project asked |
| Resolver.ListedKeysOwned | azuredevops.py:544 | a listed key decodes to its project and one of the listed ids |
| Resolver.DedupIfPresent | azuredevops.py:557-560 | de-duplication keeps presence and contents and removes repeats |
| Resolver.AddGranted | azuredevops.py:529-558 | after an answer the list holds the old keys and the granted keys, once each |
| Resolver.ResolvedReference | azuredevops.py:535-560 | a project reference keeps its identity and gets a duplicate-free list; an unusable answer sets `[]` and the scope warning; otherwise it holds its old keys and the granted keys |
| Resolver.EndpointPermissionsAfter | azuredevops.py:528-558 | the endpoint's own list after one reference: unchanged but de-duplicated on an unusable answer, otherwise old and granted keys once each |
| Resolver.EndpointFoldFails | azuredevops.py:526-528 | endpoint resolution raises exactly when some reference's answer is missing |
| Resolver.EndpointFoldReferences | azuredevops.py:523-560 | every reference is resolved in place from its own answer |
| Resolver.EndpointFoldDone | azuredevops.py:523-560 | a successful fold had an answer for every reference, and its reference list is the resolved ones followed by each reference resolved from its own answer |
| Resolver.EndpointFoldPermissions | azuredevops.py:523-560 | the endpoint's list holds the old keys plus every key some answer grants, once each; it stays absent only when every answer is unusable |
| Resolver.ResolveReference | azuredevops.py:528-560 | one reference's answer, applied to both lists, computes the fold step |
| Resolver.ResolveEndpointPermissions | azuredevops.py:521-560 | the loop over the references computes `ResolveEndpoint` |
| Resolver.BuildLookupSpec | azuredevops.py:591-598 | the builds loop raises exactly on an undecodable build key, and adds the key of every build that touches the repository |
| Resolver.DefinitionLookupSpec | azuredevops.py:599-606 | the definitions loop adds the key of every definition that touches the repository, and nothing else |
| Resolver.RepositoryStepSpec | azuredevops.py:573-609 | with the corrected "all pipelines" grant, one project's step succeeds exactly on a usable answer and decodable build keys; the list is then duplicate-free and holds the old, granted and reverse-lookup keys |
| Resolver.RepositoryFoldSpec | azuredevops.py:563-609 | with the corrected "all pipelines" grant, repository resolution succeeds exactly when there is no project or every answer is usable and the build keys decode; it then holds every granted and reverse-lookup key once |
| Resolver.ResolveRepositoryPermissions | azuredevops.py:563-609 | the loop over the projects computes `ResolveRepository` |
| Resolver.GenericFoldSpec | azuredevops.py:610-639 | with the corrected "all pipelines" grant, org-level resources get `[]`; otherwise the list stays absent only when every answer is missing, and holds every granted key once |
| Resolver.GenericFoldOrg | azuredevops.py:615-619 | an org-level resource ends with `[]` whatever it held |
| Resolver.GenericFoldAbsent | azuredevops.py:620-635 | a project-level resource's list stays absent iff it was absent and every answer is missing |
| Resolver.GenericFoldMembers | azuredevops.py:620-635 | with the corrected "all pipelines" grant, the list holds exactly what it held plus every key some project's answer grants |
| Resolver.GenericFoldDistinct | azuredevops.py:633-635 | a list free of duplicates stays free of duplicates |
| Resolver.ResolveGenericPermissions | azuredevops.py:610-639 | the loop over the projects computes `GenericFold` |
| Resolver.ResolveKeepsIdentity | azuredevops.py:512-641 | resolution changes nothing but the permission lists |
| Resolver.GrantedAsWritten | azuredevops.py:628 | as written, "all pipelines" raises whenever a definition exists, and otherwise grants what the corrected code grants |
| Resolver.AsWrittenDiffersOnlyOnAllPipelines | azuredevops.py:573-639 | the code as written and the corrected steps agree except on "all pipelines" with definitions present |
| Resolver.AllPipelinesCounterexample | azuredevops.py:628 | with one definition "P_1" the generic branch as written grants nothing and the repository branch raises, while the corrected steps grant "P_1" |
| Classifier.ProtectionOf | azuredevops.py:478-481 | "protected" exactly when the resource has a non-empty check list |
| Classifier.DistinctOwners | azuredevops.py:498-501 | the loop builds the set of owners cut at the first `_` |
| Classifier.Classify | azuredevops.py:472-505 | both fields are always set, and nothing else changes |
| Classifier.ClassifyIdempotent | azuredevops.py:472-505 | classifying twice changes nothing more |
| Classifier.ProtectedIffChecks | azuredevops.py:478-481 | protected iff the check list is non-empty; missing checks give "unprotected" |
| Classifier.ChecksDecideProtection | azuredevops.py:447-481 | org-level resources end up unprotected; a fetched check list decides protection |
| Classifier.SeveralOwnersIffTwoDiffer | azuredevops.py:497-502 | more than one owner iff two permissions have different owners |
| Classifier.OwnersOfEncodedKeys | azuredevops.py:500-502 | two keys are cross-project by the permissions rule iff their projects differ |
| Classifier.PoolCrossProjectIffSeveralQueues | azuredevops.py:489-490 | a merged pool is cross-project iff it has more than one queue |
| Classifier.KProjectsRuleNeedsTheKey | azuredevops.py:485-505 | without a `k_projects` key the flag is decided by references, then queues, then permission owners, first match wins |
| Classifier.ClassifyAll | azuredevops.py:474-505 | the loop classifies each entry of a type |
| ReverseIndex.FindQueue | azuredevops.py:1389 | a pool's queue id names a queue of the list |
| ReverseIndex.Tagged | azuredevops.py:1396-1399 | every permission paired with every tag |
| ReverseIndex.PairKeys | azuredevops.py:1391-1399 | the keys of the recorded pairs, in order |
| ReverseIndex.Group | azuredevops.py:1391-1399 | the tags of a key are exactly those recorded for it |
| ReverseIndex.GroupMap | azuredevops.py:1383-1399 | the map has a key iff a pair names it, and maps it to its tags |
| ReverseIndex.InsertPairs | azuredevops.py:1391-1399 | the inner loop keeps the map and its key order describing the pairs read |
| ReverseIndex.InsertOne | azuredevops.py:1391-1399 | appending one pair keeps the map and its key order describing the pairs read, a new key getting its list first |
| ReverseIndex.BuildDefinitionsMap | azuredevops.py:1383-1399 | the first loop fails exactly when some resource lacks a list it reads; otherwise it builds the grouped map in insertion order |
| ReverseIndex.PairsErrPersists | azuredevops.py:1385-1399 | a failure on a prefix of the inventory is the failure of the whole loop |
| ReverseIndex.FirstWithKey | azuredevops.py:1403 | `next(...)` finds the first definition with the key, or none |
| ReverseIndex.FirstWithKeyReadsKeys | azuredevops.py:1403 | the lookup reads keys only |
| ReverseIndex.AddTag | azuredevops.py:1410-1413 | one id is recorded under its type once, and per-type lists stay duplicate-free |
| ReverseIndex.AddTagsOk | azuredevops.py:1408-1409 | recording fails exactly on an undecodable tag |
| ReverseIndex.AddTagsHolds | azuredevops.py:1408-1413 | recording records the decoded type and id of every tag, and nothing else |
| ReverseIndex.AddTagsNoDup | azuredevops.py:1412-1413 | per-type id lists stay duplicate-free |
| ReverseIndex.ApplyKeysSpec | azuredevops.py:1402-1413 | with distinct keys and decodable tags the second loop succeeds and each definition is as `Recorded` says |
| ReverseIndex.QueueTagsSpec | azuredevops.py:1389-1394 | a pool records `pool_merged` and `queue` tags for every permission of each of its queues |
| ReverseIndex.PairsOk | azuredevops.py:1385-1399 | the pairs exist exactly when every resource carries the lists the index reads |
| ReverseIndex.PairsMember | azuredevops.py:1385-1399 | a pair is recorded iff some entry contributes it |
| ReverseIndex.EncodedTagDecodes | azuredevops.py:1399-1409 | every tag of the form `"<kind>_<id>"` decodes |
| ReverseIndex.PairsDecode | azuredevops.py:1393-1409 | every tag the inventory records decodes, so the `ValueError` path is unreachable |
| ReverseIndex.KeyOrderMember | azuredevops.py:1391-1402 | a key is in the map iff some entry records a tag for it |
| ReverseIndex.ApplyPrerequisites | azuredevops.py:1383-1413 | the map built by the first loop meets what the second loop needs |
| ReverseIndex.ReverseIndexOk | azuredevops.py:1381-1414 | the index fails exactly when some resource lacks a list it reads, and keeps the number of definitions |
| ReverseIndex.ReverseIndexAt | azuredevops.py:1402-1413 | each definition of the index is as `Recorded` says |
| ReverseIndex.ReverseIndexFrame | azuredevops.py:1402-1413 | only `resourcepermissions` changes, only on the first definition with a key that has tags, and its lists stay duplicate-free |
| ReverseIndex.ReverseIndexRecords | azuredevops.py:1402-1413 | the target definition holds exactly its old ids plus the decoded tags contributed for its key |
| ReverseIndex.GroupTags | azuredevops.py:1388-1399 | the tags grouped under a key decode to exactly the (type, id) that some resource contributes for it |
| ReverseIndex.ResourceRecordedOnDefinition | azuredevops.py:1395-1413 | a non-pool resource granting key K has its id under its type in the definition whose key is K |
| ReverseIndex.PoolRecordedOnDefinition | azuredevops.py:1388-1413 | a pool records its own id under `pool_merged` and the queue's id under `queue` for each queue permission |
| ReverseIndex.FindDefinition | azuredevops.py:1403 | the search computes `FirstWithKey` |
| ReverseIndex.RecordOn | azuredevops.py:1406-1413 | the loop over one key's tags computes `AddTags` |
| ReverseIndex.RecordTags | azuredevops.py:1402-1413 | the second loop computes `ApplyKeys` |
| ReverseIndex.EnrichBuildDefinitions | azuredevops.py:1381-1414 | `get_enriched_build_definitions` computes `ReverseIndex` |
| Commits.Chunks | azuredevops.py:270-272 | a served list comes in non-empty pages of at most `$top` items |
| Commits.CollectedChunks | azuredevops.py:212-272 | the stop rule reads every item of a list served in pages |
| Commits.CollectedStopsAt | azuredevops.py:222-271 | nothing after a short or empty page is read |
| Commits.CollectedFullPage | azuredevops.py:270-272 | going on past a full page adds that page's items |
| Commits.DeriveCommit | azuredevops.py:224-269 | the record copies the repository, project and e-mail fields; each flag is 0 or 1 and is 1 iff its names match or the pusher is the merge identity |
| Commits.DeriveAll | azuredevops.py:224-269 | one record per listed commit, in order |
| Commits.DeriveAllConcat | azuredevops.py:224-269 | deriving page by page is deriving the whole list |
| Commits.RepoRefOf | azuredevops.py:207-210 | reading a repository's project succeeds exactly on a repository entry |
| Commits.AllCommitsOk | azuredevops.py:206-210 | the call raises `KeyError('project')` exactly when some entry is not a repository |
| Commits.AllCommitsFrom | azuredevops.py:206-273 | every record comes from one of the repositories' own listings |
| Commits.AllCommitsErrPersists | azuredevops.py:206-210 | a failure on a prefix is the failure of the call |
| Commits.DerivePage | azuredevops.py:224-269 | the page loop computes `DeriveAll` |
| Commits.ReadCommitPages | azuredevops.py:211-272 | the `while True` loop derives the records of the pages the stop rule reads |
| Commits.CommitsPerRepository | azuredevops.py:195-273 | `get_commits_per_repository` computes `AllCommits` |
| Commits.TallyCounts | azuredevops.py:296-306 | `all` counts every pull request; each status counter counts the lower-cased matches; `other` counts the rest except empty statuses |
| Commits.TallyConcat | azuredevops.py:291-309 | tallying page by page is tallying the whole list |
| Commits.TallyPage | azuredevops.py:296-306 | the page loop adds the page's tally |
| Commits.PullRequestCounts | azuredevops.py:274-310 | `get_repository_pull_requests_count` tallies the pull requests the stop rule reads |
| Commits.StateOf | azuredevops.py:1367-1376 | "unknown" iff there is no last commit; "active" iff it is after now − 90 days; "stale" iff after now − 365 days and not active; "dormant" otherwise |
| Commits.AgeInDays | azuredevops.py:1364 | the age is the whole days between the last commit and now, rounded down |
| Commits.StateMatchesAge | azuredevops.py:1364-1374 | "active" iff the age is under 90 days; "dormant" iff it is at least 365 days |
| Commits.StateOnlyAges | azuredevops.py:1367-1376 | a later clock never gives a fresher state |
| Commits.ActivityOf | azuredevops.py:1360-1376 | the activity stats hold the dates, the age exactly when there is a last commit, the branch count, the pull-request counts and the state |
| Accounts.ServedProject | azuredevops.py:1522-1526 | the project name is the display name without the service suffix, stripped, or "" when the suffix is absent |
| Accounts.ServedProjectRoundTrip | azuredevops.py:1522-1526 | naming a build service after a project and reading it back gives the project |
| Accounts.AccountOf | azuredevops.py:1528-1531 | an account's id is `Build\` followed by the principal name, and its name is the display name |
| Accounts.BuildAccountsFromBuildUsers | azuredevops.py:1516-1532 | every account comes from a `Build`-domain user, and every such user gives one |
| Accounts.AllBuildServiceAccounts | azuredevops.py:1510-1532 | the loop computes `BuildAccounts` |
| Accounts.AccountNames | azuredevops.py:107 | the id-to-name table has exactly the accounts' ids |
| Accounts.AccountNamesLastWins | azuredevops.py:107 | the table gives an id the name of its last account |
| Committers.FindTally | azuredevops.py:150-152 | finds the row of a project, or reports that there is none |
| Committers.AccumulateProjects | azuredevops.py:148-159 | an entry's project table is the table of its commits |
| Committers.TallyPerCommitter | azuredevops.py:111-159 | a committer has an entry iff it has commits, and the entry depends on its commits alone |
| Committers.AccumulateCounts | azuredevops.py:133-146 | an entry counts every commit, and counts the merged pushes among them |
| Committers.AccumulateRepos | azuredevops.py:134-135 | an entry's repositories are each non-empty repository id of its commits, once |
| Committers.AccumulateAuthors | azuredevops.py:141-142 | an entry's authors are each non-empty author e-mail, once |
| Committers.AccumulatePushers | azuredevops.py:143-144 | an entry's pushers are each non-empty push e-mail, once |
| Committers.ProjectIds | azuredevops.py:185-187 | the project ids of the rows, in order |
| Committers.FindTallyUnique | azuredevops.py:150-152 | the row found is the first row of that project |
| Committers.BumpRow | azuredevops.py:150-159 | counting a commit changes its project's row and no other |
| Committers.AccumulateProjectIds | azuredevops.py:150-156 | there is a row for each non-empty project id, once |
| Committers.AccumulateProjectRow | azuredevops.py:150-157 | a project's row counts that project's commits, and there is a row iff the project has a commit |
| Committers.RowRepoIds | azuredevops.py:158-159 | a project's row holds that project's repository ids |
| Committers.ProjectRepoIdsNone | azuredevops.py:158-159 | a project without commits has no repository ids |
| Committers.ProjectRepoIdsSpec | azuredevops.py:158-159 | a project's repository ids are its commits' non-empty repository ids, once each |
| Committers.CountInProjectZero | azuredevops.py:157 | a project without commits counts none |
| Committers.MapPushersSpec | azuredevops.py:166-176 | the merge identity is dropped, and each other pusher is reported once, renamed when it is a known build account |
| Committers.CommitterCounts | azuredevops.py:111-146 | commits without a committer e-mail are ignored; `commitCount` and `prs_merged` count the committer's commits and merged pushes |
| Committers.CommitterDistinctCounts | azuredevops.py:162-163 | `repoCount` and `projectCount` are the numbers of distinct non-empty ids |
| Committers.EntryPushers | azuredevops.py:143-176 | the reported pushers are the commits' non-merge pushers, renamed |
| Committers.EntryUsesBuildAccount | azuredevops.py:171-180 | `usesBuildServiceAccount` is set iff some pusher starts with `Build\` and is a known account id |
| Committers.CommitterPushers | azuredevops.py:166-182 | a committer's reported pushers are its commits' pushers other than the merge identity, renamed |
| Committers.MineSpec | azuredevops.py:111-120 | a committer's commits are exactly those with its e-mail |
| Committers.CommitterProjectStats | azuredevops.py:184-191 | each `projectStats` row is one of the committer's projects, with that project's commit count and distinct repository count |
| Committers.StepEntry | azuredevops.py:132-159 | one commit read into its committer's entry computes `Step` |
| Committers.AddAuthor | azuredevops.py:141-142 | a non-empty author email is recorded once |
| Committers.StepPusher | azuredevops.py:143-146 | a non-empty push email is recorded once, and one equal to the merge identity counts a merged PR |
| Committers.ReportPushers | azuredevops.py:166-180 | the pusher loop computes the reported list and the build-account flag |
| Committers.FinaliseEntry | azuredevops.py:161-193 | the second loop on one entry computes `Finalise` |
| Committers.CommitterStatsOf | azuredevops.py:93-194 | `get_committer_stats` computes `Stats` |
| Committers.AccountTable | azuredevops.py:107 | the table maps each account id to its name, the last account winning |
| Committers.TallyCommits | azuredevops.py:111-159 | the first pass computes `Tally`, one entry per non-empty committer email |
| Committers.FinaliseAll | azuredevops.py:161-193 | the second pass finalises every entry and no other |
| Committers.RepoEmailsSpec | azuredevops.py:69-79 | a repository's e-mail list has one e-mail per counted commit, and holds exactly the committer e-mails of its counted commits |
| Committers.SummarySpec | azuredevops.py:62-92 | `totalCommits` counts the commits that name the repository and have a committer e-mail; `uniqueCommitters` is sorted, distinct and holds exactly their e-mails; `count` is its length; a repository without such commits gets 0, 0, `[]` |
| Committers.WithCommitters | azuredevops.py:85-91 | a repository gets its committer summary and keeps its other stats; other entries are unchanged |
| Committers.EnrichedRepositories | azuredevops.py:81-92 | each entry gets the summary of its own id |
| Committers.RepoEmailsStep | azuredevops.py:69-79 | reading one more commit extends the e-mails of its repository only |
| Committers.TallyStepAt | azuredevops.py:74-79 | a counted commit updates the two dictionaries for its repository only |
| Committers.TallyStateStep | azuredevops.py:74-79 | a counted commit keeps the dictionaries describing the commits read |
| Committers.TallyStateSkip | azuredevops.py:72-73 | a commit without repository id or committer e-mail changes nothing |
| Committers.TallyRepositories | azuredevops.py:67-79 | the first loop leaves the dictionaries describing all the commits |
| Committers.EnrichRepositoriesWithCommitters | azuredevops.py:62-92 | `enrich_repositories_with_committer_stats` computes `EnrichedRepositories` |
| ProjectCounts.InProject | azuredevops.py:1142 | an empty k_project is not in the project; an org-scoped one raises `KeyError('id')`; a reference is in iff its id matches |
| ProjectCounts.CountOwned | azuredevops.py:1140-1174 | a count succeeds iff no k_project is org-scoped, then counts the entries of the project; a failure is `KeyError('id')` |
| ProjectCounts.DefinitionProjects | azuredevops.py:1141-1142 | the definitions' k_projects, in order |
| ProjectCounts.BuildProjects | azuredevops.py:1146-1147 | the builds' k_projects, in order |
| ProjectCounts.ResourceProjects | azuredevops.py:1156-1169 | the entries' k_projects, in order |
| ProjectCounts.CommitProjects | azuredevops.py:1172-1173 | the commits' k_projects, in order |
| ProjectCounts.CountShared | azuredevops.py:1149-1154 | the endpoint count is the number of endpoints with a project reference to the project |
| ProjectCounts.CountsOf | azuredevops.py:1137-1181 | one project's counts succeed iff no counted k_project is org-scoped; a failure is `KeyError('id')` |
| ProjectCounts.EnrichedStats | azuredevops.py:1132-1184 | the stats succeed iff there is no project or every counted list is readable; they then hold each project's counts |
| ProjectCounts.CommittersAtMostCommits | azuredevops.py:1171-1181 | a project never has more distinct committers than commits |
| ProjectCounts.CommittersAtMostOwned | azuredevops.py:1171-1181 | the distinct committer e-mails of a project are at most its commits |
| ProjectCounts.EnrichedFromCounts | azuredevops.py:1135-1184 | counts gathered for every project are the enriched stats |
| ProjectCounts.EnrichStats | azuredevops.py:1132-1184 | the loop over the projects computes `EnrichedStats` |
| Inventories.TypesListed | scan.py:31-71 | every resource type is in the starter inventory |
| Inventories.StarterLevel | scan.py:31-71 | only pools have level "org" |
| Inventories.ReshapedKeeps | azuredevops.py:517-639 | a pass that keeps each entry's id and queues keeps ids distinct and pools linked |
| Inventories.ListingStep | azuredevops.py:1298-1342 | one listing, or a failed request, keeps every type present |
| Inventories.CrawlTypes | azuredevops.py:1286-1342 | one project's listings keep every type present |
| Inventories.CrawlAll | azuredevops.py:1284-1342 | the discovery loop keeps every type present |
| Inventories.CrawlTypesGrows | azuredevops.py:1286-1337 | one project's listings keep the earlier entries as a prefix and keep ids distinct |
| Inventories.CrawlAllGrows | azuredevops.py:1284-1337 | discovery keeps the earlier entries as a prefix and keeps ids distinct |
| Inventories.CrawlTypesAddsListed | azuredevops.py:1298-1336 | an entry a project adds comes from that project's listing of its type |
| Inventories.CrawlAllAddsListed | azuredevops.py:1284-1336 | every discovered entry is the enrichment of an entry of some project's listing |
| Inventories.MergedPools | azuredevops.py:1345 | the pool list merged with the queue list, pool by pool |
| Inventories.MergedPoolsLinked | azuredevops.py:1345 | after the merge every queue a pool holds is a listed queue |
| Inventories.MergedPoolsDistinct | azuredevops.py:1345 | the merge keeps pool ids distinct |
| Inventories.WithActivity | azuredevops.py:1353-1376 | a repository gets its branches and fresh activity stats and keeps everything else; other entries are unchanged |
| Inventories.WithActivities | azuredevops.py:1353-1376 | each repository gets the activity of its own fetches |
| Inventories.CheckedList | azuredevops.py:440-465 | each entry gets its checks at its type's starter level |
| Inventories.ClassifiedList | azuredevops.py:473-505 | each entry is classified |
| Inventories.ResolvedList | azuredevops.py:518-639 | a type's entries resolve iff each does, each into its own result |
| Inventories.ResolvedLists | azuredevops.py:517-639 | resolved types hold their resolved lists, and the others are unchanged |
| Inventories.ResolvedListsFails | azuredevops.py:517-639 | resolution fails iff some type's list fails |
| Inventories.ResolvedListsReshape | azuredevops.py:517-639 | resolution keeps every entry's id and queues |
| Inventories.Tagged | azuredevops.py:1386-1388 | each entry paired with its type |
| Inventories.EntriesOfTyped | azuredevops.py:1385-1387 | each `(resourceType, resource)` is an entry of that type's list |
| Inventories.EntriesLinked | azuredevops.py:1388-1390 | in a linked inventory every queue a pool holds is listed, as the reverse index needs |
| Inventories.FirstFailure | azuredevops.py:517-639 | the first failing resource ends the scan with its own error |
| Inventories.CollectPrefixFails | azuredevops.py:518-639 | a failure after a resolved prefix is the failure of the list, with that entry's error |
| Inventories.ResolvedListsErrPersists | azuredevops.py:517-639 | a failure on a prefix of the types is the failure of resolution |
| Inventories.ResolveOne | azuredevops.py:521-610 | the per-type dispatch computes `Resolve` |
| Inventories.Inventory.Starter | scan.py:31-71 | every type is present and nothing is discovered |
| Inventories.Inventory.AddListing | azuredevops.py:1298-1342 | the new state is one listing appended to its type, and the invariant holds |
| Inventories.Inventory.Discover | azuredevops.py:1284-1342 | the new state is `CrawlAll` of the old state |
| Inventories.Inventory.MergePools | azuredevops.py:1344-1350 | only the pool list changes, to the merged pools, and the inventory is linked afterwards |
| Inventories.Inventory.RecordActivity | azuredevops.py:1352-1376 | only the repository list changes, to the repositories with their activity |
| Inventories.Inventory.AttachChecks | azuredevops.py:438-468 | each type's list gets its checks |
| Inventories.Inventory.ResolvePermissions | azuredevops.py:512-641 | on success the inventory holds every list resolved; on failure the error is returned and the inventory is unchanged |
| Inventories.ResolveAll | azuredevops.py:517-639 | the loop over the types computes `ResolvedLists`, stopping at the first failure |
| Inventories.ResolveList | azuredevops.py:518-639 | the loop over one type's resources computes `ResolvedList`, stopping at the first failure |
| Inventories.Inventory.Classify | azuredevops.py:472-507 | each type's list is classified |
| Inventories.Inventory.EnrichDefinitions | azuredevops.py:1381-1414 | the definitions are enriched with the reverse index of this inventory |
| Inventories.Inventory.EnrichRepositories | azuredevops.py:62-92 | only the repository list changes, to the repositories with their committer summaries |
| Inventories.Inventory.ProjectResourceCounts | azuredevops.py:1132-1184 | the per-project counts of this inventory's lists |
| Scan.ValidateScanParams | scan.py:20-25 | the call passes iff organization, job id and token are all non-empty; otherwise the first missing one raises its `ValueError` |
| Scan.SafeJobId | scan.py:231 | the sanitised id has the same length, keeps every `[A-Za-z0-9_-]` character and replaces every other with `_` |
| Scan.SafeJobIdAllowed | scan.py:231 | the sanitised id holds only allowed characters |
| Scan.SafeJobIdFixed | scan.py:231 | an id of allowed characters is left as it is |
| Scan.SafeJobIdIdempotent | scan.py:231 | sanitising twice changes nothing more |
| Scan.SafeJobIdNotInjective | scan.py:231 | two different job ids, "a.b" and "a_b", get the same file name |
| Scan.OutputFileName | scan.py:231-232 | the file name is `scan_`, the sanitised id, then `.json` |
| Scan.OutputFileNameStaysInDirectory | scan.py:231-232 | the file name holds no path separator |
| Scan.Divisor | scan.py:272-277 | each unit's divisor is positive |
| Scan.SizeUnit | scan.py:271-279 | B below 1024, KB below 1024², MB below 1024³, GB otherwise |
| Scan.SizeUnitScales | scan.py:271-279 | the chosen unit leaves a scaled size of at least 1, and under 1024 below GB |
| Scan.FormatBytes | scan.py:278-279 | below 1024 bytes the size is the integer followed by " B" |
| Scan.ProjectFilter | scan.py:297 | an absent or empty argument gives `[]`; otherwise one name per comma-separated part |
| Scan.ProjectFilterParts | scan.py:297 | a given filter has one name more than it has commas, and each name holds no comma and no surrounding whitespace |
| Scan.ProjectFilterRoundTrip | scan.py:297 | joining stripped, comma-free names with commas and splitting again gives the names back |
| Seqs.Dedup | azuredevops.py:633-635 | de-duplication keeps exactly the elements, once each |
| Seqs.DedupFirstOccurrenceOrder | azuredevops.py:1193-1194 | de-duplication keeps first-occurrence order |
| Text.SplitJoin | scan.py:297 | splitting joined separator-free parts gives the parts back |
| Text.SplitCount | scan.py:297 | `split` gives one part more than there are separators |
| Text.StripIdempotent | scan.py:297 | stripping twice changes nothing more |
| Text.RSplitOnce | azuredevops.py:1409 | `rsplit(sep, 1)` splits at the last separator, or fails when there is none |
| Text.SortStringsSpec | azuredevops.py:84 | sorting distinct strings gives an ascending permutation |
| Text.Lower | azuredevops.py:297 | no capital letter is left, each capital becomes its small letter, and every other character is kept |
| Text.LowerIdempotent | azuredevops.py:297 | lower-casing a lower-cased status changes nothing |

## Left out

- HTTP transport: every request is a parameter, and `fetch_data` returning `None` on an HTTP error is the `Missing` answer.
- Clocks: `datetime.now`/`utcnow` are a caller-supplied `now`. The two separate reads of the clock in the activity pass are one value. ISO date parsing and formatting are out, and dates are integer seconds.
- The project table and the organization name are inputs. `get_projects` and the token encoding are not modelled.
- Printing and logging are out. The scope warning on an endpoint reference is a datatype value, not its message text.
- Secret scanning, YAML parsing, build previews and metrics (`get_builds_per_definition_per_project`, `get_enriched_build_with_log_secret_scan`, `scan_text_gitleaks`, `scan_string_with_regex`, `parse_pipeline_yaml`, `get_project_language_metrics`, `get_task_list`): not part of this core.
- The branch listing (`get_repository_branches`) is a parameter giving branch names. The full branch records are not kept.
- Python sets iterate in hash order. `list(set(...))` is modelled as first-occurrence de-duplication. Contracts that read such lists speak of contents and absence of duplicates, not of order.
- Dict key order of the statistics: `get_enriched_stats` iterates the keys of `stats`, modelled as a set of project ids. Only `resource_counts` is modelled; other keys of `stats` are left out.
- Resolver.ResolveResource: on an "all pipelines" answer for a repository or a project-level resource, it grants the project's definition keys. The code as written raises there, which aborts the scan for a repository and drops the grant otherwise; `Resolver.GrantedAsWritten` and `Resolver.AllPipelinesCounterexample` model that behaviour.
- Inventories.Inventory.ResolvePermissions: uses the corrected grant of `Resolver.ResolveResource`, so a scan that the code as written aborts, or that loses a grant, ends here with that grant recorded.
- Inventories.Inventory.ResolvePermissions: on a failure the source has already updated some entries in place before the exception escapes; the model returns the error and leaves the inventory unchanged, because the scan aborts on that exception and the partial state is never read.
- Inventories.Inventory.MergePools: the source wraps the merge in a `try`, but the model's merge cannot fail, so the `except` branch is not modelled.
- Committers.WithCommitters: a non-repository entry is returned unchanged, where the source would create an empty `stats` on it; only repository entries are passed in.
- Inventories.WithActivity: a non-repository entry is returned unchanged; only repository entries are passed in.
- `get_repository_pull_requests_count` swallows every exception. The model's tally cannot fail, so the handler is not modelled.
- `str.lower` is modelled for ASCII letters only. Unicode case mapping is out.
- Scan.FormatBytes: covers sizes below 1024 bytes only. Larger sizes print a float with two decimals, which the model does not produce; `Scan.SizeUnit` models only the unit chosen for them.
- scan.py's monitor thread, file write, directory creation, argparse, `sys.exit` and the `AZURE_DEVOPS_PAT` fallback are left out. `scan_azdevops`'s orchestration is the sequence of `Inventory` methods.
- `get_k_shared_from_endpoint`'s request is a parameter. Its `except` branch is the failed-lookup value.

## Findings

| source | as written | input that shows it | evidently intended | confidence | as-written member | corrected member |
|---|---|---|---|---|---|---|
| azuredevops.py:576, 628 | the repository and generic branches filter `all_definitions` with `definition_id.startswith(project)`, but scan.py passes definition records (dicts), so an "all pipelines" answer raises `AttributeError`; the generic branch swallows it and grants nothing, the repository branch aborts the scan | one definition with key "P_1" of project "P" and an "all pipelines" answer from project "P" | grant the keys of the project's definitions, as the endpoint branch does at line 532 | not executed | Resolver.AllPipelinesCounterexample | Resolver.RepositoryStepSpec |
| azuredevops.py:628 | the generic branch as written records nothing for "all pipelines" while definitions exist | the same input, for a variable group | the resource's list holds every definition key of the project | not executed | Resolver.GrantedAsWritten | Resolver.GenericFoldSpec |
