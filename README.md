# asset-artifact-download-action, decision core in Dafny

This project models how the `asset-artifact-download-action` GitHub Action (`main.mjs`) decides where a file comes from, and proves properties of that model. The action is given a `target`, which is a semver range, a branch or a commit. It looks for the highest release whose tag satisfies the range. From that release it takes the first asset whose name matches the `file` regex. Failing that, if `container-package` is set, it takes the first matching entry of the first layer of the container image tagged like the release; if it is not set, the step fails hard with `No matching file found in resolved relrease <tag>`. When no release satisfies the range and `artifact-name` is set, it falls back to the workflow artifacts at the commit the target names; when `artifact-name` is empty, it raises the soft `NothingFoundError` `No satisfying releases found and no artifact-name set`. The fallback:

- it finds the workflow runs at that commit, latest attempt first, leaving out its own run;
- if some of those runs are not completed, it either waits for them or retries at the first parent commit;
- it takes the first artifact named `artifact-name` across the runs;
- it writes every entry of that artifact's zip archive whose path matches.

A `NothingFoundError` fails the step only when `fail-on-missing-target` is set. Every other error always fails it.

The modules follow the program's structure:

| file | module | what it holds |
|---|---|---|
| `types.dfy` | `Types` | the entities: runs, artifacts, releases, archive entries, the inputs, and the hosting platform as data and functions |
| `seqs.dfy` | `Seqs` | page concatenation, filtering and first-match search, the collection idioms the action uses |
| `runs.dfy` | `WorkflowRuns` | `getLatestWorkflowRuns`: the stable sort by attempt and the self-filter |
| `artifacts.dfy` | `Artifacts` | the artifact collection loop |
| `extract.dfy` | `Extract` | the three extraction loops (zip, release assets, container layer tar) |
| `range.dfy` | `RangeRequest` | the `Range` header of the zip reader's ranged reads |
| `releases.dfy` | `Releases` | release selection and `doRelease` |
| `gitref.dfy` | `GitRef` | `doGitRef`: waiting, the first-parent walk, artifact selection |
| `action.dfy` | `Action` | the top level and its catch block |

The loops of the source are methods with loop invariants, and each is proved equal to a specification function. The lemmas are stated about those functions.

The remote collaborators are parameters of the model, not code:

- the listing endpoints, the branch and commit lookups, the downloads and the container registry (the `Hosting` record);
- the semver library (`Semver`);
- the `file` regex (`Config.fileMatches`).

Each listing is given page by page, and the model concatenates the pages the way the source does. Any lemma that needs an assumption about a collaborator states it as a precondition. For example, `compareBuild` must be a total preorder.

On the read size: for a ranged read at `offset` of `length` bytes, the header the code builds is `bytes=offset-(offset+length)`. Under section 14.1.2 of RFC 9110 the last byte position is inclusive, so that header selects `length + 1` bytes when they exist, not `length`. `RangeRequest.RangeReadSpan` states what is selected.

## Model

| member | source | states |
|---|---|---|
| Seqs.Concat | main.mjs:44-46 | concatenating the pages of a paginated listing yields the flattened listing; an item is in it iff it is on some page |
| Seqs.FlattenMembership | main.mjs:44-46 | an item is in the concatenation of pages iff it is on one of the pages |
| Seqs.FilterMembership | main.mjs:50 | an item survives a filter iff it was in the input and passes the predicate |
| Seqs.FilterPages | main.mjs:80-81 | filtering page by page and concatenating gives the filter of the whole listing |
| Seqs.FilterCommutes | main.mjs:47-50 | two filters applied in either order keep the same items in the same order |
| Seqs.FilterLast | main.mjs:108-114 | the last kept item is the input's last item that passes, and no later item passes |
| Seqs.FirstIndexIs | main.mjs:122-128 | the first index whose item passes is the one before which no item passes |
| WorkflowRuns.SortByAttempt | main.mjs:47 | the stable sort by descending `run_attempt`, written as an insertion sort over the listing; `SortByAttemptOrders` and `SortByAttemptIsStable` state its properties |
| WorkflowRuns.SortByAttemptOrders | main.mjs:47 | the sort by `b.run_attempt - a.run_attempt` leaves runs in non-increasing attempt order and is a permutation of the listing |
| WorkflowRuns.SortByAttemptIsStable | main.mjs:47 | runs with equal attempts keep their listing order through the sort |
| WorkflowRuns.InsertIsStable | main.mjs:47 | inserting a run into a sorted list keeps, among runs of each attempt, the inserted one last |
| WorkflowRuns.FilterKeepsOrder | main.mjs:47-50 | dropping runs from a list sorted by attempt leaves it sorted |
| WorkflowRuns.KeptRuns | main.mjs:47-50 | after sort and self-filter, a run is kept iff it was listed and is not the action's own run |
| WorkflowRuns.KeptRunsStable | main.mjs:47-50 | sort then self-filter keeps equal-attempt runs in their listing order |
| WorkflowRuns.LatestRuns | main.mjs:43-55 | the result of one `getLatestWorkflowRuns` call for a listing: the sorted runs minus the own run, or the `No workflows found for <ref>` error when none is left |
| WorkflowRuns.LatestRunsFailsWhenOnlySelf | main.mjs:50-53 | the call fails iff every listed run is the action's own, and then with the plain (fatal) error `No workflows found for <ref>` |
| WorkflowRuns.LatestRunsOrdered | main.mjs:43-55 | a successful result is sorted by attempt, stable on ties, holds no own run, and holds every other listed run |
| WorkflowRuns.LatestWorkflowRuns | main.mjs:43-56 | the method returns `LatestRuns` of the concatenated pages; on success the list is non-empty and free of the own run; failure is fatal |
| Artifacts.MatchingArtifacts | main.mjs:78-81 | the artifacts named `artifact-name`, run after run in run order, each run's in listing order |
| Artifacts.MatchingArtifactsMembership | main.mjs:78-81 | an artifact is collected iff it carries the name and is listed for one of the runs |
| Artifacts.NoneBefore | main.mjs:78-84 | runs without a matching artifact contribute nothing |
| Artifacts.FirstArtifactFromEarliestRun | main.mjs:79-92 | the artifact downloaded is the first match of the earliest run that has one |
| Artifacts.CollectArtifacts | main.mjs:78-81 | the nested collection loop yields `MatchingArtifacts`, every element carrying the name |
| Extract.ZipOutcome | main.mjs:106-118 | what the zip loop leaves behind: the matching entries written, the last one as `downloaded-file`, or the fatal `Failed to find file in artifact zipfile` |
| Extract.ZipOutcomeReportsLastMatch | main.mjs:106-118 | the zip loop writes exactly the matching entries, reports the last of them as `downloaded-file`, and fails with the fatal `Failed to find file in artifact zipfile` iff none matches |
| Extract.ExtractZip | main.mjs:106-118 | the loop with `foundIt` computes `ZipOutcome` |
| Extract.SaveFirstAsset | main.mjs:122-130 | the first asset whose name matches is saved under its name with its downloaded bytes; nothing is saved iff no asset matches |
| Extract.ScanLayer | main.mjs:140-156 | the tar handler saves the first matching entry and then aborts; with no match the stream ends as it ends (error or clean) |
| RangeRequest.Decimal | main.mjs:16 | a number prints as a non-empty string of decimal digits |
| RangeRequest.DecimalRoundTrip | main.mjs:16 | reading the printed digits back gives the number |
| RangeRequest.RangeEnd | main.mjs:88 | `length ? offset + length : ''`: the end position, present iff the length is present and non-zero |
| RangeRequest.RangeHeader | main.mjs:16 | the header value `bytes=<offset>-<end>`, with an empty end when there is none |
| RangeRequest.RangeHeaderRoundTrip | main.mjs:16 | the header carries the offset, and carries `offset + length` as its end exactly when `length` is truthy |
| RangeRequest.RangeReadSpan | main.mjs:87-88 | with a truthy length that fits, the header selects `length + 1` bytes; with a falsy length, everything from the offset on |
| Releases.HighestIndex | main.mjs:171 | the index that `sort((a, b) => compareBuild(b, a))[0]` picks: the first element no later one beats |
| Releases.SelectRelease | main.mjs:171 | the release `target_release` names: the highest release whose tag satisfies the range, or none |
| Releases.HighestIndexIsFirstMaximum | main.mjs:171 | the release `sort(compareBuild desc)[0]` picks compares at least as high as every candidate and strictly higher than each one listed before it |
| Releases.SelectReleaseIsHighest | main.mjs:171-173 | a release is selected iff one satisfies the range; it is listed, satisfies the range, and no satisfying release compares higher |
| Releases.LayerOutcome | main.mjs:140-162 | what the tar scan of the layer leaves behind: the first matching entry, else the stream's error, else `Failed to find matching file in assets or package for release <tag>` |
| Releases.ReleaseOutcome | main.mjs:121-162 | what `doRelease` leaves behind: the first matching asset, else `No matching file found in resolved relrease <tag>` without a package, else the registry failure or the layer outcome |
| Releases.ReleaseOutcomeShape | main.mjs:121-162 | a release either fails hard, never softly, or writes exactly one file, whose name matches and which becomes `downloaded-file` |
| Releases.AssetsBeforePackage | main.mjs:122-133 | when an asset matches, the registry is never consulted and the first matching asset is saved |
| Releases.StreamErrorAfterMatchIgnored | main.mjs:141-160 | once a matching entry is saved, a stream error (the deliberate abort) does not change the outcome, which is a success |
| Releases.StreamErrorBeforeMatchRethrown | main.mjs:154-162 | without a matching entry, a stream error is rethrown, and a clean end fails with `Failed to find matching file in assets or package for release <tag>` |
| Releases.DoRelease | main.mjs:121-163 | the asset loop, then the registry fetch and the tar scan with `foundIt`, compute `ReleaseOutcome` |
| GitRef.Resolved | main.mjs:59-76 | the run list at commit `at` after `k` extra polls: that listing, or `No parent commit for <at>` when it is still not ready; it is only applied at the commit where the walk stopped, which the contracts of `ResolveRuns` and `DoGitRef` place at a root whenever the listing there is not ready |
| GitRef.ResolvedFailuresAreFatal | main.mjs:59-72 | resolving the runs fails only hard: no runs left, or a root commit |
| GitRef.WaitForCompletion | main.mjs:62-67 | polling stops at the first listing whose runs have all completed, or at a listing error; every earlier listing was not ready |
| GitRef.ResolveRuns | main.mjs:58-76 | the commits tried are a prefix of the first-parent chain; each one before the last was not ready; waiting never walks to a parent; the walk stops at a commit whose runs have all completed or whose listing fails, and fails with `No parent commit for <ref>` only at a root |
| GitRef.FromRuns | main.mjs:78-118 | the artifact step once runs are resolved: the NothingFoundError `Failed to find artifact <name> with a ref <ref>`, or the zip outcome of the first matching artifact |
| GitRef.AfterResolution | main.mjs:58-119 | the outcome of `doGitRef`: a resolution error passes through, resolved runs go on to `FromRuns` |
| GitRef.GitRefOutcomeKinds | main.mjs:78-118 | the only soft failure of the artifact path is a missing artifact; a success comes from completed runs and is the zip extraction of the first matching artifact |
| GitRef.DoGitRef | main.mjs:58-119 | the commits tried are a prefix of the first-parent chain, each one before the last not ready; without waiting there is exactly one listing per commit and the walk stops before the root only at a commit whose runs have all completed or whose listing fails (`No workflows found for <ref>`); with waiting `waits` is the first ready poll (or the budget); the result is `AfterResolution` at the commit where it stopped |
| Action.Settle | main.mjs:184-192 | the step fails iff the error is not a `NothingFoundError` or fail-on-missing-target is set, with the error's message; in the model, an outcome without success leaves `downloaded-file` empty and nothing written |
| Action.StartRef | main.mjs:176-179 | the fallback starts at the branch head when the branch lookup succeeds, and at the target itself otherwise |
| Action.GitRefReport | main.mjs:180-192 | the report of the artifact fallback: still waiting when the poll budget ran out, otherwise the catch block applied to the `doGitRef` outcome |
| Action.RunAction | main.mjs:165-192 | a selected release decides the report through `doRelease`; with none and no artifact name, a soft failure; otherwise the artifact path from the start commit decides it, with the same walk and poll facts as `DoGitRef` (one listing per commit without waiting, the walk ends at a commit whose runs have all completed, at one whose listing fails, or at the root, waiting ends at the first ready poll or the budget) |
| Action.NoTargetFailsOnlyWhenRequired | main.mjs:173-188 | with no satisfying release and no artifact name, the step fails iff fail-on-missing-target is set, and produces no file |
| Action.ReleaseFailuresAreHard | main.mjs:182-192 | a resolved release that does not yield the file fails the step whatever fail-on-missing-target says; a passing one wrote one matching file |
| Action.GitRefPassesEmptyOnlyWhenArtifactMissing | main.mjs:180-192 | on the artifact path the step passes without a file iff fail-on-missing-target is off and the runs carry no artifact of that name; a run-resolution error always fails it |

## Left out

- Network and I/O: HTTP requests, pagination and authentication tokens. Every endpoint's answer is a parameter (`Hosting`).
- The listing calls can also fail with a network error. Only the registry fetches (`layerBlob`) model one.
- The `getCommit` lookup of a parent can fail, and that failure is not modelled. The first-parent chain is given.
- The forked child process and its IPC are not modelled. Only the `Range` header it sends is (`RangeRequest`).
- The `size` function, which issues a HEAD request for the content length, is not modelled.
- Zip central-directory parsing and tar parsing are not modelled. An archive is the sequence of entries its parser delivers.
- Writing a matching zip entry can fail (`pipeline` at main.mjs:110) after earlier matches were written and `downloaded-file` was set. The step then fails with those files on disk and the output set. Archives are given as complete entry lists, so the model does not capture this; it reports an extraction as all or nothing.
- Downloading a matching release asset can fail midway (main.mjs:125), leaving a partial file and failing the step. Downloads are total in the model, so this case is not captured.
- A tar stream can fail midway through a matching entry, before its `end` event. That writes a partial file, which is not modelled. The model writes nothing.
- The semver library and the `file` regex are oracles. Release selection assumes `compareBuild` is a total preorder.
- Files are written to the working directory in the source. Here they are the `written` list; two entries with the same path would overwrite each other on disk.
- Logging (`console.log`, `core.info`) is not modelled.
- Input parsing (`core.getInput`, required inputs) is not modelled.
- The coercion `Number(process.env.GITHUB_RUN_ID)` is not modelled. The own run id is an integer. If the variable were unset, the comparison would be against `NaN` and nothing would be filtered out.
- RangeRequest.Decimal: prints integers in plain decimal. JavaScript switches to exponent notation at 1e21, far beyond any archive offset.
- GitRef.WaitForCompletion: stops after a given number of polls, where the action polls without bound. The 5-second delay is not modelled.
- Action.RunAction: when the poll budget runs out, it reports `StillWaiting`. The action would still be polling, and the model claims nothing about whether that polling ends.
