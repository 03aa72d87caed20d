/**
 * `doGitRef(ref)`: find the runs at a commit; if some are not completed,
 * either poll until they all are or retry at the first parent (a root
 * commit is a hard error); then take the first artifact named
 * `artifact-name` across those runs and extract from its zip archive.
 */
module GitRef {
  import opened Types
  import opened Seqs
  import opened WorkflowRuns
  import opened Artifacts
  import opened Extract

  /** Every run's status is `completed`: the run set is ready. */
  predicate AllCompleted(runs: seq<Run>)
  {
    forall i :: 0 <= i < |runs| ==> Completed(runs[i])
  }

  /** What `getLatestWorkflowRuns(ref)` returns on its k-th call for that ref (0 is the first). */
  function Listing(h: Hosting, ref: string, k: nat, selfId: int): Result<seq<Run>>
  {
    LatestRuns(ref, Flatten(h.runPages(ref, k)), selfId)
  }

  /** A listing that came back with runs, some of them not completed. */
  predicate NotReady(l: Result<seq<Run>>)
  {
    l.Ok? && !AllCompleted(l.value)
  }

  /** The last commit looked at, where resolution settled. */
  function Settled(tried: seq<string>): string
    requires tried != []
  {
    tried[|tried| - 1]
  }

  const NO_PARENT_PREFIX := "No parent commit for "

  /**
   * Where resolution settles at `at` after `k` extra polls: the listing
   * itself, unless it is still not ready, which (since resolution stops
   * there) only happens at a root commit, a hard error.
   */
  function Resolved(h: Hosting, selfId: int, at: string, k: nat): Result<seq<Run>>
  {
    var l := Listing(h, at, k, selfId);
    if NotReady(l) then Err(Fatal(NO_PARENT_PREFIX + at)) else l
  }

  /** Resolution only ever fails hard: a missing run list is a plain Error, as is a root commit. */
  lemma ResolvedFailuresAreFatal(h: Hosting, selfId: int, at: string, k: nat)
    ensures Resolved(h, selfId, at, k).Err? ==> Resolved(h, selfId, at, k).failure.Fatal?
  {
  }

  /**
   * The `while` loop of `doGitRef` when waiting for the exact target: poll
   * again (after a delay) while some run of the latest listing is not
   * completed. `waits` counts the polls, one per "Waiting for workflows"
   * line; the loop gives up, with no result, after `budget` of them.
   */
  method WaitForCompletion(h: Hosting, ref: string, selfId: int, first: seq<Run>, budget: nat)
    returns (r: Option<Result<seq<Run>>>, waits: nat)
    requires Listing(h, ref, 0, selfId) == Ok(first)
    ensures waits <= budget
    ensures forall k :: 0 <= k < waits ==> NotReady(Listing(h, ref, k, selfId))
    ensures r.None? ==> waits == budget && NotReady(Listing(h, ref, budget, selfId))
    ensures r.Some? ==> r.value == Listing(h, ref, waits, selfId) && !NotReady(r.value)
  {
    var current: Result<seq<Run>> := Ok(first);
    waits := 0;
    while NotReady(current) && waits < budget
      invariant waits <= budget
      invariant current == Listing(h, ref, waits, selfId)
      invariant forall k :: 0 <= k < waits ==> NotReady(Listing(h, ref, k, selfId))
      decreases budget - waits
    {
      waits := waits + 1;
      // a failed listing throws out of the loop, as `await` rethrows it
      current := LatestWorkflowRuns(ref, h.runPages(ref, waits), selfId);
    }
    r := if NotReady(current) then None else Some(current);
  }

  /**
   * The first half of `doGitRef`, including its recursion on `parents[0]`:
   * `ancestors` is the first-parent chain of `ref`. `tried` lists the commits
   * looked at ("trying parent..."), and `waits` the polls at the last one.
   */
  method ResolveRuns(cfg: Config, h: Hosting, ref: string, ancestors: seq<string>, budget: nat)
    returns (r: Option<Result<seq<Run>>>, tried: seq<string>, waits: nat)
    decreases |ancestors|
    ensures 1 <= |tried| <= |ancestors| + 1 && tried == ([ref] + ancestors)[..|tried|]
    ensures waits <= budget
    ensures cfg.waitForExactTarget ==> tried == [ref]
    ensures !cfg.waitForExactTarget ==> waits == 0 && r.Some?
    ensures forall i :: 0 <= i < |tried| - 1 ==> NotReady(Listing(h, tried[i], 0, cfg.runId))
    ensures forall k :: 0 <= k < waits ==> NotReady(Listing(h, Settled(tried), k, cfg.runId))
    ensures r.None? ==> cfg.waitForExactTarget && waits == budget && NotReady(Listing(h, ref, budget, cfg.runId))
    ensures r.Some? ==> r.value == Resolved(h, cfg.runId, Settled(tried), waits)
    ensures r.Some? && NotReady(Listing(h, Settled(tried), waits, cfg.runId))
            ==> !cfg.waitForExactTarget && |tried| == |ancestors| + 1
  {
    var first := LatestWorkflowRuns(ref, h.runPages(ref, 0), cfg.runId);
    tried, waits := [ref], 0;
    if first.Err? {
      return Some(first), tried, waits;
    }
    if !AllCompleted(first.value) {
      if cfg.waitForExactTarget {
        r, waits := WaitForCompletion(h, ref, cfg.runId, first.value, budget);
        return;
      }
      if |ancestors| == 0 {
        return Some(Err(Fatal(NO_PARENT_PREFIX + ref))), tried, waits;
      }
      var above: seq<string>;
      r, above, waits := ResolveRuns(cfg, h, ancestors[0], ancestors[1..], budget);
      assert [ancestors[0]] + ancestors[1..] == ancestors;
      tried := [ref] + above;
      return;
    }
    r := Some(first);
  }

  /** The second half of `doGitRef` once the runs at `at` are resolved. */
  function FromRuns(runs: seq<Run>, at: string, cfg: Config, h: Hosting): Result<Extraction>
  {
    var artifacts := MatchingArtifacts(runs, h.artifactPages, cfg.artifactName);
    if artifacts == [] then Err(NothingFound("Failed to find artifact " + cfg.artifactName + " with a ref " + at))
    else ZipOutcome(h.zipEntries(artifacts[0].url), cfg.fileMatches)
  }

  function AfterResolution(res: Result<seq<Run>>, at: string, cfg: Config, h: Hosting): Result<Extraction>
  {
    match res
    case Err(f) => Err(f)
    case Ok(runs) => FromRuns(runs, at, cfg, h)
  }

  /**
   * The only soft failure of the git-ref path is a missing artifact; every
   * other failure is hard. A success comes from runs that have all
   * completed, and is the zip extraction of the first matching artifact.
   */
  lemma GitRefOutcomeKinds(h: Hosting, cfg: Config, at: string, k: nat)
    ensures var res := Resolved(h, cfg.runId, at, k);
      var out := AfterResolution(res, at, cfg, h);
      && ((out.Err? && out.failure.NothingFound?)
            <==> res.Ok? && MatchingArtifacts(res.value, h.artifactPages, cfg.artifactName) == [])
      && (out.Ok? ==>
            && res.Ok? && AllCompleted(res.value)
            && var artifacts := MatchingArtifacts(res.value, h.artifactPages, cfg.artifactName);
               artifacts != [] && out == ZipOutcome(h.zipEntries(artifacts[0].url), cfg.fileMatches))
  {
  }

  /**
   * `doGitRef(ref)`: resolve the runs, walking first parents when not
   * waiting, then collect the artifacts of those runs and extract from the
   * archive of the first one.
   */
  method DoGitRef(cfg: Config, h: Hosting, ref: string, budget: nat)
    returns (r: Option<Result<Extraction>>, tried: seq<string>, waits: nat)
    ensures 1 <= |tried| <= |h.firstParents(ref)| + 1 && tried == ([ref] + h.firstParents(ref))[..|tried|]
    ensures waits <= budget
    ensures cfg.waitForExactTarget ==> tried == [ref]
    ensures !cfg.waitForExactTarget ==> waits == 0 && r.Some?
    ensures forall i :: 0 <= i < |tried| - 1 ==> NotReady(Listing(h, tried[i], 0, cfg.runId))
    ensures forall k :: 0 <= k < waits ==> NotReady(Listing(h, Settled(tried), k, cfg.runId))
    ensures r.None? ==> cfg.waitForExactTarget && waits == budget && NotReady(Listing(h, ref, budget, cfg.runId))
    ensures r.Some? && cfg.waitForExactTarget ==> !NotReady(Listing(h, ref, waits, cfg.runId))
    ensures r.Some? && NotReady(Listing(h, Settled(tried), waits, cfg.runId))
            ==> !cfg.waitForExactTarget && |tried| == |h.firstParents(ref)| + 1
    ensures r.Some? ==>
      var at := Settled(tried);
      r.value == AfterResolution(Resolved(h, cfg.runId, at, waits), at, cfg, h)
  {
    var res: Option<Result<seq<Run>>>;
    res, tried, waits := ResolveRuns(cfg, h, ref, h.firstParents(ref), budget);
    if res.None? {
      return None, tried, waits;
    }
    if res.value.Err? {
      return Some(Err(res.value.failure)), tried, waits;
    }
    var at := Settled(tried);
    var artifacts := CollectArtifacts(res.value.value, h.artifactPages, cfg.artifactName);
    if |artifacts| == 0 {
      return Some(Err(NothingFound("Failed to find artifact " + cfg.artifactName + " with a ref " + at))), tried, waits;
    }
    var extracted := ExtractZip(h.zipEntries(artifacts[0].url), cfg.fileMatches);
    r := Some(extracted);
  }
}
