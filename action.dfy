/**
 * The action's top level: list the releases, pick the highest one that
 * satisfies `target`, and take the file from it; without one, fall back to
 * the workflow artifacts at the commit `target` names (a branch or a ref).
 * Every exception ends up in one catch block, which decides whether the
 * step fails.
 */
module Action {
  import opened Types
  import opened Seqs
  import opened Artifacts
  import opened Releases
  import opened GitRef

  /**
   * How the step ends: it passes, it fails with `core.setFailed(message)`,
   * or it is still polling for workflows to complete when the model's poll
   * budget runs out (the action itself would go on polling).
   */
  datatype Status = Passed | Failed(message: string) | StillWaiting

  /** The step's visible results: the `downloaded-file` output, the files written, and its status. */
  datatype Report = Report(downloadedFile: string, written: seq<Entry>, status: Status)

  /**
   * The catch block, with `downloaded-file` set to '' up front: a
   * NothingFoundError fails the step only with fail-on-missing-target, any
   * other error always does.
   */
  function Settle(outcome: Result<Extraction>, failOnMissingTarget: bool): (rep: Report)
    ensures rep.status.Failed? <==> outcome.Err? && (outcome.failure.Fatal? || failOnMissingTarget)
    ensures rep.status.Failed? ==> rep.status.message == outcome.failure.message
    ensures rep.status != StillWaiting
    ensures outcome.Err? ==> rep.downloadedFile == "" && rep.written == []
    ensures outcome.Ok? ==> rep.downloadedFile == outcome.value.downloaded && rep.written == outcome.value.written
  {
    match outcome
    case Ok(x) => Report(x.downloaded, x.written, Passed)
    case Err(NothingFound(m)) => Report("", [], if failOnMissingTarget then Failed(m) else Passed)
    case Err(Fatal(m)) => Report("", [], Failed(m))
  }

  const NO_RELEASE_NO_ARTIFACT := "No satisfying releases found and no artifact-name set"

  /** Which way the target was resolved. */
  datatype Route =
    | ViaRelease(release: Release)
    | ViaGitRef(tried: seq<string>, waits: nat)
    | NoTarget

  /** The commit the artifact fallback starts from: the head of the branch `target`, or `target` itself when that lookup fails. */
  function StartRef(cfg: Config, h: Hosting): (ref: string)
    ensures h.branchHead(cfg.target).None? ==> ref == cfg.target
    ensures h.branchHead(cfg.target).Some? ==> ref == h.branchHead(cfg.target).value
  {
    match h.branchHead(cfg.target)
    case Some(sha) => sha
    case None => cfg.target
  }

  /** The report of the artifact fallback, once resolution stopped at `tried` after `waits` polls. */
  function GitRefReport(cfg: Config, h: Hosting, tried: seq<string>, waits: nat, budget: nat): Report
    requires tried != []
  {
    if cfg.waitForExactTarget && waits == budget && NotReady(Listing(h, tried[0], budget, cfg.runId)) then
      Report("", [], StillWaiting)
    else
      var at := Settled(tried);
      Settle(AfterResolution(Resolved(h, cfg.runId, at, waits), at, cfg, h), cfg.failOnMissingTarget)
  }

  /**
   * One execution of the action against the hosting platform `h`, with at
   * most `pollBudget` polls while waiting for the exact target.
   */
  method RunAction(cfg: Config, sv: Semver, h: Hosting, pollBudget: nat) returns (report: Report, route: Route)
    ensures var sel := SelectRelease(Flatten(h.releasePages), cfg.target, cfg.prereleases, sv);
      && (sel.Some? ==>
            route == ViaRelease(sel.value) && report == Settle(ReleaseOutcome(sel.value, cfg, h), cfg.failOnMissingTarget))
      && (sel.None? && cfg.artifactName == "" ==>
            route == NoTarget && report == Settle(Err(NothingFound(NO_RELEASE_NO_ARTIFACT)), cfg.failOnMissingTarget))
      && (sel.None? && cfg.artifactName != "" ==>
            && route.ViaGitRef?
            && var start := StartRef(cfg, h);
               && 1 <= |route.tried| <= |h.firstParents(start)| + 1
               && route.tried == ([start] + h.firstParents(start))[..|route.tried|]
               && route.waits <= pollBudget
               && (cfg.waitForExactTarget ==> route.tried == [start])
               && (!cfg.waitForExactTarget ==> route.waits == 0 && report.status != StillWaiting)
               && (forall i :: 0 <= i < |route.tried| - 1 ==> NotReady(Listing(h, route.tried[i], 0, cfg.runId)))
               && (forall k :: 0 <= k < route.waits ==> NotReady(Listing(h, Settled(route.tried), k, cfg.runId)))
               && (NotReady(Listing(h, Settled(route.tried), route.waits, cfg.runId)) ==>
                     || (cfg.waitForExactTarget && route.waits == pollBudget && report.status == StillWaiting)
                     || (!cfg.waitForExactTarget && |route.tried| == |h.firstParents(start)| + 1))
               && report == GitRefReport(cfg, h, route.tried, route.waits, pollBudget))
  {
    var releases := Concat(h.releasePages);
    var candidates := Filter(releases, Satisfies(sv, cfg.target, cfg.prereleases));
    if candidates == [] {
      if cfg.artifactName == "" {
        return Settle(Err(NothingFound(NO_RELEASE_NO_ARTIFACT)), cfg.failOnMissingTarget), NoTarget;
      }
      var ref := StartRef(cfg, h);
      var outcome, tried, waits := DoGitRef(cfg, h, ref, pollBudget);
      route := ViaGitRef(tried, waits);
      if outcome.None? {
        return Report("", [], StillWaiting), route;
      }
      report := Settle(outcome.value, cfg.failOnMissingTarget);
      return;
    }
    var release := candidates[HighestIndex(candidates, sv.compareBuild)];
    var outcome := DoRelease(release, cfg, h);
    report := Settle(outcome, cfg.failOnMissingTarget);
    route := ViaRelease(release);
  }

  /**
   * When no release satisfies the target and no artifact name is set, the
   * step fails exactly when fail-on-missing-target is set, and never
   * produces a file.
   */
  lemma NoTargetFailsOnlyWhenRequired(failOnMissingTarget: bool)
    ensures var rep := Settle(Err(NothingFound(NO_RELEASE_NO_ARTIFACT)), failOnMissingTarget);
      && (rep.status.Failed? <==> failOnMissingTarget)
      && rep.downloadedFile == "" && rep.written == []
  {
  }

  /**
   * A release that was found but does not hold the file fails the step
   * whatever fail-on-missing-target says; a successful one passes with the
   * one file it wrote.
   */
  lemma ReleaseFailuresAreHard(release: Release, cfg: Config, h: Hosting)
    ensures var out := ReleaseOutcome(release, cfg, h);
      var rep := Settle(out, cfg.failOnMissingTarget);
      && (rep.status.Failed? <==> out.Err?)
      && (rep.status == Passed ==> |rep.written| == 1 && rep.downloadedFile == rep.written[0].path
                                   && cfg.fileMatches(rep.downloadedFile))
  {
  }

  /**
   * In the artifact fallback, the step passes without writing anything only
   * when fail-on-missing-target is off and the resolved runs carry no
   * artifact of that name; a missing workflow list or a root commit always
   * fails it.
   */
  lemma GitRefPassesEmptyOnlyWhenArtifactMissing(cfg: Config, h: Hosting, at: string, k: nat)
    ensures var res := Resolved(h, cfg.runId, at, k);
      var rep := Settle(AfterResolution(res, at, cfg, h), cfg.failOnMissingTarget);
      && ((rep.status == Passed && rep.written == [])
            <==> (!cfg.failOnMissingTarget && res.Ok?
                  && MatchingArtifacts(res.value, h.artifactPages, cfg.artifactName) == []))
      && (res.Err? ==> rep.status.Failed?)
  {
  }
}
