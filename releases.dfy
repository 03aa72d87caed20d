/**
 * Release resolution: the releases whose tag satisfies the target range,
 * the highest of them under `semver.compareBuild`, and `doRelease`, which
 * takes the file from the release's assets or else from the first layer of
 * the container image tagged like the release.
 */
module Releases {
  import opened Types
  import opened Seqs
  import opened Extract

  /**
   * compareBuild is a total preorder: its sign flips with its arguments and
   * "orders before or with" is transitive.
   */
  ghost predicate IsTotalPreorder(cmp: (string, string) -> int)
  {
    && (forall a, b :: cmp(a, b) > 0 <==> cmp(b, a) < 0)
    && (forall a, b, c :: cmp(a, b) <= 0 && cmp(b, c) <= 0 ==> cmp(a, c) <= 0)
  }

  /** The filter `r => semver.satisfies(r.tag_name, target, {includePrerelease})`. */
  function Satisfies(sv: Semver, range: string, prereleases: bool): Release -> bool
  {
    (r: Release) => sv.satisfies(r.tag, range, prereleases)
  }

  /**
   * The index `.sort((a, b) => compareBuild(b.tag, a.tag))[0]` picks: the
   * first release that no later one beats. The sort is stable, so among
   * releases that compare equal the one listed first comes first.
   */
  function HighestIndex(s: seq<Release>, cmp: (string, string) -> int): (i: nat)
    requires s != []
    ensures i < |s|
  {
    if |s| == 1 then 0
    else
      var j := 1 + HighestIndex(s[1..], cmp);
      if cmp(s[j].tag, s[0].tag) > 0 then j else 0
  }

  /** No release compares strictly greater than the chosen one, and every release before it compares strictly less. */
  lemma {:induction false} HighestIndexIsFirstMaximum(s: seq<Release>, cmp: (string, string) -> int)
    requires s != []
    requires IsTotalPreorder(cmp)
    ensures var i := HighestIndex(s, cmp);
      && (forall j :: 0 <= j < |s| ==> cmp(s[j].tag, s[i].tag) <= 0)
      && (forall j :: 0 <= j < i ==> cmp(s[j].tag, s[i].tag) < 0)
  {
    if |s| > 1 {
      HighestIndexIsFirstMaximum(s[1..], cmp);
      var j := 1 + HighestIndex(s[1..], cmp);
      assert forall k :: 1 <= k < |s| ==> s[k] == s[1..][k - 1];
      assert cmp(s[0].tag, s[0].tag) == 0 by {
        assert cmp(s[0].tag, s[0].tag) > 0 <==> cmp(s[0].tag, s[0].tag) < 0;
      }
    }
  }

  /** The release the action resolves the target to, if any satisfies the range. */
  function SelectRelease(releases: seq<Release>, range: string, prereleases: bool, sv: Semver): (r: Option<Release>)
  {
    var candidates := Filter(releases, Satisfies(sv, range, prereleases));
    if candidates == [] then None else Some(candidates[HighestIndex(candidates, sv.compareBuild)])
  }

  /**
   * A release is selected exactly when one satisfies the range; the selected
   * one satisfies it, is listed, and no satisfying release compares strictly
   * greater under compareBuild (ties go to the first listed, as
   * HighestIndexIsFirstMaximum states of the satisfying releases).
   */
  lemma SelectReleaseIsHighest(releases: seq<Release>, range: string, prereleases: bool, sv: Semver)
    requires IsTotalPreorder(sv.compareBuild)
    ensures var r := SelectRelease(releases, range, prereleases, sv);
      && (r.None? <==> forall i :: 0 <= i < |releases| ==> !sv.satisfies(releases[i].tag, range, prereleases))
      && (r.Some? ==>
            && r.value in releases
            && sv.satisfies(r.value.tag, range, prereleases)
            && forall x :: x in releases && sv.satisfies(x.tag, range, prereleases)
                 ==> sv.compareBuild(x.tag, r.value.tag) <= 0)
  {
    var p := Satisfies(sv, range, prereleases);
    var candidates := Filter(releases, p);
    forall x ensures x in candidates <==> x in releases && sv.satisfies(x.tag, range, prereleases) {
      FilterMembership(releases, p, x);
    }
    if candidates == [] {
      forall i | 0 <= i < |releases| ensures !sv.satisfies(releases[i].tag, range, prereleases) {
        assert releases[i] !in candidates;
      }
    } else {
      assert candidates[0] in releases;
      HighestIndexIsFirstMaximum(candidates, sv.compareBuild);
      var h := candidates[HighestIndex(candidates, sv.compareBuild)];
      assert h in candidates;
      forall x | x in releases && sv.satisfies(x.tag, range, prereleases)
        ensures sv.compareBuild(x.tag, h.tag) <= 0
      {
        assert x in candidates;
        var j :| 0 <= j < |candidates| && candidates[j] == x;
      }
    }
  }

  const NO_ASSET_PREFIX := "No matching file found in resolved relrease "
  const NOT_IN_PACKAGE_PREFIX := "Failed to find matching file in assets or package for release "

  /**
   * What the tar scan of a layer leaves behind: the first matching entry
   * wins (a stream error after it is the deliberate abort and is ignored);
   * without a match, a stream error is rethrown, and a clean end is a hard error.
   */
  function LayerOutcome(blob: TarBlob, fileMatches: string -> bool, tag: string): Result<Extraction>
  {
    var j := FirstIndex(blob.entries, PathMatches(fileMatches));
    if j < |blob.entries| then Ok(Extraction([blob.entries[j]], blob.entries[j].path))
    else if blob.error.Some? then Err(Fatal(blob.error.value))
    else Err(Fatal(NOT_IN_PACKAGE_PREFIX + tag))
  }

  /**
   * What `doRelease(release)` leaves behind: the first asset whose name
   * matches; with none and no container package configured, a hard error;
   * otherwise the outcome of the layer scan, or the failure of fetching it.
   */
  function ReleaseOutcome(release: Release, cfg: Config, h: Hosting): Result<Extraction>
  {
    var i := FirstIndex(release.assets, NameMatches(cfg.fileMatches));
    if i < |release.assets| then
      var a := release.assets[i];
      Ok(Extraction([Entry(a.name, h.download(a.url))], a.name))
    else if cfg.containerPackage == "" then Err(Fatal(NO_ASSET_PREFIX + release.tag))
    else
      match h.layerBlob(cfg.containerPackage, release.tag)
      case FetchFailed(m) => Err(Fatal(m))
      case Fetched(blob) => LayerOutcome(blob, cfg.fileMatches, release.tag)
  }

  /**
   * A release either fails hard (never softly) or writes exactly one file,
   * whose name matches and which becomes `downloaded-file`.
   */
  lemma ReleaseOutcomeShape(release: Release, cfg: Config, h: Hosting)
    ensures var r := ReleaseOutcome(release, cfg, h);
      && (r.Err? ==> r.failure.Fatal?)
      && (r.Ok? ==> |r.value.written| == 1 && r.value.downloaded == r.value.written[0].path
                    && cfg.fileMatches(r.value.downloaded))
  {
  }

  /**
   * Assets take priority over the container package: when an asset
   * matches, the registry is never consulted, and the first matching asset
   * is the one saved.
   */
  lemma AssetsBeforePackage(release: Release, cfg: Config, h: Hosting, registry: (string, string) -> Fetch<TarBlob>, k: nat)
    requires k < |release.assets| && cfg.fileMatches(release.assets[k].name)
    ensures ReleaseOutcome(release, cfg, h) == ReleaseOutcome(release, cfg, h.(layerBlob := registry))
    ensures var i := FirstIndex(release.assets, NameMatches(cfg.fileMatches));
      && i <= k
      && ReleaseOutcome(release, cfg, h).Ok?
      && ReleaseOutcome(release, cfg, h).value.downloaded == release.assets[i].name
  {
  }

  /**
   * Once a matching entry has been seen, how the stream ends does not
   * matter: the error tar raises on the deliberate abort (or any later one)
   * never fails the release.
   */
  lemma StreamErrorAfterMatchIgnored(blob: TarBlob, fileMatches: string -> bool, tag: string, error: Option<string>, k: nat)
    requires k < |blob.entries| && fileMatches(blob.entries[k].path)
    ensures LayerOutcome(blob, fileMatches, tag) == LayerOutcome(blob.(error := error), fileMatches, tag)
    ensures LayerOutcome(blob, fileMatches, tag).Ok?
  {
  }

  /** Without a matching entry, a stream error is what the release fails with. */
  lemma StreamErrorBeforeMatchRethrown(blob: TarBlob, fileMatches: string -> bool, tag: string)
    requires forall j :: 0 <= j < |blob.entries| ==> !fileMatches(blob.entries[j].path)
    ensures LayerOutcome(blob, fileMatches, tag)
            == if blob.error.Some? then Err(Fatal(blob.error.value)) else Err(Fatal(NOT_IN_PACKAGE_PREFIX + tag))
  {
  }

  /**
   * `doRelease(release)`: the loop over the assets, then, failing that, the
   * container layer's tar stream with its `foundIt` flag.
   */
  method DoRelease(release: Release, cfg: Config, h: Hosting) returns (r: Result<Extraction>)
    ensures r == ReleaseOutcome(release, cfg, h)
  {
    var asset := SaveFirstAsset(release.assets, cfg.fileMatches, h.download);
    if asset.Some? {
      return Ok(Extraction([asset.value], asset.value.path));
    }
    if cfg.containerPackage == "" {
      return Err(Fatal(NO_ASSET_PREFIX + release.tag));
    }
    var layer := h.layerBlob(cfg.containerPackage, release.tag);
    if layer.FetchFailed? {
      return Err(Fatal(layer.message));
    }
    var saved, end := ScanLayer(layer.value, cfg.fileMatches);
    var foundIt := saved.Some?;
    if !end.Finished? && !foundIt {
      return Err(Fatal(end.message));
    }
    if !foundIt {
      return Err(Fatal(NOT_IN_PACKAGE_PREFIX + release.tag));
    }
    r := Ok(Extraction([saved.value], saved.value.path));
  }
}
