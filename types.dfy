/**
 * The entities the action reads from the hosting platform and the values it
 * produces, with the remote collaborators abstracted as plain data and
 * functions (listing endpoints, downloads, the registry, semver, the regex).
 */
module Types {

  datatype Option<+T> = None | Some(value: T)

  /** The two kinds of exception the action tells apart at its top level. */
  datatype Failure =
    | NothingFound(message: string)  // NothingFoundError: fatal only with fail-on-missing-target
    | Fatal(message: string)         // any other Error: always fatal

  /** A value, or the exception that replaced it. */
  datatype Result<+T> = Ok(value: T) | Err(failure: Failure)

  /** The answer to a network request: a value, or the message of the error it was rejected with. */
  datatype Fetch<+T> = Fetched(value: T) | FetchFailed(message: string)

  newtype byte = x: int | 0 <= x < 256

  /** A workflow run as listed for a commit: its id, its retry attempt and its status. */
  datatype Run = Run(id: int, attempt: int, status: string)

  predicate Completed(r: Run) { r.status == "completed" }

  /** An artifact of a workflow run, with the URL of its zip archive. */
  datatype Artifact = Artifact(name: string, url: string)

  /** A file attached to a release, with its download URL. */
  datatype Asset = Asset(name: string, url: string)

  datatype Release = Release(tag: string, assets: seq<Asset>)

  /** An archive entry (zip or tar) or a file written to disk: a path and its bytes. */
  datatype Entry = Entry(path: string, data: seq<byte>)

  /**
   * The first layer of a container image as the tar parser sees it: the
   * entries it delivers in stream order, then the error the stream fails
   * with, if it fails after them.
   */
  datatype TarBlob = TarBlob(entries: seq<Entry>, error: Option<string>)

  /** What a successful extraction leaves behind: files written, in order, and the `downloaded-file` output. */
  datatype Extraction = Extraction(written: seq<Entry>, downloaded: string)

  /** The action's inputs. `fileMatches` stands for `path.match(file)` with the configured regex. */
  datatype Config = Config(
    fileMatches: string -> bool,
    target: string,
    prereleases: bool,
    artifactName: string,
    containerPackage: string,
    failOnMissingTarget: bool,
    waitForExactTarget: bool,
    runId: int)

  /**
   * The semver library: `satisfies(version, range, includePrerelease)` and
   * `compareBuild(a, b)`, negative, zero or positive as a orders before,
   * with or after b.
   */
  datatype Semver = Semver(
    satisfies: (string, string, bool) -> bool,
    compareBuild: (string, string) -> int)

  /**
   * The hosting platform, as the answers its endpoints give.
   *  - releasePages: listReleases, page by page;
   *  - branchHead(name): the commit of a branch, None when the lookup throws;
   *  - runPages(ref, k): listWorkflowRunsForRepo at head_sha = ref, on the k-th
   *    listing of that ref (0 is the first), page by page;
   *  - firstParents(ref): the first-parent chain of a commit, nearest first,
   *    empty at a root commit;
   *  - artifactPages(id): listWorkflowRunArtifacts of a run, page by page;
   *  - zipEntries(url): the entries of the zip archive at a URL, in directory order;
   *  - download(url): the bytes served for a release asset;
   *  - layerBlob(package, tag): token, manifest and first-layer blob fetches
   *    for an image tag, or the failure one of them raised.
   */
  datatype Hosting = Hosting(
    releasePages: seq<seq<Release>>,
    branchHead: string -> Option<string>,
    runPages: (string, nat) -> seq<seq<Run>>,
    firstParents: string -> seq<string>,
    artifactPages: int -> seq<seq<Artifact>>,
    zipEntries: string -> seq<Entry>,
    download: string -> seq<byte>,
    layerBlob: (string, string) -> Fetch<TarBlob>)
}
