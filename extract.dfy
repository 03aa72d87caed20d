/**
 * The three extraction loops and their different match policies:
 *  - the artifact zip writes every entry whose path matches and reports the last;
 *  - release assets: the first asset whose name matches is saved, and the scan stops;
 *  - the container layer tar: the first matching entry is saved, then the
 *    stream is aborted on purpose.
 */
module Extract {
  import opened Types
  import opened Seqs

  /** The test `entry.path.match(file)`. */
  function PathMatches(fileMatches: string -> bool): Entry -> bool
  {
    (e: Entry) => fileMatches(e.path)
  }

  /** The test `asset.name.match(file)`. */
  function NameMatches(fileMatches: string -> bool): Asset -> bool
  {
    (a: Asset) => fileMatches(a.name)
  }

  const ZIP_MISSING := "Failed to find file in artifact zipfile"

  /** What the zip loop leaves behind for a directory listing `files`. */
  function ZipOutcome(files: seq<Entry>, fileMatches: string -> bool): Result<Extraction>
  {
    var written := Filter(files, PathMatches(fileMatches));
    if written == [] then Err(Fatal(ZIP_MISSING))
    else Ok(Extraction(written, written[|written| - 1].path))
  }

  /**
   * Zip extraction writes exactly the matching entries, in directory order,
   * reports the path of the last of them, and fails hard (not softly) when
   * none matches.
   */
  lemma ZipOutcomeReportsLastMatch(files: seq<Entry>, fileMatches: string -> bool)
    ensures var r := ZipOutcome(files, fileMatches);
      && (r.Ok? <==> exists i :: 0 <= i < |files| && fileMatches(files[i].path))
      && (r.Err? ==> r.failure == Fatal(ZIP_MISSING))
      && (r.Ok? ==>
            && (forall e :: e in r.value.written <==> e in files && fileMatches(e.path))
            && exists i :: 0 <= i < |files| && files[i].path == r.value.downloaded && fileMatches(files[i].path)
                 && forall j :: i < j < |files| ==> !fileMatches(files[j].path))
  {
    var p := PathMatches(fileMatches);
    var written := Filter(files, p);
    forall e ensures e in written <==> e in files && fileMatches(e.path) {
      FilterMembership(files, p, e);
    }
    if written == [] {
      forall i | 0 <= i < |files| ensures !fileMatches(files[i].path) {
        assert files[i] !in written;
      }
    } else {
      FilterLast(files, p);
      assert written[0] in files;
    }
  }

  /**
   * The loop over `directory.files` in `doGitRef`: every entry whose path
   * matches is written, becomes `downloaded-file`, and sets `foundIt`.
   */
  method ExtractZip(files: seq<Entry>, fileMatches: string -> bool) returns (r: Result<Extraction>)
    ensures r == ZipOutcome(files, fileMatches)
  {
    var written: seq<Entry> := [];
    var downloaded := "";
    var foundIt := false;
    for i := 0 to |files|
      invariant written == Filter(files[..i], PathMatches(fileMatches))
      invariant foundIt <==> written != []
      invariant foundIt ==> downloaded == written[|written| - 1].path
    {
      assert files[..i + 1][..i] == files[..i];
      if fileMatches(files[i].path) {
        written := written + [files[i]];
        downloaded := files[i].path;
        foundIt := true;
      }
    }
    assert files[..|files|] == files;
    if !foundIt {
      return Err(Fatal(ZIP_MISSING));
    }
    r := Ok(Extraction(written, downloaded));
  }

  /**
   * The loop over `release.assets` in `doRelease`: the first asset whose
   * name matches is downloaded and saved under its name, and the loop returns.
   */
  method SaveFirstAsset(assets: seq<Asset>, fileMatches: string -> bool, download: string -> seq<byte>)
    returns (saved: Option<Entry>)
    ensures var i := FirstIndex(assets, NameMatches(fileMatches));
      saved == if i < |assets| then Some(Entry(assets[i].name, download(assets[i].url))) else None
    ensures saved.None? <==> forall i :: 0 <= i < |assets| ==> !fileMatches(assets[i].name)
  {
    for i := 0 to |assets|
      invariant forall j :: 0 <= j < i ==> !fileMatches(assets[j].name)
    {
      if fileMatches(assets[i].name) {
        FirstIndexIs(assets, NameMatches(fileMatches), i);
        return Some(Entry(assets[i].name, download(assets[i].url)));
      }
    }
    FirstIndexIs(assets, NameMatches(fileMatches), |assets|);
    saved := None;
  }

  /**
   * How the `pipeline(blob, tarParser)` promise settles: the stream ran to
   * its end, broke with an error, or was aborted by the entry handler after
   * it saved a match (tar reports the abort as a stream error too).
   */
  datatype StreamEnd = Finished | Broken(message: string) | Aborted

  /**
   * The tar parser's "entry" handler over the first layer: an entry that
   * does not match is drained (`resume`); the first that matches is piped to
   * a file, and when it ends it becomes `downloaded-file`, sets `foundIt` and
   * aborts the parser, so no later entry is seen.
   */
  method ScanLayer(blob: TarBlob, fileMatches: string -> bool) returns (saved: Option<Entry>, end: StreamEnd)
    ensures var i := FirstIndex(blob.entries, PathMatches(fileMatches));
      saved == if i < |blob.entries| then Some(blob.entries[i]) else None
    ensures saved.Some? ==> end == Aborted
    ensures saved.None? ==> end == if blob.error.Some? then Broken(blob.error.value) else Finished
  {
    var foundIt := false;
    saved := None;
    var i := 0;
    while i < |blob.entries| && !foundIt
      invariant 0 <= i <= |blob.entries|
      invariant forall j :: 0 <= j < i && (!foundIt || j < i - 1) ==> !fileMatches(blob.entries[j].path)
      invariant foundIt ==> 0 < i && saved == Some(blob.entries[i - 1]) && fileMatches(blob.entries[i - 1].path)
      invariant !foundIt ==> saved.None?
    {
      var entry := blob.entries[i];
      if fileMatches(entry.path) {
        saved := Some(entry);
        foundIt := true;
      }
      i := i + 1;
    }
    if foundIt {
      FirstIndexIs(blob.entries, PathMatches(fileMatches), i - 1);
      end := Aborted;
    } else {
      FirstIndexIs(blob.entries, PathMatches(fileMatches), |blob.entries|);
      end := if blob.error.Some? then Broken(blob.error.value) else Finished;
    }
  }
}
