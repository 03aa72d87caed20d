/**
 * Collecting the artifacts named `artifact-name` across the resolved runs,
 * in run order (the loop over `listWorkflowRunArtifacts` in `doGitRef`).
 */
module Artifacts {
  import opened Types
  import opened Seqs

  /** The filter `a => a.name == artifactName`. */
  function Named(name: string): Artifact -> bool
  {
    (a: Artifact) => a.name == name
  }

  /** The artifacts of one run that carry the name, in listing order. */
  function MatchingInRun(run: Run, artifactPages: int -> seq<seq<Artifact>>, name: string): seq<Artifact>
  {
    Filter(Flatten(artifactPages(run.id)), Named(name))
  }

  /** The artifacts of every run that carry the name, run after run. */
  function MatchingArtifacts(runs: seq<Run>, artifactPages: int -> seq<seq<Artifact>>, name: string): seq<Artifact>
  {
    FlatMap(runs, InRun(artifactPages, name))
  }

  function InRun(artifactPages: int -> seq<seq<Artifact>>, name: string): Run -> seq<Artifact>
  {
    (run: Run) => MatchingInRun(run, artifactPages, name)
  }

  /** One more run appends that run's matches. */
  lemma MatchingArtifactsStep(runs: seq<Run>, i: nat, artifactPages: int -> seq<seq<Artifact>>, name: string)
    requires i < |runs|
    ensures MatchingArtifacts(runs[..i + 1], artifactPages, name)
            == MatchingArtifacts(runs[..i], artifactPages, name) + MatchingInRun(runs[i], artifactPages, name)
  {
    assert runs[..i + 1][..i] == runs[..i];
  }

  /** Every collected artifact carries the name and is listed for one of the runs, and every such artifact is collected. */
  lemma {:induction false} MatchingArtifactsMembership(runs: seq<Run>, artifactPages: int -> seq<seq<Artifact>>, name: string, a: Artifact)
    ensures a in MatchingArtifacts(runs, artifactPages, name)
            <==> a.name == name && exists i :: 0 <= i < |runs| && a in Flatten(artifactPages(runs[i].id))
  {
    if runs != [] {
      var init, last := runs[..|runs| - 1], runs[|runs| - 1];
      MatchingArtifactsMembership(init, artifactPages, name, a);
      assert forall i :: 0 <= i < |init| ==> init[i] == runs[i];
      var inLast := MatchingInRun(last, artifactPages, name);
      FilterMembership(Flatten(artifactPages(last.id)), Named(name), a);
    }
  }

  /**
   * The first collected artifact, the one whose archive is downloaded, is the
   * first matching artifact of the earliest run that has one: priority comes
   * from run order, not from artifact recency.
   */
  lemma FirstArtifactFromEarliestRun(runs: seq<Run>, artifactPages: int -> seq<seq<Artifact>>, name: string, i: nat)
    requires i < |runs|
    requires forall j :: 0 <= j < i ==> MatchingInRun(runs[j], artifactPages, name) == []
    requires MatchingInRun(runs[i], artifactPages, name) != []
    ensures MatchingArtifacts(runs, artifactPages, name) != []
    ensures MatchingArtifacts(runs, artifactPages, name)[0] == MatchingInRun(runs[i], artifactPages, name)[0]
  {
    var f := InRun(artifactPages, name);
    NoneBefore(runs[..i], artifactPages, name);
    assert runs == runs[..i] + [runs[i]] + runs[i + 1..];
    FlatMapAppend(runs[..i] + [runs[i]], runs[i + 1..], f);
    FlatMapAppend(runs[..i], [runs[i]], f);
    assert [runs[i]][..0] == [];
  }

  lemma {:induction false} NoneBefore(runs: seq<Run>, artifactPages: int -> seq<seq<Artifact>>, name: string)
    requires forall j :: 0 <= j < |runs| ==> MatchingInRun(runs[j], artifactPages, name) == []
    ensures MatchingArtifacts(runs, artifactPages, name) == []
  {
    if runs != [] {
      NoneBefore(runs[..|runs| - 1], artifactPages, name);
    }
  }

  /**
   * The collection loop: for each run in order, every page of its artifacts,
   * keeping those named `name`.
   */
  method CollectArtifacts(runs: seq<Run>, artifactPages: int -> seq<seq<Artifact>>, name: string) returns (all: seq<Artifact>)
    ensures all == MatchingArtifacts(runs, artifactPages, name)
    ensures forall i :: 0 <= i < |all| ==> all[i].name == name
  {
    all := [];
    for i := 0 to |runs|
      invariant all == MatchingArtifacts(runs[..i], artifactPages, name)
    {
      var named := FilterPages(artifactPages(runs[i].id), Named(name));
      MatchingArtifactsStep(runs, i, artifactPages, name);
      all := all + named;
    }
    assert runs[..|runs|] == runs;
    forall i | 0 <= i < |all| ensures all[i].name == name {
      MatchingArtifactsMembership(runs, artifactPages, name, all[i]);
    }
  }
}
