/**
 * Locating the workflow runs of a commit (`getLatestWorkflowRuns`): every
 * listed run, sorted by retry attempt, newest attempt first, with the
 * action's own run left out; no run left is an ordinary (always fatal) error.
 */
module WorkflowRuns {
  import opened Types
  import opened Seqs

  /** Non-increasing `run_attempt`: the order the comparator `b.run_attempt - a.run_attempt` asks for. */
  predicate SortedByAttempt(s: seq<Run>)
  {
    forall i, j :: 0 <= i < j < |s| ==> s[i].attempt >= s[j].attempt
  }

  function HasAttempt(k: int): Run -> bool
  {
    (r: Run) => r.attempt == k
  }

  /** The filter `a => a.id != GITHUB_RUN_ID`. */
  function OtherThan(id: int): Run -> bool
  {
    (r: Run) => r.id != id
  }

  /** Places x after every run of `t` whose attempt is at least x's. */
  function InsertByAttempt(t: seq<Run>, x: Run): seq<Run>
  {
    if t == [] then [x]
    else if t[0].attempt >= x.attempt then [t[0]] + InsertByAttempt(t[1..], x)
    else [x] + t
  }

  /**
   * `Array.prototype.sort` with the comparator `b.run_attempt - a.run_attempt`.
   * The sort is stable, so it is written here as an insertion sort that takes
   * the runs in listing order.
   */
  function SortByAttempt(s: seq<Run>): seq<Run>
  {
    if s == [] then [] else InsertByAttempt(SortByAttempt(s[..|s| - 1]), s[|s| - 1])
  }

  lemma {:induction false} InsertBelow(t: seq<Run>, x: Run, bound: int)
    requires forall i :: 0 <= i < |t| ==> t[i].attempt <= bound
    requires x.attempt <= bound
    ensures forall i :: 0 <= i < |InsertByAttempt(t, x)| ==> InsertByAttempt(t, x)[i].attempt <= bound
  {
    if t != [] && t[0].attempt >= x.attempt {
      InsertBelow(t[1..], x, bound);
    }
  }

  lemma {:induction false} InsertKeepsOrder(t: seq<Run>, x: Run)
    requires SortedByAttempt(t)
    ensures SortedByAttempt(InsertByAttempt(t, x))
  {
    if t != [] && t[0].attempt >= x.attempt {
      InsertKeepsOrder(t[1..], x);
      InsertBelow(t[1..], x, t[0].attempt);
    }
  }

  lemma {:induction false} InsertPermutes(t: seq<Run>, x: Run)
    ensures multiset(InsertByAttempt(t, x)) == multiset(t) + multiset{x}
  {
    if t != [] && t[0].attempt >= x.attempt {
      InsertPermutes(t[1..], x);
      assert t == [t[0]] + t[1..];
    }
  }

  /** Inserting x keeps every attempt class in order and puts x at the end of its own. */
  lemma {:induction false} InsertIsStable(t: seq<Run>, x: Run, k: int)
    requires SortedByAttempt(t)
    ensures Filter(InsertByAttempt(t, x), HasAttempt(k))
            == Filter(t, HasAttempt(k)) + (if x.attempt == k then [x] else [])
  {
    var p := HasAttempt(k);
    assert [x][..0] == [];
    if t == [] {
    } else if t[0].attempt >= x.attempt {
      InsertIsStable(t[1..], x, k);
      FilterAppend([t[0]], InsertByAttempt(t[1..], x), p);
      FilterAppend([t[0]], t[1..], p);
      assert t == [t[0]] + t[1..];
      assert [t[0]][..0] == [];
    } else {
      FilterAppend([x], t, p);
      if x.attempt == k {
        FilterNone(t, p);
      }
    }
  }

  lemma {:induction false} SortByAttemptOrders(s: seq<Run>)
    ensures SortedByAttempt(SortByAttempt(s))
    ensures multiset(SortByAttempt(s)) == multiset(s)
  {
    if s != [] {
      var init := s[..|s| - 1];
      SortByAttemptOrders(init);
      InsertKeepsOrder(SortByAttempt(init), s[|s| - 1]);
      InsertPermutes(SortByAttempt(init), s[|s| - 1]);
      assert s == init + [s[|s| - 1]];
    }
  }

  /** Stability: runs with equal attempts keep their listing order. */
  lemma {:induction false} SortByAttemptIsStable(s: seq<Run>, k: int)
    ensures Filter(SortByAttempt(s), HasAttempt(k)) == Filter(s, HasAttempt(k))
  {
    if s != [] {
      var init := s[..|s| - 1];
      SortByAttemptIsStable(init, k);
      SortByAttemptOrders(init);
      InsertIsStable(SortByAttempt(init), s[|s| - 1], k);
    }
  }

  /** Filtering a sorted list leaves it sorted. */
  lemma {:induction false} FilterKeepsOrder(s: seq<Run>, p: Run -> bool)
    requires SortedByAttempt(s)
    ensures SortedByAttempt(Filter(s, p))
  {
    if s != [] {
      var init, last := s[..|s| - 1], s[|s| - 1];
      FilterKeepsOrder(init, p);
      var kept := Filter(init, p);
      assert forall i :: 0 <= i < |kept| ==> kept[i].attempt >= last.attempt by {
        forall i | 0 <= i < |kept| ensures kept[i].attempt >= last.attempt {
          FilterMembership(init, p, kept[i]);
          var j :| 0 <= j < |init| && init[j] == kept[i];
        }
      }
    }
  }

  /** What one call of `getLatestWorkflowRuns(ref)` returns when the listing at `ref` is `listed`. */
  function LatestRuns(ref: string, listed: seq<Run>, selfId: int): Result<seq<Run>>
  {
    var kept := Filter(SortByAttempt(listed), OtherThan(selfId));
    if kept == [] then Err(Fatal("No workflows found for " + ref)) else Ok(kept)
  }

  /** The runs kept are the listed runs other than the action's own. */
  lemma KeptRuns(listed: seq<Run>, selfId: int)
    ensures forall x :: x in Filter(SortByAttempt(listed), OtherThan(selfId)) <==> x in listed && x.id != selfId
  {
    var sorted := SortByAttempt(listed);
    SortByAttemptOrders(listed);
    forall x ensures x in Filter(sorted, OtherThan(selfId)) <==> x in listed && x.id != selfId {
      assert x in sorted <==> x in multiset(sorted);
      assert x in listed <==> x in multiset(listed);
      FilterMembership(sorted, OtherThan(selfId), x);
    }
  }

  /** Runs with equal attempts keep their listing order through the sort and the filter. */
  lemma KeptRunsStable(listed: seq<Run>, selfId: int, k: int)
    ensures Filter(Filter(SortByAttempt(listed), OtherThan(selfId)), HasAttempt(k))
            == Filter(Filter(listed, OtherThan(selfId)), HasAttempt(k))
  {
    FilterCommutes(SortByAttempt(listed), OtherThan(selfId), HasAttempt(k));
    SortByAttemptIsStable(listed, k);
    FilterCommutes(listed, HasAttempt(k), OtherThan(selfId));
  }

  /**
   * No run is left, which is a plain (always fatal) error rather than a
   * NothingFoundError, exactly when every listed run is the action's own.
   */
  lemma LatestRunsFailsWhenOnlySelf(ref: string, listed: seq<Run>, selfId: int)
    ensures var r := LatestRuns(ref, listed, selfId);
      && (r.Err? <==> forall i :: 0 <= i < |listed| ==> listed[i].id == selfId)
      && (r.Err? ==> r.failure == Fatal("No workflows found for " + ref))
  {
    var kept := Filter(SortByAttempt(listed), OtherThan(selfId));
    KeptRuns(listed, selfId);
    if kept == [] {
      forall i | 0 <= i < |listed| ensures listed[i].id == selfId {
        assert listed[i] !in kept;
      }
    } else {
      assert kept[0] in listed;
      var j :| 0 <= j < |listed| && listed[j] == kept[0];
    }
  }

  /**
   * The run list never holds the action's own run, holds every other listed
   * run, and is ordered by non-increasing attempt with ties in listing order.
   */
  lemma LatestRunsOrdered(ref: string, listed: seq<Run>, selfId: int)
    ensures var r := LatestRuns(ref, listed, selfId);
      r.Ok? ==>
        && SortedByAttempt(r.value)
        && (forall i :: 0 <= i < |r.value| ==> r.value[i].id != selfId)
        && (forall x :: x in r.value <==> x in listed && x.id != selfId)
        && (forall k :: Filter(r.value, HasAttempt(k)) == Filter(Filter(listed, OtherThan(selfId)), HasAttempt(k)))
  {
    var sorted := SortByAttempt(listed);
    SortByAttemptOrders(listed);
    FilterKeepsOrder(sorted, OtherThan(selfId));
    KeptRuns(listed, selfId);
    forall k ensures Filter(Filter(sorted, OtherThan(selfId)), HasAttempt(k)) == Filter(Filter(listed, OtherThan(selfId)), HasAttempt(k)) {
      KeptRunsStable(listed, selfId, k);
    }
  }

  /**
   * `getLatestWorkflowRuns(ref)`: collects the listing page by page, sorts it
   * and filters out the action's own run.
   */
  method LatestWorkflowRuns(ref: string, pages: seq<seq<Run>>, selfId: int) returns (r: Result<seq<Run>>)
    ensures r == LatestRuns(ref, Flatten(pages), selfId)
    ensures r.Ok? ==> r.value != [] && forall i :: 0 <= i < |r.value| ==> r.value[i].id != selfId
    ensures r.Err? ==> r.failure.Fatal?
  {
    var all := Concat(pages);
    var sorted := SortByAttempt(all);
    var kept := Filter(sorted, OtherThan(selfId));
    if |kept| == 0 {
      return Err(Fatal("No workflows found for " + ref));
    }
    r := Ok(kept);
    LatestRunsOrdered(ref, all, selfId);
  }
}
