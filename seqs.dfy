/**
 * Sequence helpers the action's array handling needs: concatenating the
 * pages of a paginated listing, `Array.prototype.filter`, and the index of
 * the first element a predicate accepts.
 */
module Seqs {

  /** The pages of a listing, concatenated in page order. */
  function Flatten<T>(pages: seq<seq<T>>): seq<T>
  {
    if pages == [] then [] else Flatten(pages[..|pages| - 1]) + pages[|pages| - 1]
  }

  lemma {:induction false} FlattenMembership<T>(pages: seq<seq<T>>, x: T)
    ensures x in Flatten(pages) <==> exists i :: 0 <= i < |pages| && x in pages[i]
  {
    if pages != [] {
      var init := pages[..|pages| - 1];
      FlattenMembership(init, x);
      assert forall i :: 0 <= i < |init| ==> init[i] == pages[i];
    }
  }

  /** The lists `f` gives for the elements of `s`, concatenated in the order of `s`. */
  function FlatMap<T, U>(s: seq<T>, f: T -> seq<U>): seq<U>
  {
    if s == [] then [] else FlatMap(s[..|s| - 1], f) + f(s[|s| - 1])
  }

  lemma {:induction false} FlatMapAppend<T, U>(s: seq<T>, t: seq<T>, f: T -> seq<U>)
    ensures FlatMap(s + t, f) == FlatMap(s, f) + FlatMap(t, f)
  {
    if t == [] {
      assert s + t == s;
    } else {
      var st := s + t;
      assert st[..|st| - 1] == s + t[..|t| - 1];
      assert st[|st| - 1] == t[|t| - 1];
      FlatMapAppend(s, t[..|t| - 1], f);
    }
  }

  /**
   * Collects every page of a paginated listing, one page at a time, as the
   * `for await ... concat` loops over `paginate.iterator` do.
   */
  method Concat<T>(pages: seq<seq<T>>) returns (all: seq<T>)
    ensures all == Flatten(pages)
    ensures forall x :: x in all <==> exists i :: 0 <= i < |pages| && x in pages[i]
  {
    all := [];
    for i := 0 to |pages|
      invariant all == Flatten(pages[..i])
    {
      assert pages[..i + 1][..i] == pages[..i];
      all := all + pages[i];
    }
    assert pages[..|pages|] == pages;
    forall x ensures x in all <==> exists i :: 0 <= i < |pages| && x in pages[i] {
      FlattenMembership(pages, x);
    }
  }

  /** The elements of `s` that `p` accepts, in their order in `s`. */
  function Filter<T>(s: seq<T>, p: T -> bool): (r: seq<T>)
    ensures |r| <= |s|
  {
    if s == [] then [] else Filter(s[..|s| - 1], p) + (if p(s[|s| - 1]) then [s[|s| - 1]] else [])
  }

  /** A filter keeps exactly the elements `p` accepts. */
  lemma {:induction false} FilterMembership<T>(s: seq<T>, p: T -> bool, x: T)
    ensures x in Filter(s, p) <==> x in s && p(x)
  {
    if s != [] {
      var init := s[..|s| - 1];
      FilterMembership(init, p, x);
      assert s == init + [s[|s| - 1]];
    }
  }

  lemma {:induction false} FilterAppend<T>(s: seq<T>, t: seq<T>, p: T -> bool)
    ensures Filter(s + t, p) == Filter(s, p) + Filter(t, p)
  {
    if t != [] {
      var st := s + t;
      assert st[..|st| - 1] == s + t[..|t| - 1];
      assert st[|st| - 1] == t[|t| - 1];
      FilterAppend(s, t[..|t| - 1], p);
    } else {
      assert s + t == s;
    }
  }

  /** Filtering the first j + 1 pages of a listing extends the filtered first j pages. */
  lemma FilterPagesStep<T>(pages: seq<seq<T>>, j: nat, p: T -> bool)
    requires j < |pages|
    ensures Filter(Flatten(pages[..j + 1]), p) == Filter(Flatten(pages[..j]), p) + Filter(pages[j], p)
  {
    assert pages[..j + 1][..j] == pages[..j];
    FilterAppend(Flatten(pages[..j]), pages[j], p);
  }

  /**
   * Walks a paginated listing page by page, appending what `p` accepts on
   * each page (`all = all.concat(page.filter(p))`).
   */
  method FilterPages<T>(pages: seq<seq<T>>, p: T -> bool) returns (kept: seq<T>)
    ensures kept == Filter(Flatten(pages), p)
  {
    kept := [];
    for j := 0 to |pages|
      invariant kept == Filter(Flatten(pages[..j]), p)
    {
      FilterPagesStep(pages, j, p);
      kept := kept + Filter(pages[j], p);
    }
    assert pages[..|pages|] == pages;
  }

  /** Filtering by p and then by q keeps the same elements as filtering by q and then by p. */
  lemma {:induction false} FilterCommutes<T>(s: seq<T>, p: T -> bool, q: T -> bool)
    ensures Filter(Filter(s, p), q) == Filter(Filter(s, q), p)
  {
    if s != [] {
      var init, last := s[..|s| - 1], s[|s| - 1];
      FilterCommutes(init, p, q);
      FilterAppend(Filter(init, p), if p(last) then [last] else [], q);
      FilterAppend(Filter(init, q), if q(last) then [last] else [], p);
      assert [last][..0] == [];
    }
  }

  /** A filter that accepts nothing yields nothing. */
  lemma {:induction false} FilterNone<T>(s: seq<T>, p: T -> bool)
    requires forall i :: 0 <= i < |s| ==> !p(s[i])
    ensures Filter(s, p) == []
  {
    if s != [] {
      FilterNone(s[..|s| - 1], p);
    }
  }

  /**
   * The last element a filter keeps is the last element of `s` that `p`
   * accepts: no element after it is accepted.
   */
  lemma {:induction false} FilterLast<T>(s: seq<T>, p: T -> bool)
    requires Filter(s, p) != []
    ensures exists i :: 0 <= i < |s| && s[i] == Filter(s, p)[|Filter(s, p)| - 1] && p(s[i])
              && forall j :: i < j < |s| ==> !p(s[j])
  {
    var init, last := s[..|s| - 1], s[|s| - 1];
    if p(last) {
      assert s[|s| - 1] == Filter(s, p)[|Filter(s, p)| - 1];
    } else {
      FilterLast(init, p);
      var i :| 0 <= i < |init| && init[i] == Filter(init, p)[|Filter(init, p)| - 1] && p(init[i])
               && forall j :: i < j < |init| ==> !p(init[j]);
      assert s[i] == init[i];
      assert forall j :: i < j < |s| ==> !p(s[j]) by {
        forall j | i < j < |s| ensures !p(s[j]) {
          if j < |s| - 1 { assert s[j] == init[j]; }
        }
      }
    }
  }

  /** The index of the first element `p` accepts, or |s| when there is none. */
  function FirstIndex<T>(s: seq<T>, p: T -> bool): (i: nat)
    ensures i <= |s|
    ensures i < |s| ==> p(s[i])
    ensures forall j :: 0 <= j < i ==> !p(s[j])
  {
    if s == [] then 0
    else if p(s[0]) then 0
    else 1 + FirstIndex(s[1..], p)
  }

  /** A scan that stops at the first accepted element, or runs off the end, stops at FirstIndex. */
  lemma FirstIndexIs<T>(s: seq<T>, p: T -> bool, i: nat)
    requires i <= |s|
    requires i < |s| ==> p(s[i])
    requires forall j :: 0 <= j < i ==> !p(s[j])
    ensures FirstIndex(s, p) == i
  {
  }
}
