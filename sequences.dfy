/**
 * The array operations the projections are built from: `filter` and `find`,
 * with an independent description of what a filter produces (an
 * order-preserving selection) and the proof that only `Filter` produces it.
 */
module Sequences {
  import opened Wrappers

  /** `r` can be obtained from `s` by deleting elements, keeping the order of the rest. */
  predicate IsSubsequence<T(==)>(r: seq<T>, s: seq<T>)
    decreases |s|
  {
    if r == [] then true
    else if s == [] then false
    else if r[0] == s[0] then IsSubsequence(r[1..], s[1..])
    else IsSubsequence(r, s[1..])
  }

  /** `r` holds exactly the elements of `s` that satisfy `p`, each as often as in `s`,
      and nothing else (in any order). */
  ghost predicate Picks<T(!new)>(r: seq<T>, s: seq<T>, p: T -> bool)
  {
    forall x :: multiset(r)[x] == if p(x) then multiset(s)[x] else 0
  }

  /** `r` is what `s.filter(p)` must be: the elements satisfying `p`, in their order in `s`. */
  ghost predicate Selects<T(!new)>(r: seq<T>, s: seq<T>, p: T -> bool)
  {
    IsSubsequence(r, s) && Picks(r, s, p)
  }

  /** `s.filter(p)`. */
  function Filter<T(!new)>(s: seq<T>, p: T -> bool): (r: seq<T>)
    ensures Selects(r, s, p)
  {
    if s == [] then []
    else
      var rest := Filter(s[1..], p);
      assert s == [s[0]] + s[1..];
      if p(s[0]) then
        assert ([s[0]] + rest)[1..] == rest;
        [s[0]] + rest
      else
        rest
  }

  lemma {:induction false} SubsequenceCounts<T>(r: seq<T>, s: seq<T>)
    requires IsSubsequence(r, s)
    ensures multiset(r) <= multiset(s)
    decreases |s|
  {
    if r != [] {
      assert s == [s[0]] + s[1..];
      if r[0] == s[0] {
        assert r == [r[0]] + r[1..];
        SubsequenceCounts(r[1..], s[1..]);
      } else {
        SubsequenceCounts(r, s[1..]);
      }
    }
  }

  /** Selection determines its result: the only order-preserving selection is `Filter`. */
  lemma {:induction false} SelectsIsFilter<T(!new)>(r: seq<T>, s: seq<T>, p: T -> bool)
    requires Selects(r, s, p)
    ensures r == Filter(s, p)
    decreases |s|
  {
    if s == [] {
      assert r == [];
    } else {
      var t := s[1..];
      assert s == [s[0]] + t;
      if p(s[0]) {
        assert multiset(r)[s[0]] == multiset(s)[s[0]] > 0;
        if r == [] || r[0] != s[0] {
          SubsequenceCounts(r, t);
        }
        assert r != [] && r[0] == s[0];
        assert r == [r[0]] + r[1..];
        forall x ensures multiset(r[1..])[x] == if p(x) then multiset(t)[x] else 0 {
          assert multiset(r)[x] == if p(x) then multiset(s)[x] else 0;
        }
        SelectsIsFilter(r[1..], t, p);
      } else {
        assert multiset(r)[s[0]] == 0;
        assert IsSubsequence(r, t);
        forall x ensures multiset(r)[x] == if p(x) then multiset(t)[x] else 0 {
          assert multiset(r)[x] == if p(x) then multiset(s)[x] else 0;
        }
        SelectsIsFilter(r, t, p);
      }
    }
  }

  /** Filtering a concatenation filters each part: `Filter` keeps relative order. */
  lemma {:induction false} FilterConcat<T(!new)>(a: seq<T>, b: seq<T>, p: T -> bool)
    ensures Filter(a + b, p) == Filter(a, p) + Filter(b, p)
  {
    if a != [] {
      var ab := a + b;
      assert ab[0] == a[0] && ab[1..] == a[1..] + b;
      FilterConcat(a[1..], b, p);
      if p(a[0]) {
        assert Filter(ab, p) == [a[0]] + Filter(a[1..] + b, p);
        assert Filter(a, p) == [a[0]] + Filter(a[1..], p);
        assert [a[0]] + (Filter(a[1..], p) + Filter(b, p)) == ([a[0]] + Filter(a[1..], p)) + Filter(b, p);
      } else {
        assert Filter(ab, p) == Filter(a[1..] + b, p);
        assert Filter(a, p) == Filter(a[1..], p);
      }
    } else {
      assert a + b == b;
    }
  }

  /** `s.findIndex(p)`, as `None` for -1: the position of the first element satisfying `p`. */
  function FindFirst<T>(s: seq<T>, p: T -> bool): (r: Option<nat>)
    ensures r.Some? ==> r.value < |s| && p(s[r.value])
    ensures r.Some? ==> forall j :: 0 <= j < r.value ==> !p(s[j])
    ensures r.None? ==> forall j :: 0 <= j < |s| ==> !p(s[j])
  {
    if s == [] then None
    else if p(s[0]) then Some(0)
    else match FindFirst(s[1..], p)
      case None => None
      case Some(i) => Some(i + 1)
  }

  /** A selection is empty exactly when nothing in the source satisfies the test. */
  lemma PicksNothing<T(!new)>(r: seq<T>, s: seq<T>, p: T -> bool)
    requires Picks(r, s, p)
    ensures |r| == 0 <==> forall x :: x in s ==> !p(x)
  {
    if |r| > 0 {
      assert multiset(r)[r[0]] > 0;
    }
    forall x | x in s && p(x)
      ensures |r| > 0
    {
      assert multiset(s)[x] > 0;
      assert multiset(r)[x] > 0;
    }
  }

  /** An element is in a selection exactly when it is in the source and passes the test. */
  lemma PicksMembers<T(!new)>(r: seq<T>, s: seq<T>, p: T -> bool)
    requires Picks(r, s, p)
    ensures forall x :: x in r <==> x in s && p(x)
  {
    forall x
      ensures x in r <==> x in s && p(x)
    {
      assert x in r <==> multiset(r)[x] > 0;
      assert x in s <==> multiset(s)[x] > 0;
    }
  }
}
