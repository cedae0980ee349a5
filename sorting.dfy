/**
 * Python's `sorted(xs)` and `xs.sort()` on integers, and the key order of a
 * `collections.Counter` (first occurrence). Any correct sort returns the one
 * ascending permutation of its input, so an insertion sort stands for both.
 */
module Sorting {

  predicate Sorted(s: seq<int>)
  {
    forall i, j :: 0 <= i < j < |s| ==> s[i] <= s[j]
  }

  predicate NoDuplicates(s: seq<int>)
  {
    forall i, j :: 0 <= i < j < |s| ==> s[i] != s[j]
  }

  /** Inserts `x` before the first element larger than it. */
  function Insert(x: int, s: seq<int>): (r: seq<int>)
    requires Sorted(s)
    ensures Sorted(r)
    ensures multiset(r) == multiset(s) + multiset{x}
    decreases |s|
  {
    if s == [] || x <= s[0] then
      SortedCons(x, s);
      [x] + s
    else
      var rest := Insert(x, s[1..]);
      assert s == [s[0]] + s[1..];
      assert forall y :: y in rest ==> s[0] <= y by {
        forall y | y in rest ensures s[0] <= y {
          assert y in multiset(rest);
        }
      }
      SortedCons(s[0], rest);
      [s[0]] + rest
  }

  lemma SortedCons(a: int, t: seq<int>)
    requires Sorted(t)
    requires forall y :: y in t ==> a <= y
    ensures Sorted([a] + t)
  {
    var r := [a] + t;
    forall i, j | 0 <= i < j < |r| ensures r[i] <= r[j] {
      if i > 0 {
        assert r[i] == t[i - 1] && r[j] == t[j - 1];
      } else {
        assert r[j] == t[j - 1] && t[j - 1] in t;
      }
    }
  }

  /** The ascending permutation of `s`. */
  function SortCards(s: seq<int>): (r: seq<int>)
    ensures Sorted(r)
    ensures multiset(r) == multiset(s)
    decreases |s|
  {
    if s == [] then []
    else
      assert s == [s[0]] + s[1..];
      Insert(s[0], SortCards(s[1..]))
  }

  /** A sequence without repeats holds each of its elements once. */
  lemma {:induction false} NoDuplicatesCounts(s: seq<int>)
    requires NoDuplicates(s)
    ensures forall x :: multiset(s)[x] <= 1
    decreases |s|
  {
    if s != [] {
      var t := s[..|s| - 1];
      assert s == t + [s[|s| - 1]];
      assert NoDuplicates(t);
      NoDuplicatesCounts(t);
      assert s[|s| - 1] !in t by {
        forall i | 0 <= i < |t| ensures t[i] != s[|s| - 1] {
          assert s[i] == t[i];
        }
      }
    }
  }

  /** An element met at two positions occurs twice. */
  lemma TwoPositions(s: seq<int>, i: nat, j: nat)
    requires i < j < |s|
    ensures multiset(s)[s[i]] >= 2 || s[i] != s[j]
  {
    if s[i] == s[j] {
      assert s == s[..i] + [s[i]] + s[i + 1..j] + [s[j]] + s[j + 1..];
    }
  }

  /** Sorting a sequence without repeats gives a strictly ascending sequence. */
  lemma SortedDistinctAscending(s: seq<int>)
    requires NoDuplicates(s)
    ensures forall i, j :: 0 <= i < j < |SortCards(s)| ==> SortCards(s)[i] < SortCards(s)[j]
  {
    var r := SortCards(s);
    NoDuplicatesCounts(s);
    forall i, j | 0 <= i < j < |r| ensures r[i] < r[j] {
      TwoPositions(r, i, j);
    }
  }

  /** The distinct elements of `s` in order of first occurrence, as a `Counter`'s keys. */
  function FirstOccurrences(s: seq<int>): (d: seq<int>)
    ensures NoDuplicates(d)
    ensures forall x :: x in d <==> x in s
    decreases |s|
  {
    if s == [] then []
    else
      var prefix := s[..|s| - 1];
      var d := FirstOccurrences(prefix);
      assert s == prefix + [s[|s| - 1]];
      if s[|s| - 1] in d then d else d + [s[|s| - 1]]
  }
}
