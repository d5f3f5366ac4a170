/**
 * The small part of JavaScript's semantics that the action leans on: values that
 * may be `undefined`, the truthiness test `if (x)` / `!x` applied to strings,
 * and the array methods `find` and `filter`.
 */
module Js {

  /** A value that may be `undefined` (the result of `?.id`, of a missing key, of a failed `find`). */
  datatype Option<+T> = None | Some(value: T)

  /** `if (x)` on a string-or-undefined: false for `undefined` and for the empty string. */
  predicate Truthy(x: Option<string>) {
    x.Some? && x.value != ""
  }

  /** `i` is the index of the first element of `s` satisfying `p`. */
  ghost predicate IsFirst<T>(s: seq<T>, p: T -> bool, i: int) {
    0 <= i < |s| && p(s[i]) && forall j :: 0 <= j < i ==> !p(s[j])
  }

  /**
   * `s.find(p)`, returning the index of the element found rather than the element:
   * the first element satisfying `p`, or `undefined` when there is none.
   */
  function Find<T>(s: seq<T>, p: T -> bool): (r: Option<nat>)
    ensures r.None? <==> forall i :: 0 <= i < |s| ==> !p(s[i])
    ensures r.Some? ==> IsFirst(s, p, r.value)
    decreases |s|
  {
    if s == [] then None
    else if p(s[0]) then Some(0)
    else match Find(s[1..], p)
      case None => None
      case Some(k) =>
        assert forall j :: 1 <= j <= k ==> s[j] == s[1..][j - 1];
        Some(k + 1)
  }

  /** `r` keeps some of the elements of `s`, in their order in `s`. */
  predicate IsSubsequence<T(==)>(r: seq<T>, s: seq<T>)
    decreases |s|
  {
    if r == [] then true
    else if s == [] then false
    else (r[|r| - 1] == s[|s| - 1] && IsSubsequence(r[..|r| - 1], s[..|s| - 1]))
         || IsSubsequence(r, s[..|s| - 1])
  }

  /**
   * `s.filter(p)`: the elements of `s` satisfying `p`, each as often as it occurs
   * in `s`, in their order in `s`. The two ensures together determine the result.
   */
  function Filter<T(==,!new)>(s: seq<T>, p: T -> bool): (r: seq<T>)
    ensures IsSubsequence(r, s)
    ensures forall x :: multiset(r)[x] == if p(x) then multiset(s)[x] else 0
    decreases |s|
  {
    if s == [] then []
    else
      var init, last := s[..|s| - 1], s[|s| - 1];
      assert s == init + [last];
      var rest := Filter(init, p);
      if p(last) then
        var r := rest + [last];
        assert r[..|r| - 1] == rest;
        r
      else rest
  }

  /** When `q` is the negation of `p`, every element of `s` lands in exactly one of the two filters. */
  lemma {:induction false} FilterPartition<T(!new)>(s: seq<T>, p: T -> bool, q: T -> bool)
    requires forall x :: q(x) == !p(x)
    ensures |Filter(s, p)| + |Filter(s, q)| == |s|
    decreases |s|
  {
    if s != [] {
      FilterPartition(s[..|s| - 1], p, q);
    }
  }
}
