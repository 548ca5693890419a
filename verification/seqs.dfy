/** Order-preserving selection, first-match search and the subsequence
    relation in which the catalog queries and the history filter are stated. */
module Seqs {
  import opened Common

  /** `sub` is obtained from `s` by deleting elements, without reordering. */
  predicate IsSubseq<T(==)>(sub: seq<T>, s: seq<T>)
    decreases |s|
  {
    if sub == [] then true
    else if s == [] then false
    else (sub[0] == s[0] && IsSubseq(sub[1..], s[1..])) || IsSubseq(sub, s[1..])
  }

  /** The elements of `s` that satisfy `keep`, in their original order
      (JavaScript's `Array.prototype.filter`). The contract pins the result
      down completely: an order-preserving subsequence that keeps every
      occurrence of every wanted element and nothing else. */
  function Filter<T(==,!new)>(s: seq<T>, keep: T -> bool): (r: seq<T>)
    ensures |r| <= |s|
    ensures IsSubseq(r, s)
    ensures forall i :: 0 <= i < |r| ==> keep(r[i])
    ensures forall x :: keep(x) ==> multiset(r)[x] == multiset(s)[x]
  {
    if s == [] then []
    else
      var rest := Filter(s[1..], keep);
      assert s == [s[0]] + s[1..];
      if keep(s[0]) then [s[0]] + rest else rest
  }

  /** A filter that rejects nothing returns its input. */
  lemma {:induction false} FilterKeepsAll<T(!new)>(s: seq<T>, keep: T -> bool)
    requires forall i :: 0 <= i < |s| ==> keep(s[i])
    ensures Filter(s, keep) == s
  {
    if s != [] {
      FilterKeepsAll(s[1..], keep);
    }
  }

  /** Two tests that agree on every element of `s` select the same elements. */
  lemma {:induction false} FilterCongruent<T(!new)>(s: seq<T>, f: T -> bool, g: T -> bool)
    requires forall i :: 0 <= i < |s| ==> f(s[i]) == g(s[i])
    ensures Filter(s, f) == Filter(s, g)
  {
    if s != [] {
      FilterCongruent(s[1..], f, g);
    }
  }

  /** Filtering by `f` and then by `g` is filtering once by a test `both`
      that holds exactly when both do. */
  lemma {:induction false} FilterTwice<T(!new)>(s: seq<T>, f: T -> bool, g: T -> bool, both: T -> bool)
    requires forall i :: 0 <= i < |s| ==> both(s[i]) == (f(s[i]) && g(s[i]))
    ensures Filter(Filter(s, f), g) == Filter(s, both)
  {
    if s != [] {
      FilterTwice(s[1..], f, g, both);
      var rest := Filter(s[1..], f);
      if f(s[0]) {
        assert ([s[0]] + rest)[1..] == rest;
      }
    }
  }

  /** Two tests that never hold together select at most |s| elements between them. */
  lemma {:induction false} FilterDisjoint<T(!new)>(s: seq<T>, f: T -> bool, g: T -> bool)
    requires forall i :: 0 <= i < |s| ==> !(f(s[i]) && g(s[i]))
    ensures |Filter(s, f)| + |Filter(s, g)| <= |s|
  {
    if s != [] {
      FilterDisjoint(s[1..], f, g);
    }
  }

  /** The position of the first element satisfying `found`
      (JavaScript's `findIndex`, with `None` for its -1). */
  function FirstIndex<T>(s: seq<T>, found: T -> bool): (r: Option<nat>)
    ensures r.Some? ==> r.value < |s| && found(s[r.value])
    ensures r.Some? ==> forall j :: 0 <= j < r.value ==> !found(s[j])
    ensures r.None? <==> forall j :: 0 <= j < |s| ==> !found(s[j])
  {
    if s == [] then None
    else if found(s[0]) then Some(0)
    else
      match FirstIndex(s[1..], found)
      case None => None
      case Some(i) => Some(i + 1)
  }

  /** The first element satisfying `found` (JavaScript's `find`, with `None` for `undefined`). */
  function Find<T>(s: seq<T>, found: T -> bool): (r: Option<T>)
    ensures r.Some? ==> found(r.value)
    ensures r.Some? ==> exists i :: 0 <= i < |s| && s[i] == r.value && forall j :: 0 <= j < i ==> !found(s[j])
    ensures r.None? <==> forall j :: 0 <= j < |s| ==> !found(s[j])
  {
    match FirstIndex(s, found)
    case None => None
    case Some(i) => Some(s[i])
  }
}
