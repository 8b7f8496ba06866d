/** Facts about sequences, multisets and cardinalities. */
module Seqs {
  import opened Options

  function Map<S, T>(f: S -> T, s: seq<S>): (r: seq<T>)
    ensures |r| == |s| && forall i :: 0 <= i < |s| ==> r[i] == f(s[i])
  {
    if s == [] then [] else [f(s[0])] + Map(f, s[1..])
  }

  predicate NoDuplicates<T(==)>(s: seq<T>) {
    forall i, j :: 0 <= i < j < |s| ==> s[i] != s[j]
  }

  lemma NoDuplicatesCons<T>(x: T, s: seq<T>)
    ensures NoDuplicates([x] + s) <==> NoDuplicates(s) && x !in s
  {
    var t := [x] + s;
    assert forall i :: 0 <= i < |s| ==> t[i + 1] == s[i];
    if NoDuplicates(t) {
      forall i, j | 0 <= i < j < |s| ensures s[i] != s[j] { assert t[i + 1] != t[j + 1]; }
      forall i | 0 <= i < |s| ensures s[i] != x { assert t[0] != t[i + 1]; }
    }
  }

  /** Having no duplicates is a property of the multiset of elements. */
  lemma {:induction false} NoDuplicatesCount<T>(s: seq<T>)
    ensures NoDuplicates(s) <==> forall x :: multiset(s)[x] <= 1
  {
    if s != [] {
      var rest := s[1..];
      assert s == [s[0]] + rest;
      NoDuplicatesCount(rest);
      NoDuplicatesCons(s[0], rest);
      assert forall x :: multiset(s)[x] == multiset(rest)[x] + (if x == s[0] then 1 else 0);
      assert s[0] in rest <==> s[0] in multiset(rest);
    }
  }

  lemma NoDuplicatesPermutation<T>(s: seq<T>, t: seq<T>)
    requires multiset(s) == multiset(t)
    ensures NoDuplicates(s) <==> NoDuplicates(t)
  {
    NoDuplicatesCount(s);
    NoDuplicatesCount(t);
  }

  /** Without duplicates, the same elements make the same multiset. */
  lemma SameElements<T>(s: seq<T>, t: seq<T>)
    requires NoDuplicates(s) && NoDuplicates(t)
    requires forall x :: x in s <==> x in t
    ensures multiset(s) == multiset(t)
  {
    NoDuplicatesCount(s);
    NoDuplicatesCount(t);
    forall x ensures multiset(s)[x] == multiset(t)[x] {
      assert x in s <==> x in multiset(s);
      assert x in t <==> x in multiset(t);
    }
  }

  lemma SamePermutationMembers<T>(s: seq<T>, t: seq<T>)
    requires multiset(s) == multiset(t)
    ensures forall x :: x in s <==> x in t
  {
    forall x ensures x in s <==> x in t {
      assert x in s <==> x in multiset(s);
      assert x in t <==> x in multiset(t);
    }
  }

  lemma {:induction false} MapAppend<S, T>(f: S -> T, a: seq<S>, b: seq<S>)
    ensures Map(f, a + b) == Map(f, a) + Map(f, b)
  {
  }

  lemma RemoveOne<T>(s: seq<T>, t: seq<T>, j: nat)
    requires multiset(s) == multiset(t) && s != [] && j < |t| && t[j] == s[0]
    ensures multiset(s[1..]) == multiset(t[..j] + t[j + 1..])
  {
    assert s == [s[0]] + s[1..];
    assert t == t[..j] + [s[0]] + t[j + 1..];
    assert multiset(s[1..]) == multiset(s) - multiset{s[0]};
    assert multiset(t[..j] + t[j + 1..]) == multiset(t) - multiset{s[0]};
  }

  /** A permutation of the arguments permutes the images. */
  lemma {:induction false} MapPermutation<S, T>(f: S -> T, s: seq<S>, t: seq<S>)
    requires multiset(s) == multiset(t)
    ensures multiset(Map(f, s)) == multiset(Map(f, t))
    decreases |s|
  {
    if s == [] {
      assert |t| == |multiset(t)| == |multiset(s)| == 0;
    } else {
      SamePermutationMembers(s, t);
      assert s[0] in s;
      var j :| 0 <= j < |t| && t[j] == s[0];
      var a, b := t[..j], t[j + 1..];
      RemoveOne(s, t, j);
      assert t == a + ([s[0]] + b);
      MapPermutation(f, s[1..], a + b);
      MapAppend(f, a, b);
      MapAppend(f, a, [s[0]] + b);
      MapAppend(f, [s[0]], b);
    }
  }

  lemma {:induction false} NoDuplicatesCard<T>(s: seq<T>)
    requires NoDuplicates(s)
    ensures |set x | x in s| == |s|
  {
    if s != [] {
      var front, last := s[..|s| - 1], s[|s| - 1];
      NoDuplicatesCard(front);
      assert (set x | x in s) == (set x | x in front) + {last};
    }
  }

  predicate Increasing(ks: seq<nat>) { forall m, n :: 0 <= m < n < |ks| ==> ks[m] < ks[n] }

  /** Where `p` holds, in order. */
  function Positions<T>(p: T -> bool, s: seq<T>): (ks: seq<nat>)
    ensures forall m :: 0 <= m < |ks| ==> ks[m] < |s| && p(s[ks[m]])
    ensures Increasing(ks)
    ensures forall k: nat :: k < |s| && p(s[k]) ==> k in ks
  {
    if s == [] then []
    else
      var last := |s| - 1;
      var ks := Positions(p, s[..last]);
      assert forall m :: 0 <= m < |ks| ==> s[..last][ks[m]] == s[ks[m]];
      assert forall k :: 0 <= k < last ==> s[..last][k] == s[k];
      if p(s[last]) then ks + [last] else ks
  }

  /** The images of the elements for which `p` holds, in order. */
  function Select<S, T>(p: S -> bool, f: S -> T, s: seq<S>): seq<T> {
    if s == [] then []
    else Select(p, f, s[..|s| - 1]) + if p(s[|s| - 1]) then [f(s[|s| - 1])] else []
  }

  lemma {:induction false} SelectAt<S, T>(p: S -> bool, f: S -> T, s: seq<S>)
    ensures |Select(p, f, s)| == |Positions(p, s)|
    ensures forall m :: 0 <= m < |Positions(p, s)| ==> Select(p, f, s)[m] == f(s[Positions(p, s)[m]])
  {
    if s != [] {
      var front, last := s[..|s| - 1], |s| - 1;
      SelectAt(p, f, front);
      var ks := Positions(p, front);
      forall m | 0 <= m < |ks| ensures Select(p, f, s)[m] == f(s[ks[m]]) { assert front[ks[m]] == s[ks[m]]; }
    }
  }

  /** The least number from `k` up to `n` that is not taken. */
  function FirstFree(taken: nat -> bool, k: nat, n: nat): (r: Option<nat>)
    requires k <= n
    ensures r.Some? ==> k <= r.value < n && !taken(r.value) && forall i :: k <= i < r.value ==> taken(i)
    ensures r.None? ==> forall i :: k <= i < n ==> taken(i)
    decreases n - k
  {
    if k == n then None else if taken(k) then FirstFree(taken, k + 1, n) else Some(k)
  }
}
