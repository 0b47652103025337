/**
 * Generic sequence facts: concatenation of a list of lists, and removal of repeats
 * keeping first-seen order (the `seen`-set loops of the scorer and the first-seen
 * key order of a Python `dict`).
 */
module Seqs {

  predicate NoDup<T(==)>(s: seq<T>) {
    forall i, j :: 0 <= i < j < |s| ==> s[i] != s[j]
  }

  /** `s` lists the members of `xs`, each exactly once. */
  predicate Lists<T(==,!new)>(s: seq<T>, xs: set<T>) {
    NoDup(s) && (forall x :: x in s ==> x in xs) && (forall x :: x in xs ==> x in s)
  }

  /** The position of the first occurrence of `x` in `s`. */
  function FirstIndex<T(==)>(s: seq<T>, x: T): (r: nat)
    requires x in s
    ensures r < |s| && s[r] == x
    ensures forall k :: 0 <= k < r ==> s[k] != x
    decreases |s|
  {
    if s[0] == x then 0 else 1 + FirstIndex(s[1..], x)
  }

  /** `s` with every repeat removed, each element kept at its first occurrence. */
  function Dedup<T(==)>(s: seq<T>): seq<T>
    decreases |s|
  {
    if |s| == 0 then []
    else
      var d := Dedup(s[..|s| - 1]);
      if s[|s| - 1] in d then d else d + [s[|s| - 1]]
  }

  /** The three things a first-seen deduplication promises: no repeats, the same members,
      and members listed in the order of their first occurrence in the input. */
  lemma {:induction false} DedupSpec<T>(s: seq<T>)
    ensures NoDup(Dedup(s))
    ensures forall x :: x in Dedup(s) <==> x in s
    ensures forall i, j :: 0 <= i < j < |Dedup(s)| ==>
              FirstIndex(s, Dedup(s)[i]) < FirstIndex(s, Dedup(s)[j])
    decreases |s|
  {
    if |s| > 0 {
      var p := s[..|s| - 1];
      var x := s[|s| - 1];
      DedupSpec(p);
      assert s == p + [x];
      var d := Dedup(s);
      assert forall y :: y in p ==> FirstIndex(s, y) == FirstIndex(p, y) by {
        forall y | y in p ensures FirstIndex(s, y) == FirstIndex(p, y) {
          var i, k := FirstIndex(s, y), FirstIndex(p, y);
          assert s[k] == y;
        }
      }
      if x !in p {
        assert FirstIndex(s, x) == |p|;
      }
      forall i, j | 0 <= i < j < |d| ensures FirstIndex(s, d[i]) < FirstIndex(s, d[j]) {
        assert d[i] in Dedup(p);
      }
    }
  }

  lemma DedupSnoc<T>(s: seq<T>, x: T)
    ensures Dedup(s + [x]) == if x in Dedup(s) then Dedup(s) else Dedup(s) + [x]
  {
    assert (s + [x])[..|s|] == s;
  }

  /** The concatenation of a list of lists, in order. */
  function Concat<T>(ss: seq<seq<T>>): seq<T>
    decreases |ss|
  {
    if |ss| == 0 then [] else Concat(ss[..|ss| - 1]) + ss[|ss| - 1]
  }

  lemma ConcatSnoc<T>(ss: seq<seq<T>>, s: seq<T>)
    ensures Concat(ss + [s]) == Concat(ss) + s
  {
    assert (ss + [s])[..|ss|] == ss;
  }

  /** `x` occurs in the concatenation exactly when it occurs in one of the lists. */
  lemma {:induction false} InConcat<T>(ss: seq<seq<T>>, x: T)
    ensures x in Concat(ss) <==> exists i :: 0 <= i < |ss| && x in ss[i]
    decreases |ss|
  {
    if |ss| > 0 {
      var p := ss[..|ss| - 1];
      InConcat(p, x);
      assert forall i :: 0 <= i < |p| ==> ss[i] == p[i];
    }
  }

  /** `s[:n]`. */
  function Take<T>(s: seq<T>, n: nat): seq<T> {
    if |s| <= n then s else s[..n]
  }

  lemma TakeSpec<T>(s: seq<T>, n: nat)
    ensures |Take(s, n)| <= n && |Take(s, n)| <= |s|
    ensures forall i :: 0 <= i < |Take(s, n)| ==> Take(s, n)[i] == s[i]
    ensures forall x :: x in Take(s, n) ==> x in s
  {
  }

  /** The elements of `s` that `keep` accepts, in order (a list comprehension with a condition). */
  function Filter<T>(s: seq<T>, keep: T -> bool): seq<T>
    decreases |s|
  {
    if |s| == 0 then [] else Filter(s[..|s| - 1], keep) + (if keep(s[|s| - 1]) then [s[|s| - 1]] else [])
  }

  lemma {:induction false} FilterSpec<T>(s: seq<T>, keep: T -> bool)
    ensures forall x :: x in Filter(s, keep) <==> x in s && keep(x)
    ensures |Filter(s, keep)| <= |s|
    decreases |s|
  {
    if |s| > 0 {
      var p := s[..|s| - 1];
      FilterSpec(p, keep);
      assert s == p + [s[|s| - 1]];
    }
  }

  lemma {:induction false} FilterNoDup<T>(s: seq<T>, keep: T -> bool)
    requires NoDup(s)
    ensures NoDup(Filter(s, keep))
    decreases |s|
  {
    if |s| > 0 {
      var p := s[..|s| - 1];
      var x := s[|s| - 1];
      FilterNoDup(p, keep);
      FilterSpec(p, keep);
      assert forall k :: 0 <= k < |p| ==> p[k] == s[k];
    }
  }

  /** Filters that agree on every element of `s` keep the same elements. */
  lemma {:induction false} FilterCongruent<T>(s: seq<T>, f: T -> bool, g: T -> bool)
    requires forall k :: 0 <= k < |s| ==> f(s[k]) == g(s[k])
    ensures Filter(s, f) == Filter(s, g)
    decreases |s|
  {
    if |s| > 0 {
      FilterCongruent(s[..|s| - 1], f, g);
    }
  }

  /** Iterating over a set: each member once, in an order the model leaves open
      (Python's set iteration order depends on string hashing). */
  method Enumerate<T(!new)>(xs: set<T>) returns (r: seq<T>)
    ensures Lists(r, xs) && |r| == |xs|
  {
    r := [];
    var rest := xs;
    while rest != {}
      invariant rest <= xs
      invariant NoDup(r)
      invariant |r| + |rest| == |xs|
      invariant forall x :: x in r <==> x in xs && x !in rest
      decreases |rest|
    {
      var x :| x in rest;
      r := r + [x];
      rest := rest - {x};
    }
  }
}
