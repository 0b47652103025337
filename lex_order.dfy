/**
 * Python's ordering of `str` values (code point by code point, a proper prefix first)
 * and `sorted(...)` of a set of strings.
 */
module LexOrder {

  predicate Less(a: string, b: string)
    decreases |a|
  {
    |b| > 0 && (|a| == 0 || a[0] < b[0] || (a[0] == b[0] && Less(a[1..], b[1..])))
  }

  lemma {:induction false} Irreflexive(a: string)
    ensures !Less(a, a)
    decreases |a|
  {
    if |a| > 0 {
      Irreflexive(a[1..]);
    }
  }

  lemma {:induction false} Transitive(a: string, b: string, c: string)
    requires Less(a, b) && Less(b, c)
    ensures Less(a, c)
    decreases |a|
  {
    if |a| > 0 && a[0] == b[0] && b[0] == c[0] {
      Transitive(a[1..], b[1..], c[1..]);
    }
  }

  lemma {:induction false} Total(a: string, b: string)
    requires a != b
    ensures Less(a, b) || Less(b, a)
    decreases |a|
  {
    if |a| > 0 && |b| > 0 && a[0] == b[0] {
      assert a == [a[0]] + a[1..] && b == [b[0]] + b[1..];
      Total(a[1..], b[1..]);
    }
  }

  lemma {:induction false} Asymmetric(a: string, b: string)
    requires Less(a, b)
    ensures !Less(b, a)
    decreases |a|
  {
    if |a| > 0 && a[0] == b[0] {
      Asymmetric(a[1..], b[1..]);
    }
  }

  predicate StrictlySorted(s: seq<string>) {
    forall i, j :: 0 <= i < j < |s| ==> Less(s[i], s[j])
  }

  lemma PrependSorted(h: string, t: seq<string>)
    requires StrictlySorted(t)
    requires forall y :: y in t ==> Less(h, y)
    ensures StrictlySorted([h] + t)
  {
    var r := [h] + t;
    forall i, j | 0 <= i < j < |r| ensures Less(r[i], r[j]) {
      if i > 0 {
        assert r[i] == t[i - 1] && r[j] == t[j - 1];
      } else {
        assert r[j] == t[j - 1] && r[j] in t;
      }
    }
  }

  /** Inserting a new string into a sorted list keeps it sorted and adds exactly that string. */
  function Insert(s: seq<string>, x: string): (r: seq<string>)
    requires StrictlySorted(s) && x !in s
    ensures StrictlySorted(r)
    ensures |r| == |s| + 1
    ensures forall y :: y in r <==> y in s || y == x
    decreases |s|
  {
    if |s| == 0 then [x]
    else if Less(x, s[0]) then
      assert forall y :: y in s ==> Less(x, y) by {
        forall y | y in s ensures Less(x, y) {
          var j :| 0 <= j < |s| && s[j] == y;
          if j > 0 { Transitive(x, s[0], y); }
        }
      }
      PrependSorted(x, s);
      [x] + s
    else
      Total(x, s[0]);
      var t := Insert(s[1..], x);
      assert forall y :: y in t ==> Less(s[0], y) by {
        forall y | y in t ensures Less(s[0], y) {
          if y != x {
            var j :| 1 <= j < |s| && s[j] == y;
          }
        }
      }
      PrependSorted(s[0], t);
      assert forall y :: y in s <==> y == s[0] || y in s[1..] by {
        assert s == [s[0]] + s[1..];
      }
      [s[0]] + t
  }

  /** `sorted(xs)` for a set of strings: ascending, each member exactly once. */
  method SortSet(xs: set<string>) returns (r: seq<string>)
    ensures StrictlySorted(r)
    ensures |r| == |xs|
    ensures forall y :: y in r <==> y in xs
  {
    r := [];
    var rest := xs;
    while rest != {}
      invariant rest <= xs
      invariant StrictlySorted(r)
      invariant |r| + |rest| == |xs|
      invariant forall y :: y in r <==> y in xs && y !in rest
      decreases |rest|
    {
      var y :| y in rest;
      r := Insert(r, y);
      rest := rest - {y};
    }
  }

  /** The first element of a sorted list is its minimum: `sorted(xs)[0] == min(xs)`. */
  lemma SortedHeadIsLeast(s: seq<string>, y: string)
    requires StrictlySorted(s) && y in s && y != s[0]
    ensures Less(s[0], y)
  {
    var j :| 0 <= j < |s| && s[j] == y;
  }

  /** Two sorted lists with the same members are equal, so `SortSet`'s result is Python's `sorted`. */
  lemma {:induction false} SortedUnique(a: seq<string>, b: seq<string>)
    requires StrictlySorted(a) && StrictlySorted(b)
    requires forall y :: y in a <==> y in b
    ensures a == b
    decreases |a|
  {
    assert |a| > 0 ==> a[0] in b;
    assert |b| > 0 ==> b[0] in a;
    if |a| > 0 {
      if a[0] != b[0] {
        SortedHeadIsLeast(a, b[0]);
        SortedHeadIsLeast(b, a[0]);
        Asymmetric(a[0], b[0]);
        assert false;
      }
      forall y ensures y in a[1..] <==> y in b[1..] {
        if y in a[1..] {
          var j :| 1 <= j < |a| && a[j] == y;
          Irreflexive(a[0]);
          assert y != a[0];
          assert y in b;
          var k :| 0 <= k < |b| && b[k] == y;
          assert k != 0;
        }
        if y in b[1..] {
          var k :| 1 <= k < |b| && b[k] == y;
          Irreflexive(b[0]);
          assert y != b[0];
          assert y in a;
          var j :| 0 <= j < |a| && a[j] == y;
          assert j != 0;
        }
      }
      SortedUnique(a[1..], b[1..]);
      assert a == [a[0]] + a[1..] && b == [b[0]] + b[1..];
    }
  }

  /** The smallest string of a non-empty list: `min(s)`, which is also `sorted(s)[0]`. */
  function Least(s: seq<string>): (r: string)
    requires |s| > 0
    ensures r in s
    ensures forall y :: y in s ==> y == r || Less(r, y)
    decreases |s|
  {
    if |s| == 1 then s[0]
    else
      var m := Least(s[1..]);
      assert forall y :: y in s ==> y == s[0] || y in s[1..];
      if Less(s[0], m) then
        assert forall y :: y in s[1..] && y != m ==> Less(s[0], y) by {
          forall y | y in s[1..] && y != m ensures Less(s[0], y) {
            Transitive(s[0], m, y);
          }
        }
        s[0]
      else
        assert s[0] != m ==> Less(m, s[0]) by {
          if s[0] != m {
            Total(s[0], m);
          }
        }
        m
  }

  /** The head of a sorted enumeration of the set of `s`'s members is `Least(s)`. */
  lemma SortedHeadIsMin(sorted: seq<string>, s: seq<string>)
    requires StrictlySorted(sorted) && |s| > 0
    requires forall y :: y in sorted <==> y in s
    ensures |sorted| > 0 && sorted[0] == Least(s)
  {
    var m := Least(s);
    assert m in sorted;
    if sorted[0] != m {
      SortedHeadIsLeast(sorted, m);
      Asymmetric(sorted[0], m);
    }
  }
}
