/** Sequences that list each of 0, 1, ..., n - 1 once. */
module Permutations {
  predicate Distinct(s: seq<nat>) {
    forall a, b :: 0 <= a < b < |s| ==> s[a] != s[b]
  }

  predicate Permutation(s: seq<nat>, n: nat) {
    |s| == n && Distinct(s) && (forall i :: 0 <= i < n ==> i in s) && forall k :: 0 <= k < |s| ==> s[k] < n
  }

  function Below(n: nat): (r: set<nat>)
    ensures |r| == n && forall i: nat :: i in r <==> i < n
  {
    if n == 0 then {} else Below(n - 1) + {n - 1}
  }

  function Elements(s: seq<nat>): set<nat> { set x | x in s }

  lemma {:induction false} ElementsSize(s: seq<nat>)
    ensures |Elements(s)| <= |s|
    ensures |Elements(s)| == |s| <==> Distinct(s)
  {
    if s != [] {
      var t, x := s[..|s| - 1], s[|s| - 1];
      assert s == t + [x];
      ElementsSize(t);
      assert Elements(s) == Elements(t) + {x};
      if x in t {
        var k :| 0 <= k < |t| && t[k] == x;
        assert s[k] == s[|s| - 1];
        assert Elements(s) == Elements(t);
      } else {
        assert Distinct(t) ==> Distinct(s);
        assert Distinct(s) ==> Distinct(t);
      }
    }
  }

  lemma SubsetSize(a: set<nat>, b: set<nat>)
    requires a <= b
    ensures |a| <= |b|
    ensures |a| == |b| ==> a == b
  {
    assert b == a + (b - a);
    assert |b| == |a| + |b - a|;
  }

  lemma DistinctFits(s: seq<nat>, n: nat)
    requires Distinct(s) && forall k :: 0 <= k < |s| ==> s[k] < n
    ensures |s| <= n
    ensures |s| == n ==> Permutation(s, n)
  {
    ElementsSize(s);
    SubsetSize(Elements(s), Below(n));
    if |s| == n {
      forall i | 0 <= i < n ensures i in s {
        assert i in Below(n);
      }
    }
  }

  lemma CoverIsPermutation(s: seq<nat>, n: nat)
    requires |s| == n && forall i: nat :: i < n ==> i in s
    ensures Permutation(s, n)
  {
    ElementsSize(s);
    assert Below(n) <= Elements(s);
    SubsetSize(Below(n), Elements(s));
    forall k | 0 <= k < |s| ensures s[k] < n {
      assert s[k] in Below(n);
    }
  }
}
