/** Projections of a sequence onto the elements a predicate keeps. */
module Projections {
  function Filter<T>(s: seq<T>, keep: T -> bool): seq<T> {
    if s == [] then []
    else
      var n := |s| - 1;
      Filter(s[..n], keep) + if keep(s[n]) then [s[n]] else []
  }

  lemma FilterLast<T>(s: seq<T>, x: T, keep: T -> bool)
    ensures Filter(s + [x], keep) == Filter(s, keep) + if keep(x) then [x] else []
  {
    assert (s + [x])[..|s|] == s;
  }

  lemma {:induction false} FilterAppend<T>(s: seq<T>, t: seq<T>, keep: T -> bool)
    ensures Filter(s + t, keep) == Filter(s, keep) + Filter(t, keep)
  {
    if t == [] {
      assert s + t == s;
    } else {
      var n := |t| - 1;
      FilterAppend(s, t[..n], keep);
      assert t == t[..n] + [t[n]];
      assert s + t == (s + t[..n]) + [t[n]];
      FilterLast(s + t[..n], t[n], keep);
      Associate(Filter(s, keep), Filter(t[..n], keep), if keep(t[n]) then [t[n]] else []);
    }
  }

  lemma Associate<T>(a: seq<T>, b: seq<T>, c: seq<T>)
    ensures (a + b) + c == a + (b + c)
  {
  }

  lemma {:induction false} FilterAll<T>(s: seq<T>, keep: T -> bool)
    requires forall i :: 0 <= i < |s| ==> keep(s[i])
    ensures Filter(s, keep) == s
  {
    if s != [] {
      FilterAll(s[..|s| - 1], keep);
      assert s == s[..|s| - 1] + [s[|s| - 1]];
    }
  }

  lemma {:induction false} FilterNone<T>(s: seq<T>, keep: T -> bool)
    requires forall i :: 0 <= i < |s| ==> !keep(s[i])
    ensures Filter(s, keep) == []
  {
    if s != [] {
      FilterNone(s[..|s| - 1], keep);
    }
  }

  lemma {:induction false} FilterEmpty<T>(s: seq<T>, keep: T -> bool, k: nat)
    requires Filter(s, keep) == [] && k < |s|
    ensures !keep(s[k])
  {
    if k < |s| - 1 {
      FilterEmpty(s[..|s| - 1], keep, k);
    }
  }

  /** The last element kept: nothing after it is kept. */
  lemma {:induction false} LastKept<T>(s: seq<T>, keep: T -> bool) returns (k: nat)
    requires Filter(s, keep) != []
    ensures k < |s| && keep(s[k]) && s[k] == Filter(s, keep)[|Filter(s, keep)| - 1]
    ensures forall j :: k < j < |s| ==> !keep(s[j])
    ensures Filter(s[..k] + s[k + 1..], keep) == Filter(s, keep)[..|Filter(s, keep)| - 1]
  {
    var n := |s| - 1;
    assert s == s[..n] + [s[n]];
    if keep(s[n]) {
      k := n;
      assert s[..k] + s[k + 1..] == s[..n];
    } else {
      k := LastKept(s[..n], keep);
      var t := s[..k] + s[k + 1..];
      assert t == (s[..n][..k] + s[..n][k + 1..]) + [s[n]];
      FilterLast(s[..n][..k] + s[..n][k + 1..], s[n], keep);
    }
  }

  lemma {:induction false} FilterMember<T>(s: seq<T>, keep: T -> bool, x: T)
    ensures x in Filter(s, keep) <==> x in s && keep(x)
  {
    if s != [] {
      FilterMember(s[..|s| - 1], keep, x);
      assert s == s[..|s| - 1] + [s[|s| - 1]];
    }
  }

  lemma FilterSkip<T>(s: seq<T>, k: nat, keep: T -> bool)
    requires k < |s| && !keep(s[k])
    ensures Filter(s[..k] + s[k + 1..], keep) == Filter(s, keep)
  {
    var a, b, x := s[..k], s[k + 1..], s[k];
    assert s == (a + [x]) + b;
    FilterAppend(a + [x], b, keep);
    FilterAppend(a, b, keep);
    FilterLast(a, x, keep);
    assert Filter(a, keep) + [] == Filter(a, keep);
  }
}
