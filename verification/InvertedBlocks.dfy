/** Blocks in which one sender's nonces run against the block order, so that the dispatcher must
    send a later transaction of another class before an earlier one. */
module InvertedBlocks {
  import opened Permutations
  import opened Projections
  import opened Dispatcher
  import opened DispatcherRuns
  import opened DispatcherAnswers
  import opened DispatcherTheorems
  import opened DispatcherProgress
  import opened OrderExactness

  /** Transactions `i` and `j` share a sender, and `j` has the first nonce; all others have a
      sender of their own. */
  predicate Inverted(b: seq<Tx>, i: nat, j: nat) {
    forall k :: 0 <= k < |b| && b[k].User? ==>
      b[k].sender == (if k == j then i else k) && b[k].nonce == (if k == i then 1 else 0)
  }

  /** Two user transactions of different classes. */
  predicate Pair(b: seq<Tx>, i: nat, j: nat) {
    i < j < |b| && b[i].User? && b[j].User? && ClassOf(b[i]) != ClassOf(b[j])
  }

  /** Up to `j`, the transactions of the class of `j`. */
  function Early(b: seq<Tx>, j: nat): nat -> bool {
    (k: nat) => k <= j < |b| && ClassOf(b[k]) == ClassOf(b[j])
  }

  function Late(b: seq<Tx>, j: nat): nat -> bool {
    (k: nat) => !Early(b, j)(k)
  }

  /** First those, then the rest, each in block order. */
  function JFirst(b: seq<Tx>, j: nat): seq<nat> {
    Filter(Upto(|b|), Early(b, j)) + Filter(Upto(|b|), Late(b, j))
  }

  lemma InUpto(n: nat, x: nat)
    ensures x in Upto(n) <==> x < n
  {
    assert x < n ==> Upto(n)[x] == x;
  }

  lemma PartHas(b: seq<Tx>, keep: nat -> bool, x: nat)
    ensures x in Filter(Upto(|b|), keep) <==> x < |b| && keep(x)
    ensures Increasing(Filter(Upto(|b|), keep))
  {
    InUpto(|b|, x);
    FilterMember(Upto(|b|), keep, x);
    FilterIncreasing(Upto(|b|), keep);
  }

  lemma {:induction false} PartSizes(s: seq<nat>, f: nat -> bool, g: nat -> bool)
    requires forall x: nat :: f(x) != g(x)
    ensures |Filter(s, f)| + |Filter(s, g)| == |s|
  {
    if s != [] {
      PartSizes(s[..|s| - 1], f, g);
    }
  }

  lemma JFirstIsPermutation(b: seq<Tx>, j: nat)
    ensures Permutation(JFirst(b, j), |b|)
  {
    PartSizes(Upto(|b|), Early(b, j), Late(b, j));
    forall x: nat | x < |b| ensures x in JFirst(b, j) {
      PartHas(b, Early(b, j), x);
      PartHas(b, Late(b, j), x);
    }
    CoverIsPermutation(JFirst(b, j), |b|);
  }

  /** A part is in block order, and transactions of different parts and one class are, too. */
  lemma PairInOrder(b: seq<Tx>, j: nat, early: seq<nat>, late: seq<nat>, m: nat, n: nat)
    requires early == Filter(Upto(|b|), Early(b, j)) && late == Filter(Upto(|b|), Late(b, j))
    requires m < n < |early + late|
    ensures ClassOrder(b, (early + late)[m], (early + late)[n])
  {
    var x, y := (early + late)[m], (early + late)[n];
    PartHas(b, Early(b, j), x);
    PartHas(b, Late(b, j), y);
    if n < |early| {
      PartHas(b, Early(b, j), y);
      assert x in early && y in early;
    } else if m >= |early| {
      PartHas(b, Late(b, j), x);
      assert x in late && y in late;
    } else {
      assert x in early && y in late;
    }
  }

  lemma JFirstKeepsClasses(b: seq<Tx>, j: nat)
    ensures InBlockOrder(b, JFirst(b, j))
  {
    JFirstIsPermutation(b, j);
    var order := JFirst(b, j);
    forall m, n | 0 <= m < n < |order| ensures ClassOrder(b, order[m], order[n]) {
      PairInOrder(b, j, Filter(Upto(|b|), Early(b, j)), Filter(Upto(|b|), Late(b, j)), m, n);
    }
  }

  lemma LargestIsLast(s: seq<nat>, c: nat)
    requires Increasing(s) && c in s && forall y :: y in s ==> y <= c
    ensures s[|s| - 1] == c
  {
    assert s[|s| - 1] in s;
    ButLast(s, c);
  }

  lemma CheckpointIsLate(b: seq<Tx>, j: nat, c: nat)
    requires CheckpointAtEnd(b) && j < |b| && b[j].User? && IsCheckpoint(b, c)
    ensures c + 1 == |b| && Late(b, j)(c)
  {
    assert j < c;
    assert !Early(b, j)(c);
  }

  lemma LateEnds(b: seq<Tx>, j: nat, late: seq<nat>)
    requires |b| > 0 && late == Filter(Upto(|b|), Late(b, j)) && Late(b, j)(|b| - 1)
    ensures late != [] && late[|late| - 1] == |b| - 1
  {
    PartHas(b, Late(b, j), |b| - 1);
    forall y | y in late ensures y <= |b| - 1 {
      PartHas(b, Late(b, j), y);
    }
    LargestIsLast(late, |b| - 1);
  }

  /** A checkpoint ends the second part. */
  lemma CheckpointEndsLate(b: seq<Tx>, j: nat, c: nat)
    requires CheckpointAtEnd(b) && j < |b| && b[j].User? && IsCheckpoint(b, c)
    ensures JFirst(b, j) != [] && JFirst(b, j)[|JFirst(b, j)| - 1] == c
  {
    CheckpointIsLate(b, j, c);
    LateEnds(b, j, Filter(Upto(|b|), Late(b, j)));
  }

  lemma JFirstEndsWithCheckpoint(b: seq<Tx>, j: nat)
    requires CheckpointAtEnd(b) && j < |b| && b[j].User?
    ensures CheckpointLast(b, JFirst(b, j))
  {
    var order := JFirst(b, j);
    JFirstIsPermutation(b, j);
    forall k | 0 <= k < |order| && order[k] < |b| && b[order[k]].Checkpoint? ensures k + 1 == |b| {
      CheckpointEndsLate(b, j, order[k]);
    }
  }

  lemma OnlyMember(s: seq<nat>, x: nat)
    requires Distinct(s) && x in s && forall y :: y in s ==> y == x
    ensures s == [x]
  {
    assert Elements(s) == {x};
    ElementsSize(s);
    assert s[0] in s;
  }

  /** The transactions of a sender in a part of the block. */
  lemma MineInPart(b: seq<Tx>, keep: nat -> bool, sender: nat, y: nat)
    ensures y in Filter(Filter(Upto(|b|), keep), By(b, sender)) <==> keep(y) && FromSender(b, sender, y)
    ensures Distinct(Filter(Filter(Upto(|b|), keep), By(b, sender)))
  {
    PartHas(b, keep, y);
    FilterMember(Filter(Upto(|b|), keep), By(b, sender), y);
    FilterDistinct(Filter(Upto(|b|), keep), By(b, sender));
  }

  lemma OneInPart(b: seq<Tx>, keep: nat -> bool, sender: nat, x: nat)
    requires keep(x) && FromSender(b, sender, x) && forall y: nat :: keep(y) && FromSender(b, sender, y) ==> y == x
    ensures Filter(Filter(Upto(|b|), keep), By(b, sender)) == [x]
  {
    var mine := Filter(Filter(Upto(|b|), keep), By(b, sender));
    MineInPart(b, keep, sender, x);
    forall y | y in mine ensures y == x {
      MineInPart(b, keep, sender, y);
    }
    OnlyMember(mine, x);
  }

  /** The shared sender has `j` first, then `i`. */
  lemma SharedSender(b: seq<Tx>, i: nat, j: nat)
    requires Inverted(b, i, j) && Pair(b, i, j)
    ensures Filter(JFirst(b, j), By(b, i)) == [j, i]
  {
    FilterAppend(Filter(Upto(|b|), Early(b, j)), Filter(Upto(|b|), Late(b, j)), By(b, i));
    OneInPart(b, Early(b, j), i, j);
    OneInPart(b, Late(b, j), i, i);
  }

  /** The others have one transaction at most. */
  lemma OtherSender(b: seq<Tx>, i: nat, j: nat, sender: nat, t: nat)
    requires Inverted(b, i, j) && Pair(b, i, j) && sender != i && t < |Filter(JFirst(b, j), By(b, sender))|
    ensures t == 0 && HasNonce(b, sender, Filter(JFirst(b, j), By(b, sender))[t], 0)
  {
    var mine := Filter(JFirst(b, j), By(b, sender));
    JFirstIsPermutation(b, j);
    FilterDistinct(JFirst(b, j), By(b, sender));
    FilterMember(JFirst(b, j), By(b, sender), mine[t]);
    FilterMember(JFirst(b, j), By(b, sender), mine[0]);
    assert mine[t] == sender && mine[0] == sender;
  }

  /** Such a block can be sent, from accounts that have not been used. */
  lemma InvertedIsDispatchable(b: seq<Tx>, i: nat, j: nat)
    requires Inverted(b, i, j) && Pair(b, i, j) && CheckpointAtEnd(b)
    ensures Dispatchable(b, NextOf(map[]), JFirst(b, j))
  {
    var order := JFirst(b, j);
    JFirstIsPermutation(b, j);
    JFirstKeepsClasses(b, j);
    JFirstEndsWithCheckpoint(b, j);
    forall sender: nat ensures Numbered(b, sender, NextOf(map[])(sender), Filter(order, By(b, sender))) {
      if sender == i {
        SharedSender(b, i, j);
        assert HasNonce(b, i, j, 0) && HasNonce(b, i, i, 1);
      } else {
        forall t | 0 <= t < |Filter(order, By(b, sender))|
          ensures HasNonce(b, sender, Filter(order, By(b, sender))[t], 0 + t)
        {
          OtherSender(b, i, j, sender, t);
        }
      }
    }
  }

  /** And only with `j` before `i`. */
  lemma SentInverted(b: seq<Tx>, order: seq<nat>, i: nat, j: nat)
    requires Inverted(b, i, j) && Pair(b, i, j) && Dispatchable(b, NextOf(map[]), order)
    ensures InOrder(order, j, i)
  {
    var mine := Filter(order, By(b, i));
    assert Numbered(b, i, NextOf(map[])(i), mine);
    FilterMember(order, By(b, i), i);
    FilterMember(order, By(b, i), j);
    var s := PositionOf(mine, j);
    var t := PositionOf(mine, i);
    forall k | 0 <= k < |mine| ensures mine[k] == (if k == 0 then j else i) && k < 2 {
      NonceInMine(b, order, i, j, k);
    }
    assert s == 0 && t == 1;
    FilterKeepsPairs(order, By(b, i), j, i);
  }

  lemma NonceInMine(b: seq<Tx>, order: seq<nat>, i: nat, j: nat, k: nat)
    requires Inverted(b, i, j) && Pair(b, i, j) && Dispatchable(b, NextOf(map[]), order)
    requires k < |Filter(order, By(b, i))|
    ensures Filter(order, By(b, i))[k] == (if k == 0 then j else i) && k < 2
  {
    var mine := Filter(order, By(b, i));
    assert Numbered(b, i, NextOf(map[])(i), mine);
    assert HasNonce(b, i, mine[k], 0 + k);
    FilterFits(order, By(b, i));
  }
}
