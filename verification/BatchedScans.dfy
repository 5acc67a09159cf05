/** Nonces alone do not decide in which orders a block is sent: what a scan finds, it sends at once. */
module BatchedScans {
  import opened Options
  import opened Projections
  import opened Dispatcher
  import opened SerialOrders
  import opened DispatcherRuns
  import opened DispatcherTheorems
  import opened DispatcherProgress
  import opened OrderExactness
  import opened IdleScans

  /** Two cross-VM transactions, and a Move transaction of the sender of the first one. */
  function Block(): seq<Tx> {
    var program := WriteOne(None, 0);
    [User(CrossTxAptosOrigin, 0, 0, program), User(CrossTxAptosOrigin, 1, 0, program), User(AptosTx, 0, 1, program)]
  }

  predicate NoneSent(x: Sending) {
    x.sent == [] && x.nonces == map[] && x.index.cross == 0 && x.index.aptos <= 2 && x.index.ethereum <= 3
  }

  predicate CrossSent(x: Sending) {
    x.sent == [0, 1] && x.nonces == map[0 := 0, 1 := 0] && 2 <= x.index.cross <= 3 && x.index.aptos <= 2 &&
      x.index.ethereum <= 3
  }

  predicate AllSent(x: Sending) {
    x.sent == [0, 1, 2] && x.index == Per(3, x.index.ethereum, x.index.cross) && 2 <= x.index.cross <= 3 &&
      x.index.ethereum <= 3
  }

  predicate Possible(x: Sending) { NoneSent(x) || CrossSent(x) || AllSent(x) }

  /** The scan of the first cross-VM transaction finds the second one, too. */
  lemma FirstScan(x: Sending, p: Pointer)
    requires NoneSent(x) && IdleScan(Block(), x, p).Some?
    ensures Possible(IdleScan(Block(), x, p).value)
  {
    var s := Scanned(x.index.Get(p), x.nonces, []);
    if p == Cross {
      assert ([] + [0]) + [1] == [0, 1] && [] + [0, 1] == [0, 1];
      assert ScanFrom(Block(), Cross, NONE, 0, Scanned(1, map[0 := 0], [] + [0]))
             == Scanned(3, map[0 := 0, 1 := 0], [0, 1]);
    }
  }

  lemma NextScan(x: Sending, p: Pointer)
    requires CrossSent(x) && IdleScan(Block(), x, p).Some?
    ensures Possible(IdleScan(Block(), x, p).value)
  {
    assert [0, 1] + [] == [0, 1] && [0, 1] + [2] == [0, 1, 2] && [] + [2] == [2];
    if p == Aptos && x.index.aptos == 2 {
      assert Decide(Block()[2], Aptos, NONE, x.nonces, 2, 3) == Take(x.nonces[0 := 1]);
      assert ScanFrom(Block(), Aptos, NONE, 2, Scanned(3, x.nonces[0 := 1], [2])) == Scanned(3, x.nonces[0 := 1], [2]);
    }
  }

  lemma LastScan(x: Sending, p: Pointer)
    requires AllSent(x) && IdleScan(Block(), x, p).Some?
    ensures Possible(IdleScan(Block(), x, p).value)
  {
    assert [0, 1, 2] + [] == [0, 1, 2];
  }

  lemma {:induction false} ScansArePossible(ps: seq<Pointer>)
    ensures ScanAll(Block(), map[], ps).Some? ==> Possible(ScanAll(Block(), map[], ps).value)
  {
    if ps != [] {
      ScansArePossible(ps[..|ps| - 1]);
      var before, p := ScanAll(Block(), map[], ps[..|ps| - 1]), ps[|ps| - 1];
      if before.Some? && IdleScan(Block(), before.value, p).Some? {
        if NoneSent(before.value) {
          FirstScan(before.value, p);
        } else if CrossSent(before.value) {
          NextScan(before.value, p);
        } else {
          LastScan(before.value, p);
        }
      }
    }
  }

  const OTHER: seq<nat> := [0, 2, 1]

  lemma FilterOther(keep: nat -> bool)
    ensures Filter(OTHER, keep) ==
            (if keep(0) then [0] else []) + (if keep(2) then [2] else []) + (if keep(1) then [1] else [])
  {
    var none: seq<nat> := [];
    assert OTHER == ((none + [0]) + [2]) + [1];
    FilterLast(none, 0, keep);
    FilterLast(none + [0], 2, keep);
    FilterLast((none + [0]) + [2], 1, keep);
  }

  /** The nonces let the Move transaction overtake the second one. */
  lemma NoncesAllow()
    ensures Dispatchable(Block(), NextOf(map[]), OTHER)
  {
    forall i: nat | i < 3 ensures i in OTHER {
      assert OTHER[0] == 0 && OTHER[1] == 2 && OTHER[2] == 1;
    }
    forall sender: nat ensures Numbered(Block(), sender, 0, Filter(OTHER, By(Block(), sender))) {
      FilterOther(By(Block(), sender));
      assert sender == 0 ==> HasNonce(Block(), sender, 0, 0) && HasNonce(Block(), sender, 2, 1);
      assert sender == 1 ==> HasNonce(Block(), sender, 1, 0);
    }
  }

  /** A block that could be sent in another order as far as its nonces go, and always is sent in
      block order. */
  lemma BatchesKeepOrder()
    ensures Dispatchable(Block(), NextOf(map[]), OTHER) && !SameOrder(Block(), OTHER, Upto(3))
    ensures KeepsSequentialCache(Block(), map[])
  {
    NoncesAllow();
    MachineTells();
    forall ps: seq<Pointer>, order: seq<nat> | SendsAll(Block(), map[], ps, order)
      ensures SameOrder(Block(), order, Upto(3))
    {
      ScansArePossible(ps);
      assert order == [0, 1, 2] == Upto(3);
    }
    SequentialCacheOfBlockExactlyIf(Block(), map[]);
  }

  lemma EveryoneIsSeen(i: nat)
    requires i < 3
    ensures InView(Block(), Aptos, i)
  {
    assert ClassOf(Block()[0]) == Cross && ClassOf(Block()[1]) == Cross && ClassOf(Block()[2]) == Aptos;
  }

  lemma AllSeen(s: seq<nat>)
    requires forall k :: 0 <= k < |s| ==> s[k] < 3
    ensures Filter(s, Sees(Block(), Aptos)) == s
  {
    forall k | 0 <= k < |s| ensures Sees(Block(), Aptos)(s[k]) {
      EveryoneIsSeen(s[k]);
    }
    FilterAll(s, Sees(Block(), Aptos));
  }

  lemma MachineTells()
    ensures !SameOrder(Block(), OTHER, Upto(3))
  {
    AllSeen(OTHER);
    AllSeen(Upto(3));
    assert OTHER[1] == 2 && Upto(3)[1] == 1;
  }
}
