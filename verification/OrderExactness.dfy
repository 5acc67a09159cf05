/** The order each machine sees is all that matters, and all of it matters: two orders of a block
    have the same outcome whatever its programs do if and only if both machines see the same. */
module OrderExactness {
  import opened Options
  import opened TransactionPrograms
  import opened Permutations
  import opened Projections
  import opened Dispatcher
  import opened SerialOrders

  /** The same kinds of transactions in the same places, with any senders, nonces and programs. */
  predicate SameKinds(a: seq<Tx>, b: seq<Tx>) {
    |a| == |b| && forall k :: 0 <= k < |a| ==> a[k].User? == b[k].User? && (a[k].User? ==> a[k].kind == b[k].kind)
  }

  /** Whatever isolated programs the transactions run, the two orders have the same outcome. */
  ghost predicate AlwaysSameOutcome(block: seq<Tx>, base: BaseView, s: seq<nat>, t: seq<nat>) {
    forall b: seq<Tx>, aptos: iset<Key>, ethereum: iset<Key> ::
      SameKinds(block, b) && Isolated(b, aptos, ethereum) ==> SameOutcome(b, Serial(b, base, s), Serial(b, base, t))
  }

  // ---------------------------------------------------------------- an inverted pair

  predicate InOrder(s: seq<nat>, i: nat, j: nat) {
    exists a, b :: 0 <= a < b < |s| && s[a] == i && s[b] == j
  }

  lemma FirstDifference(a: seq<nat>, b: seq<nat>) returns (k: nat)
    requires |a| == |b| && a != b
    ensures k < |a| && a[k] != b[k] && a[..k] == b[..k]
  {
    k := 0;
    while a[k] == b[k]
      invariant k < |a| && a[..k] == b[..k]
      invariant exists m :: k <= m < |a| && a[m] != b[m]
      decreases |a| - k
    {
      assert a[..k + 1] == a[..k] + [a[k]] && b[..k + 1] == b[..k] + [b[k]];
      k := k + 1;
    }
  }

  lemma LaterInList(a: seq<nat>, k: nat, x: nat)
    requires Distinct(a) && k < |a| && x in a && x != a[k] && x !in a[..k]
    ensures InOrder(a, a[k], x)
  {
    var m :| 0 <= m < |a| && a[m] == x;
    assert a == a[..k] + a[k..];
    assert k < m;
  }

  /** Different orders of the same elements disagree on some pair. */
  lemma Inversion(a: seq<nat>, b: seq<nat>) returns (i: nat, j: nat)
    requires Distinct(a) && Distinct(b) && |a| == |b| && a != b && forall x :: x in a <==> x in b
    ensures i != j && InOrder(a, i, j) && InOrder(b, j, i)
  {
    var k := FirstDifference(a, b);
    i, j := a[k], b[k];
    assert i in b && j in a;
    NotInPrefix(a, k);
    NotInPrefix(b, k);
    LaterInList(a, k, j);
    LaterInList(b, k, i);
  }

  lemma NotInPrefix(a: seq<nat>, k: nat)
    requires Distinct(a) && k < |a|
    ensures a[k] !in a[..k]
  {
  }

  lemma {:induction false} FilterKeepsPairs(s: seq<nat>, keep: nat -> bool, i: nat, j: nat)
    requires InOrder(Filter(s, keep), i, j)
    ensures InOrder(s, i, j)
  {
    var init := s[..|s| - 1];
    var f := Filter(init, keep);
    var a, b :| 0 <= a < b < |Filter(s, keep)| && Filter(s, keep)[a] == i && Filter(s, keep)[b] == j;
    if b < |f| {
      assert f[a] == i && f[b] == j;
      FilterKeepsPairs(init, keep, i, j);
      var a', b' :| 0 <= a' < b' < |init| && init[a'] == i && init[b'] == j;
      assert s[a'] == i && s[b'] == j;
    } else {
      assert f[a] == i;
      FilterMember(init, keep, i);
      var a' :| 0 <= a' < |init| && init[a'] == i;
      assert s[a'] == i && s[|s| - 1] == j;
    }
  }

  lemma {:induction false} FilterDistinct(s: seq<nat>, keep: nat -> bool)
    requires Distinct(s)
    ensures Distinct(Filter(s, keep))
  {
    if s != [] {
      var init, last := s[..|s| - 1], s[|s| - 1];
      FilterDistinct(init, keep);
      forall k | 0 <= k < |Filter(init, keep)| ensures Filter(init, keep)[k] != last {
        FilterMember(init, keep, Filter(init, keep)[k]);
      }
    }
  }

  // ---------------------------------------------------------------- programs that tell

  function WriteOne(value: Option<nat>, output: Output): Program {
    (h: seq<Bytes>) => Finish(if value.Some? then map[0 := value] else map[], output)
  }

  /** Transaction `i` writes one value, `j` another, and the rest write nothing. All of them
      output their place in the block. */
  function ValueOf(i: nat, j: nat, k: nat): Option<nat> {
    if k == i then Some(1) else if k == j then Some(2) else None
  }

  function WithProgram(tx: Tx, program: Program): Tx {
    match tx
    case User(kind, sender, nonce, _) => User(kind, sender, nonce, program)
    case Checkpoint(_) => Checkpoint(program)
  }

  function Telling(block: seq<Tx>, i: nat, j: nat): (b: seq<Tx>)
    ensures |b| == |block|
    ensures forall k :: 0 <= k < |block| ==> b[k] == WithProgram(block[k], WriteOne(ValueOf(i, j, k), k))
  {
    seq(|block|, k requires 0 <= k < |block| => WithProgram(block[k], WriteOne(ValueOf(i, j, k), k)))
  }

  lemma AloneWritesOne(value: Option<nat>, output: Output, base: BaseView, cache: Cache)
    ensures Alone(WriteOne(value, output), base, cache)
            == Some(Result(if value.Some? then map[0 := value] else map[], output))
  {
    AloneIs(WriteOne(value, output), base, cache, [], if value.Some? then map[0 := value] else map[], output);
  }

  /** The value of the key after some transactions: that of the last one that wrote it. */
  function LastValue(order: seq<nat>, i: nat, j: nat): Option<nat> {
    if order == [] then None
    else
      var v := ValueOf(i, j, order[|order| - 1]);
      if v.Some? then v else LastValue(order[..|order| - 1], i, j)
  }

  lemma {:induction false} SerialTells(block: seq<Tx>, base: BaseView, i: nat, j: nat, order: seq<nat>)
    requires forall k :: 0 <= k < |order| ==> order[k] < |block|
    ensures var r := Serial(Telling(block, i, j), base, order);
            && r.Some?
            && |r.value.log| == |order| && (forall k :: 0 <= k < |order| ==> r.value.log[k] == (order[k], order[k]))
            && (LastValue(order, i, j).Some? ==> 0 in r.value.cache && r.value.cache[0] == LastValue(order, i, j))
  {
    if order != [] {
      var init, k := order[..|order| - 1], order[|order| - 1];
      SerialTells(block, base, i, j, init);
      var r := Serial(Telling(block, i, j), base, init).value;
      AloneWritesOne(ValueOf(i, j, k), k, base, r.cache);
      assert Telling(block, i, j)[k].program == WriteOne(ValueOf(i, j, k), k);
    }
  }

  lemma {:induction false} LastOfPair(order: seq<nat>, i: nat, j: nat)
    requires Distinct(order) && i != j && InOrder(order, i, j)
    ensures LastValue(order, i, j) == Some(2) && LastValue(order, j, i) == Some(1)
  {
    var a, b :| 0 <= a < b < |order| && order[a] == i && order[b] == j;
    var init, k := order[..|order| - 1], order[|order| - 1];
    if b < |order| - 1 {
      assert init[a] == i && init[b] == j;
      assert k != i && k != j;
      LastOfPair(init, i, j);
    }
  }

  // ---------------------------------------------------------------- the two directions

  lemma {:induction false} FilterAgrees(s: seq<nat>, f: nat -> bool, g: nat -> bool)
    requires forall i: nat :: f(i) == g(i)
    ensures Filter(s, f) == Filter(s, g)
  {
    if s != [] {
      FilterAgrees(s[..|s| - 1], f, g);
    }
  }

  lemma SameKindsSameOrder(a: seq<Tx>, b: seq<Tx>, s: seq<nat>, t: seq<nat>)
    requires SameKinds(a, b) && SameOrder(a, s, t)
    ensures SameOrder(b, s, t)
  {
    forall q: Pointer, r: seq<nat> ensures Filter(r, Sees(a, q)) == Filter(r, Sees(b, q)) {
      FilterAgrees(r, Sees(a, q), Sees(b, q));
    }
  }

  lemma TellingIsIsolated(block: seq<Tx>, q: Pointer, i: nat, j: nat)
    requires q != Cross && InView(block, q, i) && InView(block, q, j)
    ensures SameKinds(block, Telling(block, i, j))
    ensures Isolated(Telling(block, i, j),
                     if q == Aptos then iset{0} else iset{}, if q == Aptos then iset{} else iset{0})
  {
    var b := Telling(block, i, j);
    forall k | 0 <= k < |b|
      ensures b[k] == WithProgram(block[k], b[k].program) && b[k].program == WriteOne(ValueOf(i, j, k), k)
    {
    }
  }

  /** If a machine sees two transactions in different orders, some programs make a difference. */
  lemma InversionTells(block: seq<Tx>, base: BaseView, s: seq<nat>, t: seq<nat>, q: Pointer, i: nat, j: nat)
    requires Permutation(s, |block|) && Permutation(t, |block|) && q != Cross && i != j
    requires InView(block, q, i) && InView(block, q, j) && InOrder(s, i, j) && InOrder(t, j, i)
    ensures !AlwaysSameOutcome(block, base, s, t)
  {
    TellingIsIsolated(block, q, i, j);
    SerialTells(block, base, i, j, s);
    SerialTells(block, base, i, j, t);
    LastOfPair(s, i, j);
    LastOfPair(t, j, i);
    var b := Telling(block, i, j);
    assert !SameOutcome(b, Serial(b, base, s), Serial(b, base, t));
  }

  /** Two transactions that a machine sees in different orders. */
  lemma InversionInView(block: seq<Tx>, s: seq<nat>, t: seq<nat>, q: Pointer) returns (i: nat, j: nat)
    requires Permutation(s, |block|) && Permutation(t, |block|)
    requires Filter(s, Sees(block, q)) != Filter(t, Sees(block, q))
    ensures i != j && InView(block, q, i) && InView(block, q, j) && InOrder(s, i, j) && InOrder(t, j, i)
  {
    var keep := Sees(block, q);
    var a, b := Filter(s, keep), Filter(t, keep);
    FilterDistinct(s, keep);
    FilterDistinct(t, keep);
    forall x: nat ensures (x in a <==> x in b) && (x in a ==> InView(block, q, x)) {
      FilterMember(s, keep, x);
      FilterMember(t, keep, x);
      assert x < |block| ==> x in s && x in t;
    }
    assert Elements(a) == Elements(b);
    ElementsSize(a);
    ElementsSize(b);
    i, j := Inversion(a, b);
    assert i in a && j in a;
    FilterKeepsPairs(s, keep, i, j);
    FilterKeepsPairs(t, keep, j, i);
  }

  lemma ViewsDiffer(block: seq<Tx>, base: BaseView, s: seq<nat>, t: seq<nat>, q: Pointer)
    requires Permutation(s, |block|) && Permutation(t, |block|) && q != Cross
    requires Filter(s, Sees(block, q)) != Filter(t, Sees(block, q))
    ensures !AlwaysSameOutcome(block, base, s, t)
  {
    var i, j := InversionInView(block, s, t, q);
    InversionTells(block, base, s, t, q, i, j);
  }

  /** Two orders of a block have the same outcome for every choice of isolated programs exactly
      when each machine sees its own and the cross-VM transactions in the same order. */
  lemma SameOrderIsExact(block: seq<Tx>, base: BaseView, s: seq<nat>, t: seq<nat>)
    requires Permutation(s, |block|) && Permutation(t, |block|)
    ensures SameOrder(block, s, t) <==> AlwaysSameOutcome(block, base, s, t)
  {
    if SameOrder(block, s, t) {
      forall b: seq<Tx>, aptos: iset<Key>, ethereum: iset<Key> | SameKinds(block, b) && Isolated(b, aptos, ethereum)
        ensures SameOutcome(b, Serial(b, base, s), Serial(b, base, t))
      {
        SameKindsSameOrder(block, b, s, t);
        SameOrderSameOutcome(b, base, aptos, ethereum, s, t);
      }
    } else if Filter(s, Sees(block, Aptos)) != Filter(t, Sees(block, Aptos)) {
      ViewsDiffer(block, base, s, t, Aptos);
    } else {
      ViewsDiffer(block, base, s, t, Ethereum);
    }
  }
}
