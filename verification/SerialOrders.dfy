/** Executing transactions one after the other: when two orders mean the same. */
module SerialOrders {
  import opened Options
  import opened TransactionPrograms
  import opened Projections
  import opened Dispatcher

  type Event = (nat, Output)

  /** The cache and the outputs, in order, after executing some transactions of a block. */
  datatype Ran = Ran(cache: Cache, log: seq<Event>)

  ghost function Then(block: seq<Tx>, base: BaseView, ran: Option<Ran>, i: nat): Option<Ran> {
    if ran.None? || i >= |block| then None
    else
      match Alone(block[i].program, base, ran.value.cache)
      case None => None
      case Some(r) => Some(Ran(ran.value.cache + r.writes, ran.value.log + [(i, r.output)]))
  }

  /** One whole transaction after the other; `None` if one of them does not finish. */
  ghost function Serial(block: seq<Tx>, base: BaseView, order: seq<nat>): Option<Ran> {
    if order == [] then Some(Ran(map[], []))
    else Then(block, base, Serial(block, base, order[..|order| - 1]), order[|order| - 1])
  }

  lemma SerialLast(block: seq<Tx>, base: BaseView, order: seq<nat>, i: nat)
    ensures Serial(block, base, order + [i]) == Then(block, base, Serial(block, base, order), i)
  {
    assert (order + [i])[..|order|] == order;
  }

  lemma {:induction false} LogFollows(block: seq<Tx>, base: BaseView, order: seq<nat>)
    ensures Serial(block, base, order).Some? ==>
              var log := Serial(block, base, order).value.log;
              |log| == |order| && forall k :: 0 <= k < |order| ==> log[k].0 == order[k] < |block|
  {
    if order != [] {
      LogFollows(block, base, order[..|order| - 1]);
    }
  }

  /** The value a key has after some transactions: what the last one of them that wrote it wrote, and
      what it was before the block if none did. */
  ghost function Latest(block: seq<Tx>, base: BaseView, order: seq<nat>, key: Key): Bytes
    requires Serial(block, base, order).Some?
  {
    if order == [] then base(key)
    else
      var init, i := order[..|order| - 1], order[|order| - 1];
      var writes := Alone(block[i].program, base, Serial(block, base, init).value.cache).value.writes;
      if key in writes then writes[key] else Latest(block, base, init, key)
  }

  /** What a transaction reads next, after those before it, is the latest value of the key. */
  lemma {:induction false} ReadsLastWrite(block: seq<Tx>, base: BaseView, order: seq<nat>, key: Key)
    requires Serial(block, base, order).Some?
    ensures Lookup(base, Serial(block, base, order).value.cache, key) == Latest(block, base, order, key)
  {
    if order != [] {
      ReadsLastWrite(block, base, order[..|order| - 1], key);
    }
  }

  // ---------------------------------------------------------------- dependence

  /** Transactions of `q` and cross-VM transactions: nobody else disturbs those of `q`. */
  predicate InView(block: seq<Tx>, q: Pointer, i: nat) {
    && i < |block|
    && (|| block[i].Checkpoint? || IsCrossVm(block[i])
        || (q == Aptos && IsMove(block[i])) || (q == Ethereum && IsEthereum(block[i])))
  }

  function Sees(block: seq<Tx>, q: Pointer): nat -> bool {
    (i: nat) => InView(block, q, i)
  }

  function SeesEvent(block: seq<Tx>, q: Pointer): Event -> bool {
    (e: Event) => InView(block, q, e.0)
  }

  /** The same order of transactions, as far as each of the two virtual machines can tell. */
  predicate SameOrder(block: seq<Tx>, s: seq<nat>, t: seq<nat>) {
    && Filter(s, Sees(block, Aptos)) == Filter(t, Sees(block, Aptos))
    && Filter(s, Sees(block, Ethereum)) == Filter(t, Sees(block, Ethereum))
  }

  /** The same final cache, and for either machine the same outputs in the same order. */
  predicate SameOutcome(block: seq<Tx>, a: Option<Ran>, b: Option<Ran>) {
    && a.Some? == b.Some?
    && (a.Some? ==>
          && a.value.cache == b.value.cache
          && Filter(a.value.log, SeesEvent(block, Aptos)) == Filter(b.value.log, SeesEvent(block, Aptos))
          && Filter(a.value.log, SeesEvent(block, Ethereum)) == Filter(b.value.log, SeesEvent(block, Ethereum)))
  }

  /** Move transactions and Ethereum transactions touch different keys. */
  ghost predicate Isolated(block: seq<Tx>, aptos: iset<Key>, ethereum: iset<Key>) {
    && aptos !! ethereum
    && forall i :: 0 <= i < |block| ==>
         && (IsMove(block[i]) ==> Footprint(block[i].program, aptos))
         && (IsEthereum(block[i]) ==> Footprint(block[i].program, ethereum))
  }

  predicate Independent(block: seq<Tx>, i: nat, j: nat) {
    && i < |block| && j < |block|
    && ((IsMove(block[i]) && IsEthereum(block[j])) || (IsEthereum(block[i]) && IsMove(block[j])))
  }

  lemma ThenKeepsSame(block: seq<Tx>, base: BaseView, a: Option<Ran>, b: Option<Ran>, i: nat)
    requires SameOutcome(block, a, b)
    ensures SameOutcome(block, Then(block, base, a, i), Then(block, base, b, i))
  {
    var a', b' := Then(block, base, a, i), Then(block, base, b, i);
    if a'.Some? {
      var e := a'.value.log[|a'.value.log| - 1];
      forall q: Pointer
        ensures var last := if SeesEvent(block, q)(e) then [e] else [];
                && Filter(a'.value.log, SeesEvent(block, q)) == Filter(a.value.log, SeesEvent(block, q)) + last
                && Filter(b'.value.log, SeesEvent(block, q)) == Filter(b.value.log, SeesEvent(block, q)) + last
      {
        FilterLast(a.value.log, e, SeesEvent(block, q));
        FilterLast(b.value.log, e, SeesEvent(block, q));
      }
    }
  }

  lemma SwapKeepsLog(block: seq<Tx>, log: seq<Event>, e: Event, f: Event, q: Pointer)
    requires Independent(block, e.0, f.0) && q != Cross
    ensures Filter(log + [e] + [f], SeesEvent(block, q)) == Filter(log + [f] + [e], SeesEvent(block, q))
  {
    var keep := SeesEvent(block, q);
    FilterLast(log, e, keep);
    FilterLast(log, f, keep);
    FilterLast(log + [e], f, keep);
    FilterLast(log + [f], e, keep);
    NotBothSeen(block, e.0, f.0, q);
  }

  lemma NotBothSeen(block: seq<Tx>, i: nat, j: nat, q: Pointer)
    requires Independent(block, i, j) && q != Cross
    ensures !(InView(block, q, i) && InView(block, q, j))
  {
  }

  /** What `j` does alone is what it does after `i`. */
  lemma Undisturbed(block: seq<Tx>, base: BaseView, aptos: iset<Key>, ethereum: iset<Key>, cache: Cache, i: nat, j: nat)
    requires Isolated(block, aptos, ethereum) && Independent(block, i, j) && Alone(block[i].program, base, cache).Some?
    ensures var w := Alone(block[i].program, base, cache).value.writes;
            && Alone(block[j].program, base, cache + w) == Alone(block[j].program, base, cache)
            && (Alone(block[j].program, base, cache).Some? ==>
               w.Keys !! Alone(block[j].program, base, cache).value.writes.Keys)
  {
    var (ki, kj) := if IsMove(block[i]) then (aptos, ethereum) else (ethereum, aptos);
    AloneWrites(block[i].program, base, cache, ki);
    AloneSurvives(block[j].program, base, cache, Alone(block[i].program, base, cache).value.writes, kj);
    if Alone(block[j].program, base, cache).Some? {
      AloneWrites(block[j].program, base, cache, kj);
    }
  }

  lemma MergesCommute(cache: Cache, a: Cache, b: Cache)
    requires a.Keys !! b.Keys
    ensures cache + a + b == cache + b + a
  {
  }

  /** A Move and an Ethereum transaction commute. */
  lemma Commute(block: seq<Tx>, base: BaseView, aptos: iset<Key>, ethereum: iset<Key>, ran: Option<Ran>, i: nat, j: nat)
    requires Isolated(block, aptos, ethereum) && Independent(block, i, j)
    ensures SameOutcome(block, Then(block, base, Then(block, base, ran, i), j),
                        Then(block, base, Then(block, base, ran, j), i))
  {
    if ran.Some? {
      var cache := ran.value.cache;
      var ri, rj := Alone(block[i].program, base, cache), Alone(block[j].program, base, cache);
      if ri.Some? {
        Undisturbed(block, base, aptos, ethereum, cache, i, j);
      }
      if rj.Some? {
        Undisturbed(block, base, aptos, ethereum, cache, j, i);
      }
      if ri.Some? && rj.Some? {
        MergesCommute(cache, ri.value.writes, rj.value.writes);
        SwapKeepsLog(block, ran.value.log, (i, ri.value.output), (j, rj.value.output), Aptos);
        SwapKeepsLog(block, ran.value.log, (i, ri.value.output), (j, rj.value.output), Ethereum);
      }
    }
  }

  /** A transaction can be moved past later ones it is independent of. */
  lemma {:induction false} MoveToEnd(
    block: seq<Tx>, base: BaseView, aptos: iset<Key>, ethereum: iset<Key>, t: seq<nat>, k: nat)
    requires Isolated(block, aptos, ethereum) && k < |t|
    requires forall j :: k < j < |t| ==> Independent(block, t[k], t[j])
    ensures SameOutcome(block, Serial(block, base, t), Serial(block, base, t[..k] + t[k + 1..] + [t[k]]))
  {
    var n := |t| - 1;
    var x, y := t[k], t[n];
    assert t == t[..n] + [y];
    if k == n {
      assert t[..k] + t[k + 1..] + [x] == t;
    } else {
      var u := t[..n][..k] + t[..n][k + 1..];
      MoveToEnd(block, base, aptos, ethereum, t[..n], k);
      ThenKeepsSame(block, base, Serial(block, base, t[..n]), Serial(block, base, u + [x]), y);
      SerialLast(block, base, u, x);
      Commute(block, base, aptos, ethereum, Serial(block, base, u), x, y);
      SerialLast(block, base, u, y);
      SerialLast(block, base, u + [y], x);
      assert t[..k] + t[k + 1..] + [x] == u + [y] + [x];
    }
  }

  /** The last element of one order in another order with the same projection. */
  lemma FindKept(s: seq<nat>, x: nat, t: seq<nat>, keep: nat -> bool) returns (k: nat)
    requires Filter(s + [x], keep) == Filter(t, keep) && keep(x)
    ensures k < |t| && t[k] == x && Filter(s, keep) == Filter(t[..k] + t[k + 1..], keep)
    ensures forall j :: k < j < |t| ==> !keep(t[j])
  {
    FilterLast(s, x, keep);
    k := LastKept(t, keep);
    assert Filter(t, keep)[..|Filter(t, keep)| - 1] == Filter(s, keep);
  }

  lemma FindLastCross(block: seq<Tx>, s: seq<nat>, x: nat, t: seq<nat>) returns (k: nat)
    requires SameOrder(block, s + [x], t) && x < |block| && ClassOf(block[x]) == Cross
    requires forall i :: 0 <= i < |t| ==> t[i] < |block|
    ensures k + 1 == |t| && t[k] == x && SameOrder(block, s, t[..k] + t[k + 1..])
  {
    k := FindKept(s, x, t, Sees(block, Aptos));
    var k' := FindKept(s, x, t, Sees(block, Ethereum));
    var last := t[|t| - 1];
    assert Sees(block, Aptos)(t[k']) && Sees(block, Ethereum)(t[k]);
    assert k == k';
    assert Sees(block, Aptos)(last) || Sees(block, Ethereum)(last);
  }

  lemma FindLastOwn(block: seq<Tx>, s: seq<nat>, x: nat, t: seq<nat>) returns (k: nat)
    requires SameOrder(block, s + [x], t) && x < |block| && ClassOf(block[x]) != Cross
    requires forall i :: 0 <= i < |t| ==> t[i] < |block|
    ensures k < |t| && t[k] == x && SameOrder(block, s, t[..k] + t[k + 1..])
    ensures forall j :: k < j < |t| ==> Independent(block, t[k], t[j])
  {
    var p := ClassOf(block[x]);
    var q := if p == Aptos then Ethereum else Aptos;
    k := FindKept(s, x, t, Sees(block, p));
    FilterSkip(t, k, Sees(block, q));
    FilterLast(s, x, Sees(block, q));
    forall j | k < j < |t| ensures Independent(block, t[k], t[j]) {
      assert !Sees(block, p)(t[j]);
    }
  }

  /** Where the last transaction of `s` stands in an order that looks the same: after it only
      transactions it is independent of, and without it the two orders still look the same. */
  lemma FindLast(block: seq<Tx>, s: seq<nat>, x: nat, t: seq<nat>) returns (k: nat)
    requires SameOrder(block, s + [x], t) && x < |block|
    requires forall i :: 0 <= i < |t| ==> t[i] < |block|
    ensures k < |t| && t[k] == x && SameOrder(block, s, t[..k] + t[k + 1..])
    ensures forall j :: k < j < |t| ==> Independent(block, t[k], t[j])
  {
    if ClassOf(block[x]) == Cross {
      k := FindLastCross(block, s, x, t);
    } else {
      k := FindLastOwn(block, s, x, t);
    }
  }

  lemma NothingSeen(block: seq<Tx>, t: seq<nat>)
    requires SameOrder(block, [], t)
    requires forall i :: 0 <= i < |t| ==> t[i] < |block|
    ensures t == []
  {
    assert t != [] ==> !InView(block, Aptos, t[|t| - 1]) && !InView(block, Ethereum, t[|t| - 1]);
  }

  lemma SameIsTransitive(block: seq<Tx>, a: Option<Ran>, b: Option<Ran>, c: Option<Ran>)
    requires SameOutcome(block, a, b) && SameOutcome(block, b, c)
    ensures SameOutcome(block, a, c)
  {
  }

  /** Orders that neither machine can tell apart have the same outcome. */
  lemma {:induction false} SameOrderSameOutcome(
    block: seq<Tx>, base: BaseView, aptos: iset<Key>, ethereum: iset<Key>, s: seq<nat>, t: seq<nat>)
    requires Isolated(block, aptos, ethereum) && SameOrder(block, s, t)
    requires forall i :: 0 <= i < |s| ==> s[i] < |block|
    requires forall i :: 0 <= i < |t| ==> t[i] < |block|
    ensures SameOutcome(block, Serial(block, base, s), Serial(block, base, t))
    decreases |s|
  {
    if s == [] {
      NothingSeen(block, t);
    } else {
      var s', x := s[..|s| - 1], s[|s| - 1];
      assert s == s' + [x];
      var k := FindLast(block, s', x, t);
      var t' := t[..k] + t[k + 1..];
      SameOrderSameOutcome(block, base, aptos, ethereum, s', t');
      ThenKeepsSame(block, base, Serial(block, base, s'), Serial(block, base, t'), x);
      SerialLast(block, base, t', x);
      MoveToEnd(block, base, aptos, ethereum, t, k);
      SameIsTransitive(block, Serial(block, base, s), Serial(block, base, t' + [x]), Serial(block, base, t));
    }
  }
}
