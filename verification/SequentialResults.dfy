/** When the parallel executor gives what the sequential one gives, which takes the block in order:
    the same cache, and the same vector of outputs. */
module SequentialResults {
  import opened Options
  import opened TransactionPrograms
  import opened Permutations
  import opened Projections
  import opened Dispatcher
  import opened SerialOrders
  import opened DispatcherRuns
  import opened DispatcherAnswers
  import opened DispatcherTheorems
  import opened DispatcherProgress
  import opened DispatcherLoop
  import opened DispatcherTurns
  import opened OrderExactness
  import opened InvertedBlocks

  /** The cache is that of the sequential executor. */
  ghost predicate SequentialCache(block: seq<Tx>, base: BaseView, st: State) {
    var ran := Serial(block, base, Upto(|block|));
    ran.Some? && ran.value.cache == st.cache
  }

  /** At every position, the returned vector has the output of the transaction at that position. */
  ghost predicate SequentialVector(block: seq<Tx>, base: BaseView, st: State) {
    var ran := Serial(block, base, Upto(|block|));
    ran.Some? && |st.ret| == |ran.value.log| && forall k :: 0 <= k < |st.ret| ==> st.ret[k] == ran.value.log[k].1
  }

  // ---------------------------------------------------------------- blocks by their classes

  /** A finished run of a block with these kinds of transactions; if `coded`, of the dispatcher's
      loop as it is coded, otherwise under any schedule. */
  ghost predicate RunOfKinds(
    kinds: seq<Tx>, coded: bool, b: seq<Tx>, base: BaseView, aptos: iset<Key>, ethereum: iset<Key>,
    before: map<nat, U64>, states: seq<State>, steps: seq<Step>)
  {
    && SameKinds(kinds, b)
    && Isolated(b, aptos, ethereum)
    && FinishedRun(b, base, before, states, steps)
    && (coded ==> AsCoded(states, steps))
  }

  ghost predicate AlwaysSequentialCache(kinds: seq<Tx>, coded: bool) {
    forall b: seq<Tx>, base: BaseView, aptos: iset<Key>, ethereum: iset<Key>, before: map<nat, U64>,
      states: seq<State>, steps: seq<Step> ::
      RunOfKinds(kinds, coded, b, base, aptos, ethereum, before, states, steps) ==>
        SequentialCache(b, base, states[|steps|])
  }

  ghost predicate AlwaysSequentialVector(kinds: seq<Tx>, coded: bool) {
    forall b: seq<Tx>, base: BaseView, aptos: iset<Key>, ethereum: iset<Key>, before: map<nat, U64>,
      states: seq<State>, steps: seq<Step> ::
      RunOfKinds(kinds, coded, b, base, aptos, ethereum, before, states, steps) ==>
        SequentialVector(b, base, states[|steps|])
  }

  /** User transactions that cross the machines do not share the block with those that do not. */
  predicate Unmixed(block: seq<Tx>) {
    forall c, m :: 0 <= c < |block| && 0 <= m < |block| && IsCrossVm(block[c]) ==>
      !IsMove(block[m]) && !IsEthereum(block[m])
  }

  /** All user transactions are Move transactions, or all are Ethereum transactions, or all of them
      cross the machines. */
  predicate OneClass(block: seq<Tx>) {
    || (forall i :: 0 <= i < |block| && block[i].User? ==> IsMove(block[i]))
    || (forall i :: 0 <= i < |block| && block[i].User? ==> IsEthereum(block[i]))
    || (forall i :: 0 <= i < |block| && block[i].User? ==> IsCrossVm(block[i]))
  }

  lemma SameKindsSame(a: seq<Tx>, b: seq<Tx>)
    requires SameKinds(a, b)
    ensures CheckpointAtEnd(a) <==> CheckpointAtEnd(b)
    ensures Unmixed(a) <==> Unmixed(b)
    ensures OneClass(a) <==> OneClass(b)
  {
    assert forall c: nat :: c < |a| ==> (IsCheckpoint(a, c) <==> IsCheckpoint(b, c));
  }

  // ---------------------------------------------------------------- when the results are the same

  /** If nothing is mixed, each machine sees the block order. */
  lemma SentLooksLikeBlock(block: seq<Tx>, sent: seq<nat>, q: Pointer)
    requires Unmixed(block) && CheckpointAtEnd(block)
    requires Permutation(sent, |block|) && InBlockOrder(block, sent) && CheckpointLast(block, sent)
    ensures Filter(sent, Sees(block, q)) == Filter(Upto(|block|), Sees(block, q))
  {
    var keep := Sees(block, q);
    forall a, b | 0 <= a < b < |sent| && keep(sent[a]) && keep(sent[b]) ensures sent[a] < sent[b] {
      assert ClassOrder(block, sent[a], sent[b]);
      assert IsCheckpoint(block, sent[b]) ==> sent[b] + 1 == |block|;
    }
    FilterIncreasing(sent, keep);
    FilterIncreasing(Upto(|block|), keep);
    forall x: nat ensures x in Filter(sent, keep) <==> x in Filter(Upto(|block|), keep) {
      FilterMember(sent, keep, x);
      FilterMember(Upto(|block|), keep, x);
      assert x < |block| ==> Upto(|block|)[x] == x && x in sent;
    }
    IncreasingUnique(Filter(sent, keep), Filter(Upto(|block|), keep));
  }

  /** If nothing is mixed, the cache of every finished run is the sequential one. */
  lemma UnmixedHasSequentialCache(
    block: seq<Tx>, base: BaseView, aptos: iset<Key>, ethereum: iset<Key>, before: map<nat, U64>,
    states: seq<State>, steps: seq<Step>)
    requires Isolated(block, aptos, ethereum) && FinishedRun(block, base, before, states, steps) && Unmixed(block)
    ensures SequentialCache(block, base, states[|steps|])
  {
    var st := states[|steps|];
    FinishedRunSendsAll(block, base, before, states, steps);
    FinishedRunIsSerial(block, base, aptos, ethereum, before, states, steps, st);
    SentLooksLikeBlock(block, st.sent, Aptos);
    SentLooksLikeBlock(block, st.sent, Ethereum);
    SameOrderSameOutcome(block, base, aptos, ethereum, Upto(|block|), st.answered);
  }

  lemma OneClassIsSeen(block: seq<Tx>) returns (q: Pointer)
    requires OneClass(block)
    ensures Unmixed(block) && q != Cross && forall i: nat :: i < |block| ==> InView(block, q, i)
  {
    if i :| 0 <= i < |block| && IsEthereum(block[i]) {
      q := Ethereum;
    } else {
      q := Aptos;
    }
  }

  lemma AllSeen(block: seq<Tx>, order: seq<nat>, q: Pointer)
    requires forall i: nat :: i < |block| ==> InView(block, q, i)
    requires forall k :: 0 <= k < |order| ==> order[k] < |block|
    ensures Filter(order, Sees(block, q)) == order
  {
    FilterAll(order, Sees(block, q));
  }

  /** If all users are of one class, the answers come in block order. */
  lemma OneClassAnswersInOrder(
    block: seq<Tx>, base: BaseView, aptos: iset<Key>, ethereum: iset<Key>, before: map<nat, U64>,
    states: seq<State>, steps: seq<Step>)
    requires Isolated(block, aptos, ethereum) && FinishedRun(block, base, before, states, steps) && OneClass(block)
    ensures states[|steps|].answered == Upto(|block|)
  {
    var st := states[|steps|];
    var q := OneClassIsSeen(block);
    FinishedRunSendsAll(block, base, before, states, steps);
    FinishedRunIsSerial(block, base, aptos, ethereum, before, states, steps, st);
    SentLooksLikeBlock(block, st.sent, q);
    AllSeen(block, st.answered, q);
    AllSeen(block, Upto(|block|), q);
  }

  lemma InOrderHasSequentialVector(
    block: seq<Tx>, base: BaseView, aptos: iset<Key>, ethereum: iset<Key>, before: map<nat, U64>,
    states: seq<State>, steps: seq<Step>)
    requires Isolated(block, aptos, ethereum) && FinishedRun(block, base, before, states, steps)
    requires states[|steps|].answered == Upto(|block|)
    ensures SequentialVector(block, base, states[|steps|])
  {
    FinishedRunIsSerial(block, base, aptos, ethereum, before, states, steps, states[|steps|]);
  }

  // ---------------------------------------------------------------- when they are not

  function Nothing(): BaseView { (k: Key) => None }

  /** The senders and nonces of an inverted block. */
  function WithSenders(block: seq<Tx>, i: nat, j: nat): (b: seq<Tx>)
    ensures SameKinds(block, b) && Inverted(b, i, j)
  {
    seq(|block|, k requires 0 <= k < |block| =>
      match block[k]
      case User(kind, _, _, program) => User(kind, if k == j then i else k, if k == i then 1 else 0, program)
      case Checkpoint(program) => Checkpoint(program))
  }

  lemma TellingKeepsKinds(block: seq<Tx>, i: nat, j: nat, v: nat, w: nat)
    requires Inverted(block, i, j)
    ensures SameKinds(block, Telling(block, v, w)) && Inverted(Telling(block, v, w), i, j)
    ensures AllFinish(Telling(block, v, w), 0)
  {
    var b := Telling(block, v, w);
    forall k | 0 <= k < |b|
      ensures b[k] == WithProgram(block[k], WriteOne(ValueOf(v, w, k), k)) && Finishes(b[k].program, 0)
    {
      assert b[k].program == WriteOne(ValueOf(v, w, k), k);
    }
  }

  /** For a pair of classes, a block and a run of the loop as coded that answers the later
      transaction first; transactions `v` and `w` write to one key. */
  lemma OvertakingRun(kinds: seq<Tx>, i: nat, j: nat, v: nat, w: nat)
    returns (b: seq<Tx>, states: seq<State>, steps: seq<Step>)
    requires CheckpointAtEnd(kinds) && Pair(kinds, i, j)
    ensures SameKinds(kinds, b) && b == Telling(WithSenders(kinds, i, j), v, w)
    ensures FinishedRun(b, Nothing(), map[], states, steps) && AsCoded(states, steps)
    ensures InOrder(states[|steps|].answered, j, i)
  {
    var c := WithSenders(kinds, i, j);
    b := Telling(c, v, w);
    TellingKeepsKinds(c, i, j, v, w);
    SameKindsSame(kinds, b);
    InvertedIsDispatchable(b, i, j);
    states, steps := PatientRun(b, Nothing(), map[], 0, JFirst(b, j));
    FinishedIsDispatchable(b, Nothing(), map[], states, steps);
    SentInverted(b, states[|steps|].sent, i, j);
  }

  lemma UptoIsPermutation(n: nat)
    ensures Permutation(Upto(n), n)
  {
    forall x: nat | x < n ensures x in Upto(n) {
      assert Upto(n)[x] == x;
    }
    CoverIsPermutation(Upto(n), n);
  }

  lemma BlockOrder(n: nat, i: nat, j: nat)
    requires i < j < n
    ensures InOrder(Upto(n), i, j) && Permutation(Upto(n), n)
  {
    assert Upto(n)[i] == i && Upto(n)[j] == j;
    UptoIsPermutation(n);
  }

  lemma CacheTells(block: seq<Tx>, base: BaseView, s: seq<nat>, t: seq<nat>, i: nat, j: nat)
    requires Permutation(s, |block|) && Permutation(t, |block|) && i != j && InOrder(s, i, j) && InOrder(t, j, i)
    ensures var b := Telling(block, i, j);
            && Serial(b, base, s).Some? && Serial(b, base, t).Some?
            && Serial(b, base, s).value.cache != Serial(b, base, t).value.cache
  {
    SerialTells(block, base, i, j, s);
    SerialTells(block, base, i, j, t);
    LastOfPair(s, i, j);
    LastOfPair(t, j, i);
  }

  /** One machine sees both transactions of a pair with a cross-VM one. */
  lemma PairInView(kinds: seq<Tx>, b: seq<Tx>, i: nat, j: nat) returns (q: Pointer)
    requires Pair(kinds, i, j) && (IsCrossVm(kinds[i]) || IsCrossVm(kinds[j])) && SameKinds(kinds, b)
    ensures q != Cross && InView(b, q, i) && InView(b, q, j)
  {
    q := if IsMove(kinds[i]) || IsMove(kinds[j]) then Aptos else Ethereum;
    assert kinds[i].kind == b[i].kind && kinds[j].kind == b[j].kind;
  }

  /** The two write to one key, and the cache tells which one was last. */
  lemma OvertakingChangesCache(kinds: seq<Tx>, i: nat, j: nat)
    requires CheckpointAtEnd(kinds) && Pair(kinds, i, j)
    requires IsCrossVm(kinds[i]) || IsCrossVm(kinds[j])
    ensures !AlwaysSequentialCache(kinds, true)
  {
    var b, states, steps := OvertakingRun(kinds, i, j, i, j);
    var c, st := WithSenders(kinds, i, j), states[|steps|];
    var q := PairInView(kinds, c, i, j);
    TellingIsIsolated(c, q, i, j);
    var aptos: iset<Key>, ethereum: iset<Key> :=
      if q == Aptos then iset{0} else iset{}, if q == Aptos then iset{} else iset{0};
    FinishedRunIsSerial(b, Nothing(), aptos, ethereum, map[], states, steps, st);
    BlockOrder(|b|, i, j);
    CacheTells(c, Nothing(), Upto(|b|), st.answered, i, j);
    assert RunOfKinds(kinds, true, b, Nothing(), aptos, ethereum, map[], states, steps);
  }

  /** Every transaction outputs its place in the block. */
  predicate OutputsPlaces(log: seq<Event>) {
    forall k :: 0 <= k < |log| ==> log[k].1 == log[k].0
  }

  /** Then the vector is the order of execution, */
  lemma VectorIsOrder(block: seq<Tx>, base: BaseView, st: State, order: seq<nat>)
    requires ExecutedAs(block, base, st, order) && OutputsPlaces(Serial(block, base, order).value.log)
    ensures st.ret == order
  {
    var log := Serial(block, base, order).value.log;
    forall k | 0 <= k < |order| ensures st.ret[k] == order[k] {
      assert log[k] == (order[k], st.ret[k]);
    }
  }

  /** and sequentially the block order. */
  lemma SequentialIsBlockOrder(block: seq<Tx>, base: BaseView, st: State)
    requires SequentialVector(block, base, st) && OutputsPlaces(Serial(block, base, Upto(|block|)).value.log)
    ensures st.ret == Upto(|block|)
  {
    LogFollows(block, base, Upto(|block|));
  }

  lemma TellingOutputsPlaces(block: seq<Tx>, base: BaseView, v: nat, w: nat, order: seq<nat>)
    requires Permutation(order, |block|)
    ensures Serial(Telling(block, v, w), base, order).Some?
    ensures OutputsPlaces(Serial(Telling(block, v, w), base, order).value.log)
  {
    SerialTells(block, base, v, w, order);
  }

  /** No transaction writes, and the vector tells in which order they were answered. */
  lemma OvertakingChangesVector(kinds: seq<Tx>, i: nat, j: nat)
    requires CheckpointAtEnd(kinds) && Pair(kinds, i, j)
    ensures !AlwaysSequentialVector(kinds, true)
  {
    var n := |kinds|;
    var b, states, steps := OvertakingRun(kinds, i, j, n, n);
    var c, st := WithSenders(kinds, i, j), states[|steps|];
    SilentIsIsolated(c);
    FinishedRunIsSerial(b, Nothing(), iset{}, iset{}, map[], states, steps, st);
    BlockOrder(n, i, j);
    InOrderOneWay(Upto(n), i, j);
    TellingOutputsPlaces(c, Nothing(), n, n, st.answered);
    TellingOutputsPlaces(c, Nothing(), n, n, Upto(n));
    VectorIsOrder(b, Nothing(), st, st.answered);
    assert RunOfKinds(kinds, true, b, Nothing(), iset{}, iset{}, map[], states, steps);
    if SequentialVector(b, Nothing(), st) {
      SequentialIsBlockOrder(b, Nothing(), st);
    }
  }

  lemma SilentIsIsolated(block: seq<Tx>)
    ensures Isolated(Telling(block, |block|, |block|), iset{}, iset{})
  {
    var b := Telling(block, |block|, |block|);
    forall k | 0 <= k < |b| ensures Footprint(b[k].program, iset{}) {
      assert b[k].program == WriteOne(None, k);
    }
  }

  lemma InOrderOneWay(s: seq<nat>, i: nat, j: nat)
    requires Distinct(s) && i != j && InOrder(s, i, j)
    ensures !InOrder(s, j, i)
  {
  }

  // ---------------------------------------------------------------- the exact conditions

  /** For these kinds of transactions the cache is always the sequential one, whatever the senders,
      nonces and isolated programs, if and only if the block cannot finish, for a checkpoint in its
      middle, or no user transaction that crosses the machines shares it with one that does not.
      Both for the loop as coded and for every schedule. */
  lemma SequentialCacheExactlyIf(kinds: seq<Tx>, coded: bool)
    ensures AlwaysSequentialCache(kinds, coded) <==> (CheckpointAtEnd(kinds) ==> Unmixed(kinds))
  {
    if CheckpointAtEnd(kinds) && !Unmixed(kinds) {
      var c, m :| 0 <= c < |kinds| && 0 <= m < |kinds| && IsCrossVm(kinds[c]) &&
        (IsMove(kinds[m]) || IsEthereum(kinds[m]));
      OvertakingChangesCache(kinds, if c < m then c else m, if c < m then m else c);
      if AlwaysSequentialCache(kinds, false) {
        AnyScheduleIncludesCodedCache(kinds);
      }
    } else {
      forall b: seq<Tx>, base: BaseView, aptos: iset<Key>, ethereum: iset<Key>, before: map<nat, U64>,
        states: seq<State>, steps: seq<Step>
        | RunOfKinds(kinds, coded, b, base, aptos, ethereum, before, states, steps)
        ensures SequentialCache(b, base, states[|steps|])
      {
        SameKindsSame(kinds, b);
        FinishedRunSendsAll(b, base, before, states, steps);
        UnmixedHasSequentialCache(b, base, aptos, ethereum, before, states, steps);
      }
    }
  }

  lemma AnyScheduleIncludesCodedCache(kinds: seq<Tx>)
    requires AlwaysSequentialCache(kinds, false)
    ensures AlwaysSequentialCache(kinds, true)
  {
    forall b: seq<Tx>, base: BaseView, aptos: iset<Key>, ethereum: iset<Key>, before: map<nat, U64>,
      states: seq<State>, steps: seq<Step>
      | RunOfKinds(kinds, true, b, base, aptos, ethereum, before, states, steps)
      ensures SequentialCache(b, base, states[|steps|])
    {
      assert RunOfKinds(kinds, false, b, base, aptos, ethereum, before, states, steps);
    }
  }

  lemma AnyScheduleIncludesCodedVector(kinds: seq<Tx>)
    requires AlwaysSequentialVector(kinds, false)
    ensures AlwaysSequentialVector(kinds, true)
  {
    forall b: seq<Tx>, base: BaseView, aptos: iset<Key>, ethereum: iset<Key>, before: map<nat, U64>,
      states: seq<State>, steps: seq<Step>
      | RunOfKinds(kinds, true, b, base, aptos, ethereum, before, states, steps)
      ensures SequentialVector(b, base, states[|steps|])
    {
      assert RunOfKinds(kinds, false, b, base, aptos, ethereum, before, states, steps);
    }
  }

  lemma DifferentPair(kinds: seq<Tx>) returns (i: nat, j: nat)
    requires !OneClass(kinds)
    ensures i < |kinds| && j < |kinds| && kinds[i].User? && kinds[j].User? && ClassOf(kinds[i]) != ClassOf(kinds[j])
  {
    if k :| 0 <= k < |kinds| && IsMove(kinds[k]) {
      i := k;
      j :| 0 <= j < |kinds| && kinds[j].User? && !IsMove(kinds[j]);
    } else {
      i :| 0 <= i < |kinds| && kinds[i].User? && !IsCrossVm(kinds[i]);
      j :| 0 <= j < |kinds| && kinds[j].User? && !IsEthereum(kinds[j]);
    }
  }

  /** For these kinds of transactions the returned vector always has each output at the place of its
      transaction if and only if the block cannot finish or all user transactions are of one class. */
  lemma SequentialVectorExactlyIf(kinds: seq<Tx>, coded: bool)
    ensures AlwaysSequentialVector(kinds, coded) <==> (CheckpointAtEnd(kinds) ==> OneClass(kinds))
  {
    if CheckpointAtEnd(kinds) && !OneClass(kinds) {
      var i, j := DifferentPair(kinds);
      OvertakingChangesVector(kinds, if i < j then i else j, if i < j then j else i);
      if AlwaysSequentialVector(kinds, false) {
        AnyScheduleIncludesCodedVector(kinds);
      }
    } else {
      forall b: seq<Tx>, base: BaseView, aptos: iset<Key>, ethereum: iset<Key>, before: map<nat, U64>,
        states: seq<State>, steps: seq<Step>
        | RunOfKinds(kinds, coded, b, base, aptos, ethereum, before, states, steps)
        ensures SequentialVector(b, base, states[|steps|])
      {
        SameKindsSame(kinds, b);
        FinishedRunSendsAll(b, base, before, states, steps);
        OneClassAnswersInOrder(b, base, aptos, ethereum, before, states, steps);
        InOrderHasSequentialVector(b, base, aptos, ethereum, before, states, steps);
      }
    }
  }
}
