/** What a finished run of the dispatcher amounts to. */
module DispatcherTheorems {
  import opened Options
  import opened TransactionPrograms
  import opened Permutations
  import opened Projections
  import opened Dispatcher
  import opened DispatcherInvariant
  import opened SerialOrders
  import opened DispatcherSerial
  import opened DispatcherRuns
  import opened DispatcherAnswers

  /** The loop has ended: every transaction of the block is processed. */
  ghost predicate FinishedRun(
    block: seq<Tx>, base: BaseView, before: map<nat, U64>, states: seq<State>, steps: seq<Step>)
  {
    Schedule(block, base, states, steps) && states[0] == Initial(before) && states[|steps|].processed == |block|
  }

  /** At the end of the loop nothing is out, and everything was sent. */
  lemma AllSent(block: seq<Tx>, before: map<nat, U64>, st: State)
    requires SentInv(block, before, st) && st.processed == |block|
    ensures Permutation(st.sent, |block|) && |st.committed| == |block|
    ensures forall p: Pointer :: Pending(st, p) == [] && Done(st, p) == []
  {
    SentIsDistinct(block, st.sent);
    DistinctFits(st.sent, |block|);
    forall p: Pointer ensures Pending(st, p) == [] && Done(st, p) == [] {
      match p case Aptos => case Ethereum => case Cross =>
    }
  }

  /** A checkpoint ends its block. */
  predicate CheckpointAtEnd(block: seq<Tx>) {
    forall c: nat :: c < |block| && IsCheckpoint(block, c) ==> c + 1 == |block|
  }

  /** Whatever the programs touch, a finished run has sent the whole block, which no checkpoint
      interrupts: each class in block order, each sender in nonce order, the checkpoint last. */
  lemma FinishedRunSendsAll(block: seq<Tx>, base: BaseView, before: map<nat, U64>, states: seq<State>, steps: seq<Step>)
    requires FinishedRun(block, base, before, states, steps)
    ensures var st := states[|steps|];
            && Permutation(st.sent, |block|) && InBlockOrder(block, st.sent) && CheckpointLast(block, st.sent)
            && forall sender: nat :: InNonceOrder(block, before, st.nonces, st.sent, sender)
    ensures CheckpointAtEnd(block)
  {
    var st := states[|steps|];
    RunKeepsSentInv(block, base, before, states, steps, |steps|);
    RunKeepsAnswerInv(block, base, before, states, steps, |steps|);
    AllSent(block, before, st);
    forall c: nat | IsCheckpoint(block, c) ensures c + 1 == |block| {
      assert |block| - 1 in st.sent;
    }
  }

  lemma CommittedAsSent(block: seq<Tx>, st: State)
    requires Projected(block, st, Aptos) && Projected(block, st, Ethereum)
    requires forall p: Pointer :: Pending(st, p) == []
    ensures SameOrder(block, st.sent, st.committed)
  {
    assert Filter(st.committed, Sees(block, Aptos)) + ([] + []) == Filter(st.committed, Sees(block, Aptos));
    assert Filter(st.committed, Sees(block, Ethereum)) + ([] + []) == Filter(st.committed, Sees(block, Ethereum));
  }

  lemma CommittedOnce(block: seq<Tx>, st: State)
    requires SameOrder(block, st.sent, st.committed) && Permutation(st.sent, |block|) && |st.committed| == |block|
    ensures Permutation(st.committed, |block|)
  {
    forall i: nat | i < |block| ensures i in st.committed {
      var q := if ClassOf(block[i]) == Ethereum then Ethereum else Aptos;
      FilterMember(st.sent, Sees(block, q), i);
      FilterMember(st.committed, Sees(block, q), i);
      assert i in st.sent;
    }
    CoverIsPermutation(st.committed, |block|);
  }

  /** With nothing out, the collected outputs are those of the serial execution. */
  lemma CollectedAsExecuted(block: seq<Tx>, base: BaseView, st: State, e: Event)
    requires Serialized(block, base, st) && e.0 < |block|
    requires forall p: Pointer :: Done(st, p) == []
    ensures |st.answered| == |st.ret|
    ensures e in Serial(block, base, st.committed).value.log <==> e in Zip(st.answered, st.ret)
  {
    var log, p := Serial(block, base, st.committed).value.log, ClassOf(block[e.0]);
    assert Logged(block, st, log, p);
    assert Filter(Zip(st.answered, st.ret), Of(block, p)) + [] == Filter(Zip(st.answered, st.ret), Of(block, p));
    FilterMember(log, Of(block, p), e);
    FilterMember(Zip(st.answered, st.ret), Of(block, p), e);
  }

  lemma AnsweredOnce(block: seq<Tx>, base: BaseView, st: State)
    requires Serialized(block, base, st) && Permutation(st.committed, |block|)
    requires forall p: Pointer :: Done(st, p) == []
    requires |st.answered| == |block|
    ensures Permutation(st.answered, |block|)
  {
    var log := Serial(block, base, st.committed).value.log;
    LogFollows(block, base, st.committed);
    forall i: nat | i < |block| ensures i in st.answered {
      assert i in st.committed;
      var k :| 0 <= k < |st.committed| && st.committed[k] == i;
      assert log[k] in log && log[k].0 == i;
      CollectedAsExecuted(block, base, st, log[k]);
      var j :| 0 <= j < |st.answered| && Zip(st.answered, st.ret)[j] == log[k];
      assert st.answered[j] == i;
    }
    CoverIsPermutation(st.answered, |block|);
  }

  lemma SameEvents(block: seq<Tx>, a: Option<Ran>, b: Option<Ran>, e: Event)
    requires SameOutcome(block, a, b) && a.Some? && e.0 < |block|
    ensures e in a.value.log <==> e in b.value.log
  {
    var q := if ClassOf(block[e.0]) == Ethereum then Ethereum else Aptos;
    FilterMember(a.value.log, SeesEvent(block, q), e);
    FilterMember(b.value.log, SeesEvent(block, q), e);
  }

  /** The cache, and the returned vector position by position, are those of executing `order`
      one by one. */
  ghost predicate ExecutedAs(block: seq<Tx>, base: BaseView, st: State, order: seq<nat>) {
    |order| == |st.ret| && Serial(block, base, order) == Some(Ran(st.cache, Zip(order, st.ret)))
  }

  lemma NothingHeld(block: seq<Tx>, st: State, p: Pointer)
    requires Exclusive(block, st) && Pending(st, p) == [] && Done(st, p) == []
    ensures Held(st, p) == []
  {
    assert Slot(st, p) && Shaped(block, st, p);
    if st.running.Get(p).Some? {
      var r := st.running.Get(p).value;
      assert |Zip(r.batch[..r.pos], r.outputs)| == r.pos;
    } else if st.replies.Get(p) != [] {
      var r := st.replies.Get(p)[0];
      assert |Zip(r.batch, r.outputs)| == |r.batch|;
    }
  }

  /** With nothing out, neither machine can tell the order of answers from the order sent. */
  lemma AnsweredLikeSent(block: seq<Tx>, st: State)
    requires Exclusive(block, st) && AnsweredAsSent(block, st, Aptos) && AnsweredAsSent(block, st, Ethereum)
    requires forall p: Pointer :: Pending(st, p) == [] && Done(st, p) == []
    ensures SameOrder(block, st.sent, st.answered)
  {
    NothingHeld(block, st, Aptos);
    NothingHeld(block, st, Ethereum);
    NothingHeld(block, st, Cross);
    assert Filter(st.answered, Sees(block, Aptos)) + ([] + []) == Filter(st.answered, Sees(block, Aptos));
    assert Filter(st.answered, Sees(block, Ethereum)) + ([] + []) == Filter(st.answered, Sees(block, Ethereum));
  }

  /** Each transaction has one place in the log. */
  lemma LogAt(block: seq<Tx>, base: BaseView, order: seq<nat>, e: Event, k: nat)
    requires Distinct(order) && Serial(block, base, order).Some? && e in Serial(block, base, order).value.log
    requires k < |order| && order[k] == e.0
    ensures |Serial(block, base, order).value.log| == |order| && Serial(block, base, order).value.log[k] == e
  {
    var log := Serial(block, base, order).value.log;
    LogFollows(block, base, order);
    var j :| 0 <= j < |log| && log[j] == e;
    assert order[j] == order[k];
  }

  lemma AnsweredIsExecuted(block: seq<Tx>, base: BaseView, aptos: iset<Key>, ethereum: iset<Key>, st: State)
    requires Isolated(block, aptos, ethereum) && Serialized(block, base, st) && forall p: Pointer :: Done(st, p) == []
    requires Permutation(st.committed, |block|) && Permutation(st.answered, |block|) && |st.ret| == |block|
    requires SameOrder(block, st.committed, st.answered)
    ensures ExecutedAs(block, base, st, st.answered)
  {
    SameOrderSameOutcome(block, base, aptos, ethereum, st.committed, st.answered);
    var ran, zip := Serial(block, base, st.answered), Zip(st.answered, st.ret);
    LogFollows(block, base, st.answered);
    forall k | 0 <= k < |st.ret| ensures ran.value.log[k] == zip[k] {
      CollectedAsExecuted(block, base, st, zip[k]);
      SameEvents(block, Serial(block, base, st.committed), ran, zip[k]);
      LogAt(block, base, st.answered, zip[k], k);
    }
    assert ran.value.log == zip;
  }

  /** Whatever the schedule, a finished run has executed and answered every transaction of the
      block exactly once. Its cache and the vector it returns are those of executing them one by
      one in the order of the answers, which neither machine can tell from the order sent. */
  lemma FinishedRunIsSerial(
    block: seq<Tx>, base: BaseView, aptos: iset<Key>, ethereum: iset<Key>, before: map<nat, U64>,
    states: seq<State>, steps: seq<Step>, st: State)
    requires Isolated(block, aptos, ethereum) && FinishedRun(block, base, before, states, steps)
    requires st == states[|steps|]
    ensures Permutation(st.sent, |block|) && Permutation(st.committed, |block|) && Permutation(st.answered, |block|)
    ensures ExecutedAs(block, base, st, st.answered) && SameOrder(block, st.sent, st.answered)
    ensures InBlockOrder(block, st.sent) && CheckpointLast(block, st.sent)
    ensures forall sender: nat :: InNonceOrder(block, before, st.nonces, st.sent, sender)
  {
    RunKeepsInv(block, base, aptos, ethereum, before, states, steps, |steps|);
    RunKeepsAnswerInv(block, base, before, states, steps, |steps|);
    AllSent(block, before, st);
    CommittedAsSent(block, st);
    CommittedOnce(block, st);
    AnsweredOnce(block, base, st);
    AnsweredLikeSent(block, st);
    AnsweredIsExecuted(block, base, aptos, ethereum, st);
  }

  // ---------------------------------------------------------------- the block order

  function Upto(n: nat): (r: seq<nat>)
    ensures |r| == n && forall i :: 0 <= i < n ==> r[i] == i
  {
    if n == 0 then [] else Upto(n - 1) + [n - 1]
  }

  predicate Increasing(s: seq<nat>) {
    forall a, b :: 0 <= a < b < |s| ==> s[a] < s[b]
  }

  predicate KeptIncreasing(s: seq<nat>, keep: nat -> bool) {
    forall a, b :: 0 <= a < b < |s| && keep(s[a]) && keep(s[b]) ==> s[a] < s[b]
  }

  lemma {:induction false} FilterIncreasing(s: seq<nat>, keep: nat -> bool)
    requires KeptIncreasing(s, keep)
    ensures Increasing(Filter(s, keep))
  {
    if s != [] {
      var t, x := s[..|s| - 1], s[|s| - 1];
      FilterIncreasing(t, keep);
      forall k | 0 <= k < |Filter(t, keep)| && keep(x) ensures Filter(t, keep)[k] < x {
        FilterMember(t, keep, Filter(t, keep)[k]);
      }
    }
  }

  lemma ButLast(s: seq<nat>, x: nat)
    requires Increasing(s) && s != []
    ensures x in s[..|s| - 1] <==> x in s && x != s[|s| - 1]
    ensures x in s ==> x <= s[|s| - 1]
  {
    assert s == s[..|s| - 1] + [s[|s| - 1]];
  }

  lemma {:induction false} IncreasingUnique(s: seq<nat>, t: seq<nat>)
    requires Increasing(s) && Increasing(t) && forall x :: x in s <==> x in t
    ensures s == t
    decreases |s|
  {
    assert t != [] ==> t[0] in t;
    if s != [] {
      assert s[0] in t;
      var s', t' := s[..|s| - 1], t[..|t| - 1];
      var x, y := s[|s| - 1], t[|t| - 1];
      assert x in s && y in t;
      ButLast(t, x);
      ButLast(s, y);
      forall z: nat ensures z in s' <==> z in t' {
        ButLast(s, z);
        ButLast(t, z);
      }
      IncreasingUnique(s', t');
      assert s == s' + [x] && t == t' + [y];
    }
  }
}
