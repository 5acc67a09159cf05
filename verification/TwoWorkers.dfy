/** The Move worker and the Ethereum worker, each with one batch, sharing one cache. */
module TwoWorkers {
  import opened Options
  import opened TransactionPrograms
  import opened Projections
  import opened Dispatcher
  import opened DispatcherInvariant
  import opened SerialOrders
  import opened DispatcherSerial

  /** Both batches are sent and neither worker has started. */
  function Start(move: seq<nat>, eth: seq<nat>): State {
    Initial(map[]).(loaded := Per(true, true, false), queues := Per([move], [eth], []), sent := move + eth)
  }

  predicate WorkerStep(step: Step) { step.Fetch? || step.Act? || step.Answer? }

  lemma BatchesSeen(block: seq<Tx>, p: Pointer, a: seq<nat>, q: Pointer, b: seq<nat>)
    requires Batch(block, p, a) && Batch(block, q, b) && p != q && p != Cross && q != Cross
    ensures Filter(a + b, Sees(block, p)) == a && Filter(a + b, Sees(block, q)) == b
  {
    FilterAppend(a, b, Sees(block, p));
    FilterAppend(a, b, Sees(block, q));
    BatchSeen(block, p, a, p);
    BatchSeen(block, p, a, q);
    BatchSeen(block, q, b, p);
    BatchSeen(block, q, b, q);
    assert a + [] == a && [] + b == b;
  }

  lemma StartHasInv(block: seq<Tx>, base: BaseView, move: seq<nat>, eth: seq<nat>)
    requires Batch(block, Aptos, move) && Batch(block, Ethereum, eth)
    ensures Inv(block, base, Start(move, eth))
  {
    var st := Start(move, eth);
    BatchesSeen(block, Aptos, move, Ethereum, eth);
    assert [] + (move + []) == move && [] + (eth + []) == eth;
    forall p: Pointer ensures Slot(st, p) && Shaped(block, st, p) {
    }
    forall p: Pointer ensures Logged(block, st, [], p) {
      assert Filter(Zip([], []), Of(block, p)) == [];
    }
  }

  lemma {:induction false} WorkersSendNothing(
    block: seq<Tx>, base: BaseView, move: seq<nat>, eth: seq<nat>, states: seq<State>, steps: seq<Step>, n: nat)
    requires Schedule(block, base, states, steps) && n < |states|
    requires states[0] == Start(move, eth) && forall i :: 0 <= i < |steps| ==> WorkerStep(steps[i])
    ensures states[n].sent == move + eth && states[n].answered == [] && states[n].ret == []
  {
    if n > 0 {
      WorkersSendNothing(block, base, move, eth, states, steps, n - 1);
      assert WorkerStep(steps[n - 1]);
    }
  }

  lemma EventsSeen(block: seq<Tx>, p: Pointer, batch: seq<nat>, log: seq<Event>, q: Pointer)
    requires Batch(block, p, batch) && |log| == |batch| && p != Cross
    requires forall i :: 0 <= i < |log| ==> log[i].0 == batch[i]
    ensures Filter(log, SeesEvent(block, q)) == if p == q then log else []
  {
    if p == q {
      FilterAll(log, SeesEvent(block, q));
    } else {
      FilterNone(log, SeesEvent(block, q));
    }
  }

  /** The outputs of two batches run one after the other. */
  lemma LogOfTwo(block: seq<Tx>, base: BaseView, a: seq<nat>, b: seq<nat>, p: Pointer, q: Pointer)
    requires Batch(block, p, a) && Batch(block, q, b) && p != q && p != Cross && q != Cross
    requires Serial(block, base, a + b).Some?
    ensures var log := Serial(block, base, a + b).value.log;
            && log == Filter(log, SeesEvent(block, p)) + Filter(log, SeesEvent(block, q))
            && |Filter(log, SeesEvent(block, p))| == |a|
            && (forall i :: 0 <= i < |a| ==> Filter(log, SeesEvent(block, p))[i].0 == a[i])
  {
    LogFollows(block, base, a + b);
    CutLog(block, p, a, q, b, Serial(block, base, a + b).value.log);
  }

  lemma CutLog(block: seq<Tx>, p: Pointer, a: seq<nat>, q: Pointer, b: seq<nat>, log: seq<Event>)
    requires Batch(block, p, a) && Batch(block, q, b) && p != q && p != Cross && q != Cross
    requires |log| == |a + b| && forall k :: 0 <= k < |a + b| ==> log[k].0 == (a + b)[k]
    ensures log == Filter(log, SeesEvent(block, p)) + Filter(log, SeesEvent(block, q))
    ensures |Filter(log, SeesEvent(block, p))| == |a|
    ensures forall i :: 0 <= i < |a| ==> Filter(log, SeesEvent(block, p))[i].0 == a[i]
  {
    var la, lb := log[..|a|], log[|a|..];
    assert log == la + lb;
    assert forall i :: 0 <= i < |la| ==> la[i].0 == (a + b)[i] == a[i];
    assert forall i :: 0 <= i < |lb| ==> lb[i].0 == (a + b)[|a| + i] == b[i];
    SplitLog(block, p, a, la, q, b, lb);
  }

  lemma SplitLog(block: seq<Tx>, p: Pointer, a: seq<nat>, la: seq<Event>, q: Pointer, b: seq<nat>, lb: seq<Event>)
    requires Batch(block, p, a) && Batch(block, q, b) && p != q && p != Cross && q != Cross
    requires |la| == |a| && |lb| == |b|
    requires forall i :: 0 <= i < |la| ==> la[i].0 == a[i]
    requires forall i :: 0 <= i < |lb| ==> lb[i].0 == b[i]
    ensures Filter(la + lb, SeesEvent(block, p)) == la && Filter(la + lb, SeesEvent(block, q)) == lb
  {
    FilterAppend(la, lb, SeesEvent(block, p));
    FilterAppend(la, lb, SeesEvent(block, q));
    EventsSeen(block, p, a, la, p);
    EventsSeen(block, p, a, la, q);
    EventsSeen(block, q, b, lb, p);
    EventsSeen(block, q, b, lb, q);
    assert la + [] == la && [] + lb == lb;
  }

  /** Without cross-VM transactions, a machine sees its own outputs only. */
  lemma {:induction false} OwnEvents(block: seq<Tx>, log: seq<Event>, p: Pointer)
    requires forall k :: 0 <= k < |log| ==> log[k].0 < |block| && ClassOf(block[log[k].0]) != Cross
    ensures Filter(log, SeesEvent(block, p)) == Filter(log, Of(block, p))
  {
    if log != [] {
      OwnEvents(block, log[..|log| - 1], p);
    }
  }

  /** Running `a` to the end and then `b` gives this cache and these outputs. */
  ghost predicate OneAfterTheOther(
    block: seq<Tx>, base: BaseView, a: seq<nat>, outA: seq<Output>, b: seq<nat>, outB: seq<Output>, cache: Cache)
  {
    && |a| == |outA| && |b| == |outB|
    && Serial(block, base, a + b) == Some(Ran(cache, Zip(a, outA) + Zip(b, outB)))
  }

  lemma SerialOfTwo(
    block: seq<Tx>, base: BaseView, aptos: iset<Key>, ethereum: iset<Key>, st: State,
    a: seq<nat>, b: seq<nat>, p: Pointer, q: Pointer)
    requires Isolated(block, aptos, ethereum) && Batch(block, p, a) && Batch(block, q, b)
    requires p != Cross && q != Cross && p != q
    requires Serial(block, base, st.committed).Some? && SameOrder(block, a + b, st.committed)
    requires forall i :: 0 <= i < |st.committed| ==> st.committed[i] < |block|
    ensures Serial(block, base, a + b).Some?
    ensures var log, log' := Serial(block, base, a + b).value.log, Serial(block, base, st.committed).value.log;
            && Serial(block, base, a + b).value.cache == Serial(block, base, st.committed).value.cache
            && log == Filter(log', SeesEvent(block, p)) + Filter(log', SeesEvent(block, q))
            && |Filter(log', SeesEvent(block, p))| == |a|
            && (forall i :: 0 <= i < |a| ==> Filter(log', SeesEvent(block, p))[i].0 == a[i])
  {
    SameOrderSameOutcome(block, base, aptos, ethereum, a + b, st.committed);
    LogOfTwo(block, base, a, b, p, q);
  }

  /** The two batches in either order look the same to both machines. */
  lemma EitherOrder(block: seq<Tx>, move: seq<nat>, eth: seq<nat>)
    requires Batch(block, Aptos, move) && Batch(block, Ethereum, eth)
    ensures SameOrder(block, move + eth, eth + move)
    ensures Filter(move + eth, Sees(block, Aptos)) == move && Filter(move + eth, Sees(block, Ethereum)) == eth
  {
    BatchesSeen(block, Aptos, move, Ethereum, eth);
    BatchesSeen(block, Ethereum, eth, Aptos, move);
  }

  lemma Drained(block: seq<Tx>, st: State, q: Pointer)
    requires Projected(block, st, q) && Pending(st, q) == [] && Pending(st, Cross) == []
    ensures Filter(st.committed, Sees(block, q)) == Filter(st.sent, Sees(block, q))
  {
    assert Filter(st.committed, Sees(block, q)) + ([] + []) == Filter(st.committed, Sees(block, q));
  }

  lemma ExecutedInOrder(block: seq<Tx>, st: State, move: seq<nat>, eth: seq<nat>)
    requires Exclusive(block, st) && Projected(block, st, Aptos) && Projected(block, st, Ethereum)
    requires st.sent == move + eth
    requires Batch(block, Aptos, move) && Batch(block, Ethereum, eth)
    requires st.replies.aptos != [] && st.replies.ethereum != []
    ensures SameOrder(block, move + eth, st.committed)
    ensures Filter(st.committed, Sees(block, Aptos)) == move
  {
    assert Slot(st, Aptos) && Slot(st, Ethereum) && Slot(st, Cross);
    EitherOrder(block, move, eth);
    Drained(block, st, Aptos);
    Drained(block, st, Ethereum);
  }

  lemma NoCross(block: seq<Tx>, base: BaseView, committed: seq<nat>, move: seq<nat>)
    requires Serial(block, base, committed).Some?
    requires Filter(committed, Sees(block, Aptos)) == move && Batch(block, Aptos, move)
    ensures forall i :: 0 <= i < |committed| ==> committed[i] < |block| && ClassOf(block[committed[i]]) != Cross
  {
    LogFollows(block, base, committed);
    forall i | 0 <= i < |committed| ensures ClassOf(block[committed[i]]) != Cross {
      FilterMember(committed, Sees(block, Aptos), committed[i]);
    }
  }

  lemma Outputs(block: seq<Tx>, base: BaseView, st: State, p: Pointer)
    requires Serialized(block, base, st) && st.answered == [] && st.ret == []
    requires forall i :: 0 <= i < |st.committed| ==>
             st.committed[i] < |block| && ClassOf(block[st.committed[i]]) != Cross
    ensures Done(st, p) == Filter(Serial(block, base, st.committed).value.log, SeesEvent(block, p))
  {
    var log := Serial(block, base, st.committed).value.log;
    LogFollows(block, base, st.committed);
    OwnEvents(block, log, p);
    assert Logged(block, st, log, p);
    assert Zip([], []) == [] && [] + Done(st, p) == Done(st, p);
  }

  lemma UnZip(a: seq<nat>, events: seq<Event>, batch: seq<nat>, outputs: seq<Output>)
    requires |batch| == |outputs| && events == Zip(batch, outputs)
    requires |events| == |a| && forall i :: 0 <= i < |a| ==> events[i].0 == a[i]
    ensures batch == a && events == Zip(a, outputs)
  {
    forall i | 0 <= i < |a| ensures batch[i] == a[i] {
      assert events[i] == (batch[i], outputs[i]);
    }
  }

  /** Every interleaving of the reads and write sets of a Move batch and an Ethereum batch ends
      with the cache and the outputs of running one whole batch after the other, in either order. */
  lemma EveryInterleavingIsSerial(
    block: seq<Tx>, base: BaseView, aptos: iset<Key>, ethereum: iset<Key>,
    move: seq<nat>, eth: seq<nat>, states: seq<State>, steps: seq<Step>, st: State)
    requires Isolated(block, aptos, ethereum) && Batch(block, Aptos, move) && Batch(block, Ethereum, eth)
    requires Schedule(block, base, states, steps) && states[0] == Start(move, eth)
    requires forall i :: 0 <= i < |steps| ==> WorkerStep(steps[i])
    requires st == states[|steps|] && st.replies.aptos != [] && st.replies.ethereum != []
    ensures OneAfterTheOther(block, base, move, st.replies.aptos[0].outputs, eth, st.replies.ethereum[0].outputs,
            st.cache)
    ensures OneAfterTheOther(block, base, eth, st.replies.ethereum[0].outputs, move, st.replies.aptos[0].outputs,
            st.cache)
  {
    StartHasInv(block, base, move, eth);
    ScheduleKeepsInv(block, base, aptos, ethereum, states, steps, |steps|);
    WorkersSendNothing(block, base, move, eth, states, steps, |steps|);
    assert Slot(st, Aptos) && Slot(st, Ethereum) && Shaped(block, st, Aptos) && Shaped(block, st, Ethereum);
    ExecutedInOrder(block, st, move, eth);
    NoCross(block, base, st.committed, move);
    Outputs(block, base, st, Aptos);
    Outputs(block, base, st, Ethereum);
    EitherOrder(block, move, eth);
    SerialOfTwo(block, base, aptos, ethereum, st, move, eth, Aptos, Ethereum);
    SerialOfTwo(block, base, aptos, ethereum, st, eth, move, Ethereum, Aptos);
    var a, e := st.replies.aptos[0], st.replies.ethereum[0];
    UnZip(move, Done(st, Aptos), a.batch, a.outputs);
    UnZip(eth, Done(st, Ethereum), e.batch, e.outputs);
  }
}
