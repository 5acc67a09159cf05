/** Two short runs of the dispatcher's loop as it is coded, of accounts that use their nonces in
    block order: one that does not leave the sequential cache, and one that does, but returns the
    outputs in another order. */
module ShortRuns {
  import opened Options
  import opened TransactionPrograms
  import opened Permutations
  import opened Dispatcher
  import opened DispatcherInvariant
  import opened SerialOrders
  import opened DispatcherTheorems
  import opened DispatcherProgress
  import opened DispatcherLoop
  import opened OrderExactness
  import opened SequentialResults

  const FREE := Per(false, false, false)

  /** What the dispatcher knows, and the batches that wait for their workers. */
  datatype View = View(
    index: Per<nat>, loaded: Per<bool>, nonces: map<nat, U64>, sent: seq<nat>, answered: seq<nat>,
    queues: Per<seq<seq<nat>>>)

  const UNUSED := View(Per(0, 0, 0), FREE, map[], [], [], Per([], [], []))

  function ViewOf(st: State): View { View(st.index, st.loaded, st.nonces, st.sent, st.answered, st.queues) }

  /** The loop can be here, with nothing in the channel. */
  ghost predicate At(block: seq<Tx>, st: State, at: Pointer, poll: Poll, v: View) {
    CanReach(block, Nothing(), map[], true, st, Loop(at, poll, [])) && ViewOf(st) == v
  }

  /** The scan has this result, and does not panic. */
  predicate ScansTo(block: seq<Tx>, p: Pointer, loaded: Per<bool>, processed: nat, s: Scanned, s': Scanned) {
    ScanFrom(block, p, loaded, processed, s) == s' && !ScanPanics(block, p, loaded, processed, s)
  }

  lemma Knows(block: seq<Tx>, st: State, at: Pointer, poll: Poll, v: View)
    requires At(block, st, at, poll, v)
    ensures st.processed == |v.answered| && Exclusive(block, st)
  {
    ReachedInv(block, Nothing(), map[], true, st, Loop(at, poll, []));
  }

  /** The next pointer scans, with the result `s`. */
  lemma Scans(
    block: seq<Tx>, st: State, at: Pointer, poll: Poll, v: View, p: Pointer, s: Scanned, v': View)
    returns (st': State)
    requires At(block, st, at, poll, v) && (poll.Open? ==> !poll.due) && p == After(at)
    requires ScansTo(block, p, v.loaded, |v.answered|, Scanned(v.index.Get(p), v.nonces, []), s)
    requires v' == View(v.index.Set(p, s.index), if s.batch == [] then v.loaded else v.loaded.Set(p, true), s.nonces,
                        v.sent + s.batch, v.answered,
                        if s.batch == [] then v.queues else v.queues.Set(p, v.queues.Get(p) + [s.batch]))
    ensures At(block, st', p, if v'.loaded.Get(p) then Open(false) else Closed, v')
  {
    Knows(block, st, at, poll, v);
    st' := DoScan(block, st, p);
    Go(block, Nothing(), map[], true, st, Loop(at, poll, []), Scan(p),
      Loop(p, if st'.loaded.Get(p) then Open(false) else Closed, []));
    assert st.sent + [] == st.sent;
  }

  /** The worker `p` serves the batch that waits for it, and the poll finds its answer. */
  lemma Serves(
    block: seq<Tx>, st: State, at: Pointer, v: View, p: Pointer, batch: seq<nat>, v': View)
    returns (st': State)
    requires At(block, st, at, Open(false), v) && AllFinish(block, 0) && v.queues.Get(p) == [batch]
    requires v' == v.(loaded := v.loaded.Set(p, false), answered := v.answered + batch, queues := v.queues.Set(p, []))
    ensures At(block, st', at, Closed, v')
  {
    Knows(block, st, at, Open(false), v);
    st' := WorkerServes(block, Nothing(), map[], true, 0, st, Loop(at, Open(false), []), p);
    Knows(block, st', at, Closed, ViewOf(st'));
    assert Slot(st', p) && st'.queues.Get(p) == [];
    assert forall q: Pointer :: q != p ==> st'.queues.Get(q) == st.queues.Get(q);
    PerEqual(st'.queues, st.queues.Set(p, []));
  }

  /** A batch joins those sent, and an empty queue. */
  lemma Joins(batch: seq<nat>, sent: seq<nat>)
    ensures [] + [batch] == [batch] && [] + batch == batch
    ensures forall x, y, z :: batch == [z] && sent == [x, y] ==> sent + batch == [x, y, z]
    ensures forall x, z :: batch == [z] && sent == [x] ==> sent + batch == [x, z]
  {
  }

  lemma PerEqual<T>(x: Per<T>, y: Per<T>)
    requires x.Get(Aptos) == y.Get(Aptos) && x.Get(Ethereum) == y.Get(Ethereum) && x.Get(Cross) == y.Get(Cross)
    ensures x == y
  {
  }

  lemma Finished(block: seq<Tx>, st: State, l: Loop) returns (states: seq<State>, steps: seq<Step>)
    requires CanReach(block, Nothing(), map[], true, st, l) && st.processed == |block|
    ensures FinishedRun(block, Nothing(), map[], states, steps) && AsCoded(states, steps) && states[|steps|] == st
  {
    states, steps :| Reached(block, Nothing(), map[], true, states, steps, st, l);
  }

  // ---------------------------------------------------------------- a transaction is overtaken

  /** An Ethereum transaction, a cross-VM transaction, and a Move transaction that writes to the
      key of the one before. */
  function Three(): seq<Tx> { Telling(ThreePlain(), 1, 2) }

  function ThreePlain(): seq<Tx> {
    var program := WriteOne(None, 0);
    [User(EthereumTx, 0, 0, program), User(CrossTxAptosOrigin, 1, 0, program), User(AptosTx, 2, 0, program)]
  }

  /** While the Ethereum worker is busy, the cross-VM transaction waits, and the Move pointer
      steps over it. */
  lemma ThreeScans()
    ensures ScansTo(Three(), Aptos, FREE, 0, Scanned(0, map[], []), Scanned(1, map[], []))
    ensures ScansTo(Three(), Ethereum, FREE, 0, Scanned(0, map[], []), Scanned(2, map[0 := 0], [0]))
    ensures ScansTo(Three(), Cross, FREE.(ethereum := true), 0, Scanned(0, map[0 := 0], []),
            Scanned(1, map[0 := 0], []))
    ensures ScansTo(Three(), Aptos, FREE.(ethereum := true), 0, Scanned(1, map[0 := 0], []),
            Scanned(2, map[0 := 0], []))
    ensures ScansTo(Three(), Ethereum, FREE.(ethereum := true), 0, Scanned(2, map[0 := 0], []),
            Scanned(3, map[0 := 0], []))
    ensures ScansTo(Three(), Cross, FREE.(ethereum := true), 0, Scanned(1, map[0 := 0], []),
            Scanned(1, map[0 := 0], []))
    ensures ScansTo(Three(), Aptos, FREE.(ethereum := true), 0, Scanned(2, map[0 := 0], []),
            Scanned(3, map[0 := 0, 2 := 0], [2]))
  {
    assert [] + [0] == [0] && [] + [2] == [2];
  }

  lemma ThreeScansLast()
    ensures ScansTo(Three(), Ethereum, FREE.(ethereum := true), 1, Scanned(3, map[0 := 0, 2 := 0], []),
            Scanned(3, map[0 := 0, 2 := 0], []))
    ensures ScansTo(Three(), Cross, FREE, 2, Scanned(1, map[0 := 0, 2 := 0], []),
            Scanned(3, map[0 := 0, 2 := 0, 1 := 0], [1]))
  {
    assert [] + [1] == [1];
  }

  lemma ThreeFinish()
    ensures AllFinish(Three(), 0) && Isolated(Three(), iset{0}, iset{})
  {
    var b := Three();
    forall k | 0 <= k < |b|
      ensures Finishes(b[k].program, 0) && (IsMove(b[k]) ==> Footprint(b[k].program, iset{0}))
      ensures IsEthereum(b[k]) ==> Footprint(b[k].program, iset{})
    {
      assert b[k].program == WriteOne(ValueOf(1, 2, k), k);
    }
  }

  function AfterOne(): View { View(Per(1, 2, 1), FREE.(ethereum := true), map[0 := 0], [0], [], Per([], [[0]], [])) }

  function AfterTwo(): View { AfterOne().(index := Per(2, 3, 1)) }

  /** The Ethereum transaction is sent, and its worker is slow. */
  lemma FirstRound() returns (st: State)
    ensures At(Three(), st, Cross, Closed, AfterOne())
  {
    ThreeScans();
    Begin(Three(), Nothing(), map[], true);
    Joins([0], []);
    st := Scans(Three(), Initial(map[]), Cross, Closed, UNUSED, Aptos, Scanned(1, map[], []),
      UNUSED.(index := Per(1, 0, 0)));
    st := Scans(Three(), st, Aptos, Closed, UNUSED.(index := Per(1, 0, 0)), Ethereum, Scanned(2, map[0 := 0], [0]),
      AfterOne().(index := Per(1, 2, 0)));
    st := Scans(Three(), st, Ethereum, Open(false), AfterOne().(index := Per(1, 2, 0)), Cross,
      Scanned(1, map[0 := 0], []), AfterOne());
  }

  /** The cross-VM transaction waits for it. */
  lemma SecondRound(s0: State) returns (st: State)
    requires At(Three(), s0, Cross, Closed, AfterOne())
    ensures At(Three(), st, Cross, Closed, AfterTwo())
  {
    ThreeScans();
    st := Scans(Three(), s0, Cross, Closed, AfterOne(), Aptos, Scanned(2, map[0 := 0], []),
      AfterOne().(index := Per(2, 2, 1)));
    st := Scans(Three(), st, Aptos, Closed, AfterOne().(index := Per(2, 2, 1)), Ethereum, Scanned(3, map[0 := 0], []),
      AfterTwo());
    st := Scans(Three(), st, Ethereum, Open(false), AfterTwo(), Cross, Scanned(1, map[0 := 0], []), AfterTwo());
  }

  function Overtaken(): View {
    View(Per(3, 3, 1), FREE.(ethereum := true), map[0 := 0, 2 := 0], [0, 2], [2], Per([], [[0]], []))
  }

  /** The Move transaction is sent and answered, */
  lemma ThirdRoundMove(s0: State) returns (st: State)
    requires At(Three(), s0, Cross, Closed, AfterTwo())
    ensures At(Three(), st, Aptos, Closed, Overtaken())
  {
    ThreeScans();
    ThreeFinish();
    Joins([2], [0]);
    var v := View(Per(3, 3, 1), Per(true, true, false), map[0 := 0, 2 := 0], [0, 2], [], Per([[2]], [[0]], []));
    st := Scans(Three(), s0, Cross, Closed, AfterTwo(), Aptos, Scanned(3, map[0 := 0, 2 := 0], [2]), v);
    st := Serves(Three(), st, Aptos, v, Aptos, [2], Overtaken());
  }

  function AllBut(): View { View(Per(3, 3, 1), FREE, map[0 := 0, 2 := 0], [0, 2], [2, 0], Per([], [], [])) }

  /** then the Ethereum one is answered, */
  lemma ThirdRoundEthereum(s0: State) returns (st: State)
    requires At(Three(), s0, Aptos, Closed, Overtaken())
    ensures At(Three(), st, Ethereum, Closed, AllBut())
  {
    ThreeScansLast();
    ThreeFinish();
    st := Scans(Three(), s0, Aptos, Closed, Overtaken(), Ethereum, Scanned(3, map[0 := 0, 2 := 0], []), Overtaken());
    st := Serves(Three(), st, Ethereum, Overtaken(), Ethereum, [0], AllBut());
  }

  function All(): View { View(Per(3, 3, 3), FREE, map[0 := 0, 2 := 0, 1 := 0], [0, 2, 1], [2, 0, 1], Per([], [], [])) }

  function LastSent(): View { All().(loaded := FREE.(cross := true), answered := [2, 0], queues := Per([], [], [[1]])) }

  /** and only then the cross-VM transaction is sent. */
  lemma ThirdRoundCross(s0: State) returns (st: State)
    requires At(Three(), s0, Ethereum, Closed, AllBut())
    ensures At(Three(), st, Cross, Open(false), LastSent())
  {
    ThreeScansLast();
    Joins([1], [0, 2]);
    st := Scans(Three(), s0, Ethereum, Closed, AllBut(), Cross, Scanned(3, map[0 := 0, 2 := 0, 1 := 0], [1]),
      LastSent());
  }

  lemma LastAnswer(s0: State) returns (st: State)
    requires At(Three(), s0, Cross, Open(false), LastSent())
    ensures At(Three(), st, Cross, Closed, All())
  {
    ThreeFinish();
    st := Serves(Three(), s0, Cross, LastSent(), Cross, [1], All());
  }

  lemma ThreeRounds() returns (states: seq<State>, steps: seq<Step>)
    ensures FinishedRun(Three(), Nothing(), map[], states, steps) && AsCoded(states, steps)
    ensures states[|steps|].sent == [0, 2, 1] && states[|steps|].answered == [2, 0, 1]
  {
    var st := FirstRound();
    st := SecondRound(st);
    st := ThirdRoundMove(st);
    st := ThirdRoundEthereum(st);
    st := ThirdRoundCross(st);
    st := LastAnswer(st);
    Knows(Three(), st, Cross, Closed, All());
    states, steps := Finished(Three(), st, Loop(Cross, Closed, []));
  }

  lemma CacheOfThree(answered: seq<nat>)
    requires answered == [2, 0, 1] && Permutation(answered, 3)
    ensures Serial(Three(), Nothing(), answered).Some? && Serial(Three(), Nothing(), Upto(3)).Some?
    ensures Serial(Three(), Nothing(), Upto(3)).value.cache != Serial(Three(), Nothing(), answered).value.cache
  {
    BlockOrder(3, 1, 2);
    assert answered[0] == 2 && answered[2] == 1;
    CacheTells(ThreePlain(), Nothing(), Upto(3), answered, 1, 2);
  }

  /** A run of the loop as coded whose cache is not that of the sequential executor, although Move
      and Ethereum transactions touch different keys. */
  lemma NotTheBlockOrder() returns (states: seq<State>, steps: seq<Step>)
    ensures Isolated(Three(), iset{0}, iset{})
    ensures FinishedRun(Three(), Nothing(), map[], states, steps) && AsCoded(states, steps)
    ensures states[|steps|].sent == [0, 2, 1] && !SequentialCache(Three(), Nothing(), states[|steps|])
  {
    ThreeFinish();
    states, steps := ThreeRounds();
    FinishedRunIsSerial(Three(), Nothing(), iset{0}, iset{}, map[], states, steps, states[|steps|]);
    CacheOfThree(states[|steps|].answered);
  }

  // ---------------------------------------------------------------- answers out of order

  /** A Move transaction and an Ethereum transaction, neither of which writes. */
  function TwoPlain(): seq<Tx> {
    var program := WriteOne(None, 0);
    [User(AptosTx, 0, 0, program), User(EthereumTx, 1, 0, program)]
  }

  function Two(): seq<Tx> { Telling(TwoPlain(), 2, 2) }

  lemma TwoScans()
    ensures ScansTo(Two(), Aptos, FREE, 0, Scanned(0, map[], []), Scanned(2, map[0 := 0], [0]))
    ensures ScansTo(Two(), Ethereum, FREE.(aptos := true), 0, Scanned(0, map[0 := 0], []), Scanned(1, map[0 := 0], []))
    ensures ScansTo(Two(), Cross, FREE.(aptos := true), 0, Scanned(0, map[0 := 0], []), Scanned(1, map[0 := 0], []))
    ensures ScansTo(Two(), Aptos, FREE.(aptos := true), 0, Scanned(2, map[0 := 0], []), Scanned(2, map[0 := 0], []))
    ensures ScansTo(Two(), Ethereum, FREE.(aptos := true), 0, Scanned(1, map[0 := 0], []),
            Scanned(2, map[0 := 0, 1 := 0], [1]))
    ensures ScansTo(Two(), Cross, FREE.(aptos := true), 1, Scanned(1, map[0 := 0, 1 := 0], []),
            Scanned(2, map[0 := 0, 1 := 0], []))
    ensures ScansTo(Two(), Aptos, FREE.(aptos := true), 1, Scanned(2, map[0 := 0, 1 := 0], []),
            Scanned(2, map[0 := 0, 1 := 0], []))
  {
    assert [] + [0] == [0] && [] + [1] == [1];
  }

  lemma TwoFinish()
    ensures AllFinish(Two(), 0) && Isolated(Two(), iset{}, iset{})
  {
    SilentIsIsolated(TwoPlain());
    forall k | 0 <= k < |Two()| ensures Finishes(Two()[k].program, 0) {
      assert Two()[k].program == WriteOne(ValueOf(2, 2, k), k);
    }
  }

  function MoveSent(): View { View(Per(2, 1, 1), FREE.(aptos := true), map[0 := 0], [0], [], Per([[0]], [], [])) }

  /** The Move transaction is sent, and its worker is slow. */
  lemma MoveIsSent() returns (st: State)
    ensures At(Two(), st, Cross, Closed, MoveSent())
  {
    TwoScans();
    Begin(Two(), Nothing(), map[], true);
    Joins([0], []);
    st := Scans(Two(), Initial(map[]), Cross, Closed, UNUSED, Aptos, Scanned(2, map[0 := 0], [0]),
      MoveSent().(index := Per(2, 0, 0)));
    st := Scans(Two(), st, Aptos, Open(false), MoveSent().(index := Per(2, 0, 0)), Ethereum,
      Scanned(1, map[0 := 0], []), MoveSent().(index := Per(2, 1, 0)));
    st := Scans(Two(), st, Ethereum, Closed, MoveSent().(index := Per(2, 1, 0)), Cross, Scanned(1, map[0 := 0], []),
      MoveSent());
  }

  function EthereumAnswered(): View {
    View(Per(2, 2, 1), FREE.(aptos := true), map[0 := 0, 1 := 0], [0, 1], [1], Per([[0]], [], []))
  }

  /** The Ethereum transaction is sent and answered, */
  lemma EthereumIsAnswered(s0: State) returns (st: State)
    requires At(Two(), s0, Cross, Closed, MoveSent())
    ensures At(Two(), st, Ethereum, Closed, EthereumAnswered())
  {
    TwoScans();
    TwoFinish();
    Joins([1], [0]);
    var v := EthereumAnswered().(loaded := Per(true, true, false), answered := [], queues := Per([[0]], [[1]], []));
    st := Scans(Two(), s0, Cross, Closed, MoveSent(), Aptos, Scanned(2, map[0 := 0], []), MoveSent());
    st := Scans(Two(), st, Aptos, Open(false), MoveSent(), Ethereum, Scanned(2, map[0 := 0, 1 := 0], [1]), v);
    st := Serves(Two(), st, Ethereum, v, Ethereum, [1], EthereumAnswered());
  }

  function BothAnswered(): View { View(Per(2, 2, 2), FREE, map[0 := 0, 1 := 0], [0, 1], [1, 0], Per([], [], [])) }

  /** and only then the Move transaction is. */
  lemma MoveIsAnswered(s0: State) returns (st: State)
    requires At(Two(), s0, Ethereum, Closed, EthereumAnswered())
    ensures At(Two(), st, Aptos, Closed, BothAnswered())
  {
    TwoScans();
    TwoFinish();
    var v := EthereumAnswered().(index := Per(2, 2, 2));
    st := Scans(Two(), s0, Ethereum, Closed, EthereumAnswered(), Cross, Scanned(2, map[0 := 0, 1 := 0], []), v);
    st := Scans(Two(), st, Cross, Closed, v, Aptos, Scanned(2, map[0 := 0, 1 := 0], []), v);
    st := Serves(Two(), st, Aptos, v, Aptos, [0], BothAnswered());
  }

  lemma BothRun() returns (states: seq<State>, steps: seq<Step>)
    ensures FinishedRun(Two(), Nothing(), map[], states, steps) && AsCoded(states, steps)
    ensures states[|steps|].answered == [1, 0]
  {
    var st := MoveIsSent();
    st := EthereumIsAnswered(st);
    st := MoveIsAnswered(st);
    Knows(Two(), st, Aptos, Closed, BothAnswered());
    states, steps := Finished(Two(), st, Loop(Aptos, Closed, []));
  }

  /** A run of the loop as coded that leaves the sequential cache but returns the output of the
      second transaction first: paired with the block by position, each is that of the other. */
  lemma OutputsChangePlaces() returns (states: seq<State>, steps: seq<Step>)
    ensures Isolated(Two(), iset{}, iset{}) && Unmixed(Two())
    ensures FinishedRun(Two(), Nothing(), map[], states, steps) && AsCoded(states, steps)
    ensures SequentialCache(Two(), Nothing(), states[|steps|])
    ensures states[|steps|].ret == [1, 0] && !SequentialVector(Two(), Nothing(), states[|steps|])
  {
    TwoFinish();
    states, steps := BothRun();
    var st := states[|steps|];
    UnmixedHasSequentialCache(Two(), Nothing(), iset{}, iset{}, map[], states, steps);
    FinishedRunIsSerial(Two(), Nothing(), iset{}, iset{}, map[], states, steps, st);
    VectorOfTwo(st);
  }

  lemma VectorOfTwo(st: State)
    requires Permutation(st.answered, 2) && st.answered == [1, 0] && ExecutedAs(Two(), Nothing(), st, st.answered)
    ensures st.ret == [1, 0] && !SequentialVector(Two(), Nothing(), st)
  {
    TellingOutputsPlaces(TwoPlain(), Nothing(), 2, 2, st.answered);
    VectorIsOrder(Two(), Nothing(), st, st.answered);
    BlockOrder(2, 0, 1);
    TellingOutputsPlaces(TwoPlain(), Nothing(), 2, 2, Upto(2));
    if SequentialVector(Two(), Nothing(), st) {
      SequentialIsBlockOrder(Two(), Nothing(), st);
    }
  }
}
