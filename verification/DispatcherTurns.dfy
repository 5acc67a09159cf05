/** A run of the dispatcher's loop in which every worker answers before the next scan. */
module DispatcherTurns {
  import opened TransactionPrograms
  import opened Permutations
  import opened Dispatcher
  import opened DispatcherInvariant
  import opened DispatcherSerial
  import opened DispatcherRuns
  import opened DispatcherAnswers
  import opened DispatcherTheorems
  import opened DispatcherProgress
  import opened DispatcherLoop

  predicate Idle(st: State) { !st.loaded.aptos && !st.loaded.ethereum && !st.loaded.cross }

  /** Between two turns of such a run: nothing is out, and answers came in the order sent. */
  ghost predicate BetweenTurns(block: seq<Tx>, base: BaseView, before: map<nat, U64>, st: State, at: Pointer) {
    && CanReach(block, base, before, true, st, Loop(at, Closed, []))
    && Idle(st)
    && st.answered == st.sent
    && st.index.aptos <= |block| && st.index.ethereum <= |block| && st.index.cross <= |block|
  }

  lemma ScanLoads(block: seq<Tx>, st: State, p: Pointer)
    requires Exclusive(block, st) && Idle(st)
    ensures var s1 := DoScan(block, st, p);
            && Held(s1, p) == Found(block, st, p) && s1.sent == st.sent + Found(block, st, p) &&
               s1.answered == st.answered
            && s1.loaded == (if Found(block, st, p) == [] then st.loaded else st.loaded.Set(p, true))
            && (Found(block, st, p) != [] ==> s1.queues.Get(p) != [])
  {
    ScanHolds(block, st, p, p);
    ScanSends(block, st, p, p);
    assert Slot(st, p);
    assert [] + Found(block, st, p) == Found(block, st, p);
  }

  lemma ScanStaysInside(block: seq<Tx>, st: State, p: Pointer)
    requires Exclusive(block, st) && Idle(st) && st.index.aptos <= |block| && st.index.ethereum <= |block|
    requires st.index.cross <= |block|
    ensures var index := DoScan(block, st, p).index;
            && index.aptos <= |block| && index.ethereum <= |block| && index.cross <= |block|
            && Unpassed(block, index) <= Unpassed(block, st.index)
            && (DoScan(block, st, p) != st ==> Unpassed(block, index) < Unpassed(block, st.index))
  {
    ScanFinds(block, p, st.loaded, st.processed, Scanned(st.index.Get(p), st.nonces, []));
    if DoScan(block, st, p).index.Get(p) == st.index.Get(p) {
      NoMoveNoChange(block, p, st.loaded, st.processed, Scanned(st.index.Get(p), st.nonces, []));
    }
  }

  /** A pointer scans, and its worker answers what it finds. */
  lemma Turn(block: seq<Tx>, base: BaseView, before: map<nat, U64>, bound: nat, order: seq<nat>, st: State, at: Pointer)
    returns (st': State)
    requires AllFinish(block, bound) && Dispatchable(block, NextOf(before), order)
    requires BetweenTurns(block, base, before, st, at)
    ensures BetweenTurns(block, base, before, st', After(at))
    ensures if DoScan(block, st, After(at)) == st then st' == st
            else Unpassed(block, st'.index) < Unpassed(block, st.index)
  {
    var p, l := After(at), Loop(at, Closed, []);
    ReachedInv(block, base, before, true, st, l);
    ScanLoads(block, st, p);
    ScanStaysInside(block, st, p);
    NeverPanics(block, before, order, st, p);
    st' := DoScan(block, st, p);
    Go(block, base, before, true, st, l, Scan(p), Loop(p, if st'.loaded.Get(p) then Open(false) else Closed, []));
    if Found(block, st, p) != [] {
      st' := WorkerServes(block, base, before, true, bound, st', Loop(p, Open(false), []), p);
    }
  }

  /** Every pointer has its turn; one of them moves, unless the block is finished. */
  lemma Round(
    block: seq<Tx>, base: BaseView, before: map<nat, U64>, bound: nat, order: seq<nat>, st: State)
    returns (st': State)
    requires AllFinish(block, bound) && BetweenTurns(block, base, before, st, Cross)
    requires Dispatchable(block, NextOf(before), order) && st.processed < |block|
    ensures BetweenTurns(block, base, before, st', Cross)
    ensures Unpassed(block, st'.index) < Unpassed(block, st.index)
  {
    ReachedInv(block, base, before, true, st, Loop(Cross, Closed, []));
    var p := PointerMoves(block, before, order, st);
    var s1 := Turn(block, base, before, bound, order, st, Cross);
    var s2 := Turn(block, base, before, bound, order, s1, Aptos);
    st' := Turn(block, base, before, bound, order, s2, Ethereum);
  }

  lemma {:induction false} Rounds(
    block: seq<Tx>, base: BaseView, before: map<nat, U64>, bound: nat, order: seq<nat>, st: State)
    returns (st': State)
    requires AllFinish(block, bound) && BetweenTurns(block, base, before, st, Cross)
    requires Dispatchable(block, NextOf(before), order)
    ensures BetweenTurns(block, base, before, st', Cross) && st'.processed == |block|
    decreases Unpassed(block, st.index)
  {
    ReachedInv(block, base, before, true, st, Loop(Cross, Closed, []));
    SentIsDistinct(block, st.sent);
    DistinctFits(st.sent, |block|);
    st' := st;
    if st.processed < |block| {
      var next := Round(block, base, before, bound, order, st);
      st' := Rounds(block, base, before, bound, order, next);
    }
  }

  /** The loop as coded finishes every block that some order suits, and may collect the answers
      in the order sent. */
  lemma PatientRun(block: seq<Tx>, base: BaseView, before: map<nat, U64>, bound: nat, order: seq<nat>)
    returns (states: seq<State>, steps: seq<Step>)
    requires AllFinish(block, bound) && Dispatchable(block, NextOf(before), order)
    ensures FinishedRun(block, base, before, states, steps) && AsCoded(states, steps)
    ensures states[|steps|].answered == states[|steps|].sent
  {
    Begin(block, base, before, true);
    var st := Rounds(block, base, before, bound, order, Initial(before));
    states, steps :| Reached(block, base, before, true, states, steps, st, Loop(Cross, Closed, []));
  }

  /** The loop as coded finishes exactly the blocks that some order suits. */
  lemma LoopFinishesExactlyIf(block: seq<Tx>, base: BaseView, before: map<nat, U64>, bound: nat)
    requires AllFinish(block, bound)
    ensures (exists states: seq<State>, steps: seq<Step> ::
            FinishedRun(block, base, before, states, steps) && AsCoded(states, steps))
       <==> exists order :: Dispatchable(block, NextOf(before), order)
  {
    if order :| Dispatchable(block, NextOf(before), order) {
      var states, steps := PatientRun(block, base, before, bound, order);
    }
    if states: seq<State>, steps: seq<Step> :|
      FinishedRun(block, base, before, states, steps) && AsCoded(states, steps) {
      FinishedIsDispatchable(block, base, before, states, steps);
    }
  }
}
