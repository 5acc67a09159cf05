/** The loop of the dispatcher, without workers and programs: at the end of each turn either no
    answer is taken, or that of some busy worker. The orders in which these choices let a block be
    sent and answered are those of the runs of the code. */
module TurnChoices {
  import opened Options
  import opened TransactionPrograms
  import opened Permutations
  import opened Dispatcher
  import opened DispatcherInvariant
  import opened SerialOrders
  import opened DispatcherSerial
  import opened DispatcherRuns
  import opened DispatcherAnswers
  import opened DispatcherTheorems
  import opened DispatcherProgress
  import opened DispatcherLoop
  import opened OrderExactness
  import opened SequentialResults
  import opened RunOutputs
  import opened IdleScans

  /** The pointer whose turn it was, the state of the dispatcher, and the batch each worker holds. */
  datatype Turning = Turning(
    at: Pointer, index: Per<nat>, nonces: map<nat, U64>, sent: seq<nat>, answered: seq<nat>,
    loaded: Per<bool>, held: Per<seq<nat>>)

  const IDLE := Turning(Cross, Per(0, 0, 0), map[], [], [], Per(false, false, false), Per([], [], []))

  /** The next pointer scans. */
  function ScanTurn(block: seq<Tx>, x: Turning): Option<Turning> {
    var p := After(x.at);
    var s := Scanned(x.index.Get(p), x.nonces, []);
    if ScanPanics(block, p, x.loaded, |x.answered|, s) then None
    else
      var s' := ScanFrom(block, p, x.loaded, |x.answered|, s);
      var y := x.(at := p, index := x.index.Set(p, s'.index), nonces := s'.nonces, sent := x.sent + s'.batch);
      Some(if s'.batch == [] then y else y.(loaded := x.loaded.Set(p, true), held := x.held.Set(p, s'.batch)))
  }

  /** If its worker is busy, the answer of a busy worker may be taken. */
  function TakeAnswer(x: Turning, choice: Option<Pointer>): Option<Turning> {
    match choice
    case None => Some(x)
    case Some(q) =>
      if !x.loaded.Get(x.at) || !x.loaded.Get(q) then None
      else Some(x.(answered := x.answered + x.held.Get(q), loaded := x.loaded.Set(q, false), held := x.held.Set(q, [])))
  }

  function TurnsOf(block: seq<Tx>, before: map<nat, U64>, choices: seq<Option<Pointer>>): Option<Turning> {
    if choices == [] then Some(IDLE.(nonces := before))
    else
      match TurnsOf(block, before, choices[..|choices| - 1])
      case None => None
      case Some(x) =>
        match ScanTurn(block, x)
        case None => None
        case Some(y) => TakeAnswer(y, choices[|choices| - 1])
  }

  lemma OneMoreTurn(block: seq<Tx>, before: map<nat, U64>, choices: seq<Option<Pointer>>, choice: Option<Pointer>)
    requires TurnsOf(block, before, choices).Some?
    ensures TurnsOf(block, before, choices + [choice]) ==
            match ScanTurn(block, TurnsOf(block, before, choices).value)
            case None => None
            case Some(y) => TakeAnswer(y, choice)
  {
    assert (choices + [choice])[..|choices|] == choices;
  }

  // ---------------------------------------------------------------- runs of the code make choices

  function HeldBy(st: State): Per<seq<nat>> { Per(Held(st, Aptos), Held(st, Ethereum), Held(st, Cross)) }

  function TurningOf(st: State, at: Pointer): Turning {
    Turning(at, st.index, st.nonces, st.sent, st.answered, st.loaded, HeldBy(st))
  }

  lemma PerIs<T>(x: Per<T>, y: Per<T>)
    requires forall q: Pointer :: x.Get(q) == y.Get(q)
    ensures x == y
  {
    assert x.Get(Aptos) == y.Get(Aptos) && x.Get(Ethereum) == y.Get(Ethereum) && x.Get(Cross) == y.Get(Cross);
  }

  /** A scan of the loop is a scan of a turn. */
  lemma ScanIsTurn(block: seq<Tx>, before: map<nat, U64>, st: State, at: Pointer)
    requires SentInv(block, before, st) && !PanicsAt(block, st, After(at))
    ensures ScanTurn(block, TurningOf(st, at)) == Some(TurningOf(DoScan(block, st, After(at)), After(at)))
  {
    var p := After(at);
    var st', batch := DoScan(block, st, p), Found(block, st, p);
    ScanSends(block, st, p, p);
    forall q: Pointer
      ensures HeldBy(st').Get(q) == (if batch == [] then HeldBy(st) else HeldBy(st).Set(p, batch)).Get(q)
    {
      ScanHolds(block, st, p, q);
      assert [] + batch == batch;
    }
    PerIs(HeldBy(st'), if batch == [] then HeldBy(st) else HeldBy(st).Set(p, batch));
  }

  /** And a collected answer is one that is taken. */
  lemma CollectIsTaken(block: seq<Tx>, before: map<nat, U64>, st: State, at: Pointer, q: Pointer)
    requires SentInv(block, before, st) && Enabled(block, st, Collect(q)) && st.loaded.Get(at)
    ensures TakeAnswer(TurningOf(st, at), Some(q)) == Some(TurningOf(DoCollect(st, q), at))
  {
    var st' := DoCollect(st, q);
    forall r: Pointer ensures HeldBy(st').Get(r) == HeldBy(st).Set(q, []).Get(r) {
      CollectReleases(block, st, q, r);
    }
    CollectReleases(block, st, q, q);
    PerIs(HeldBy(st'), HeldBy(st).Set(q, []));
  }

  lemma WorkIsHidden(block: seq<Tx>, base: BaseView, before: map<nat, U64>, st: State, at: Pointer, step: Step)
    requires SentInv(block, before, st) && Enabled(block, st, step) && !step.Scan? && !step.Collect?
    ensures TurningOf(Do(block, base, st, step), at) == TurningOf(st, at)
  {
    WorkersKeepHeld(block, base, st, step, Aptos);
    WorkersKeepHeld(block, base, st, step, Ethereum);
    WorkersKeepHeld(block, base, st, step, Cross);
  }

  /** The choices so far; while the poll is still open, the last one is to take nothing. */
  ghost predicate Chosen(
    block: seq<Tx>, before: map<nat, U64>, choices: seq<Option<Pointer>>, st: State, l: Loop)
  {
    && TurnsOf(block, before, choices) == Some(TurningOf(st, l.at))
    && (l.poll.Open? ==>
          && st.loaded.Get(l.at) && choices != [] && choices[|choices| - 1] == None)
  }

  lemma StepIsChosen(
    block: seq<Tx>, base: BaseView, before: map<nat, U64>, choices: seq<Option<Pointer>>, st: State, l: Loop,
    step: Step)
    returns (choices': seq<Option<Pointer>>)
    requires SentInv(block, before, st) && Enabled(block, st, step) && Chosen(block, before, choices, st, l)
    requires Advance(l, step, Do(block, base, st, step)).Some?
    ensures Chosen(block, before, choices', Do(block, base, st, step),
            Advance(l, step, Do(block, base, st, step)).value)
  {
    choices' := choices;
    if step.Scan? {
      ScanIsTurn(block, before, st, l.at);
      OneMoreTurn(block, before, choices, None);
      choices' := choices + [None];
    } else if step.Collect? {
      var init := choices[..|choices| - 1];
      CollectIsTaken(block, before, st, l.at, step.p);
      OneMoreTurn(block, before, init, Some(step.p));
      choices' := init + [Some(step.p)];
    } else {
      WorkIsHidden(block, base, before, st, l.at, step);
    }
  }

  /** Every run of the loop as coded makes some choices. */
  lemma {:induction false} RunIsChosen(
    block: seq<Tx>, base: BaseView, before: map<nat, U64>, states: seq<State>, steps: seq<Step>, n: nat)
    returns (choices: seq<Option<Pointer>>)
    requires Schedule(block, base, states, steps) && states[0] == Initial(before)
    requires n <= |steps| && LoopAt(states, steps, n).Some?
    ensures Chosen(block, before, choices, states[n], LoopAt(states, steps, n).value)
  {
    choices := [];
    if n > 0 {
      choices := RunIsChosen(block, base, before, states, steps, n - 1);
      RunKeepsSentInv(block, base, before, states, steps, n - 1);
      choices := StepIsChosen(
        block, base, before, choices, states[n - 1], LoopAt(states, steps, n - 1).value, steps[n - 1]);
    }
  }

  // ---------------------------------------------------------------- choices make runs of the code

  /** Every busy worker still has its batch in the queue. */
  ghost predicate Waiting(st: State) {
    forall q: Pointer :: st.loaded.Get(q) ==> st.queues.Get(q) != []
  }

  /** The loop can be here, after these turns, with nothing in the channel. */
  ghost predicate AfterTurns(block: seq<Tx>, base: BaseView, before: map<nat, U64>, st: State, poll: Poll, x: Turning) {
    && CanReach(block, base, before, true, st, Loop(x.at, poll, []))
    && (poll.Open? ==> !poll.due)
    && Waiting(st)
    && TurningOf(st, x.at) == x
  }

  lemma ScanKeepsWaiting(block: seq<Tx>, st: State, p: Pointer)
    requires Waiting(st)
    ensures Waiting(DoScan(block, st, p))
  {
    forall q: Pointer | DoScan(block, st, p).loaded.Get(q) ensures DoScan(block, st, p).queues.Get(q) != [] {
      assert st.loaded.Get(q) ==> st.queues.Get(q) != [];
    }
  }

  lemma RealizeScan(block: seq<Tx>, base: BaseView, before: map<nat, U64>, st: State, poll: Poll, x: Turning)
    returns (st': State)
    requires AfterTurns(block, base, before, st, poll, x) && ScanTurn(block, x).Some?
    ensures var y := ScanTurn(block, x).value;
            AfterTurns(block, base, before, st', if y.loaded.Get(y.at) then Open(false) else Closed, y)
  {
    var p := After(x.at);
    ReachedInv(block, base, before, true, st, Loop(x.at, poll, []));
    st' := DoScan(block, st, p);
    assert !PanicsAt(block, st, p);
    Go(block, base, before, true, st, Loop(x.at, poll, []), Scan(p),
      Loop(p, if st'.loaded.Get(p) then Open(false) else Closed, []));
    ScanIsTurn(block, before, st, x.at);
    ScanKeepsWaiting(block, st, p);
  }

  /** After an answer the worker holds nothing, and the others what they held. */
  lemma ServedHolds(block: seq<Tx>, st: State, st': State, q: Pointer)
    requires Served(st, st', q) && Exclusive(block, st') && Waiting(st)
    ensures HeldBy(st') == HeldBy(st).Set(q, []) && Waiting(st')
  {
    assert Slot(st', q);
    forall r: Pointer
      ensures HeldBy(st').Get(r) == HeldBy(st).Set(q, []).Get(r)
      ensures st'.loaded.Get(r) ==> st'.queues.Get(r) != []
    {
      assert r != q ==> st'.queues.Get(r) == st.queues.Get(r);
      assert st.loaded.Get(r) ==> st.queues.Get(r) != [];
    }
    PerIs(HeldBy(st'), HeldBy(st).Set(q, []));
  }

  lemma RealizeAnswer(
    block: seq<Tx>, base: BaseView, before: map<nat, U64>, bound: nat, st: State, x: Turning, q: Pointer)
    returns (st': State)
    requires AllFinish(block, bound) && AfterTurns(block, base, before, st, Open(false), x)
    requires TakeAnswer(x, Some(q)).Some?
    ensures AfterTurns(block, base, before, st', Closed, TakeAnswer(x, Some(q)).value)
  {
    assert st.loaded.Get(q) ==> st.queues.Get(q) != [];
    st' := WorkerServes(block, base, before, true, bound, st, Loop(x.at, Open(false), []), q);
    ReachedInv(block, base, before, true, st', Loop(x.at, Closed, []));
    ServedHolds(block, st, st', q);
  }

  lemma {:induction false} Realized(
    block: seq<Tx>, base: BaseView, before: map<nat, U64>, bound: nat, choices: seq<Option<Pointer>>)
    returns (st: State, poll: Poll)
    requires AllFinish(block, bound) && TurnsOf(block, before, choices).Some?
    ensures AfterTurns(block, base, before, st, poll, TurnsOf(block, before, choices).value)
  {
    if choices == [] {
      st, poll := Initial(before), Closed;
      Begin(block, base, before, true);
    } else {
      var init, choice := choices[..|choices| - 1], choices[|choices| - 1];
      var x := TurnsOf(block, before, init).value;
      st, poll := Realized(block, base, before, bound, init);
      st := RealizeScan(block, base, before, st, poll, x);
      var y := ScanTurn(block, x).value;
      poll := if y.loaded.Get(y.at) then Open(false) else Closed;
      if choice.Some? {
        st := RealizeAnswer(block, base, before, bound, st, y, choice.value);
        poll := Closed;
      }
    }
  }

  /** These choices finish the block, which is sent and answered in these orders. */
  predicate Finishing(
    block: seq<Tx>, before: map<nat, U64>, choices: seq<Option<Pointer>>, sent: seq<nat>, answered: seq<nat>)
  {
    && |answered| == |block|
    && var x := TurnsOf(block, before, choices); x.Some? && x.value.sent == sent && x.value.answered == answered
  }

  lemma ChosenRun(
    block: seq<Tx>, base: BaseView, before: map<nat, U64>, bound: nat,
    choices: seq<Option<Pointer>>, sent: seq<nat>, answered: seq<nat>)
    returns (states: seq<State>, steps: seq<Step>)
    requires AllFinish(block, bound) && Finishing(block, before, choices, sent, answered)
    ensures FinishedRun(block, base, before, states, steps) && AsCoded(states, steps)
    ensures states[|steps|].sent == sent && states[|steps|].answered == answered
  {
    var st, poll := Realized(block, base, before, bound, choices);
    var l := Loop(TurnsOf(block, before, choices).value.at, poll, []);
    ReachedInv(block, base, before, true, st, l);
    states, steps :| Reached(block, base, before, true, states, steps, st, l);
  }

  lemma RunIsFinishing(block: seq<Tx>, base: BaseView, before: map<nat, U64>, states: seq<State>, steps: seq<Step>)
    returns (choices: seq<Option<Pointer>>)
    requires FinishedRun(block, base, before, states, steps) && AsCoded(states, steps)
    ensures Finishing(block, before, choices, states[|steps|].sent, states[|steps|].answered)
  {
    choices := RunIsChosen(block, base, before, states, steps, |steps|);
    RunKeepsSentInv(block, base, before, states, steps, |steps|);
  }

  // ---------------------------------------------------------------- programs do not matter

  lemma {:induction false} SamePlanTurns(a: seq<Tx>, b: seq<Tx>, before: map<nat, U64>, choices: seq<Option<Pointer>>)
    requires SamePlan(a, b)
    ensures TurnsOf(a, before, choices) == TurnsOf(b, before, choices)
  {
    if choices != [] {
      SamePlanTurns(a, b, before, choices[..|choices| - 1]);
      var x := TurnsOf(a, before, choices[..|choices| - 1]);
      if x.Some? {
        var p := After(x.value.at);
        SameScan(a, b, p, x.value.loaded, |x.value.answered|, Scanned(x.value.index.Get(p), x.value.nonces, []));
      }
    }
  }

  // ---------------------------------------------------------------- the exact conditions

  /** Whatever isolated programs the transactions run, every run of the loop as coded that finishes
      leaves the sequential cache, or returns the sequential vector. */
  ghost predicate LoopKeepsCache(block: seq<Tx>, before: map<nat, U64>) {
    forall b: seq<Tx>, base: BaseView, aptos: iset<Key>, ethereum: iset<Key>, states: seq<State>, steps: seq<Step> ::
      RunOfPlan(block, b, base, aptos, ethereum, before, states, steps) && AsCoded(states, steps) ==>
        SequentialCache(b, base, states[|steps|])
  }

  ghost predicate LoopKeepsVector(block: seq<Tx>, before: map<nat, U64>) {
    forall b: seq<Tx>, base: BaseView, aptos: iset<Key>, ethereum: iset<Key>, states: seq<State>, steps: seq<Step> ::
      RunOfPlan(block, b, base, aptos, ethereum, before, states, steps) && AsCoded(states, steps) ==>
        SequentialVector(b, base, states[|steps|])
  }

  /** Whatever answers are taken when, if the block is finished, each machine sees it sent in order. */
  ghost predicate ChoicesKeepOrder(block: seq<Tx>, before: map<nat, U64>) {
    forall choices: seq<Option<Pointer>>, sent: seq<nat>, answered: seq<nat> ::
      Finishing(block, before, choices, sent, answered) ==> SameOrder(block, sent, Upto(|block|))
  }

  ghost predicate ChoicesAnswerInOrder(block: seq<Tx>, before: map<nat, U64>) {
    forall choices: seq<Option<Pointer>>, sent: seq<nat>, answered: seq<nat> ::
      Finishing(block, before, choices, sent, answered) ==> answered == Upto(|block|)
  }

  lemma LoopCacheKept(
    block: seq<Tx>, b: seq<Tx>, base: BaseView, aptos: iset<Key>, ethereum: iset<Key>, before: map<nat, U64>,
    states: seq<State>, steps: seq<Step>)
    requires RunOfPlan(block, b, base, aptos, ethereum, before, states, steps) && AsCoded(states, steps)
    requires ChoicesKeepOrder(block, before)
    ensures SequentialCache(b, base, states[|steps|])
  {
    var st := states[|steps|];
    var choices := RunIsFinishing(b, base, before, states, steps);
    SamePlanTurns(block, b, before, choices);
    assert Finishing(block, before, choices, st.sent, st.answered);
    SamePlanSymmetric(block, b);
    SameKindsSameOrder(block, b, st.sent, Upto(|block|));
    FinishedRunIsSerial(b, base, aptos, ethereum, before, states, steps, st);
    SameOrderSameOutcome(b, base, aptos, ethereum, Upto(|b|), st.answered);
  }

  lemma RunOfChoices(
    block: seq<Tx>, before: map<nat, U64>, choices: seq<Option<Pointer>>, sent: seq<nat>, answered: seq<nat>,
    i: nat, j: nat)
    returns (states: seq<State>, steps: seq<Step>)
    requires Finishing(block, before, choices, sent, answered)
    ensures FinishedRun(Telling(block, i, j), Nothing(), before, states, steps) && AsCoded(states, steps)
    ensures states[|steps|].sent == sent && states[|steps|].answered == answered && Permutation(sent, |block|)
  {
    PlanOfTelling(block, i, j);
    SamePlanTurns(block, Telling(block, i, j), before, choices);
    states, steps := ChosenRun(Telling(block, i, j), Nothing(), before, 0, choices, sent, answered);
    FinishedRunSendsAll(Telling(block, i, j), Nothing(), before, states, steps);
  }

  lemma SilentIsAnswered(
    block: seq<Tx>, before: map<nat, U64>, choices: seq<Option<Pointer>>, sent: seq<nat>, answered: seq<nat>)
    returns (states: seq<State>, steps: seq<Step>)
    requires Finishing(block, before, choices, sent, answered)
    ensures RunOfPlan(block, Telling(block, |block|, |block|), Nothing(), iset{}, iset{}, before, states, steps)
    ensures AsCoded(states, steps) && states[|steps|].answered == answered
    ensures Permutation(sent, |block|) && Permutation(answered, |block|) && SameOrder(block, sent, answered)
  {
    var b := Telling(block, |block|, |block|);
    states, steps := RunOfChoices(block, before, choices, sent, answered, |block|, |block|);
    PlanOfTelling(block, |block|, |block|);
    SilentIsIsolated(block);
    FinishedRunIsSerial(b, Nothing(), iset{}, iset{}, before, states, steps, states[|steps|]);
    SamePlanSymmetric(block, b);
    SameKindsSameOrder(b, block, sent, answered);
  }

  lemma LoopPairNotKept(
    block: seq<Tx>, before: map<nat, U64>, choices: seq<Option<Pointer>>, sent: seq<nat>, answered: seq<nat>,
    q: Pointer, i: nat, j: nat)
    requires Finishing(block, before, choices, sent, answered) && Permutation(answered, |block|)
    requires q != Cross && i != j && InView(block, q, i) && InView(block, q, j)
    requires InOrder(Upto(|block|), i, j) && InOrder(answered, j, i)
    ensures !LoopKeepsCache(block, before)
  {
    var b := Telling(block, i, j);
    var states, steps := RunOfChoices(block, before, choices, sent, answered, i, j);
    TellingIsIsolated(block, q, i, j);
    var aptos: iset<Key>, ethereum: iset<Key> :=
      if q == Aptos then iset{0} else iset{}, if q == Aptos then iset{} else iset{0};
    FinishedRunIsSerial(b, Nothing(), aptos, ethereum, before, states, steps, states[|steps|]);
    UptoIsPermutation(|block|);
    CacheTells(block, Nothing(), Upto(|block|), answered, i, j);
    PlanOfTelling(block, i, j);
    assert RunOfPlan(block, b, Nothing(), aptos, ethereum, before, states, steps);
  }

  /** For a block with its senders and nonces, every run of the loop as coded that finishes leaves the
      sequential cache, whatever isolated programs the transactions run, if and only if no choice of
      answers makes a machine see the block sent in another order. */
  lemma LoopCacheExactlyIf(block: seq<Tx>, before: map<nat, U64>)
    ensures LoopKeepsCache(block, before) <==> ChoicesKeepOrder(block, before)
  {
    if ChoicesKeepOrder(block, before) {
      forall b: seq<Tx>, base: BaseView, aptos: iset<Key>, ethereum: iset<Key>, states: seq<State>, steps: seq<Step>
        | RunOfPlan(block, b, base, aptos, ethereum, before, states, steps) && AsCoded(states, steps)
        ensures SequentialCache(b, base, states[|steps|])
      {
        LoopCacheKept(block, b, base, aptos, ethereum, before, states, steps);
      }
    } else {
      var choices: seq<Option<Pointer>>, sent: seq<nat>, answered: seq<nat> :|
        Finishing(block, before, choices, sent, answered) && !SameOrder(block, sent, Upto(|block|));
      var states, steps := SilentIsAnswered(block, before, choices, sent, answered);
      var q, i, j := SeenInverted(block, answered);
      LoopPairNotKept(block, before, choices, sent, answered, q, i, j);
    }
  }

  /** And every such run returns the sequential vector if and only if no choice of answers takes them
      in another order than that of the block. */
  lemma LoopVectorExactlyIf(block: seq<Tx>, before: map<nat, U64>)
    ensures LoopKeepsVector(block, before) <==> ChoicesAnswerInOrder(block, before)
  {
    if ChoicesAnswerInOrder(block, before) {
      forall b: seq<Tx>, base: BaseView, aptos: iset<Key>, ethereum: iset<Key>, states: seq<State>, steps: seq<Step>
        | RunOfPlan(block, b, base, aptos, ethereum, before, states, steps) && AsCoded(states, steps)
        ensures SequentialVector(b, base, states[|steps|])
      {
        var choices := RunIsFinishing(b, base, before, states, steps);
        SamePlanTurns(block, b, before, choices);
        assert Finishing(block, before, choices, states[|steps|].sent, states[|steps|].answered);
        InOrderHasSequentialVector(b, base, aptos, ethereum, before, states, steps);
      }
    } else {
      var choices: seq<Option<Pointer>>, sent: seq<nat>, answered: seq<nat> :|
        Finishing(block, before, choices, sent, answered) && answered != Upto(|block|);
      LoopVectorLost(block, before, choices, sent, answered);
    }
  }

  lemma LoopVectorLost(
    block: seq<Tx>, before: map<nat, U64>, choices: seq<Option<Pointer>>, sent: seq<nat>, answered: seq<nat>)
    requires Finishing(block, before, choices, sent, answered) && answered != Upto(|block|)
    ensures !LoopKeepsVector(block, before)
  {
    var n, b := |block|, Telling(block, |block|, |block|);
    var states, steps := SilentIsAnswered(block, before, choices, sent, answered);
    var st := states[|steps|];
    FinishedRunIsSerial(b, Nothing(), iset{}, iset{}, before, states, steps, st);
    UptoIsPermutation(n);
    TellingOutputsPlaces(block, Nothing(), n, n, answered);
    TellingOutputsPlaces(block, Nothing(), n, n, Upto(n));
    VectorIsOrder(b, Nothing(), st, answered);
    if SequentialVector(b, Nothing(), st) {
      SequentialIsBlockOrder(b, Nothing(), st);
      assert false;
    }
  }
}
