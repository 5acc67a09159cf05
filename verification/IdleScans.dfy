/** Which orders of sending a block with its senders and nonces allows: those of scanning, in some
    order of the pointers, with no worker ever busy. So whether a block keeps the sequential cache
    can be decided without workers and programs. */
module IdleScans {
  import opened Options
  import opened TransactionPrograms
  import opened Permutations
  import opened Projections
  import opened Dispatcher
  import opened SerialOrders
  import opened DispatcherSerial
  import opened DispatcherRuns
  import opened DispatcherAnswers
  import opened DispatcherTheorems
  import opened DispatcherProgress
  import opened DispatcherLoop
  import opened DispatcherTurns
  import opened OrderExactness
  import opened SequentialResults
  import opened RunOutputs

  const NONE := Per(false, false, false)

  /** Where the pointers are, the nonces, and the transactions in the order sent. */
  datatype Sending = Sending(index: Per<nat>, nonces: map<nat, U64>, sent: seq<nat>)

  /** One scan while no worker is busy and everything sent has been answered. */
  function IdleScan(block: seq<Tx>, x: Sending, p: Pointer): Option<Sending> {
    var s := Scanned(x.index.Get(p), x.nonces, []);
    if ScanPanics(block, p, NONE, |x.sent|, s) then None
    else
      var s' := ScanFrom(block, p, NONE, |x.sent|, s);
      Some(Sending(x.index.Set(p, s'.index), s'.nonces, x.sent + s'.batch))
  }

  function ScanAll(block: seq<Tx>, before: map<nat, U64>, ps: seq<Pointer>): Option<Sending> {
    if ps == [] then Some(Sending(Per(0, 0, 0), before, []))
    else
      match ScanAll(block, before, ps[..|ps| - 1])
      case None => None
      case Some(x) => IdleScan(block, x, ps[|ps| - 1])
  }

  /** Scanning with the pointers in this order sends the block, in `order`. */
  predicate SendsAll(block: seq<Tx>, before: map<nat, U64>, ps: seq<Pointer>, order: seq<nat>) {
    |order| == |block| && ScanAll(block, before, ps).Some? && ScanAll(block, before, ps).value.sent == order
  }

  // ---------------------------------------------------------------- every run sends as if idle

  function SendingOf(st: State): Sending { Sending(st.index, st.nonces, st.sent) }

  /** No checkpoint is within reach of a scan: there are others to be sent. */
  predicate FarFromEnd(block: seq<Tx>, processed: nat) {
    forall c: nat :: c < |block| && IsCheckpoint(block, c) ==> processed + 1 < |block|
  }

  /** Busy workers that do not matter to a pointer do not change what it finds. */
  lemma {:induction false} SameScanIdle(
    block: seq<Tx>, p: Pointer, loaded: Per<bool>, processed: nat, n: nat, s: Scanned)
    requires Free(loaded, p) && FarFromEnd(block, processed) && FarFromEnd(block, n)
    ensures ScanFrom(block, p, loaded, processed, s) == ScanFrom(block, p, NONE, n, s)
    ensures ScanPanics(block, p, loaded, processed, s) == ScanPanics(block, p, NONE, n, s)
    decreases |block| - s.index
  {
    if s.index < |block| {
      var d := Decide(block[s.index], p, loaded, s.nonces, processed, |block|);
      assert block[s.index].Checkpoint? ==> IsCheckpoint(block, s.index);
      assert d == Decide(block[s.index], p, NONE, s.nonces, n, |block|);
      if d.Take? {
        SameScanIdle(block, p, loaded, processed, n, Scanned(s.index + 1, d.nonces, s.batch + [s.index]));
      }
    }
  }

  /** With a user transaction and a checkpoint to be sent, two are missing. */
  lemma UnsentKeepsFar(block: seq<Tx>, before: map<nat, U64>, st: State, i: nat)
    requires SentInv(block, before, st) && i < |block| && block[i].User? && i !in st.sent
    ensures FarFromEnd(block, |st.sent|) && st.processed <= |st.sent|
  {
    SentIsDistinct(block, st.sent);
    forall c: nat | c < |block| && IsCheckpoint(block, c) ensures |st.sent| + 1 < |block| {
      CheckpointUnsent(block, st.sent, i, c);
      TwoMissing(st.sent, |block|, i, c);
    }
  }

  lemma CheckpointUnsent(block: seq<Tx>, sent: seq<nat>, i: nat, c: nat)
    requires InBlockOrder(block, sent) && CheckpointLast(block, sent) && Distinct(sent)
    requires i < |block| && i !in sent && IsCheckpoint(block, c)
    ensures c !in sent
  {
    if c in sent {
      var k := PositionOf(sent, c);
      DistinctFits(sent, |block|);
      assert false;
    }
  }

  lemma TwoMissing(s: seq<nat>, n: nat, i: nat, j: nat)
    requires Distinct(s) && (forall k :: 0 <= k < |s| ==> s[k] < n) && i < n && j < n && i != j && i !in s && j !in s
    ensures |s| + 1 < n
  {
    var t := s + [i] + [j];
    assert Distinct(t);
    DistinctFits(t, n);
  }

  /** A scan with an effect is the scan with no worker busy. */
  lemma ScansAsIdle(block: seq<Tx>, before: map<nat, U64>, st: State, p: Pointer)
    requires SentInv(block, before, st) && !PanicsAt(block, st, p) && DoScan(block, st, p) != st
    ensures IdleScan(block, SendingOf(st), p) == Some(SendingOf(DoScan(block, st, p)))
  {
    var j, s := st.index.Get(p), Scanned(st.index.Get(p), st.nonces, []);
    var d := Decide(block[j], p, st.loaded, st.nonces, st.processed, |block|);
    if block[j].Checkpoint? {
      NothingOut(block, st);
    } else if d.Take? {
      assert !Passed(block, st.index, j);
      UnsentKeepsFar(block, before, st, j);
      SameScanIdle(block, p, st.loaded, st.processed, |st.sent|, s);
    }
    assert st.sent + [] == st.sent;
  }

  lemma ScanOneMore(block: seq<Tx>, before: map<nat, U64>, ps: seq<Pointer>, p: Pointer)
    requires ScanAll(block, before, ps).Some?
    ensures ScanAll(block, before, ps + [p]) == IdleScan(block, ScanAll(block, before, ps).value, p)
  {
    assert (ps + [p])[..|ps|] == ps;
  }

  lemma OthersSendNothing(block: seq<Tx>, base: BaseView, st: State, step: Step)
    requires Enabled(block, st, step) && !step.Scan?
    ensures SendingOf(Do(block, base, st, step)) == SendingOf(st)
  {
  }

  /** Whatever the schedule, what has been sent is what idle scans send. */
  lemma {:induction false} RunScansAsIdle(
    block: seq<Tx>, base: BaseView, before: map<nat, U64>, states: seq<State>, steps: seq<Step>, n: nat)
    returns (ps: seq<Pointer>)
    requires Schedule(block, base, states, steps) && states[0] == Initial(before) && n <= |steps|
    ensures ScanAll(block, before, ps) == Some(SendingOf(states[n]))
  {
    ps := [];
    if n > 0 {
      ps := RunScansAsIdle(block, base, before, states, steps, n - 1);
      var st, step := states[n - 1], steps[n - 1];
      assert states[n] == Do(block, base, st, step);
      if !step.Scan? {
        OthersSendNothing(block, base, st, step);
      } else if DoScan(block, st, step.p) != st {
        RunKeepsSentInv(block, base, before, states, steps, n - 1);
        ScansAsIdle(block, before, st, step.p);
        ScanOneMore(block, before, ps, step.p);
        ps := ps + [step.p];
      }
    }
  }

  // ---------------------------------------------------------------- every idle order is one of a run

  /** An idle scan, after which the worker answers. */
  lemma Realize(block: seq<Tx>, base: BaseView, before: map<nat, U64>, bound: nat, st: State, l: Loop, p: Pointer)
    returns (st': State)
    requires CanReach(block, base, before, false, st, l) && AllFinish(block, bound) && Idle(st)
    requires st.answered == st.sent
    requires IdleScan(block, SendingOf(st), p).Some?
    ensures CanReach(block, base, before, false, st', l) && Idle(st') && st'.answered == st'.sent
    ensures Some(SendingOf(st')) == IdleScan(block, SendingOf(st), p)
  {
    ReachedInv(block, base, before, false, st, l);
    NothingOut(block, st);
    ScanLoads(block, st, p);
    var polling := Loop(p, Open(false), []);
    st' := DoScan(block, st, p);
    if Found(block, st, p) == [] {
      Go(block, base, before, false, st, l, Scan(p), l);
    } else {
      Go(block, base, before, false, st, l, Scan(p), polling);
      st' := WorkerServes(block, base, before, false, bound, st', polling, p);
      AnyLoop(block, base, before, st', polling.(poll := Closed), l);
    }
  }

  lemma AnyLoop(block: seq<Tx>, base: BaseView, before: map<nat, U64>, st: State, l: Loop, l': Loop)
    requires CanReach(block, base, before, false, st, l)
    ensures CanReach(block, base, before, false, st, l')
  {
    var states, steps :| Reached(block, base, before, false, states, steps, st, l);
    assert Reached(block, base, before, false, states, steps, st, l');
  }

  lemma {:induction false} RealizeAll(
    block: seq<Tx>, base: BaseView, before: map<nat, U64>, bound: nat, ps: seq<Pointer>)
    returns (st: State)
    requires AllFinish(block, bound) && ScanAll(block, before, ps).Some?
    ensures CanReach(block, base, before, false, st, START) && Idle(st) && st.answered == st.sent
    ensures Some(SendingOf(st)) == ScanAll(block, before, ps)
  {
    if ps == [] {
      st := Initial(before);
      Begin(block, base, before, false);
    } else {
      st := RealizeAll(block, base, before, bound, ps[..|ps| - 1]);
      st := Realize(block, base, before, bound, st, START, ps[|ps| - 1]);
    }
  }

  /** Scans that send the whole block are those of a finished run that answers in the order sent. */
  lemma IdleRun(block: seq<Tx>, base: BaseView, before: map<nat, U64>, bound: nat, ps: seq<Pointer>, order: seq<nat>)
    returns (states: seq<State>, steps: seq<Step>)
    requires AllFinish(block, bound) && SendsAll(block, before, ps, order)
    ensures FinishedRun(block, base, before, states, steps)
    ensures states[|steps|].sent == order && states[|steps|].answered == order
  {
    var st := RealizeAll(block, base, before, bound, ps);
    ReachedInv(block, base, before, false, st, START);
    NothingOut(block, st);
    states, steps :| Reached(block, base, before, false, states, steps, st, START);
  }

  // ---------------------------------------------------------------- programs do not matter

  lemma {:induction false} SamePlanScans(a: seq<Tx>, b: seq<Tx>, before: map<nat, U64>, ps: seq<Pointer>)
    requires SamePlan(a, b)
    ensures ScanAll(a, before, ps) == ScanAll(b, before, ps)
  {
    if ps != [] {
      SamePlanScans(a, b, before, ps[..|ps| - 1]);
      var x := ScanAll(a, before, ps[..|ps| - 1]);
      if x.Some? {
        var p := ps[|ps| - 1];
        SameScan(a, b, p, NONE, |x.value.sent|, Scanned(x.value.index.Get(p), x.value.nonces, []));
      }
    }
  }

  lemma SamePlanSymmetric(a: seq<Tx>, b: seq<Tx>)
    requires SamePlan(a, b)
    ensures SamePlan(b, a) && SameKinds(a, b) && SameKinds(b, a)
  {
  }

  // ---------------------------------------------------------------- the exact condition

  /** Whatever isolated programs the transactions run, every finished run leaves the sequential cache. */
  ghost predicate KeepsSequentialCache(block: seq<Tx>, before: map<nat, U64>) {
    forall b: seq<Tx>, base: BaseView, aptos: iset<Key>, ethereum: iset<Key>, states: seq<State>, steps: seq<Step> ::
      RunOfPlan(block, b, base, aptos, ethereum, before, states, steps) ==> SequentialCache(b, base, states[|steps|])
  }

  /** In whatever order idle pointers scan, if they send the block, each machine sees it in block order. */
  ghost predicate ScansKeepOrder(block: seq<Tx>, before: map<nat, U64>) {
    forall ps: seq<Pointer>, order: seq<nat> ::
      SendsAll(block, before, ps, order) ==> SameOrder(block, order, Upto(|block|))
  }

  lemma OrderKept(
    block: seq<Tx>, b: seq<Tx>, base: BaseView, aptos: iset<Key>, ethereum: iset<Key>, before: map<nat, U64>,
    states: seq<State>, steps: seq<Step>)
    requires RunOfPlan(block, b, base, aptos, ethereum, before, states, steps) && ScansKeepOrder(block, before)
    ensures SequentialCache(b, base, states[|steps|])
  {
    var st := states[|steps|];
    var ps := RunScansAsIdle(b, base, before, states, steps, |steps|);
    SamePlanScans(block, b, before, ps);
    FinishedRunIsSerial(b, base, aptos, ethereum, before, states, steps, st);
    assert SendsAll(block, before, ps, st.sent);
    SamePlanSymmetric(block, b);
    SameKindsSameOrder(block, b, st.sent, Upto(|block|));
    SameOrderSameOutcome(b, base, aptos, ethereum, Upto(|b|), st.answered);
  }

  /** Two transactions that a machine sees in another order than in the block. */
  lemma SeenInverted(block: seq<Tx>, order: seq<nat>) returns (q: Pointer, i: nat, j: nat)
    requires Permutation(order, |block|) && !SameOrder(block, order, Upto(|block|))
    ensures q != Cross && i != j && InView(block, q, i) && InView(block, q, j)
    ensures InOrder(Upto(|block|), i, j) && InOrder(order, j, i)
  {
    q := if Filter(order, Sees(block, Aptos)) != Filter(Upto(|block|), Sees(block, Aptos)) then Aptos else Ethereum;
    UptoIsPermutation(|block|);
    i, j := InversionInView(block, Upto(|block|), order, q);
  }

  lemma RunOfTelling(block: seq<Tx>, before: map<nat, U64>, ps: seq<Pointer>, order: seq<nat>, i: nat, j: nat)
    returns (states: seq<State>, steps: seq<Step>)
    requires SendsAll(block, before, ps, order)
    ensures FinishedRun(Telling(block, i, j), Nothing(), before, states, steps) && states[|steps|].answered == order
    ensures Permutation(order, |block|)
  {
    PlanOfTelling(block, i, j);
    SamePlanScans(block, Telling(block, i, j), before, ps);
    states, steps := IdleRun(Telling(block, i, j), Nothing(), before, 0, ps, order);
    FinishedRunSendsAll(Telling(block, i, j), Nothing(), before, states, steps);
  }

  /** The two write to one key, and the earlier one is left in the cache. */
  lemma PairNotKept(
    block: seq<Tx>, before: map<nat, U64>, ps: seq<Pointer>, order: seq<nat>, q: Pointer, i: nat, j: nat)
    requires SendsAll(block, before, ps, order) && q != Cross && i != j && InView(block, q, i) && InView(block, q, j)
    requires InOrder(Upto(|block|), i, j) && InOrder(order, j, i)
    ensures !KeepsSequentialCache(block, before)
  {
    var b := Telling(block, i, j);
    var states, steps := RunOfTelling(block, before, ps, order, i, j);
    TellingIsIsolated(block, q, i, j);
    var aptos: iset<Key>, ethereum: iset<Key> :=
      if q == Aptos then iset{0} else iset{}, if q == Aptos then iset{} else iset{0};
    FinishedRunIsSerial(b, Nothing(), aptos, ethereum, before, states, steps, states[|steps|]);
    UptoIsPermutation(|block|);
    CacheTells(block, Nothing(), Upto(|block|), order, i, j);
    PlanOfTelling(block, i, j);
    assert RunOfPlan(block, b, Nothing(), aptos, ethereum, before, states, steps);
  }

  lemma OrderNotKept(block: seq<Tx>, before: map<nat, U64>, ps: seq<Pointer>, order: seq<nat>)
    requires SendsAll(block, before, ps, order) && !SameOrder(block, order, Upto(|block|))
    ensures !KeepsSequentialCache(block, before)
  {
    var states, steps := RunOfTelling(block, before, ps, order, |block|, |block|);
    var q, i, j := SeenInverted(block, order);
    PairNotKept(block, before, ps, order, q, i, j);
  }

  lemma PlanOfTelling(block: seq<Tx>, i: nat, j: nat)
    ensures SamePlan(block, Telling(block, i, j)) && AllFinish(Telling(block, i, j), 0)
  {
    var b := Telling(block, i, j);
    forall k | 0 <= k < |b| ensures Finishes(b[k].program, 0) {
      assert b[k].program == WriteOne(ValueOf(i, j, k), k);
    }
  }

  /** For a block with its senders and nonces, every finished run leaves the sequential cache,
      whatever isolated programs the transactions run, if and only if idle scans, in any order of
      the pointers, that send the block let each machine see it in block order. */
  lemma SequentialCacheOfBlockExactlyIf(block: seq<Tx>, before: map<nat, U64>)
    ensures KeepsSequentialCache(block, before) <==> ScansKeepOrder(block, before)
  {
    if ScansKeepOrder(block, before) {
      forall b: seq<Tx>, base: BaseView, aptos: iset<Key>, ethereum: iset<Key>, states: seq<State>, steps: seq<Step>
        | RunOfPlan(block, b, base, aptos, ethereum, before, states, steps)
        ensures SequentialCache(b, base, states[|steps|])
      {
        OrderKept(block, b, base, aptos, ethereum, before, states, steps);
      }
    } else {
      var ps, order :| SendsAll(block, before, ps, order) && !SameOrder(block, order, Upto(|block|));
      OrderNotKept(block, before, ps, order);
    }
  }
}
