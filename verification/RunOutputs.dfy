/** The vector of one run: what the dispatcher does in a schedule does not depend on the programs,
    so outputs are in place for all programs exactly if the answers came in block order. */
module RunOutputs {
  import opened Options
  import opened TransactionPrograms
  import opened Dispatcher
  import opened DispatcherInvariant
  import opened SerialOrders
  import opened DispatcherSerial
  import opened DispatcherRuns
  import opened DispatcherTheorems
  import opened OrderExactness
  import opened SequentialResults

  /** The same transactions, with programs of another choice. */
  predicate SamePlan(a: seq<Tx>, b: seq<Tx>) {
    |a| == |b| && forall k :: 0 <= k < |a| ==>
      a[k].User? == b[k].User? &&
        (a[k].User? ==> a[k].kind == b[k].kind && a[k].sender == b[k].sender && a[k].nonce == b[k].nonce)
  }

  // ---------------------------------------------------------------- the dispatcher does the same

  predicate SameBatches(st: State, st': State, p: Pointer) {
    && st.queues.Get(p) == st'.queues.Get(p)
    && st.running.Get(p).Some? == st'.running.Get(p).Some?
    && (st.running.Get(p).Some? ==> st.running.Get(p).value.batch == st'.running.Get(p).value.batch)
    && |st.replies.Get(p)| == |st'.replies.Get(p)|
    && (st.replies.Get(p) != [] ==> st.replies.Get(p)[0].batch == st'.replies.Get(p)[0].batch)
  }

  /** Two states that do not differ in what the dispatcher knows. */
  ghost predicate SameControl(st: State, st': State) {
    && st.index == st'.index && st.loaded == st'.loaded && st.nonces == st'.nonces && st.processed == st'.processed
    && st.sent == st'.sent && st.answered == st'.answered
    && forall p: Pointer :: SameBatches(st, st', p)
  }

  lemma {:induction false} SameScan(a: seq<Tx>, b: seq<Tx>, p: Pointer, loaded: Per<bool>, processed: nat, s: Scanned)
    requires SamePlan(a, b)
    ensures ScanFrom(a, p, loaded, processed, s) == ScanFrom(b, p, loaded, processed, s)
    ensures ScanPanics(a, p, loaded, processed, s) == ScanPanics(b, p, loaded, processed, s)
    decreases |a| - s.index
  {
    if s.index < |a| {
      var d := Decide(a[s.index], p, loaded, s.nonces, processed, |a|);
      assert d == Decide(b[s.index], p, loaded, s.nonces, processed, |b|);
      if d.Take? {
        SameScan(a, b, p, loaded, processed, Scanned(s.index + 1, d.nonces, s.batch + [s.index]));
      }
    }
  }

  /** The slot of `q` after a scan of `p` that finds `batch`. */
  ghost predicate QueuedTo(st: State, st': State, p: Pointer, batch: seq<nat>, q: Pointer) {
    && st'.queues.Get(q) == (if q == p && batch != [] then st.queues.Get(q) + [batch] else st.queues.Get(q))
    && st'.running.Get(q) == st.running.Get(q)
    && st'.replies.Get(q) == st.replies.Get(q)
  }

  lemma ScanQueues(block: seq<Tx>, st: State, p: Pointer, q: Pointer)
    ensures QueuedTo(st, DoScan(block, st, p), p, Found(block, st, p), q)
  {
  }

  lemma QueuesAlike(s: State, t: State, s': State, t': State, p: Pointer, batch: seq<nat>, q: Pointer)
    requires SameBatches(s, t, q) && QueuedTo(s, s', p, batch, q) && QueuedTo(t, t', p, batch, q)
    ensures SameBatches(s', t', q)
  {
  }

  lemma ScanKeepsBatches(a: seq<Tx>, b: seq<Tx>, st: State, st': State, p: Pointer, q: Pointer)
    requires SameControl(st, st') && Found(a, st, p) == Found(b, st', p)
    ensures SameBatches(DoScan(a, st, p), DoScan(b, st', p), q)
  {
    assert SameBatches(st, st', q);
    ScanQueues(a, st, p, q);
    ScanQueues(b, st', p, q);
    QueuesAlike(st, st', DoScan(a, st, p), DoScan(b, st', p), p, Found(a, st, p), q);
  }

  lemma ScanKeepsControl(a: seq<Tx>, b: seq<Tx>, st: State, st': State, p: Pointer)
    requires SamePlan(a, b) && SameControl(st, st')
    ensures SameControl(DoScan(a, st, p), DoScan(b, st', p))
  {
    SameScan(a, b, p, st.loaded, st.processed, Scanned(st.index.Get(p), st.nonces, []));
    forall q: Pointer ensures SameBatches(DoScan(a, st, p), DoScan(b, st', p), q) {
      ScanKeepsBatches(a, b, st, st', p, q);
    }
  }

  lemma CollectKeepsControl(a: seq<Tx>, b: seq<Tx>, st: State, st': State, p: Pointer)
    requires SameControl(st, st') && Exclusive(a, st) && Exclusive(b, st')
    requires Enabled(a, st, Collect(p)) && Enabled(b, st', Collect(p))
    ensures SameControl(DoCollect(st, p), DoCollect(st', p))
  {
    assert SameBatches(st, st', p) && Shaped(a, st, p) && Shaped(b, st', p) && Slot(st, p) && Slot(st', p);
    forall q: Pointer ensures SameBatches(DoCollect(st, p), DoCollect(st', p), q) {
      assert SameBatches(st, st', q);
    }
  }

  lemma FetchKeepsControl(st: State, st': State, p: Pointer)
    requires SameControl(st, st') && st.queues.Get(p) != [] && st'.queues.Get(p) != []
    ensures SameControl(DoFetch(st, p), DoFetch(st', p))
  {
    assert SameBatches(st, st', p);
    forall q: Pointer ensures SameBatches(DoFetch(st, p), DoFetch(st', p), q) {
      assert SameBatches(st, st', q);
    }
  }

  lemma AnswerKeepsControl(a: seq<Tx>, b: seq<Tx>, st: State, st': State, p: Pointer)
    requires SameControl(st, st') && Exclusive(a, st) && Exclusive(b, st') && st.running.Get(p).Some?
    requires st'.running.Get(p).Some?
    ensures SameControl(DoAnswer(st, p), DoAnswer(st', p))
  {
    assert SameBatches(st, st', p) && Slot(st, p) && Slot(st', p);
    forall q: Pointer ensures SameBatches(DoAnswer(st, p), DoAnswer(st', p), q) {
      assert SameBatches(st, st', q);
    }
  }

  /** Executing changes nothing the dispatcher knows. */
  lemma ActIsHidden(a: seq<Tx>, base: BaseView, st: State, p: Pointer)
    requires Enabled(a, st, Act(p))
    ensures SameControl(st, DoAct(a, base, st, p))
  {
    forall q: Pointer ensures SameBatches(st, DoAct(a, base, st, p), q) {
    }
  }

  lemma ControlJoins(s: State, t: State, u: State, v: State)
    requires SameControl(s, t) && SameControl(s, u) && SameControl(t, v)
    ensures SameControl(u, v)
  {
    forall q: Pointer ensures SameBatches(u, v, q) {
      assert SameBatches(s, t, q) && SameBatches(s, u, q) && SameBatches(t, v, q);
    }
  }

  lemma StepKeepsControl(a: seq<Tx>, b: seq<Tx>, base: BaseView, base': BaseView, st: State, st': State, step: Step)
    requires SamePlan(a, b) && SameControl(st, st') && Exclusive(a, st) && Exclusive(b, st')
    requires Enabled(a, st, step) && Enabled(b, st', step)
    ensures SameControl(Do(a, base, st, step), Do(b, base', st', step))
  {
    if step.Scan? {
      ScanKeepsControl(a, b, st, st', step.p);
    } else if step.Collect? {
      CollectKeepsControl(a, b, st, st', step.p);
    } else if step.Fetch? {
      FetchKeepsControl(st, st', step.p);
    } else if step.Answer? {
      AnswerKeepsControl(a, b, st, st', step.p);
    } else {
      ActIsHidden(a, base, st, step.p);
      ActIsHidden(b, base', st', step.p);
      ControlJoins(st, st', DoAct(a, base, st, step.p), DoAct(b, base', st', step.p));
    }
  }

  /** The same schedule with other programs: the dispatcher collects the same answers. */
  lemma {:induction false} RunKeepsControl(
    a: seq<Tx>, b: seq<Tx>, base: BaseView, base': BaseView, before: map<nat, U64>,
    states: seq<State>, states': seq<State>, steps: seq<Step>, n: nat)
    requires SamePlan(a, b) && Schedule(a, base, states, steps) && Schedule(b, base', states', steps) && n <= |steps|
    requires states[0] == Initial(before) && states'[0] == Initial(before)
    ensures SameControl(states[n], states'[n])
  {
    if n > 0 {
      RunKeepsControl(a, b, base, base', before, states, states', steps, n - 1);
      RunKeepsSentInv(a, base, before, states, steps, n - 1);
      RunKeepsSentInv(b, base', before, states', steps, n - 1);
      StepKeepsControl(a, b, base, base', states[n - 1], states'[n - 1], steps[n - 1]);
    }
  }

  // ---------------------------------------------------------------- programs that output their place

  function Marking(program: Program, k: nat): Program {
    (h: seq<Bytes>) =>
      match program(h)
      case Finish(writes, _) => Finish(writes, k)
      case Read(key) => Read(key)
      case Abort => Abort
  }

  function Marked(block: seq<Tx>): (b: seq<Tx>)
    ensures |b| == |block| && forall k :: 0 <= k < |block| ==>
            b[k] == WithProgram(block[k], Marking(block[k].program, k))
  {
    seq(|block|, k requires 0 <= k < |block| => WithProgram(block[k], Marking(block[k].program, k)))
  }

  lemma MarkedIsIsolated(block: seq<Tx>, aptos: iset<Key>, ethereum: iset<Key>)
    requires Isolated(block, aptos, ethereum)
    ensures SamePlan(block, Marked(block)) && Isolated(Marked(block), aptos, ethereum)
  {
    var b := Marked(block);
    forall k | 0 <= k < |b|
      ensures IsMove(b[k]) ==> Footprint(b[k].program, aptos)
      ensures IsEthereum(b[k]) ==> Footprint(b[k].program, ethereum)
    {
      assert b[k].program == Marking(block[k].program, k);
    }
  }

  lemma MarkedOutput(program: Program, k: nat, base: BaseView, cache: Cache)
    ensures var r := Alone(Marking(program, k), base, cache); r.Some? ==> r.value.output == k
  {
    if seen, w, o :| Executes(Marking(program, k), base, cache, seen, w, o) {
      AloneIs(Marking(program, k), base, cache, seen, w, o);
    }
  }

  lemma {:induction false} MarkedOutputsPlaces(block: seq<Tx>, base: BaseView, order: seq<nat>)
    ensures Serial(Marked(block), base, order).Some? ==> OutputsPlaces(Serial(Marked(block), base, order).value.log)
  {
    if order != [] && Serial(Marked(block), base, order).Some? {
      var init, k := order[..|order| - 1], order[|order| - 1];
      MarkedOutputsPlaces(block, base, init);
      MarkedOutput(block[k].program, k, base, Serial(Marked(block), base, init).value.cache);
      assert Marked(block)[k].program == Marking(block[k].program, k);
    }
  }

  /** With the same values read and the same cache, only outputs differ. */
  ghost predicate SameWork(st: State, st': State) {
    && st.cache == st'.cache
    && forall p: Pointer :: SameProgress(st, st', p)
  }

  predicate SameProgress(st: State, st': State, p: Pointer) {
    && st.running.Get(p).Some? == st'.running.Get(p).Some?
    && (st.running.Get(p).Some? ==>
          && st.running.Get(p).value.batch == st'.running.Get(p).value.batch
          && st.running.Get(p).value.pos == st'.running.Get(p).value.pos
          && st.running.Get(p).value.seen == st'.running.Get(p).value.seen)
  }

  lemma MarkedIsEnabled(block: seq<Tx>, st: State, st': State, step: Step)
    requires SamePlan(block, Marked(block)) && SameControl(st, st') && SameWork(st, st') && Enabled(block, st, step)
    ensures Enabled(Marked(block), st', step)
  {
    if step.Scan? {
      SameScan(block, Marked(block), step.p, st.loaded, st.processed, Scanned(st.index.Get(step.p), st.nonces, []));
    }
    assert SameBatches(st, st', step.p) && SameProgress(st, st', step.p);
    if step.Act? {
      var r := st.running.Get(step.p).value;
      assert Marked(block)[r.batch[r.pos]].program == Marking(block[r.batch[r.pos]].program, r.batch[r.pos]);
    }
  }

  /** What `r` is after one more step of a program, and the write set it inserts. */
  function Stepped(r: Running, action: Action, value: Bytes): (Running, Cache) {
    match action
    case Read(_) => (r.(seen := r.seen + [value]), map[])
    case Finish(writes, output) => (Running(r.batch, r.pos + 1, [], r.outputs + [output]), writes)
    case Abort => (r, map[])
  }

  lemma ActIs(block: seq<Tx>, base: BaseView, st: State, p: Pointer, q: Pointer)
    requires Enabled(block, st, Act(p))
    ensures var action, st' := Next(block, st, p), DoAct(block, base, st, p);
            var value := if action.Read? then Lookup(base, st.cache, action.key) else None;
            var (r, writes) := Stepped(st.running.Get(p).value, action, value);
            && st'.running.Get(q) == (if q == p then Some(r) else st.running.Get(q))
            && st'.cache == st.cache + writes
  {
    assert st.cache + map[] == st.cache;
  }

  lemma MarkedActs(block: seq<Tx>, base: BaseView, st: State, st': State, p: Pointer, q: Pointer)
    requires SameWork(st, st') && Enabled(block, st, Act(p)) && Enabled(Marked(block), st', Act(p))
    ensures DoAct(block, base, st, p).cache == DoAct(Marked(block), base, st', p).cache
    ensures SameProgress(DoAct(block, base, st, p), DoAct(Marked(block), base, st', p), q)
  {
    assert SameProgress(st, st', p) && SameProgress(st, st', q);
    var r := st.running.Get(p).value;
    assert Marked(block)[r.batch[r.pos]].program == Marking(block[r.batch[r.pos]].program, r.batch[r.pos]);
    assert Next(Marked(block), st', p) == Marking(block[r.batch[r.pos]].program, r.batch[r.pos])(r.seen);
    ActIs(block, base, st, p, q);
    ActIs(Marked(block), base, st', p, q);
  }

  lemma FetchKeepsProgress(st: State, st': State, p: Pointer, q: Pointer)
    requires SameBatches(st, st', p) && SameProgress(st, st', q) && st.queues.Get(p) != []
    ensures SameProgress(DoFetch(st, p), DoFetch(st', p), q)
  {
  }

  lemma AnswerKeepsProgress(st: State, st': State, p: Pointer, q: Pointer)
    requires SameProgress(st, st', p) && SameProgress(st, st', q) && st.running.Get(p).Some?
    ensures SameProgress(DoAnswer(st, p), DoAnswer(st', p), q)
  {
  }

  lemma MarkedKeepsWork(block: seq<Tx>, base: BaseView, st: State, st': State, step: Step)
    requires SameControl(st, st') && SameWork(st, st') && Enabled(block, st, step) && Enabled(Marked(block), st', step)
    ensures SameWork(Do(block, base, st, step), Do(Marked(block), base, st', step))
  {
    var p := step.p;
    assert SameBatches(st, st', p) && SameProgress(st, st', p);
    forall q: Pointer
      ensures Do(block, base, st, step).cache == Do(Marked(block), base, st', step).cache
      ensures SameProgress(Do(block, base, st, step), Do(Marked(block), base, st', step), q)
    {
      assert SameProgress(st, st', q);
      match step
      case Act(_) => MarkedActs(block, base, st, st', p, q);
      case Fetch(_) => FetchKeepsProgress(st, st', p, q);
      case Answer(_) => AnswerKeepsProgress(st, st', p, q);
      case Scan(_) =>
      case Collect(_) =>
    }
    assert SameProgress(Do(block, base, st, step), Do(Marked(block), base, st', step), p);
  }

  /** The schedule is one of the marked block, too. */
  lemma {:induction false} MarkedSchedule(
    block: seq<Tx>, base: BaseView, before: map<nat, U64>, states: seq<State>, steps: seq<Step>, n: nat)
    returns (states': seq<State>)
    requires SamePlan(block, Marked(block)) && Schedule(block, base, states, steps) && states[0] == Initial(before)
    requires n <= |steps|
    ensures Schedule(Marked(block), base, states', steps[..n]) && states'[0] == Initial(before)
    ensures SameControl(states[n], states'[n]) && SameWork(states[n], states'[n])
  {
    if n == 0 {
      states' := [Initial(before)];
    } else {
      states' := MarkedSchedule(block, base, before, states, steps, n - 1);
      var st, st', step := states[n - 1], states'[n - 1], steps[n - 1];
      RunKeepsSentInv(block, base, before, states, steps, n - 1);
      RunKeepsSentInv(Marked(block), base, before, states', steps[..n - 1], n - 1);
      MarkedIsEnabled(block, st, st', step);
      MarkedKeepsWork(block, base, st, st', step);
      StepKeepsControl(block, Marked(block), base, base, st, st', step);
      ScheduleGoesOn(Marked(block), base, states', steps[..n - 1], step);
      assert steps[..n] == steps[..n - 1] + [step];
      states' := states' + [Do(Marked(block), base, st', step)];
    }
  }

  // ---------------------------------------------------------------- the exact condition

  ghost predicate RunOfPlan(
    block: seq<Tx>, b: seq<Tx>, base: BaseView, aptos: iset<Key>, ethereum: iset<Key>, before: map<nat, U64>,
    states: seq<State>, steps: seq<Step>)
  {
    SamePlan(block, b) && Isolated(b, aptos, ethereum) && FinishedRun(b, base, before, states, steps)
  }

  /** Whatever isolated programs the transactions run, this schedule puts every output in its place. */
  ghost predicate AlwaysInPlace(block: seq<Tx>, before: map<nat, U64>, steps: seq<Step>) {
    forall b: seq<Tx>, base: BaseView, aptos: iset<Key>, ethereum: iset<Key>, states: seq<State> ::
      RunOfPlan(block, b, base, aptos, ethereum, before, states, steps) ==> SequentialVector(b, base, states[|steps|])
  }

  /** A schedule returns the sequential vector for every choice of isolated programs if and only if
      it collects the answers in block order. */
  lemma VectorOfRunExactlyIf(
    block: seq<Tx>, base: BaseView, aptos: iset<Key>, ethereum: iset<Key>, before: map<nat, U64>,
    states: seq<State>, steps: seq<Step>)
    requires Isolated(block, aptos, ethereum) && FinishedRun(block, base, before, states, steps)
    ensures AlwaysInPlace(block, before, steps) <==> states[|steps|].answered == Upto(|block|)
  {
    if states[|steps|].answered == Upto(|block|) {
      forall b: seq<Tx>, base': BaseView, aptos': iset<Key>, ethereum': iset<Key>, states': seq<State>
        | RunOfPlan(block, b, base', aptos', ethereum', before, states', steps)
        ensures SequentialVector(b, base', states'[|steps|])
      {
        RunKeepsControl(block, b, base, base', before, states, states', steps, |steps|);
        InOrderHasSequentialVector(b, base', aptos', ethereum', before, states', steps);
      }
    }
    if AlwaysInPlace(block, before, steps) {
      MarkedIsIsolated(block, aptos, ethereum);
      var states' := MarkedSchedule(block, base, before, states, steps, |steps|);
      assert steps[..|steps|] == steps;
      assert RunOfPlan(block, Marked(block), base, aptos, ethereum, before, states', steps);
      MarkedVector(block, base, aptos, ethereum, before, states', steps);
    }
  }

  lemma MarkedExecuted(
    block: seq<Tx>, base: BaseView, aptos: iset<Key>, ethereum: iset<Key>, before: map<nat, U64>,
    states: seq<State>, steps: seq<Step>)
    requires RunOfPlan(block, Marked(block), base, aptos, ethereum, before, states, steps)
    ensures states[|steps|].ret == states[|steps|].answered
  {
    var b, st := Marked(block), states[|steps|];
    FinishedRunIsSerial(b, base, aptos, ethereum, before, states, steps, st);
    MarkedOutputsPlaces(block, base, st.answered);
    VectorIsOrder(b, base, st, st.answered);
  }

  lemma MarkedVector(
    block: seq<Tx>, base: BaseView, aptos: iset<Key>, ethereum: iset<Key>, before: map<nat, U64>,
    states: seq<State>, steps: seq<Step>)
    requires RunOfPlan(block, Marked(block), base, aptos, ethereum, before, states, steps)
    requires SequentialVector(Marked(block), base, states[|steps|])
    ensures states[|steps|].answered == Upto(|block|)
  {
    MarkedExecuted(block, base, aptos, ethereum, before, states, steps);
    MarkedOutputsPlaces(block, base, Upto(|block|));
    SequentialIsBlockOrder(Marked(block), base, states[|steps|]);
  }
}
