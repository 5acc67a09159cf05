/** Every schedule of the workers is equivalent to a serial execution. */
module DispatcherSerial {
  import opened Options
  import opened TransactionPrograms
  import opened Projections
  import opened Dispatcher
  import opened DispatcherInvariant
  import opened SerialOrders

  // ---------------------------------------------------------------- where transactions are

  /** Sent to `p` and not yet executed. */
  function Pending(st: State, p: Pointer): seq<nat> {
    if st.running.Get(p).Some? then
      var r := st.running.Get(p).value;
      if r.pos <= |r.batch| then r.batch[r.pos..] else []
    else if st.queues.Get(p) != [] then st.queues.Get(p)[0]
    else []
  }

  function Zip(batch: seq<nat>, outputs: seq<Output>): seq<Event>
    requires |batch| == |outputs|
  {
    seq(|batch|, i requires 0 <= i < |batch| => (batch[i], outputs[i]))
  }

  /** Executed by `p` with these outputs, which the dispatcher has not collected yet. */
  function Done(st: State, p: Pointer): seq<Event> {
    if st.running.Get(p).Some? then
      var r := st.running.Get(p).value;
      if |r.outputs| == r.pos <= |r.batch| then Zip(r.batch[..r.pos], r.outputs) else []
    else if st.replies.Get(p) != [] then
      var r := st.replies.Get(p)[0];
      if |r.outputs| == |r.batch| then Zip(r.batch, r.outputs) else []
    else []
  }

  predicate EventOf(block: seq<Tx>, p: Pointer, e: Event) {
    e.0 < |block| && ClassOf(block[e.0]) == p
  }

  function Of(block: seq<Tx>, p: Pointer): Event -> bool {
    (e: Event) => EventOf(block, p, e)
  }

  // ---------------------------------------------------------------- the invariant

  /** Either machine sees its transactions, and the cross-VM ones, executed in the order sent. */
  predicate Projected(block: seq<Tx>, st: State, q: Pointer) {
    Filter(st.committed, Sees(block, q)) + (Pending(st, q) + Pending(st, Cross)) == Filter(st.sent, Sees(block, q))
  }

  /** The outputs of the serial execution are those collected and those about to be. */
  predicate Logged(block: seq<Tx>, st: State, log: seq<Event>, p: Pointer) {
    && |st.answered| == |st.ret|
    && Filter(log, Of(block, p)) == Filter(Zip(st.answered, st.ret), Of(block, p)) + Done(st, p)
  }

  /** What a transaction has read so far is still there to be read. */
  ghost predicate Reading(block: seq<Tx>, base: BaseView, st: State, p: Pointer) {
    st.running.Get(p).Some? ==>
      var r := st.running.Get(p).value;
      r.pos < |r.batch| ==>
        r.batch[r.pos] < |block| && ReadsFrom(block[r.batch[r.pos]].program, base, st.cache, r.seen)
  }

  /** The write sets inserted so far amount to a serial execution, in the order of insertion. */
  ghost predicate Serialized(block: seq<Tx>, base: BaseView, st: State) {
    && Serial(block, base, st.committed).Some?
    && Serial(block, base, st.committed).value.cache == st.cache
    && forall p: Pointer :: Logged(block, st, Serial(block, base, st.committed).value.log, p)
  }

  ghost predicate Inv(block: seq<Tx>, base: BaseView, st: State) {
    && Exclusive(block, st)
    && Projected(block, st, Aptos)
    && Projected(block, st, Ethereum)
    && (forall p: Pointer :: Reading(block, base, st, p))
    && Serialized(block, base, st)
  }

  // ---------------------------------------------------------------- batches under projections

  lemma ClassInView(block: seq<Tx>, i: nat, q: Pointer)
    requires i < |block|
    ensures Sees(block, q)(i) <==> ClassOf(block[i]) == q || ClassOf(block[i]) == Cross
  {
  }

  lemma BatchSeen(block: seq<Tx>, p: Pointer, batch: seq<nat>, q: Pointer)
    requires forall i :: 0 <= i < |batch| ==> batch[i] < |block| && ClassOf(block[batch[i]]) == p
    ensures Filter(batch, Sees(block, q)) == if p == q || p == Cross then batch else []
  {
    forall x | x in batch ensures Sees(block, q)(x) <==> p == q || p == Cross {
      ClassInView(block, x, q);
    }
    if p == q || p == Cross {
      FilterAll(batch, Sees(block, q));
    } else {
      FilterNone(batch, Sees(block, q));
    }
  }

  lemma EventsOf(block: seq<Tx>, p: Pointer, batch: seq<nat>, outputs: seq<Output>, q: Pointer)
    requires |batch| == |outputs| && Batch(block, p, batch)
    ensures Filter(Zip(batch, outputs), Of(block, q)) == if p == q then Zip(batch, outputs) else []
  {
    if p == q {
      FilterAll(Zip(batch, outputs), Of(block, q));
    } else {
      FilterNone(Zip(batch, outputs), Of(block, q));
    }
  }

  lemma IdleHasNothing(st: State, p: Pointer)
    requires Slot(st, p) && !st.loaded.Get(p)
    ensures Pending(st, p) == [] && Done(st, p) == []
  {
  }

  // ---------------------------------------------------------------- how a step moves transactions

  lemma FetchMovesNothing(block: seq<Tx>, st: State, p: Pointer, q: Pointer)
    requires Exclusive(block, st) && Enabled(block, st, Fetch(p))
    ensures Pending(DoFetch(st, p), q) == Pending(st, q) && Done(DoFetch(st, p), q) == Done(st, q)
  {
    assert Slot(st, p) && Shaped(block, st, p);
  }

  lemma AnswerMovesNothing(block: seq<Tx>, st: State, p: Pointer, q: Pointer)
    requires Exclusive(block, st) && Enabled(block, st, Answer(p))
    ensures Pending(DoAnswer(st, p), q) == Pending(st, q) && Done(DoAnswer(st, p), q) == Done(st, q)
  {
    assert Slot(st, p) && Shaped(block, st, p);
    if q == p {
      var r := st.running.Get(p).value;
      assert r.batch[..r.pos] == r.batch;
    }
  }

  lemma CollectTakesDone(block: seq<Tx>, st: State, p: Pointer, q: Pointer)
    requires Exclusive(block, st) && Enabled(block, st, Collect(p))
    ensures Pending(DoCollect(st, p), q) == Pending(st, q)
    ensures Done(DoCollect(st, p), q) == if q == p then [] else Done(st, q)
    ensures var r := st.replies.Get(p)[0];
            Batch(block, p, r.batch) && |r.outputs| == |r.batch| && Done(st, p) == Zip(r.batch, r.outputs)
  {
    assert Slot(st, p) && Shaped(block, st, p);
  }

  /** The transaction a worker is at, and what it does next. */
  function Current(st: State, p: Pointer): nat
    requires st.running.Get(p).Some? && st.running.Get(p).value.pos < |st.running.Get(p).value.batch|
  {
    st.running.Get(p).value.batch[st.running.Get(p).value.pos]
  }

  function Next(block: seq<Tx>, st: State, p: Pointer): Action
    requires Enabled(block, st, Act(p))
  {
    block[Current(st, p)].program(st.running.Get(p).value.seen)
  }

  lemma ReadMovesNothing(block: seq<Tx>, base: BaseView, st: State, p: Pointer, q: Pointer)
    requires Exclusive(block, st) && Enabled(block, st, Act(p)) && Next(block, st, p).Read?
    ensures var st' := DoAct(block, base, st, p);
            Pending(st', q) == Pending(st, q) && Done(st', q) == Done(st, q)
  {
  }

  lemma OneMoreDone(batch: seq<nat>, pos: nat, outputs: seq<Output>, o: Output)
    requires pos < |batch| && |outputs| == pos
    ensures batch[pos..] == [batch[pos]] + batch[pos + 1..]
    ensures Zip(batch[..pos + 1], outputs + [o]) == Zip(batch[..pos], outputs) + [(batch[pos], o)]
  {
  }

  lemma FinishRuns(block: seq<Tx>, base: BaseView, st: State, p: Pointer)
    requires Enabled(block, st, Act(p)) && Next(block, st, p).Finish?
    ensures var r, st' := st.running.Get(p).value, DoAct(block, base, st, p);
            && st'.running.Get(p) == Some(Running(r.batch, r.pos + 1, [], r.outputs + [Next(block, st, p).output]))
            && forall q: Pointer :: q != p ==>
                 st'.running.Get(q) == st.running.Get(q) && st'.queues.Get(q) == st.queues.Get(q) &&
                   st'.replies.Get(q) == st.replies.Get(q)
  {
  }

  lemma FinishMovesOwn(block: seq<Tx>, base: BaseView, st: State, p: Pointer)
    requires Shaped(block, st, p) && Enabled(block, st, Act(p)) && Next(block, st, p).Finish?
    ensures var st' := DoAct(block, base, st, p);
            && Pending(st, p) == [Current(st, p)] + Pending(st', p)
            && Done(st', p) == Done(st, p) + [(Current(st, p), Next(block, st, p).output)]
            && EventOf(block, p, (Current(st, p), Next(block, st, p).output))
  {
    var r := st.running.Get(p).value;
    FinishRuns(block, base, st, p);
    OneMoreDone(r.batch, r.pos, r.outputs, Next(block, st, p).output);
  }

  lemma FinishMovesOne(block: seq<Tx>, base: BaseView, st: State, p: Pointer, q: Pointer)
    requires Exclusive(block, st) && Enabled(block, st, Act(p)) && Next(block, st, p).Finish?
    ensures var st' := DoAct(block, base, st, p);
            && Pending(st, q) == (if q == p then [Current(st, p)] else []) + Pending(st', q)
            && Done(st', q) == Done(st, q) + (if q == p then [(Current(st, p), Next(block, st, p).output)] else [])
            && EventOf(block, p, (Current(st, p), Next(block, st, p).output))
  {
    assert Shaped(block, st, p);
    FinishMovesOwn(block, base, st, p);
    if q != p {
      FinishRuns(block, base, st, p);
      assert [] + Pending(st, q) == Pending(st, q) && Done(st, q) + [] == Done(st, q);
    }
  }

  /** The batch a scan finds. */
  function Found(block: seq<Tx>, st: State, p: Pointer): seq<nat> {
    ScanFrom(block, p, st.loaded, st.processed, Scanned(st.index.Get(p), st.nonces, [])).batch
  }

  lemma ScanSends(block: seq<Tx>, st: State, p: Pointer, q: Pointer)
    requires Exclusive(block, st)
    ensures var st', batch := DoScan(block, st, p), Found(block, st, p);
            && (forall i :: 0 <= i < |batch| ==> batch[i] < |block| && ClassOf(block[batch[i]]) == p)
            && st'.sent == st.sent + batch
            && Done(st', q) == Done(st, q)
            && Pending(st', q) == Pending(st, q) + (if q == p then batch else [])
            && (batch != [] && (q == p || q == Cross || p == Cross) ==> Pending(st, q) == [])
  {
    ScanFinds(block, p, st.loaded, st.processed, Scanned(st.index.Get(p), st.nonces, []));
    assert Slot(st, p) && Slot(st, q);
    assert [] + Found(block, st, p) == Found(block, st, p);
  }

  // ---------------------------------------------------------------- order of execution

  lemma Extend<T>(c: seq<T>, a: seq<T>, x: seq<T>, b: seq<T>)
    ensures (c + (a + x)) + b == c + ((a + []) + (x + b))
    ensures a == [] && x == [] ==> (c + (a + x)) + b == c + ((a + b) + (x + []))
    ensures (c + (a + x)) + [] == c + ((a + []) + (x + []))
  {
  }

  lemma ScanKeepsProjected(block: seq<Tx>, st: State, p: Pointer, q: Pointer)
    requires Exclusive(block, st) && Projected(block, st, q) && q != Cross
    ensures Projected(block, DoScan(block, st, p), q)
  {
    var st', batch := DoScan(block, st, p), Found(block, st, p);
    ScanSends(block, st, p, q);
    ScanSends(block, st, p, Cross);
    FilterAppend(st.sent, batch, Sees(block, q));
    BatchSeen(block, p, batch, q);
    Extend(Filter(st.committed, Sees(block, q)), Pending(st, q), Pending(st, Cross), batch);
  }

  /** One element leaves the front of one of two lists, and is appended before both. */
  lemma Shift<T>(c: seq<T>, x: T, a: seq<T>, a': seq<T>, b: seq<T>, b': seq<T>)
    requires (a == [x] + a' && b == b') || (a == a' == [] && b == [x] + b')
    ensures (c + [x]) + (a' + b') == c + (a + b)
  {
  }

  /** A machine sees what its own worker or the cross-VM worker finishes, and nothing else. */
  lemma FinishIsSeen(block: seq<Tx>, base: BaseView, st: State, p: Pointer, q: Pointer)
    requires Exclusive(block, st) && q != Cross
    requires Enabled(block, st, Act(p)) && Next(block, st, p).Finish?
    ensures Filter(DoAct(block, base, st, p).committed, Sees(block, q))
         == Filter(st.committed, Sees(block, q)) + if p == q || p == Cross then [Current(st, p)] else []
  {
    assert Shaped(block, st, p);
    ClassInView(block, Current(st, p), q);
    FilterLast(st.committed, Current(st, p), Sees(block, q));
  }

  lemma FinishKeepsProjected(block: seq<Tx>, base: BaseView, st: State, p: Pointer, q: Pointer)
    requires Exclusive(block, st) && Projected(block, st, q) && q != Cross
    requires Enabled(block, st, Act(p)) && Next(block, st, p).Finish?
    ensures Projected(block, DoAct(block, base, st, p), q)
  {
    var st', x := DoAct(block, base, st, p), Current(st, p);
    FinishIsSeen(block, base, st, p, q);
    FinishMovesOne(block, base, st, p, q);
    FinishMovesOne(block, base, st, p, Cross);
    assert [] + Pending(st', q) == Pending(st', q) && [] + Pending(st', Cross) == Pending(st', Cross);
    if p == Cross {
      assert Slot(st, p) && Slot(st, q);
      IdleHasNothing(st, q);
    }
    if p == q || p == Cross {
      Shift(Filter(st.committed, Sees(block, q)), x, Pending(st, q), Pending(st', q), Pending(st, Cross),
            Pending(st', Cross));
    } else {
      assert Filter(st.committed, Sees(block, q)) + [] == Filter(st.committed, Sees(block, q));
    }
  }

  lemma StepKeepsProjected(block: seq<Tx>, base: BaseView, st: State, step: Step, q: Pointer)
    requires Exclusive(block, st) && Projected(block, st, q) && q != Cross
    requires Enabled(block, st, step)
    ensures Projected(block, Do(block, base, st, step), q)
  {
    match step
    case Scan(p) =>
      ScanKeepsProjected(block, st, p, q);
    case Act(p) =>
      if Next(block, st, p).Finish? {
        FinishKeepsProjected(block, base, st, p, q);
      } else {
        ReadMovesNothing(block, base, st, p, q);
        ReadMovesNothing(block, base, st, p, Cross);
      }
    case Collect(p) =>
      CollectTakesDone(block, st, p, q);
      CollectTakesDone(block, st, p, Cross);
    case Fetch(p) =>
      FetchMovesNothing(block, st, p, q);
      FetchMovesNothing(block, st, p, Cross);
    case Answer(p) =>
      AnswerMovesNothing(block, st, p, q);
      AnswerMovesNothing(block, st, p, Cross);
  }

  // ---------------------------------------------------------------- reads stay valid

  lemma ReadKeepsReading(block: seq<Tx>, base: BaseView, st: State, p: Pointer, q: Pointer)
    requires Exclusive(block, st) && Enabled(block, st, Act(p)) && Next(block, st, p).Read?
    requires Reading(block, base, st, p) && Reading(block, base, st, q)
    ensures Reading(block, base, DoAct(block, base, st, p), q)
  {
    if p == q {
      var r := st.running.Get(p).value;
      var seen' := DoAct(block, base, st, p).running.Get(p).value.seen;
      assert seen'[..|r.seen|] == r.seen;
      assert forall i :: 0 <= i < |r.seen| ==> seen'[..i] == r.seen[..i];
    }
  }

  /** A write set does not touch what another worker has read: the batches in execution together
      are one Move batch and one Ethereum batch. */
  lemma FinishKeepsReading(
    block: seq<Tx>, base: BaseView, aptos: iset<Key>, ethereum: iset<Key>, st: State, p: Pointer, q: Pointer)
    requires Isolated(block, aptos, ethereum)
    requires Exclusive(block, st) && Enabled(block, st, Act(p)) && Next(block, st, p).Finish?
    requires Reading(block, base, st, q)
    ensures Reading(block, base, DoAct(block, base, st, p), q)
  {
    assert Slot(st, p) && Shaped(block, st, p);
    if p != q && st.running.Get(q).Some? {
      assert Slot(st, q) && Shaped(block, st, q);
      assert st.loaded.Get(p) && st.loaded.Get(q);
      var r, keys := st.running.Get(q).value, if q == Aptos then aptos else ethereum;
      if r.pos < |r.batch| {
        assert Footprint(block[Current(st, q)].program, keys);
        assert forall k :: k in Next(block, st, p).writes ==> k !in keys;
        ReadsSurvive(block[Current(st, q)].program, base, st.cache, r.seen, Next(block, st, p).writes, keys);
      }
    }
  }

  lemma StepKeepsReading(
    block: seq<Tx>, base: BaseView, aptos: iset<Key>, ethereum: iset<Key>, st: State, step: Step, q: Pointer)
    requires Isolated(block, aptos, ethereum)
    requires Exclusive(block, st) && Enabled(block, st, step) && forall p: Pointer :: Reading(block, base, st, p)
    ensures Reading(block, base, Do(block, base, st, step), q)
  {
    assert Reading(block, base, st, q) && Slot(st, q) && Shaped(block, st, q);
    match step
    case Act(p) =>
      assert Reading(block, base, st, p);
      if Next(block, st, p).Finish? {
        FinishKeepsReading(block, base, aptos, ethereum, st, p, q);
      } else {
        ReadKeepsReading(block, base, st, p, q);
      }
    case Scan(p) =>
    case Collect(p) =>
    case Fetch(p) => assert Shaped(block, st, p);
    case Answer(p) =>
  }

  // ---------------------------------------------------------------- outputs

  lemma FinishIsSerial(block: seq<Tx>, base: BaseView, st: State, p: Pointer)
    requires Exclusive(block, st) && Enabled(block, st, Act(p)) && Next(block, st, p).Finish?
    requires Reading(block, base, st, p) && Serialized(block, base, st)
    ensures Serial(block, base, DoAct(block, base, st, p).committed)
         == Some(Ran(DoAct(block, base, st, p).cache,
                     Serial(block, base, st.committed).value.log + [(Current(st, p), Next(block, st, p).output)]))
  {
    var x, seen := Current(st, p), st.running.Get(p).value.seen;
    AloneIs(block[x].program, base, st.cache, seen, Next(block, st, p).writes, Next(block, st, p).output);
    SerialLast(block, base, st.committed, x);
  }

  lemma FinishKeepsLogged(block: seq<Tx>, base: BaseView, st: State, log: seq<Event>, p: Pointer, q: Pointer)
    requires Exclusive(block, st) && Enabled(block, st, Act(p)) && Next(block, st, p).Finish?
    requires Logged(block, st, log, q)
    ensures Logged(block, DoAct(block, base, st, p), log + [(Current(st, p), Next(block, st, p).output)], q)
  {
    var e := (Current(st, p), Next(block, st, p).output);
    FinishMovesOne(block, base, st, p, q);
    FilterLast(log, e, Of(block, q));
    Associate(Filter(Zip(st.answered, st.ret), Of(block, q)), Done(st, q), if q == p then [e] else []);
  }

  lemma CollectKeepsLogged(block: seq<Tx>, st: State, log: seq<Event>, p: Pointer, q: Pointer)
    requires Exclusive(block, st) && Enabled(block, st, Collect(p))
    requires Logged(block, st, log, q)
    ensures Logged(block, DoCollect(st, p), log, q)
  {
    var st', r := DoCollect(st, p), st.replies.Get(p)[0];
    CollectTakesDone(block, st, p, q);
    var a, b := Zip(st.answered, st.ret), Zip(r.batch, r.outputs);
    assert Zip(st'.answered, st'.ret) == a + b;
    FilterAppend(a, b, Of(block, q));
    EventsOf(block, p, r.batch, r.outputs, q);
    var f := Filter(a, Of(block, q));
    assert f + [] == f && (f + b) + [] == f + b;
  }

  lemma OthersKeepLogged(block: seq<Tx>, base: BaseView, st: State, step: Step, log: seq<Event>, q: Pointer)
    requires Exclusive(block, st) && Enabled(block, st, step)
    requires Logged(block, st, log, q)
    requires step.Act? ==> Next(block, st, step.p).Read?
    ensures Logged(block, Do(block, base, st, step), log, q)
  {
    match step
    case Scan(p) => ScanSends(block, st, p, q);
    case Act(p) => ReadMovesNothing(block, base, st, p, q);
    case Collect(p) => CollectKeepsLogged(block, st, log, p, q);
    case Fetch(p) => FetchMovesNothing(block, st, p, q);
    case Answer(p) => AnswerMovesNothing(block, st, p, q);
  }

  lemma StepKeepsSerialized(block: seq<Tx>, base: BaseView, st: State, step: Step)
    requires Exclusive(block, st) && Enabled(block, st, step)
    requires forall p: Pointer :: Reading(block, base, st, p)
    requires Serialized(block, base, st)
    ensures Serialized(block, base, Do(block, base, st, step))
  {
    var st', log := Do(block, base, st, step), Serial(block, base, st.committed).value.log;
    if step.Act? && Next(block, st, step.p).Finish? {
      assert Reading(block, base, st, step.p);
      FinishIsSerial(block, base, st, step.p);
      forall q: Pointer ensures Logged(block, st', Serial(block, base, st'.committed).value.log, q) {
        assert Logged(block, st, log, q);
        FinishKeepsLogged(block, base, st, log, step.p, q);
      }
    } else {
      assert st'.committed == st.committed && st'.cache == st.cache;
      forall q: Pointer ensures Logged(block, st', log, q) {
        assert Logged(block, st, log, q);
        OthersKeepLogged(block, base, st, step, log, q);
      }
    }
  }

  // ---------------------------------------------------------------- whole schedules

  lemma StepKeepsInv(block: seq<Tx>, base: BaseView, aptos: iset<Key>, ethereum: iset<Key>, st: State, step: Step)
    requires Isolated(block, aptos, ethereum) && Inv(block, base, st) && Enabled(block, st, step)
    ensures Inv(block, base, Do(block, base, st, step))
  {
    StepKeepsExclusive(block, base, st, step);
    StepKeepsProjected(block, base, st, step, Aptos);
    StepKeepsProjected(block, base, st, step, Ethereum);
    forall p: Pointer ensures Reading(block, base, Do(block, base, st, step), p) {
      StepKeepsReading(block, base, aptos, ethereum, st, step, p);
    }
    StepKeepsSerialized(block, base, st, step);
  }

  lemma {:induction false} ScheduleKeepsInv(
    block: seq<Tx>, base: BaseView, aptos: iset<Key>, ethereum: iset<Key>, states: seq<State>, steps: seq<Step>, n: nat)
    requires Isolated(block, aptos, ethereum) && Schedule(block, base, states, steps)
    requires Inv(block, base, states[0]) && n < |states|
    ensures Inv(block, base, states[n])
  {
    if n > 0 {
      ScheduleKeepsInv(block, base, aptos, ethereum, states, steps, n - 1);
      StepKeepsInv(block, base, aptos, ethereum, states[n - 1], steps[n - 1]);
    }
  }
}
