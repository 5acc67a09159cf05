/** What every schedule of the dispatcher and its workers keeps. */
module DispatcherInvariant {
  import opened TransactionPrograms
  import opened Dispatcher

  // ---------------------------------------------------------------- at most one batch per worker

  /** A loaded worker has exactly one batch, queued, being executed or answered; another has none. */
  predicate Slot(st: State, p: Pointer) {
    |st.queues.Get(p)| + (if st.running.Get(p).Some? then 1 else 0) + |st.replies.Get(p)|
    == if st.loaded.Get(p) then 1 else 0
  }

  /** A batch of `p` names transactions of the block that belong to `p`. */
  predicate Batch(block: seq<Tx>, p: Pointer, batch: seq<nat>) {
    forall i :: 0 <= i < |batch| ==> batch[i] < |block| && ClassOf(block[batch[i]]) == p
  }

  predicate Shaped(block: seq<Tx>, st: State, p: Pointer) {
    && (st.queues.Get(p) != [] ==> Batch(block, p, st.queues.Get(p)[0]))
    && (st.running.Get(p).Some? ==>
          var r := st.running.Get(p).value;
          Batch(block, p, r.batch) && |r.outputs| == r.pos <= |r.batch| && (r.pos == |r.batch| ==> r.seen == []))
    && (st.replies.Get(p) != [] ==>
          var r := st.replies.Get(p)[0];
          Batch(block, p, r.batch) && |r.outputs| == |r.batch|)
  }

  /** The cross-VM worker never holds a batch together with another worker. */
  ghost predicate Exclusive(block: seq<Tx>, st: State) {
    && (forall p: Pointer :: Slot(st, p) && Shaped(block, st, p))
    && (st.loaded.cross ==> !st.loaded.aptos && !st.loaded.ethereum)
  }

  lemma ScanKeepsExclusive(block: seq<Tx>, st: State, p: Pointer)
    requires Exclusive(block, st)
    ensures Exclusive(block, DoScan(block, st, p))
  {
    ScanFinds(block, p, st.loaded, st.processed, Scanned(st.index.Get(p), st.nonces, []));
    var st' := DoScan(block, st, p);
    forall q: Pointer ensures Slot(st', q) && Shaped(block, st', q) {
      assert Slot(st, q) && Shaped(block, st, q);
    }
  }

  lemma CollectKeepsExclusive(block: seq<Tx>, st: State, p: Pointer)
    requires Exclusive(block, st) && Enabled(block, st, Collect(p))
    ensures Exclusive(block, DoCollect(st, p))
  {
    var st' := DoCollect(st, p);
    forall q: Pointer ensures Slot(st', q) && Shaped(block, st', q) {
      assert Slot(st, q) && Shaped(block, st, q);
    }
  }

  lemma FetchKeepsExclusive(block: seq<Tx>, st: State, p: Pointer)
    requires Exclusive(block, st) && Enabled(block, st, Fetch(p))
    ensures Exclusive(block, DoFetch(st, p))
  {
    var st' := DoFetch(st, p);
    forall q: Pointer ensures Slot(st', q) && Shaped(block, st', q) {
      assert Slot(st, q) && Shaped(block, st, q);
    }
  }

  lemma ActKeepsExclusive(block: seq<Tx>, base: BaseView, st: State, p: Pointer)
    requires Exclusive(block, st) && Enabled(block, st, Act(p))
    ensures Exclusive(block, DoAct(block, base, st, p))
  {
    var st' := DoAct(block, base, st, p);
    assert Slot(st, p) && Shaped(block, st, p);
    forall q: Pointer ensures Slot(st', q) && Shaped(block, st', q) {
      assert Slot(st, q) && Shaped(block, st, q);
    }
  }

  lemma AnswerKeepsExclusive(block: seq<Tx>, st: State, p: Pointer)
    requires Exclusive(block, st) && Enabled(block, st, Answer(p))
    ensures Exclusive(block, DoAnswer(st, p))
  {
    var st' := DoAnswer(st, p);
    assert Slot(st, p) && Shaped(block, st, p);
    forall q: Pointer ensures Slot(st', q) && Shaped(block, st', q) {
      assert Slot(st, q) && Shaped(block, st, q);
    }
  }

  lemma StepKeepsExclusive(block: seq<Tx>, base: BaseView, st: State, step: Step)
    requires Exclusive(block, st) && Enabled(block, st, step)
    ensures Exclusive(block, Do(block, base, st, step))
  {
    match step
    case Scan(p) => ScanKeepsExclusive(block, st, p);
    case Collect(p) => CollectKeepsExclusive(block, st, p);
    case Fetch(p) => FetchKeepsExclusive(block, st, p);
    case Act(p) => ActKeepsExclusive(block, base, st, p);
    case Answer(p) => AnswerKeepsExclusive(block, st, p);
  }
}
