/** The order in which answers are collected, and where in a block a checkpoint can be. */
module DispatcherAnswers {
  import opened TransactionPrograms
  import opened Permutations
  import opened Projections
  import opened Dispatcher
  import opened DispatcherInvariant
  import opened SerialOrders
  import opened DispatcherSerial
  import opened DispatcherRuns

  // ---------------------------------------------------------------- answers as each machine sees them

  /** The batch a worker has been sent and the dispatcher has not collected yet. */
  function Held(st: State, p: Pointer): seq<nat> {
    if st.queues.Get(p) != [] then st.queues.Get(p)[0]
    else if st.running.Get(p).Some? then st.running.Get(p).value.batch
    else if st.replies.Get(p) != [] then st.replies.Get(p)[0].batch
    else []
  }

  /** Either machine sees its transactions, and the cross-VM ones, answered in the order sent. */
  predicate AnsweredAsSent(block: seq<Tx>, st: State, q: Pointer) {
    Filter(st.answered, Sees(block, q)) + (Held(st, q) + Held(st, Cross)) == Filter(st.sent, Sees(block, q))
  }

  lemma ScanHolds(block: seq<Tx>, st: State, p: Pointer, q: Pointer)
    requires Exclusive(block, st)
    ensures var st', batch := DoScan(block, st, p), Found(block, st, p);
            && Held(st', q) == Held(st, q) + (if q == p then batch else [])
            && (batch != [] && (q == p || q == Cross || p == Cross) ==> Held(st, q) == [])
  {
    ScanFinds(block, p, st.loaded, st.processed, Scanned(st.index.Get(p), st.nonces, []));
    assert Slot(st, p) && Slot(st, q);
    assert [] + Found(block, st, p) == Found(block, st, p);
  }

  lemma ScanKeepsAnswered(block: seq<Tx>, st: State, p: Pointer, q: Pointer)
    requires Exclusive(block, st) && AnsweredAsSent(block, st, q) && q != Cross
    ensures AnsweredAsSent(block, DoScan(block, st, p), q)
  {
    var batch := Found(block, st, p);
    ScanSends(block, st, p, q);
    ScanHolds(block, st, p, q);
    ScanHolds(block, st, p, Cross);
    FilterAppend(st.sent, batch, Sees(block, q));
    BatchSeen(block, p, batch, q);
    Extend(Filter(st.answered, Sees(block, q)), Held(st, q), Held(st, Cross), batch);
  }

  lemma CollectReleases(block: seq<Tx>, st: State, p: Pointer, q: Pointer)
    requires Exclusive(block, st) && Enabled(block, st, Collect(p))
    ensures Held(DoCollect(st, p), q) == if q == p then [] else Held(st, q)
    ensures DoCollect(st, p).answered == st.answered + Held(st, p) && Batch(block, p, Held(st, p))
    ensures p == Cross && q != Cross ==> Held(st, q) == []
  {
    assert Slot(st, p) && Slot(st, q) && Shaped(block, st, p);
  }

  lemma Release<T>(a: seq<T>, x: seq<T>, y: seq<T>)
    ensures (a + x) + ([] + y) == a + (x + y)
    ensures (a + []) + (x + y) == a + (x + y)
    ensures x == [] ==> (a + y) + (x + []) == a + (x + y)
  {
  }

  lemma CollectKeepsAnswered(block: seq<Tx>, st: State, p: Pointer, q: Pointer)
    requires Exclusive(block, st) && AnsweredAsSent(block, st, q) && q != Cross && Enabled(block, st, Collect(p))
    ensures AnsweredAsSent(block, DoCollect(st, p), q)
  {
    CollectReleases(block, st, p, q);
    CollectReleases(block, st, p, Cross);
    FilterAppend(st.answered, Held(st, p), Sees(block, q));
    BatchSeen(block, p, Held(st, p), q);
    Release(Filter(st.answered, Sees(block, q)), Held(st, q), Held(st, Cross));
  }

  lemma WorkersKeepHeld(block: seq<Tx>, base: BaseView, st: State, step: Step, q: Pointer)
    requires Exclusive(block, st) && Enabled(block, st, step) && !step.Scan? && !step.Collect?
    ensures var st' := Do(block, base, st, step);
            Held(st', q) == Held(st, q) && st'.sent == st.sent && st'.answered == st.answered
  {
    assert Slot(st, step.p) && Slot(st, q);
  }

  lemma StepKeepsAnswered(block: seq<Tx>, base: BaseView, st: State, step: Step, q: Pointer)
    requires Exclusive(block, st) && AnsweredAsSent(block, st, q) && q != Cross && Enabled(block, st, step)
    ensures AnsweredAsSent(block, Do(block, base, st, step), q)
  {
    if step.Scan? {
      ScanKeepsAnswered(block, st, step.p, q);
    } else if step.Collect? {
      CollectKeepsAnswered(block, st, step.p, q);
    } else {
      WorkersKeepHeld(block, base, st, step, q);
      WorkersKeepHeld(block, base, st, step, Cross);
    }
  }

  // ---------------------------------------------------------------- checkpoints

  predicate IsCheckpoint(block: seq<Tx>, c: nat) { c < |block| && block[c].Checkpoint? }

  /** Pointers pass a checkpoint only when at most one transaction has not been sent. */
  ghost predicate CheckpointHolds(block: seq<Tx>, st: State) {
    forall c: nat, p: Pointer :: IsCheckpoint(block, c) && c < st.index.Get(p) ==> |block| <= |st.sent| + 1
  }

  /** Nothing that comes after a checkpoint in the block is ever sent. */
  ghost predicate NothingPast(block: seq<Tx>, sent: seq<nat>) {
    forall c: nat, x: nat :: IsCheckpoint(block, c) && x in sent ==> x <= c
  }

  lemma {:induction false} ScanPassesCheckpoint(
    block: seq<Tx>, p: Pointer, loaded: Per<bool>, processed: nat, s: Scanned, c: nat)
    requires IsCheckpoint(block, c) && s.index <= c < ScanFrom(block, p, loaded, processed, s).index
    ensures !loaded.aptos && !loaded.ethereum && !loaded.cross && processed + 1 == |block|
    decreases |block| - s.index
  {
    var d := Decide(block[s.index], p, loaded, s.nonces, processed, |block|);
    if s.index < c {
      assert d.Take?;
      ScanPassesCheckpoint(block, p, loaded, processed, Scanned(s.index + 1, d.nonces, s.batch + [s.index]), c);
    }
  }

  lemma ScanKeepsHolds(block: seq<Tx>, before: map<nat, U64>, st: State, p: Pointer)
    requires SentInv(block, before, st) && CheckpointHolds(block, st)
    ensures CheckpointHolds(block, DoScan(block, st, p))
  {
    var st' := DoScan(block, st, p);
    ScanSends(block, st, p, p);
    forall c: nat, q: Pointer | IsCheckpoint(block, c) && c < st'.index.Get(q) ensures |block| <= |st'.sent| + 1 {
      if st.index.Get(q) <= c {
        ScanPassesCheckpoint(block, p, st.loaded, st.processed, Scanned(st.index.Get(p), st.nonces, []), c);
        NothingOut(block, st);
      }
    }
  }

  lemma PositionOf(s: seq<nat>, x: nat) returns (k: nat)
    requires x in s
    ensures k < |s| && s[k] == x
  {
    k :| 0 <= k < |s| && s[k] == x;
  }

  /** A scan that has passed the checkpoint finds nothing more. */
  lemma PassedCheckpoint(block: seq<Tx>, before: map<nat, U64>, st: State, p: Pointer, c: nat)
    requires SentInv(block, before, st) && CheckpointHolds(block, st) && IsCheckpoint(block, c) && c < st.index.Get(p)
    ensures Found(block, st, p) == []
  {
    var st', batch := DoScan(block, st, p), Found(block, st, p);
    ScanSends(block, st, p, p);
    ScanFits(block, st, p);
    if batch != [] {
      ScanKeepsSent(block, st, p);
      SentIsDistinct(block, st'.sent);
      DistinctFits(st'.sent, |block|);
      assert c in st'.sent;
      ScanFinds(block, p, st.loaded, st.processed, Scanned(st.index.Get(p), st.nonces, []));
      assert false;
    }
  }

  lemma FoundIsSegment(block: seq<Tx>, st: State, p: Pointer)
    ensures Segment(block, p, st.index.Get(p), Found(block, st, p))
  {
    ScanFinds(block, p, st.loaded, st.processed, Scanned(st.index.Get(p), st.nonces, []));
  }

  /** A scan that takes the checkpoint takes nothing after it. */
  lemma TakesCheckpointLast(block: seq<Tx>, before: map<nat, U64>, st: State, p: Pointer, c: nat, x: nat)
    requires SentInv(block, before, st) && IsCheckpoint(block, c) && st.index.Get(p) <= c && x in Found(block, st, p)
    ensures x <= c
  {
    var from := st.index.Get(p);
    FoundIsSegment(block, st, p);
    SegmentHas(block, p, from, Found(block, st, p), x);
    SegmentHas(block, p, from, Found(block, st, p), c);
    if c in Found(block, st, p) {
      CheckpointPlace(block, st, p, c - from);
      ScanSends(block, st, p, p);
      ScanFits(block, st, p);
    }
  }

  lemma ScanKeepsNothingPast(block: seq<Tx>, before: map<nat, U64>, st: State, p: Pointer)
    requires SentInv(block, before, st) && CheckpointHolds(block, st) && NothingPast(block, st.sent)
    ensures NothingPast(block, DoScan(block, st, p).sent)
  {
    ScanSends(block, st, p, p);
    forall c: nat, x: nat | IsCheckpoint(block, c) && x in DoScan(block, st, p).sent ensures x <= c {
      if x !in st.sent {
        assert x in Found(block, st, p);
        if c < st.index.Get(p) {
          PassedCheckpoint(block, before, st, p, c);
        } else {
          TakesCheckpointLast(block, before, st, p, c, x);
        }
      }
    }
  }

  // ---------------------------------------------------------------- whole runs

  ghost predicate AnswerInv(block: seq<Tx>, st: State) {
    && AnsweredAsSent(block, st, Aptos)
    && AnsweredAsSent(block, st, Ethereum)
    && CheckpointHolds(block, st)
    && NothingPast(block, st.sent)
  }

  lemma StepKeepsAnswerInv(block: seq<Tx>, base: BaseView, before: map<nat, U64>, st: State, step: Step)
    requires SentInv(block, before, st) && AnswerInv(block, st) && Enabled(block, st, step)
    ensures AnswerInv(block, Do(block, base, st, step))
  {
    StepKeepsAnswered(block, base, st, step, Aptos);
    StepKeepsAnswered(block, base, st, step, Ethereum);
    if step.Scan? {
      ScanKeepsHolds(block, before, st, step.p);
      ScanKeepsNothingPast(block, before, st, step.p);
    }
  }

  lemma {:induction false} RunKeepsAnswerInv(
    block: seq<Tx>, base: BaseView, before: map<nat, U64>, states: seq<State>, steps: seq<Step>, n: nat)
    requires Schedule(block, base, states, steps) && n < |states| && states[0] == Initial(before)
    ensures AnswerInv(block, states[n])
  {
    if n > 0 {
      RunKeepsSentInv(block, base, before, states, steps, n - 1);
      RunKeepsAnswerInv(block, base, before, states, steps, n - 1);
      StepKeepsAnswerInv(block, base, before, states[n - 1], steps[n - 1]);
    }
  }
}
