/** Whole runs of the dispatcher: every transaction is executed and answered exactly once, each
    class in block order, each sender in nonce order, as if one transaction ran after the other. */
module DispatcherRuns {
  import opened TransactionPrograms
  import opened Permutations
  import opened Projections
  import opened Dispatcher
  import opened DispatcherInvariant
  import opened SerialOrders
  import opened DispatcherSerial

  // ---------------------------------------------------------------- what has been sent

  predicate Passed(block: seq<Tx>, index: Per<nat>, i: nat) {
    i < |block| && i < index.Get(ClassOf(block[i]))
  }

  /** Everything sent has been passed by its pointer, and the other way round. */
  ghost predicate SentIsPassed(block: seq<Tx>, index: Per<nat>, sent: seq<nat>) {
    forall i: nat :: i in sent <==> Passed(block, index, i)
  }

  /** Each class is sent in block order. */
  ghost predicate InBlockOrder(block: seq<Tx>, sent: seq<nat>) {
    && (forall k :: 0 <= k < |sent| ==> sent[k] < |block|)
    && (forall a, b :: 0 <= a < b < |sent| ==> ClassOrder(block, sent[a], sent[b]))
  }

  /** If `i` and `j` are of one class, `i` comes first in the block. */
  predicate ClassOrder(block: seq<Tx>, i: nat, j: nat) {
    i < |block| && j < |block| && (ClassOf(block[i]) == ClassOf(block[j]) ==> i < j)
  }

  /** The transactions `from`, `from + 1`, ... all of class `p`. */
  predicate Segment(block: seq<Tx>, p: Pointer, from: nat, batch: seq<nat>) {
    forall k :: 0 <= k < |batch| ==> batch[k] == from + k && batch[k] < |block| && ClassOf(block[batch[k]]) == p
  }

  lemma SegmentHas(block: seq<Tx>, p: Pointer, from: nat, batch: seq<nat>, i: nat)
    requires Segment(block, p, from, batch)
    ensures i in batch <==> from <= i < from + |batch|
    ensures i in batch ==> i < |block| && ClassOf(block[i]) == p
  {
    if from <= i < from + |batch| {
      assert batch[i - from] == i;
    }
  }

  lemma SegmentKeepsPassed(block: seq<Tx>, index: Per<nat>, sent: seq<nat>, p: Pointer, batch: seq<nat>, to: nat)
    requires SentIsPassed(block, index, sent) && Segment(block, p, index.Get(p), batch)
    requires to == index.Get(p) + |batch|
          || (to == index.Get(p) + |batch| + 1 <= |block| && ClassOf(block[to - 1]) != p)
    ensures SentIsPassed(block, index.Set(p, to), sent + batch)
  {
    forall i: nat ensures i in sent + batch <==> Passed(block, index.Set(p, to), i) {
      SegmentHas(block, p, index.Get(p), batch, i);
      assert i in sent <==> Passed(block, index, i);
    }
  }

  lemma SegmentKeepsOrder(block: seq<Tx>, index: Per<nat>, sent: seq<nat>, p: Pointer, batch: seq<nat>)
    requires SentIsPassed(block, index, sent) && InBlockOrder(block, sent) && Segment(block, p, index.Get(p), batch)
    ensures InBlockOrder(block, sent + batch)
  {
    forall a, b | 0 <= a < b < |sent + batch| ensures ClassOrder(block, (sent + batch)[a], (sent + batch)[b]) {
      if b < |sent| {
        assert ClassOrder(block, sent[a], sent[b]);
      } else if a < |sent| {
        assert (sent + batch)[b] == batch[b - |sent|] && sent[a] in sent;
        assert Passed(block, index, sent[a]);
      }
    }
  }

  lemma ScanKeepsSent(block: seq<Tx>, st: State, p: Pointer)
    requires SentIsPassed(block, st.index, st.sent) && InBlockOrder(block, st.sent)
    ensures SentIsPassed(block, DoScan(block, st, p).index, DoScan(block, st, p).sent)
    ensures InBlockOrder(block, DoScan(block, st, p).sent)
  {
    var s0 := Scanned(st.index.Get(p), st.nonces, []);
    var s := ScanFrom(block, p, st.loaded, st.processed, s0);
    ScanFinds(block, p, st.loaded, st.processed, s0);
    assert Segment(block, p, st.index.Get(p), s.batch);
    SegmentKeepsPassed(block, st.index, st.sent, p, s.batch, s.index);
    SegmentKeepsOrder(block, st.index, st.sent, p, s.batch);
    assert st.sent + [] == st.sent;
  }

  /** Transactions sent are executed or pending; executed ones are answered or about to be. */
  predicate Counted(block: seq<Tx>, st: State) {
    && |st.sent| == |st.committed| + |Pending(st, Aptos)| + |Pending(st, Ethereum)| + |Pending(st, Cross)|
    && |st.committed| == |st.answered| + |Done(st, Aptos)| + |Done(st, Ethereum)| + |Done(st, Cross)|
    && st.processed == |st.answered| == |st.ret|
  }

  lemma FinishKeepsCounted(block: seq<Tx>, base: BaseView, st: State, p: Pointer)
    requires Exclusive(block, st) && Counted(block, st) && Enabled(block, st, Act(p)) && Next(block, st, p).Finish?
    ensures Counted(block, DoAct(block, base, st, p))
  {
    FinishMovesOne(block, base, st, p, Aptos);
    FinishMovesOne(block, base, st, p, Ethereum);
    FinishMovesOne(block, base, st, p, Cross);
  }

  lemma CollectKeepsCounted(block: seq<Tx>, st: State, p: Pointer)
    requires Exclusive(block, st) && Counted(block, st) && Enabled(block, st, Collect(p))
    ensures Counted(block, DoCollect(st, p))
  {
    CollectTakesDone(block, st, p, Aptos);
    CollectTakesDone(block, st, p, Ethereum);
    CollectTakesDone(block, st, p, Cross);
  }

  lemma ScanKeepsCounted(block: seq<Tx>, st: State, p: Pointer)
    requires Exclusive(block, st) && Counted(block, st)
    ensures Counted(block, DoScan(block, st, p))
  {
    ScanSends(block, st, p, Aptos);
    ScanSends(block, st, p, Ethereum);
    ScanSends(block, st, p, Cross);
  }

  lemma StepKeepsCounted(block: seq<Tx>, base: BaseView, st: State, step: Step)
    requires Exclusive(block, st) && Counted(block, st) && Enabled(block, st, step)
    ensures Counted(block, Do(block, base, st, step))
  {
    match step
    case Scan(p) => ScanKeepsCounted(block, st, p);
    case Collect(p) => CollectKeepsCounted(block, st, p);
    case Act(p) =>
      if Next(block, st, p).Finish? {
        FinishKeepsCounted(block, base, st, p);
      } else {
        ReadMovesNothing(block, base, st, p, Aptos);
        ReadMovesNothing(block, base, st, p, Ethereum);
        ReadMovesNothing(block, base, st, p, Cross);
      }
    case Fetch(p) =>
      FetchMovesNothing(block, st, p, Aptos);
      FetchMovesNothing(block, st, p, Ethereum);
      FetchMovesNothing(block, st, p, Cross);
    case Answer(p) =>
      AnswerMovesNothing(block, st, p, Aptos);
      AnswerMovesNothing(block, st, p, Ethereum);
      AnswerMovesNothing(block, st, p, Cross);
  }

  // ---------------------------------------------------------------- nonces

  /** The nonce a sender must use next; after the largest one, no transaction has it. */
  function NextNonce(nonces: map<nat, U64>, sender: nat): nat {
    if sender in nonces then nonces[sender] as nat + 1 else 0
  }

  predicate FromSender(block: seq<Tx>, sender: nat, i: nat) {
    i < |block| && block[i].User? && block[i].sender == sender
  }

  function By(block: seq<Tx>, sender: nat): nat -> bool {
    (i: nat) => FromSender(block, sender, i)
  }

  predicate HasNonce(block: seq<Tx>, sender: nat, i: nat, nonce: nat) {
    FromSender(block, sender, i) && block[i].nonce == nonce
  }

  /** Transactions of one sender with consecutive nonces. */
  predicate Numbered(block: seq<Tx>, sender: nat, first: nat, mine: seq<nat>) {
    forall k :: 0 <= k < |mine| ==> HasNonce(block, sender, mine[k], first + k)
  }

  /** The transactions of one sender use consecutive nonces, starting with the next unused one. */
  predicate InNonceOrder(block: seq<Tx>, before: map<nat, U64>, nonces: map<nat, U64>, sent: seq<nat>, sender: nat) {
    var mine := Filter(sent, By(block, sender));
    && NextNonce(nonces, sender) == NextNonce(before, sender) + |mine|
    && Numbered(block, sender, NextNonce(before, sender), mine)
  }

  /** A transaction is taken only with the next nonce of its sender. */
  lemma TakeUsesNextNonce(
    tx: Tx, p: Pointer, loaded: Per<bool>, nonces: map<nat, U64>, processed: nat, size: nat, sender: nat)
    requires Decide(tx, p, loaded, nonces, processed, size).Take?
    ensures var nonces' := Decide(tx, p, loaded, nonces, processed, size).nonces;
            if tx.User? && tx.sender == sender
            then tx.nonce == NextNonce(nonces, sender) && NextNonce(nonces', sender) == tx.nonce + 1
            else NextNonce(nonces', sender) == NextNonce(nonces, sender)
  {
  }

  lemma TakeKeepsNonceOrder(
    block: seq<Tx>, before: map<nat, U64>, nonces: map<nat, U64>, sent: seq<nat>, i: nat, sender: nat,
    p: Pointer, loaded: Per<bool>, processed: nat)
    requires i < |block| && Decide(block[i], p, loaded, nonces, processed, |block|).Take?
    requires InNonceOrder(block, before, nonces, sent, sender)
    ensures InNonceOrder(block, before, Decide(block[i], p, loaded, nonces, processed, |block|).nonces, sent + [i],
            sender)
  {
    FilterLast(sent, i, By(block, sender));
    TakeUsesNextNonce(block[i], p, loaded, nonces, processed, |block|, sender);
  }

  lemma ScanOne(block: seq<Tx>, p: Pointer, loaded: Per<bool>, processed: nat, s: Scanned, d: Decision)
    requires s.index < |block| && d == Decide(block[s.index], p, loaded, s.nonces, processed, |block|)
    ensures var s' := ScanFrom(block, p, loaded, processed, s);
            if d.Take? then
              s' == ScanFrom(block, p, loaded, processed, Scanned(s.index + 1, d.nonces, s.batch + [s.index]))
            else s'.nonces == s.nonces && s'.batch == s.batch
  {
  }

  lemma {:induction false} ScanKeepsNonceOrder(
    block: seq<Tx>, before: map<nat, U64>, sent: seq<nat>, sender: nat,
    p: Pointer, loaded: Per<bool>, processed: nat, s: Scanned)
    requires InNonceOrder(block, before, s.nonces, sent + s.batch, sender)
    ensures var s' := ScanFrom(block, p, loaded, processed, s);
            InNonceOrder(block, before, s'.nonces, sent + s'.batch, sender)
    decreases |block| - s.index
  {
    if s.index < |block| {
      var d := Decide(block[s.index], p, loaded, s.nonces, processed, |block|);
      ScanOne(block, p, loaded, processed, s, d);
      if d.Take? {
        TakeKeepsNonceOrder(block, before, s.nonces, sent + s.batch, s.index, sender, p, loaded, processed);
        assert sent + (s.batch + [s.index]) == (sent + s.batch) + [s.index];
        ScanKeepsNonceOrder(block, before, sent, sender, p, loaded, processed,
                            Scanned(s.index + 1, d.nonces, s.batch + [s.index]));
      }
    }
  }

  lemma SentIsDistinct(block: seq<Tx>, sent: seq<nat>)
    requires InBlockOrder(block, sent)
    ensures Distinct(sent)
  {
    forall a, b | 0 <= a < b < |sent| ensures sent[a] != sent[b] {
      assert ClassOrder(block, sent[a], sent[b]);
    }
  }

  // ---------------------------------------------------------------- the checkpoint

  /** A checkpoint is sent after everything else in the block. */
  ghost predicate CheckpointLast(block: seq<Tx>, sent: seq<nat>) {
    forall k :: 0 <= k < |sent| && sent[k] < |block| && block[sent[k]].Checkpoint? ==> k + 1 == |block|
  }

  lemma {:induction false} ScanTakesCheckpoint(
    block: seq<Tx>, p: Pointer, loaded: Per<bool>, processed: nat, s: Scanned, k: nat)
    requires |s.batch| <= k < |ScanFrom(block, p, loaded, processed, s).batch|
    requires var i := ScanFrom(block, p, loaded, processed, s).batch[k]; i < |block| && block[i].Checkpoint?
    ensures !loaded.aptos && !loaded.ethereum && !loaded.cross && processed + 1 == |block|
    decreases |block| - s.index
  {
    ScanFinds(block, p, loaded, processed, s);
    var d := Decide(block[s.index], p, loaded, s.nonces, processed, |block|);
    assert d.Take?;
    if k > |s.batch| {
      ScanTakesCheckpoint(block, p, loaded, processed, Scanned(s.index + 1, d.nonces, s.batch + [s.index]), k);
    }
  }

  lemma NothingOut(block: seq<Tx>, st: State)
    requires Exclusive(block, st) && Counted(block, st) && !st.loaded.aptos && !st.loaded.ethereum && !st.loaded.cross
    ensures |st.sent| == st.processed
  {
    assert Slot(st, Aptos) && Slot(st, Ethereum) && Slot(st, Cross);
    IdleHasNothing(st, Aptos);
    IdleHasNothing(st, Ethereum);
    IdleHasNothing(st, Cross);
  }

  lemma ScanFits(block: seq<Tx>, st: State, p: Pointer)
    requires SentIsPassed(block, st.index, st.sent) && InBlockOrder(block, st.sent)
    ensures |DoScan(block, st, p).sent| <= |block|
  {
    ScanKeepsSent(block, st, p);
    SentIsDistinct(block, DoScan(block, st, p).sent);
    DistinctFits(DoScan(block, st, p).sent, |block|);
  }

  /** A checkpoint is found only when everything else has been sent and answered. */
  lemma FoundCheckpoint(block: seq<Tx>, st: State, p: Pointer, k: nat)
    requires Exclusive(block, st) && Counted(block, st) && k < |Found(block, st, p)|
    requires Found(block, st, p)[k] < |block| && block[Found(block, st, p)[k]].Checkpoint?
    ensures |st.sent| + 1 == |block|
  {
    ScanTakesCheckpoint(block, p, st.loaded, st.processed, Scanned(st.index.Get(p), st.nonces, []), k);
    NothingOut(block, st);
  }

  lemma CheckpointPlace(block: seq<Tx>, st: State, p: Pointer, k: nat)
    requires Exclusive(block, st) && Counted(block, st)
    requires SentIsPassed(block, st.index, st.sent) && InBlockOrder(block, st.sent)
    requires k < |Found(block, st, p)| && Found(block, st, p)[k] < |block| && block[Found(block, st, p)[k]].Checkpoint?
    ensures |st.sent| + k + 1 == |block|
  {
    FoundCheckpoint(block, st, p, k);
    ScanFits(block, st, p);
    ScanSends(block, st, p, p);
  }

  lemma CheckpointIsLast(block: seq<Tx>, st: State, p: Pointer, k: nat)
    requires Exclusive(block, st) && Counted(block, st) && CheckpointLast(block, st.sent)
    requires SentIsPassed(block, st.index, st.sent) && InBlockOrder(block, st.sent)
    requires var sent := st.sent + Found(block, st, p);
             k < |sent| && sent[k] < |block| && block[sent[k]].Checkpoint?
    ensures k + 1 == |block|
  {
    var sent := st.sent + Found(block, st, p);
    if k >= |st.sent| {
      assert sent[k] == Found(block, st, p)[k - |st.sent|];
      CheckpointPlace(block, st, p, k - |st.sent|);
    } else {
      assert sent[k] == st.sent[k];
    }
  }

  lemma ScanKeepsCheckpointLast(block: seq<Tx>, st: State, p: Pointer)
    requires Exclusive(block, st) && Counted(block, st) && CheckpointLast(block, st.sent)
    requires SentIsPassed(block, st.index, st.sent) && InBlockOrder(block, st.sent)
    ensures CheckpointLast(block, DoScan(block, st, p).sent)
  {
    var sent' := DoScan(block, st, p).sent;
    ScanSends(block, st, p, p);
    forall k | 0 <= k < |sent'| && sent'[k] < |block| && block[sent'[k]].Checkpoint? ensures k + 1 == |block| {
      CheckpointIsLast(block, st, p, k);
    }
  }

  // ---------------------------------------------------------------- whole runs

  /** What the dispatcher keeps, whatever the programs touch. */
  ghost predicate SentInv(block: seq<Tx>, before: map<nat, U64>, st: State) {
    && Exclusive(block, st)
    && Counted(block, st)
    && SentIsPassed(block, st.index, st.sent)
    && InBlockOrder(block, st.sent)
    && CheckpointLast(block, st.sent)
    && forall sender: nat :: InNonceOrder(block, before, st.nonces, st.sent, sender)
  }

  ghost predicate RunInv(block: seq<Tx>, base: BaseView, before: map<nat, U64>, st: State) {
    Inv(block, base, st) && SentInv(block, before, st)
  }

  lemma InitialHasInv(block: seq<Tx>, base: BaseView, before: map<nat, U64>)
    ensures RunInv(block, base, before, Initial(before))
  {
    var st := Initial(before);
    forall p: Pointer ensures Slot(st, p) && Shaped(block, st, p) {
    }
    forall p: Pointer ensures Logged(block, st, [], p) {
      assert Filter(Zip([], []), Of(block, p)) == [];
    }
    forall sender: nat ensures InNonceOrder(block, before, before, [], sender) {
    }
    forall i: nat ensures !Passed(block, st.index, i) {
    }
  }

  lemma StepKeepsNonceOrder(block: seq<Tx>, base: BaseView, before: map<nat, U64>, st: State, step: Step, sender: nat)
    requires Exclusive(block, st) && Enabled(block, st, step)
    requires InNonceOrder(block, before, st.nonces, st.sent, sender)
    ensures var st' := Do(block, base, st, step); InNonceOrder(block, before, st'.nonces, st'.sent, sender)
  {
    if step.Scan? {
      var p := step.p;
      ScanSends(block, st, p, p);
      assert st.sent + [] == st.sent;
      ScanKeepsNonceOrder(block, before, st.sent, sender, p, st.loaded, st.processed,
        Scanned(st.index.Get(p), st.nonces, []));
    }
  }

  lemma StepKeepsSentInv(block: seq<Tx>, base: BaseView, before: map<nat, U64>, st: State, step: Step)
    requires SentInv(block, before, st) && Enabled(block, st, step)
    ensures SentInv(block, before, Do(block, base, st, step))
  {
    var st' := Do(block, base, st, step);
    StepKeepsExclusive(block, base, st, step);
    StepKeepsCounted(block, base, st, step);
    forall sender: nat ensures InNonceOrder(block, before, st'.nonces, st'.sent, sender) {
      StepKeepsNonceOrder(block, base, before, st, step, sender);
    }
    if step.Scan? {
      ScanKeepsSent(block, st, step.p);
      ScanKeepsCheckpointLast(block, st, step.p);
    } else {
      assert st'.sent == st.sent && st'.index == st.index;
    }
  }

  lemma {:induction false} RunKeepsSentInv(
    block: seq<Tx>, base: BaseView, before: map<nat, U64>, states: seq<State>, steps: seq<Step>, n: nat)
    requires Schedule(block, base, states, steps) && n < |states| && states[0] == Initial(before)
    ensures SentInv(block, before, states[n])
  {
    if n == 0 {
      InitialHasInv(block, base, before);
    } else {
      RunKeepsSentInv(block, base, before, states, steps, n - 1);
      StepKeepsSentInv(block, base, before, states[n - 1], steps[n - 1]);
    }
  }

  lemma RunKeepsInv(
    block: seq<Tx>, base: BaseView, aptos: iset<Key>, ethereum: iset<Key>, before: map<nat, U64>,
    states: seq<State>, steps: seq<Step>, n: nat)
    requires Isolated(block, aptos, ethereum) && Schedule(block, base, states, steps) && n < |states|
    requires states[0] == Initial(before)
    ensures RunInv(block, base, before, states[n])
  {
    InitialHasInv(block, base, before);
    ScheduleKeepsInv(block, base, aptos, ethereum, states, steps, n);
    RunKeepsSentInv(block, base, before, states, steps, n);
  }
}
