/** The block executor for two virtual machines: a dispatcher scans the block with one pointer
    per worker, and hands batches to an Aptos, an Ethereum and a cross-VM worker thread that
    share one cache. A state machine over the steps of all four threads. */
module Dispatcher {
  import opened Options
  import opened TransactionPrograms

  const MAX_U64: nat := 0xFFFF_FFFF_FFFF_FFFF

  type U64 = n: nat | n <= MAX_U64

  datatype TxKind = EthereumTx | AptosTx | CrossTxAptosOrigin | CrossTxEthereumOrigin

  /** A scanning pointer; also names the worker that serves it. */
  datatype Pointer = Aptos | Ethereum | Cross

  datatype Tx =
    | User(kind: TxKind, sender: nat, nonce: U64, program: Program)
    | Checkpoint(program: Program)

  predicate IsMove(tx: Tx) { tx.User? && tx.kind == AptosTx }

  predicate IsEthereum(tx: Tx) { tx.User? && tx.kind == EthereumTx }

  /** A user transaction that starts on one machine and calls into the other. */
  predicate IsCrossVm(tx: Tx) {
    tx.User? && (tx.kind == CrossTxAptosOrigin || tx.kind == CrossTxEthereumOrigin)
  }

  /** Which pointer, and hence which worker, handles a transaction. */
  function ClassOf(tx: Tx): Pointer {
    match tx
    case Checkpoint(_) => Cross
    case User(kind, _, _, _) =>
      match kind
      case EthereumTx => Ethereum
      case AptosTx => Aptos
      case CrossTxAptosOrigin => Cross
      case CrossTxEthereumOrigin => Cross
  }

  /** One value per pointer. */
  datatype Per<T> = Per(aptos: T, ethereum: T, cross: T) {
    function Get(p: Pointer): T {
      match p case Aptos => aptos case Ethereum => ethereum case Cross => cross
    }

    function Set(p: Pointer, x: T): Per<T> {
      match p
      case Aptos => this.(aptos := x)
      case Ethereum => this.(ethereum := x)
      case Cross => this.(cross := x)
    }
  }

  /** A worker in the middle of a batch: transactions are block indices, `pos` of them are
      done, and the one after has read `seen`. */
  datatype Running = Running(batch: seq<nat>, pos: nat, seen: seq<Bytes>, outputs: seq<Output>)

  /** The answer to a batch; the batch itself is not part of the message. */
  datatype Reply = Reply(batch: seq<nat>, outputs: seq<Output>)

  datatype State = State(
    // the dispatcher
    index: Per<nat>, loaded: Per<bool>, nonces: map<nat, U64>, ret: seq<Output>, processed: nat,
    // channels and workers
    queues: Per<seq<seq<nat>>>, running: Per<Option<Running>>, replies: Per<seq<Reply>>, cache: Cache,
    // history: transactions in the order sent, in the order of their write sets, in the order of `ret`
    sent: seq<nat>, committed: seq<nat>, answered: seq<nat>)

  function Initial(nonces: map<nat, U64>): State {
    State(Per(0, 0, 0), Per(false, false, false), nonces, [], 0,
          Per([], [], []), Per(None, None, None), Per([], [], []), map[], [], [], [])
  }

  // ---------------------------------------------------------------- the dispatcher

  /** No worker is busy that could interfere with a batch of class `p`. */
  predicate Free(loaded: Per<bool>, p: Pointer) {
    match p
    case Aptos => !loaded.aptos && !loaded.cross
    case Ethereum => !loaded.ethereum && !loaded.cross
    case Cross => !loaded.aptos && !loaded.ethereum && !loaded.cross
  }

  /** What to do with the transaction under a pointer: add it to the batch and note the nonce,
      step over it and end the batch, or end the batch and look at it again later. The predecessor
      of a nonce is computed with an overflow check: for zero, that panics. */
  datatype Decision = Take(nonces: map<nat, U64>) | Skip | Wait | Panic

  function Decide(tx: Tx, p: Pointer, loaded: Per<bool>, nonces: map<nat, U64>, processed: nat, size: nat): Decision {
    if tx.Checkpoint? then
      if loaded.aptos || loaded.ethereum || loaded.cross then Wait
      else if processed + 1 != size then Wait
      else if p != Cross then Skip
      else Take(nonces)
    else if ClassOf(tx) != p then Skip
    else if !Free(loaded, p) then Wait
    else if tx.sender in nonces then
      if tx.nonce == 0 then Panic
      else if nonces[tx.sender] == tx.nonce - 1 then Take(nonces[tx.sender := tx.nonce])
      else Wait
    else if tx.nonce == 0 then Take(nonces[tx.sender := 0])
    else Wait
  }

  datatype Scanned = Scanned(index: nat, nonces: map<nat, U64>, batch: seq<nat>)

  function ScanFrom(block: seq<Tx>, p: Pointer, loaded: Per<bool>, processed: nat, s: Scanned): Scanned
    decreases |block| - s.index
  {
    if s.index >= |block| then s
    else match Decide(block[s.index], p, loaded, s.nonces, processed, |block|)
      case Take(nonces) => ScanFrom(block, p, loaded, processed, Scanned(s.index + 1, nonces, s.batch + [s.index]))
      case Skip => s.(index := s.index + 1)
      case Wait => s
      case Panic => s
  }

  /** The scan comes to a transaction that makes it panic. */
  predicate ScanPanics(block: seq<Tx>, p: Pointer, loaded: Per<bool>, processed: nat, s: Scanned)
    decreases |block| - s.index
  {
    s.index < |block| &&
    match Decide(block[s.index], p, loaded, s.nonces, processed, |block|)
    case Take(nonces) => ScanPanics(block, p, loaded, processed, Scanned(s.index + 1, nonces, s.batch + [s.index]))
    case Skip => false
    case Wait => false
    case Panic => true
  }

  /** The scanning loop of the dispatcher. */
  method ScanBatch(block: seq<Tx>, p: Pointer, loaded: Per<bool>, processed: nat, index: nat, nonces: map<nat, U64>)
      returns (s: Scanned, panics: bool)
    ensures panics == ScanPanics(block, p, loaded, processed, Scanned(index, nonces, []))
    ensures !panics ==> s == ScanFrom(block, p, loaded, processed, Scanned(index, nonces, []))
  {
    s := Scanned(index, nonces, []);
    panics := false;
    var batchEnd := false;
    while s.index < |block| && !batchEnd
      invariant if batchEnd then s == ScanFrom(block, p, loaded, processed, Scanned(index, nonces, []))
                else ScanFrom(block, p, loaded, processed, s)
                     == ScanFrom(block, p, loaded, processed, Scanned(index, nonces, []))
      invariant ScanPanics(block, p, loaded, processed, Scanned(index, nonces, []))
             == (!batchEnd && ScanPanics(block, p, loaded, processed, s))
      decreases |block| - s.index, !batchEnd
    {
      var decision := Decide(block[s.index], p, loaded, s.nonces, processed, |block|);
      if decision.Take? {
        s := Scanned(s.index + 1, decision.nonces, s.batch + [s.index]);
      } else if decision.Panic? {
        return s, true;
      } else {
        if decision.Skip? {
          s := s.(index := s.index + 1);
        }
        batchEnd := true;
      }
    }
  }

  // ---------------------------------------------------------------- steps

  datatype Step =
    | Scan(p: Pointer)      // the dispatcher scans with `p` and sends the batch it finds
    | Collect(p: Pointer)   // the dispatcher takes an answer of the worker `p`, in any order of arrival
    | Fetch(p: Pointer)     // a worker takes its next batch
    | Act(p: Pointer)       // a worker reads one key, or finishes a transaction
    | Answer(p: Pointer)    // a worker answers its batch

  /** The scan of `p` would panic. */
  predicate PanicsAt(block: seq<Tx>, st: State, p: Pointer) {
    ScanPanics(block, p, st.loaded, st.processed, Scanned(st.index.Get(p), st.nonces, []))
  }

  /** A transaction that aborts panics its worker, which then takes no more steps, and neither does
      a dispatcher whose next scan panics. */
  predicate Enabled(block: seq<Tx>, st: State, step: Step) {
    match step
    case Scan(p) => !PanicsAt(block, st, p)
    case Collect(p) => st.loaded.Get(p) && st.replies.Get(p) != []
    case Fetch(p) => st.queues.Get(p) != [] && st.running.Get(p).None?
    case Act(p) =>
      && st.running.Get(p).Some?
      && var r := st.running.Get(p).value;
         r.pos < |r.batch| && r.batch[r.pos] < |block| && !block[r.batch[r.pos]].program(r.seen).Abort?
    case Answer(p) => st.running.Get(p).Some? && st.running.Get(p).value.pos == |st.running.Get(p).value.batch|
  }

  function DoScan(block: seq<Tx>, st: State, p: Pointer): State {
    var s := ScanFrom(block, p, st.loaded, st.processed, Scanned(st.index.Get(p), st.nonces, []));
    var st' := st.(index := st.index.Set(p, s.index), nonces := s.nonces);
    if s.batch == [] then st'
    else st'.(queues := st.queues.Set(p, st.queues.Get(p) + [s.batch]),
              loaded := st.loaded.Set(p, true), sent := st.sent + s.batch)
  }

  function DoCollect(st: State, p: Pointer): State
    requires st.replies.Get(p) != []
  {
    var r := st.replies.Get(p)[0];
    st.(replies := st.replies.Set(p, st.replies.Get(p)[1..]), loaded := st.loaded.Set(p, false),
        ret := st.ret + r.outputs, processed := st.processed + |r.outputs|, answered := st.answered + r.batch)
  }

  function DoFetch(st: State, p: Pointer): State
    requires st.queues.Get(p) != []
  {
    st.(queues := st.queues.Set(p, st.queues.Get(p)[1..]),
        running := st.running.Set(p, Some(Running(st.queues.Get(p)[0], 0, [], []))))
  }

  function DoAct(block: seq<Tx>, base: BaseView, st: State, p: Pointer): State
    requires Enabled(block, st, Act(p))
  {
    var r := st.running.Get(p).value;
    match block[r.batch[r.pos]].program(r.seen)
    case Read(key) =>
      st.(running := st.running.Set(p, Some(r.(seen := r.seen + [Lookup(base, st.cache, key)]))))
    case Finish(writes, output) =>
      st.(running := st.running.Set(p, Some(Running(r.batch, r.pos + 1, [], r.outputs + [output]))),
          cache := st.cache + writes, committed := st.committed + [r.batch[r.pos]])
  }

  function DoAnswer(st: State, p: Pointer): State
    requires st.running.Get(p).Some?
  {
    var r := st.running.Get(p).value;
    st.(running := st.running.Set(p, None),
        replies := st.replies.Set(p, st.replies.Get(p) + [Reply(r.batch, r.outputs)]))
  }

  function Do(block: seq<Tx>, base: BaseView, st: State, step: Step): State
    requires Enabled(block, st, step)
  {
    match step
    case Scan(p) => DoScan(block, st, p)
    case Collect(p) => DoCollect(st, p)
    case Fetch(p) => DoFetch(st, p)
    case Act(p) => DoAct(block, base, st, p)
    case Answer(p) => DoAnswer(st, p)
  }

  /** Any schedule of the four threads, from any state. */
  ghost predicate Schedule(block: seq<Tx>, base: BaseView, states: seq<State>, steps: seq<Step>) {
    && |states| == |steps| + 1
    && forall i :: 0 <= i < |steps| ==>
         Enabled(block, states[i], steps[i]) && states[i + 1] == Do(block, base, states[i], steps[i])
  }

  lemma ScheduleGoesOn(block: seq<Tx>, base: BaseView, states: seq<State>, steps: seq<Step>, step: Step)
    requires Schedule(block, base, states, steps) && Enabled(block, states[|steps|], step)
    ensures Schedule(block, base, states + [Do(block, base, states[|steps|], step)], steps + [step])
  {
    var states', steps' := states + [Do(block, base, states[|steps|], step)], steps + [step];
    forall i | 0 <= i < |steps'|
      ensures Enabled(block, states'[i], steps'[i]) && states'[i + 1] == Do(block, base, states'[i], steps'[i])
    {
      if i < |steps| {
        assert states'[i] == states[i] && states'[i + 1] == states[i + 1] && steps'[i] == steps[i];
      }
    }
  }

  // ---------------------------------------------------------------- what a scan finds

  /** A scan collects consecutive transactions of its class, for which it is free to send, and
      steps over at most one transaction of another class. */
  lemma {:induction false} ScanFinds(block: seq<Tx>, p: Pointer, loaded: Per<bool>, processed: nat, s: Scanned)
    ensures var s' := ScanFrom(block, p, loaded, processed, s);
            && |s.batch| <= |s'.batch| && s'.batch[..|s.batch|] == s.batch
            && s.index + (|s'.batch| - |s.batch|) <= s'.index <= s.index + (|s'.batch| - |s.batch|) + 1
            && (s.index <= |block| ==> s'.index <= |block|)
            && (forall k :: |s.batch| <= k < |s'.batch| ==>
                  && s'.batch[k] == s.index + (k - |s.batch|) < |block|
                  && ClassOf(block[s'.batch[k]]) == p)
            && (s'.index > s.index + (|s'.batch| - |s.batch|) ==>
                  s'.index <= |block| && ClassOf(block[s'.index - 1]) != p)
            && (|s'.batch| > |s.batch| ==> Free(loaded, p))
    decreases |block| - s.index
  {
    if s.index < |block| {
      var d := Decide(block[s.index], p, loaded, s.nonces, processed, |block|);
      if d.Take? {
        var next := Scanned(s.index + 1, d.nonces, s.batch + [s.index]);
        ScanFinds(block, p, loaded, processed, next);
        var s' := ScanFrom(block, p, loaded, processed, s);
        assert s'.batch[|s.batch|] == s'.batch[..|next.batch|][|s.batch|] == s.index;
        assert s'.batch[..|s.batch|] == s'.batch[..|next.batch|][..|s.batch|];
      }
    }
  }
}
