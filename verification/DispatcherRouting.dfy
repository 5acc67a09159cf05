/** Which worker gets which kind of transaction, and what may run at the same time. */
module DispatcherRouting {
  import opened TransactionPrograms
  import opened Dispatcher
  import opened DispatcherInvariant
  import opened DispatcherRuns
  import opened DispatcherAnswers

  /** The worker has no batch: none is queued for it, under execution, or answered and not collected. */
  predicate HoldsNothing(st: State, p: Pointer) {
    st.queues.Get(p) == [] && st.running.Get(p).None? && st.replies.Get(p) == []
  }

  lemma HeldIsBatch(block: seq<Tx>, st: State, p: Pointer, i: nat)
    requires Exclusive(block, st) && i in Held(st, p)
    ensures st.loaded.Get(p) && i < |block| && ClassOf(block[i]) == p
  {
    assert Slot(st, p) && Shaped(block, st, p);
  }

  lemma UnloadedHoldsNothing(block: seq<Tx>, st: State, p: Pointer)
    requires Exclusive(block, st) && !st.loaded.Get(p)
    ensures HoldsNothing(st, p)
  {
    assert Slot(st, p);
  }

  /** Under every schedule: a Move transaction is only ever with the Aptos worker, and an Ethereum
      transaction with the Ethereum worker. A transaction that crosses the machines, whichever it starts
      on, and a checkpoint are with the cross-VM worker, and then no other worker has anything. */
  lemma RoutedByKind(
    block: seq<Tx>, base: BaseView, before: map<nat, U64>, states: seq<State>, steps: seq<Step>, n: nat,
    p: Pointer, i: nat)
    requires Schedule(block, base, states, steps) && states[0] == Initial(before) && n < |states|
    requires i in Held(states[n], p)
    ensures i < |block|
    ensures block[i].User? && block[i].kind == AptosTx ==> p == Aptos && HoldsNothing(states[n], Cross)
    ensures block[i].User? && block[i].kind == EthereumTx ==> p == Ethereum && HoldsNothing(states[n], Cross)
    ensures block[i].Checkpoint? || block[i].kind == CrossTxAptosOrigin || block[i].kind == CrossTxEthereumOrigin ==>
              p == Cross && HoldsNothing(states[n], Aptos) && HoldsNothing(states[n], Ethereum)
  {
    var st := states[n];
    RunKeepsSentInv(block, base, before, states, steps, n);
    HeldIsBatch(block, st, p, i);
    if p == Cross {
      UnloadedHoldsNothing(block, st, Aptos);
      UnloadedHoldsNothing(block, st, Ethereum);
    } else {
      UnloadedHoldsNothing(block, st, Cross);
    }
  }

  /** What a worker executes, has executed and not been asked for, or will execute, it holds. */
  lemma RunningIsHeld(block: seq<Tx>, st: State, p: Pointer)
    requires Exclusive(block, st)
    ensures st.running.Get(p).Some? ==> Held(st, p) == st.running.Get(p).value.batch
    ensures st.queues.Get(p) != [] ==> Held(st, p) == st.queues.Get(p)[0]
    ensures st.replies.Get(p) != [] ==> Held(st, p) == st.replies.Get(p)[0].batch
    ensures HoldsNothing(st, p) <==> !st.loaded.Get(p)
  {
    assert Slot(st, p);
  }

  // ---------------------------------------------------------------- what a pointer takes

  /** The workers that a transaction must find idle: its own and the cross-VM one, and all of them if it
      crosses the machines. */
  predicate WorkersIdle(tx: Tx, loaded: Per<bool>) {
    && !loaded.cross
    && (IsMove(tx) ==> !loaded.aptos)
    && (IsEthereum(tx) ==> !loaded.ethereum)
    && (IsCrossVm(tx) || tx.Checkpoint? ==> !loaded.aptos && !loaded.ethereum)
  }

  predicate OwnPointer(tx: Tx, p: Pointer) {
    match p
    case Aptos => IsMove(tx)
    case Ethereum => IsEthereum(tx)
    case Cross => IsCrossVm(tx) || tx.Checkpoint?
  }

  /** A pointer takes a transaction if and only if it is of its kind, finds the workers idle, and has the
      nonce after the last one of its sender, or zero if there is none; a checkpoint instead must be all
      that is left. It steps over what is of another kind, but waits before a checkpoint until that is
      all that is left; and panics at nonce zero of a sender it knows. */
  lemma TakenExactlyIf(tx: Tx, p: Pointer, loaded: Per<bool>, nonces: map<nat, U64>, processed: nat, size: nat)
    ensures var d := Decide(tx, p, loaded, nonces, processed, size);
            && (d.Take? <==>
                  && OwnPointer(tx, p) && WorkersIdle(tx, loaded)
                  && (tx.Checkpoint? ==> processed + 1 == size)
                  && (tx.User? ==> tx.nonce == NextNonce(nonces, tx.sender)))
            && (d.Skip? <==>
                  && !OwnPointer(tx, p)
                  && (tx.Checkpoint? ==> WorkersIdle(tx, loaded) && processed + 1 == size))
            && (d.Panic? <==>
                  tx.User? && OwnPointer(tx, p) && WorkersIdle(tx, loaded) && tx.sender in nonces && tx.nonce == 0)
            && (d.Take? && tx.Checkpoint? ==> d.nonces == nonces)
            && (d.Take? && tx.User? ==> d.nonces == nonces[tx.sender := tx.nonce])
  {
  }
}
