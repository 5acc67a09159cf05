/** Which files the benchmark executes to the end: the reader's nonces go to the dispatcher, which
    takes the transactions block by block, each block ended by a checkpoint. */
module BenchmarkFile {
  import opened Options
  import opened TransactionPrograms
  import opened Permutations
  import opened Projections
  import opened Dispatcher
  import opened DispatcherRuns
  import opened DispatcherAnswers
  import opened DispatcherRouting
  import opened DispatcherTheorems
  import opened DispatcherProgress
  import opened DispatcherLoop
  import opened DispatcherTurns
  import opened OrderExactness
  import opened FramedReader

  // ---------------------------------------------------------------- blocks one after the other

  const BLOCK_SIZE: nat := 2500

  /** Full blocks, and one with the rest; each is followed by a checkpoint. */
  function Blocks(txs: seq<Tx>, checkpoint: Program): seq<seq<Tx>> {
    if txs == [] then []
    else
      var n := if |txs| < BLOCK_SIZE then |txs| else BLOCK_SIZE;
      [txs[..n] + [Checkpoint(checkpoint)]] + Blocks(txs[n..], checkpoint)
  }

  /** Some schedule of the loop as coded finishes each block, with the nonces the one before left. */
  ghost predicate SomeRunsFinish(blocks: seq<seq<Tx>>, nonces: map<nat, U64>) {
    blocks == [] ||
    exists base: BaseView, states: seq<State>, steps: seq<Step> ::
      && FinishedRun(blocks[0], base, nonces, states, steps)
      && AsCoded(states, steps)
      && SomeRunsFinish(blocks[1..], states[|steps|].nonces)
  }

  /** No schedule of any block ever panics, or stops before the block is finished. */
  ghost predicate AllRunsFinish(blocks: seq<seq<Tx>>, nonces: map<nat, U64>) {
    blocks == [] ||
    forall base: BaseView, states: seq<State>, steps: seq<Step> ::
      StartedRun(blocks[0], base, nonces, states, steps) ==>
      && GoesWell(blocks[0], states[|steps|])
      && (Stuck(blocks[0], states[|steps|]) ==> AllRunsFinish(blocks[1..], states[|steps|].nonces))
  }

  // ---------------------------------------------------------------- the condition

  /** The number of transactions of a sender in a block, and in the first `k` blocks. */
  function CountOf(block: seq<Tx>, sender: nat): nat { |Filter(Upto(|block|), By(block, sender))| }

  function Used(blocks: seq<seq<Tx>>, k: nat, sender: nat): nat
    requires k <= |blocks|
  {
    if k == 0 then 0 else CountOf(blocks[0], sender) + Used(blocks[1..], k - 1, sender)
  }

  /** The nonces senders go on with in block `k`. */
  function NextIn(blocks: seq<seq<Tx>>, next: nat -> nat, k: nat): nat -> nat
    requires k <= |blocks|
  {
    (sender: nat) => next(sender) + Used(blocks, k, sender)
  }

  /** Some order of sending suits the block. */
  ghost predicate Suited(block: seq<Tx>, next: nat -> nat) {
    exists order :: Dispatchable(block, next, order)
  }

  ghost predicate AllSuited(blocks: seq<seq<Tx>>, next: nat -> nat) {
    forall k :: 0 <= k < |blocks| ==> Suited(blocks[k], NextIn(blocks, next, k))
  }

  // ---------------------------------------------------------------- nonces from block to block

  ghost predicate SameNext(f: nat -> nat, g: nat -> nat) {
    forall sender: nat :: f(sender) == g(sender)
  }

  lemma SuitedSame(block: seq<Tx>, f: nat -> nat, g: nat -> nat)
    requires SameNext(f, g) && Suited(block, f)
    ensures Suited(block, g)
  {
    var order :| Dispatchable(block, f, order);
    forall sender: nat ensures Numbered(block, sender, g(sender), Filter(order, By(block, sender))) {
      assert Numbered(block, sender, f(sender), Filter(order, By(block, sender)));
    }
    assert Dispatchable(block, g, order);
  }

  /** Any two orders of a block hold the same number of a sender's transactions. */
  lemma CountsAgree(block: seq<Tx>, order: seq<nat>, sender: nat)
    requires Permutation(order, |block|)
    ensures |Filter(order, By(block, sender))| == CountOf(block, sender)
  {
    var keep, upto := By(block, sender), Upto(|block|);
    FilterDistinct(order, keep);
    FilterDistinct(upto, keep);
    forall x: nat ensures x in Filter(order, keep) <==> x in Filter(upto, keep) {
      FilterMember(order, keep, x);
      FilterMember(upto, keep, x);
      assert x < |block| ==> upto[x] == x;
    }
    assert Elements(Filter(order, keep)) == Elements(Filter(upto, keep));
    ElementsSize(Filter(order, keep));
    ElementsSize(Filter(upto, keep));
  }

  lemma NonceAfter(block: seq<Tx>, nonces: map<nat, U64>, st: State, sender: nat)
    requires Permutation(st.sent, |block|) && InNonceOrder(block, nonces, st.nonces, st.sent, sender)
    ensures NextNonce(st.nonces, sender) == NextNonce(nonces, sender) + CountOf(block, sender)
  {
    CountsAgree(block, st.sent, sender);
  }

  lemma UsedInOne(block: seq<Tx>, sender: nat)
    ensures Used([block], 1, sender) == CountOf(block, sender)
  {
    assert Used([block], 1, sender) == CountOf(block, sender) + Used([block][1..], 0, sender);
  }

  /** What a finished block leaves: each sender has used as many nonces as it has transactions. */
  lemma NoncesAfter(block: seq<Tx>, base: BaseView, nonces: map<nat, U64>, states: seq<State>, steps: seq<Step>)
    requires FinishedRun(block, base, nonces, states, steps)
    ensures SameNext(NextOf(states[|steps|].nonces), NextIn([block], NextOf(nonces), 1))
  {
    var st := states[|steps|];
    FinishedRunSendsAll(block, base, nonces, states, steps);
    forall sender: nat ensures NextOf(st.nonces)(sender) == NextIn([block], NextOf(nonces), 1)(sender) {
      assert InNonceOrder(block, nonces, st.nonces, st.sent, sender);
      NonceAfter(block, nonces, st, sender);
      UsedInOne(block, sender);
    }
  }

  // ---------------------------------------------------------------- all blocks

  lemma RestSuited(blocks: seq<seq<Tx>>, next: nat -> nat, next': nat -> nat)
    requires blocks != [] && SameNext(next', NextIn([blocks[0]], next, 1))
    ensures AllSuited(blocks, next) <==> Suited(blocks[0], next) && AllSuited(blocks[1..], next')
  {
    var rest := blocks[1..];
    forall k: nat | k < |rest|
      ensures SameNext(NextIn(rest, next', k), NextIn(blocks, next, k + 1))
      ensures SameNext(NextIn(blocks, next, k + 1), NextIn(rest, next', k))
    {
      NextShifts(blocks, next, next', k);
    }
    assert SameNext(NextIn(blocks, next, 0), next) && SameNext(next, NextIn(blocks, next, 0));
    if AllSuited(blocks, next) {
      assert Suited(blocks[0], NextIn(blocks, next, 0));
      SuitedSame(blocks[0], NextIn(blocks, next, 0), next);
      forall k | 0 <= k < |rest| ensures Suited(rest[k], NextIn(rest, next', k)) {
        assert Suited(blocks[k + 1], NextIn(blocks, next, k + 1));
        SuitedSame(rest[k], NextIn(blocks, next, k + 1), NextIn(rest, next', k));
      }
    }
    if Suited(blocks[0], next) && AllSuited(rest, next') {
      SuitedSame(blocks[0], next, NextIn(blocks, next, 0));
      forall k | 0 <= k < |blocks| ensures Suited(blocks[k], NextIn(blocks, next, k)) {
        if k > 0 {
          assert Suited(rest[k - 1], NextIn(rest, next', k - 1));
          SuitedSame(rest[k - 1], NextIn(rest, next', k - 1), NextIn(blocks, next, k));
        }
      }
    }
  }

  lemma NextShifts(blocks: seq<seq<Tx>>, next: nat -> nat, next': nat -> nat, k: nat)
    requires blocks != [] && SameNext(next', NextIn([blocks[0]], next, 1)) && k < |blocks| - 1
    ensures SameNext(NextIn(blocks[1..], next', k), NextIn(blocks, next, k + 1))
    ensures SameNext(NextIn(blocks, next, k + 1), NextIn(blocks[1..], next', k))
  {
    forall sender: nat ensures NextIn(blocks[1..], next', k)(sender) == NextIn(blocks, next, k + 1)(sender) {
      UsedInOne(blocks[0], sender);
      assert next'(sender) == NextIn([blocks[0]], next, 1)(sender);
      assert Used(blocks, k + 1, sender) == CountOf(blocks[0], sender) + Used(blocks[1..], k, sender);
    }
  }

  ghost predicate BlocksFinish(blocks: seq<seq<Tx>>, bound: nat) {
    forall k :: 0 <= k < |blocks| ==> AllFinish(blocks[k], bound)
  }

  lemma FirstSuited(blocks: seq<seq<Tx>>, next: nat -> nat)
    requires blocks != [] && AllSuited(blocks, next)
    ensures Suited(blocks[0], next)
  {
    assert Suited(blocks[0], NextIn(blocks, next, 0));
    SuitedSame(blocks[0], NextIn(blocks, next, 0), next);
  }

  /** After a finished block, the rest decides. */
  lemma RestDecides(
    blocks: seq<seq<Tx>>, base: BaseView, nonces: map<nat, U64>, states: seq<State>, steps: seq<Step>)
    requires blocks != [] && FinishedRun(blocks[0], base, nonces, states, steps)
    ensures AllSuited(blocks, NextOf(nonces)) <==> AllSuited(blocks[1..], NextOf(states[|steps|].nonces))
  {
    NoncesAfter(blocks[0], base, nonces, states, steps);
    FinishedIsDispatchable(blocks[0], base, nonces, states, steps);
    RestSuited(blocks, NextOf(nonces), NextOf(states[|steps|].nonces));
  }

  lemma SuitedRuns(
    block: seq<Tx>, base: BaseView, nonces: map<nat, U64>, bound: nat)
    returns (states: seq<State>, steps: seq<Step>)
    requires AllFinish(block, bound) && Suited(block, NextOf(nonces))
    ensures FinishedRun(block, base, nonces, states, steps) && AsCoded(states, steps)
  {
    var order :| Dispatchable(block, NextOf(nonces), order);
    states, steps := PatientRun(block, base, nonces, bound, order);
  }

  lemma FirstRuns(
    blocks: seq<seq<Tx>>, nonces: map<nat, U64>)
    returns (base: BaseView, states: seq<State>, steps: seq<Step>)
    requires blocks != [] && SomeRunsFinish(blocks, nonces)
    ensures FinishedRun(blocks[0], base, nonces, states, steps) && SomeRunsFinish(blocks[1..], states[|steps|].nonces)
  {
    base, states, steps :|
      FinishedRun(blocks[0], base, nonces, states, steps) && AsCoded(states, steps) &&
        SomeRunsFinish(blocks[1..], states[|steps|].nonces);
  }

  /** Some schedules execute the blocks to the end exactly if some order suits each of them. */
  lemma {:induction false} SomeFinishExactlyIf(blocks: seq<seq<Tx>>, nonces: map<nat, U64>, bound: nat)
    requires BlocksFinish(blocks, bound)
    ensures SomeRunsFinish(blocks, nonces) <==> AllSuited(blocks, NextOf(nonces))
    decreases |blocks|
  {
    if blocks != [] && AllSuited(blocks, NextOf(nonces)) {
      FirstSuited(blocks, NextOf(nonces));
      var base: BaseView := (k: Key) => None;
      var states, steps := SuitedRuns(blocks[0], base, nonces, bound);
      RestDecides(blocks, base, nonces, states, steps);
      SomeFinishExactlyIf(blocks[1..], states[|steps|].nonces, bound);
    } else if blocks != [] && SomeRunsFinish(blocks, nonces) {
      var base, states, steps := FirstRuns(blocks, nonces);
      RestDecides(blocks, base, nonces, states, steps);
      SomeFinishExactlyIf(blocks[1..], states[|steps|].nonces, bound);
    }
  }

  lemma StartedGoesWell(
    blocks: seq<seq<Tx>>, base: BaseView, nonces: map<nat, U64>, bound: nat, states: seq<State>, steps: seq<Step>)
    requires blocks != [] && BlocksFinish(blocks, bound) && AllSuited(blocks, NextOf(nonces))
    requires StartedRun(blocks[0], base, nonces, states, steps)
    ensures GoesWell(blocks[0], states[|steps|])
    ensures Stuck(blocks[0], states[|steps|]) ==> AllSuited(blocks[1..], NextOf(states[|steps|].nonces))
  {
    FirstSuited(blocks, NextOf(nonces));
    var order :| Dispatchable(blocks[0], NextOf(nonces), order);
    SuitedGoesWell(blocks[0], base, nonces, bound, order, states, steps);
    if Stuck(blocks[0], states[|steps|]) {
      RestDecides(blocks, base, nonces, states, steps);
    }
  }

  /** And then all schedules do. */
  lemma {:induction false} AllFinishExactlyIf(blocks: seq<seq<Tx>>, nonces: map<nat, U64>, bound: nat)
    requires BlocksFinish(blocks, bound)
    ensures AllRunsFinish(blocks, nonces) <==> AllSuited(blocks, NextOf(nonces))
    decreases |blocks|
  {
    if blocks != [] && AllSuited(blocks, NextOf(nonces)) {
      forall base: BaseView, states: seq<State>, steps: seq<Step> | StartedRun(blocks[0], base, nonces, states, steps)
        ensures GoesWell(blocks[0], states[|steps|])
        ensures Stuck(blocks[0], states[|steps|]) ==> AllRunsFinish(blocks[1..], states[|steps|].nonces)
      {
        StartedGoesWell(blocks, base, nonces, bound, states, steps);
        AllFinishExactlyIf(blocks[1..], states[|steps|].nonces, bound);
      }
    } else if blocks != [] && AllRunsFinish(blocks, nonces) {
      var base: BaseView := (k: Key) => None;
      var states, steps := SomeScheduleStops(blocks[0], base, nonces, bound);
      assert StartedRun(blocks[0], base, nonces, states, steps);
      RestDecides(blocks, base, nonces, states, steps);
      AllFinishExactlyIf(blocks[1..], states[|steps|].nonces, bound);
    }
  }

  // ---------------------------------------------------------------- the file

  function KindOf(kind: Byte): TxKind {
    match kind
    case 1 => AptosTx
    case 3 => CrossTxAptosOrigin
    case 5 => EthereumTx
    case _ => CrossTxEthereumOrigin
  }

  /** The transactions of a file; `run` is what executing them does. */
  function Transactions(frames: seq<Frame>, decode: Decoder, run: Frame -> Program): (txs: seq<Tx>)
    ensures |txs| == |frames|
    ensures forall k :: 0 <= k < |frames| ==>
              txs[k] == User(KindOf(frames[k].kind), decode(frames[k]).sender, decode(frames[k]).sequence,
                run(frames[k]))
  {
    seq(|frames|, k requires 0 <= k < |frames| =>
      User(KindOf(frames[k].kind), decode(frames[k]).sender, decode(frames[k]).sequence, run(frames[k])))
  }

  // ---------------------------------------------------------------- which frame goes where

  /** The user transactions of a list of blocks, without the checkpoints at their ends. */
  function Users(blocks: seq<seq<Tx>>): seq<Tx> {
    if blocks == [] then []
    else (if blocks[0] == [] then [] else blocks[0][..|blocks[0]| - 1]) + Users(blocks[1..])
  }

  /** The blocks hold all transactions of the file in order, 2500 in each but the last one, and each
      block ends with a checkpoint. */
  lemma {:induction false} BlocksPartition(txs: seq<Tx>, checkpoint: Program)
    ensures var blocks := Blocks(txs, checkpoint);
            && Users(blocks) == txs
            && (forall k :: 0 <= k < |blocks| ==>
                  |blocks[k]| > 1 && blocks[k][|blocks[k]| - 1] == Checkpoint(checkpoint))
            && (forall k :: 0 <= k < |blocks| ==> |blocks[k]| <= 2501 && (k + 1 < |blocks| ==> |blocks[k]| == 2501))
    decreases |txs|
  {
    if txs != [] {
      var n := if |txs| < BLOCK_SIZE then |txs| else BLOCK_SIZE;
      BlocksPartition(txs[n..], checkpoint);
      var block, rest := txs[..n] + [Checkpoint(checkpoint)], Blocks(txs[n..], checkpoint);
      assert block[..|block| - 1] == txs[..n] && ([block] + rest)[1..] == rest;
      assert txs == txs[..n] + txs[n..];
    }
  }

  /** Where a transaction of a block stands in the file. */
  lemma {:induction false} PlaceInFile(txs: seq<Tx>, checkpoint: Program, k: nat, i: nat)
    requires k < |Blocks(txs, checkpoint)| && i < |Blocks(txs, checkpoint)[k]| - 1
    ensures 2500 * k + i < |txs| && Blocks(txs, checkpoint)[k][i] == txs[2500 * k + i]
    decreases |txs|
  {
    var n := if |txs| < BLOCK_SIZE then |txs| else BLOCK_SIZE;
    if k > 0 {
      var rest := Blocks(txs[n..], checkpoint);
      assert Blocks(txs, checkpoint)[k] == rest[k - 1];
      PlaceInFile(txs[n..], checkpoint, k - 1, i);
    }
  }

  /** Under every schedule, the type byte of a frame decides which worker gets its transaction: one the
      Aptos worker, five the Ethereum worker, and three and seven the cross-VM worker, with nothing
      running beside it. */
  lemma FrameIsRouted(
    frames: seq<Frame>, decode: Decoder, run: Frame -> Program, checkpoint: Program, k: nat,
    base: BaseView, before: map<nat, U64>, states: seq<State>, steps: seq<Step>, n: nat, p: Pointer, i: nat)
    requires (forall f :: f in frames ==> WellFormed(f)) && k < |Blocks(Transactions(frames, decode, run), checkpoint)|
    requires var block := Blocks(Transactions(frames, decode, run), checkpoint)[k];
             Schedule(block, base, states, steps) && i + 1 < |block|
    requires states[0] == Initial(before) && n < |states| && i in Held(states[n], p)
    ensures 2500 * k + i < |frames|
    ensures var kind := frames[2500 * k + i].kind;
            && (kind == 1 ==> p == Aptos) && (kind == 5 ==> p == Ethereum)
            && (kind == 3 || kind == 7 ==>
                  p == Cross && HoldsNothing(states[n], Aptos) && HoldsNothing(states[n], Ethereum))
            && kind in {1, 3, 5, 7}
  {
    var txs := Transactions(frames, decode, run);
    PlaceInFile(txs, checkpoint, k, i);
    RoutedByKind(Blocks(txs, checkpoint)[k], base, before, states, steps, n, p, i);
    assert frames[2500 * k + i] in frames;
  }

  // ---------------------------------------------------------------- which files are executed

  /** `i` is the first transaction of a sender, and its machine has not started from zero before. */
  predicate FirstOf(frames: seq<Frame>, decode: Decoder, sender: nat, i: nat) {
    i < |frames| && FirstSetup(frames, decode, i) && decode(frames[i]).sender == sender
  }

  /** The sequence number a sender goes on with: that of this transaction, or zero. */
  ghost function ExpectedOf(frames: seq<Frame>, decode: Decoder, sender: nat): nat {
    if exists i: nat :: FirstOf(frames, decode, sender, i)
    then var i: nat :| FirstOf(frames, decode, sender, i); decode(frames[i]).sequence
    else 0
  }

  ghost function Expected(frames: seq<Frame>, decode: Decoder): nat -> nat {
    (sender: nat) => ExpectedOf(frames, decode, sender)
  }

  lemma ReaderExpects(frames: seq<Frame>, decode: Decoder, nonces: map<nat, U64>, sender: nat)
    requires NoncesOf(frames, decode, nonces)
    ensures NextNonce(nonces, sender) == ExpectedOf(frames, decode, sender)
  {
    if k: nat :| FirstOf(frames, decode, sender, k) {
      var i: nat :| FirstOf(frames, decode, sender, i) &&
        ExpectedOf(frames, decode, sender) == decode(frames[i]).sequence;
      DispatcherExpects(frames, decode, nonces, i, sender);
    } else {
      assert forall j: nat :: j < |frames| && FirstSetup(frames, decode, j) ==> !FirstOf(frames, decode, sender, j);
      DispatcherExpects(frames, decode, nonces, 0, sender);
    }
  }

  lemma AllSuitedSame(blocks: seq<seq<Tx>>, f: nat -> nat, g: nat -> nat)
    requires SameNext(f, g) && AllSuited(blocks, f)
    ensures AllSuited(blocks, g)
  {
    forall k | 0 <= k < |blocks| ensures Suited(blocks[k], NextIn(blocks, g, k)) {
      assert Suited(blocks[k], NextIn(blocks, f, k));
      assert SameNext(NextIn(blocks, f, k), NextIn(blocks, g, k));
      SuitedSame(blocks[k], NextIn(blocks, f, k), NextIn(blocks, g, k));
    }
  }

  lemma {:induction false} BlocksOfFinish(txs: seq<Tx>, checkpoint: Program, bound: nat)
    requires AllFinish(txs, bound) && Finishes(checkpoint, bound)
    ensures BlocksFinish(Blocks(txs, checkpoint), bound)
    decreases |txs|
  {
    if txs != [] {
      var n := if |txs| < BLOCK_SIZE then |txs| else BLOCK_SIZE;
      BlocksOfFinish(txs[n..], checkpoint, bound);
    }
  }

  /** A file that has been read, with the nonces of the reader: some schedules, and then all, execute
      its blocks to the end if and only if each block can be sent in an order that keeps classes in
      file order and numbers every sender consecutively: from the sequence number of its first
      transaction, or from zero if its machine has started from zero before, on through the blocks. */
  lemma FileIsExecutedExactlyIf(
    frames: seq<Frame>, decode: Decoder, run: Frame -> Program, checkpoint: Program, bound: nat, nonces: map<nat, U64>)
    requires NoncesOf(frames, decode, nonces)
    requires Finishes(checkpoint, bound) && forall f :: f in frames ==> Finishes(run(f), bound)
    ensures var blocks := Blocks(Transactions(frames, decode, run), checkpoint);
            && (SomeRunsFinish(blocks, nonces) <==> AllSuited(blocks, Expected(frames, decode)))
            && (AllRunsFinish(blocks, nonces) <==> AllSuited(blocks, Expected(frames, decode)))
  {
    var txs := Transactions(frames, decode, run);
    var blocks := Blocks(txs, checkpoint);
    forall k | 0 <= k < |txs| ensures Finishes(txs[k].program, bound) {
      assert frames[k] in frames;
    }
    BlocksOfFinish(txs, checkpoint, bound);
    SomeFinishExactlyIf(blocks, nonces, bound);
    AllFinishExactlyIf(blocks, nonces, bound);
    forall sender: nat ensures NextOf(nonces)(sender) == Expected(frames, decode)(sender) {
      ReaderExpects(frames, decode, nonces, sender);
    }
    if AllSuited(blocks, NextOf(nonces)) {
      AllSuitedSame(blocks, NextOf(nonces), Expected(frames, decode));
    }
    if AllSuited(blocks, Expected(frames, decode)) {
      AllSuitedSame(blocks, Expected(frames, decode), NextOf(nonces));
    }
  }
}
