/** Which blocks the dispatcher finishes: those that some order of sending suits. No schedule goes
    on for ever, and whether it finishes the block does not depend on the schedule. */
module DispatcherProgress {
  import opened Options
  import opened TransactionPrograms
  import opened Permutations
  import opened Projections
  import opened Dispatcher
  import opened DispatcherInvariant
  import opened DispatcherSerial
  import opened DispatcherRuns
  import opened DispatcherAnswers
  import opened DispatcherTheorems

  // ---------------------------------------------------------------- blocks that can be executed

  /** The program never aborts, and reads at most `bound` times. */
  ghost predicate Finishes(program: Program, bound: nat) {
    forall seen: seq<Bytes> :: !program(seen).Abort? && (|seen| >= bound ==> !program(seen).Read?)
  }

  ghost predicate AllFinish(block: seq<Tx>, bound: nat) {
    forall i :: 0 <= i < |block| ==> Finishes(block[i].program, bound)
  }

  /** The nonce each sender must use next. */
  function NextOf(nonces: map<nat, U64>): nat -> nat {
    (sender: nat) => NextNonce(nonces, sender)
  }

  /** The block can be sent in this order: each class in block order, each sender with consecutive
      nonces from the next one on, and a checkpoint, which ends the block, last. */
  ghost predicate Dispatchable(block: seq<Tx>, next: nat -> nat, order: seq<nat>) {
    && Permutation(order, |block|)
    && InBlockOrder(block, order)
    && CheckpointAtEnd(block)
    && CheckpointLast(block, order)
    && forall sender: nat :: Numbered(block, sender, next(sender), Filter(order, By(block, sender)))
  }

  // ---------------------------------------------------------------- work left

  /** The most steps that executing `n` transactions takes. */
  function Cost(n: nat, bound: nat): (c: nat)
    ensures n > 0 ==> c >= bound + 1
  {
    if n == 0 then 0 else Cost(n - 1, bound) + bound + 1
  }

  /** What is left of a batch under execution. */
  function WorkIn(r: Running, bound: nat): int {
    2 + (if r.pos <= |r.batch| then Cost(|r.batch| - r.pos, bound) else 0) - |r.seen|
  }

  /** What a worker has left to do, counted in steps. */
  function WorkOf(st: State, p: Pointer, bound: nat): int {
    if st.queues.Get(p) != [] then 3 + Cost(|st.queues.Get(p)[0]|, bound)
    else if st.running.Get(p).Some? then WorkIn(st.running.Get(p).value, bound)
    else if st.replies.Get(p) != [] then 1
    else 0
  }

  /** A transaction not yet passed by a pointer is worth more than executing and answering it. */
  function Price(n: nat, bound: nat): nat {
    if n == 0 then 0 else Price(n - 1, bound) + bound + 5
  }

  function Unpassed(block: seq<Tx>, index: Per<nat>): nat
    requires index.aptos <= |block| && index.ethereum <= |block| && index.cross <= |block|
  {
    3 * |block| - index.aptos - index.ethereum - index.cross
  }

  /** The steps with an effect that are left at most. */
  function Work(block: seq<Tx>, st: State, bound: nat): int
    requires st.index.aptos <= |block| && st.index.ethereum <= |block| && st.index.cross <= |block|
  {
    Price(Unpassed(block, st.index), bound) + WorkOf(st, Aptos, bound) + WorkOf(st, Ethereum, bound)
      + WorkOf(st, Cross, bound)
  }

  lemma {:induction false} PriceIs(n: nat, bound: nat)
    ensures Price(n, bound) == n * (bound + 5)
  {
    if n > 0 {
      PriceIs(n - 1, bound);
    }
  }

  lemma {:induction false} PriceSplits(n: nat, d: nat, bound: nat)
    requires d <= n
    ensures Price(n, bound) == Price(n - d, bound) + Price(d, bound)
    decreases d
  {
    if d > 0 {
      PriceSplits(n - 1, d - 1, bound);
    }
  }

  lemma {:induction false} PriceCoversCost(b: nat, d: nat, bound: nat)
    requires b <= d && d > 0
    ensures Cost(b, bound) + (if b > 0 then 3 else 0) < Price(d, bound)
    decreases d
  {
    if b > 0 && d > 1 {
      PriceCoversCost(b - 1, d - 1, bound);
    } else if d > 1 {
      PriceCoversCost(0, d - 1, bound);
    }
  }

  /** A transaction under execution has not read too much. */
  predicate ReadsBounded(st: State, p: Pointer, bound: nat) {
    st.running.Get(p).Some? ==>
      var r := st.running.Get(p).value;
      |r.seen| <= bound && (r.pos == |r.batch| ==> r.seen == [])
  }

  ghost predicate Bounded(block: seq<Tx>, st: State, bound: nat) {
    && st.index.aptos <= |block| && st.index.ethereum <= |block| && st.index.cross <= |block|
    && forall p: Pointer :: ReadsBounded(st, p, bound)
  }

  /** A step that changes something. */
  ghost predicate Effective(block: seq<Tx>, st: State, step: Step) {
    Enabled(block, st, step) && (step.Scan? ==> DoScan(block, st, step.p) != st)
  }

  lemma ScanMeasured(block: seq<Tx>, st: State, p: Pointer, bound: nat)
    requires Exclusive(block, st) && Bounded(block, st, bound) && DoScan(block, st, p) != st
    ensures var st' := DoScan(block, st, p);
            && Bounded(block, st', bound)
            && st'.index.Get(p) > st.index.Get(p)
            && WorkOf(st', p, bound) < WorkOf(st, p, bound) + Price(st'.index.Get(p) - st.index.Get(p), bound)
            && forall q: Pointer :: q != p ==>
               st'.index.Get(q) == st.index.Get(q) && WorkOf(st', q, bound) == WorkOf(st, q, bound)
  {
    var s0 := Scanned(st.index.Get(p), st.nonces, []);
    var s := ScanFrom(block, p, st.loaded, st.processed, s0);
    ScanFinds(block, p, st.loaded, st.processed, s0);
    var st' := DoScan(block, st, p);
    assert Slot(st, p);
    if s.index == s0.index {
      NoMoveNoChange(block, p, st.loaded, st.processed, s0);
    }
    forall q: Pointer ensures ReadsBounded(st', q, bound) {
      assert ReadsBounded(st, q, bound);
    }
    PriceCoversCost(|s.batch|, s.index - s0.index, bound);
  }

  lemma NoMoveNoChange(block: seq<Tx>, p: Pointer, loaded: Per<bool>, processed: nat, s: Scanned)
    requires ScanFrom(block, p, loaded, processed, s).index == s.index
    ensures ScanFrom(block, p, loaded, processed, s) == s
  {
    if s.index < |block| {
      var d := Decide(block[s.index], p, loaded, s.nonces, processed, |block|);
      if d.Take? {
        ScanFinds(block, p, loaded, processed, Scanned(s.index + 1, d.nonces, s.batch + [s.index]));
      }
    }
  }

  /** The steps of the workers and the collection of answers leave a worker less to do. */
  ghost predicate Lighter(st: State, st': State, p: Pointer, bound: nat) {
    && st'.index == st.index
    && ReadsBounded(st', p, bound)
    && WorkOf(st', p, bound) < WorkOf(st, p, bound)
    && forall q: Pointer :: q != p ==>
         WorkOf(st', q, bound) == WorkOf(st, q, bound) && (ReadsBounded(st, q, bound) ==> ReadsBounded(st', q, bound))
  }

  lemma FetchMeasured(block: seq<Tx>, st: State, p: Pointer, bound: nat)
    requires Exclusive(block, st) && Enabled(block, st, Fetch(p))
    ensures Lighter(st, DoFetch(st, p), p, bound)
  {
    assert Slot(st, p);
    var st' := DoFetch(st, p);
    forall q: Pointer | q != p
      ensures st'.running.Get(q) == st.running.Get(q) && st'.queues.Get(q) == st.queues.Get(q)
    {
    }
  }

  lemma AnswerMeasured(block: seq<Tx>, st: State, p: Pointer, bound: nat)
    requires Exclusive(block, st) && Enabled(block, st, Answer(p)) && ReadsBounded(st, p, bound)
    ensures Lighter(st, DoAnswer(st, p), p, bound)
  {
    assert Slot(st, p);
  }

  lemma CollectMeasured(block: seq<Tx>, st: State, p: Pointer, bound: nat)
    requires Exclusive(block, st) && Enabled(block, st, Collect(p))
    ensures Lighter(st, DoCollect(st, p), p, bound)
  {
    assert Slot(st, p);
  }

  lemma ReadIsLess(r: Running, x: Bytes, bound: nat)
    ensures WorkIn(r.(seen := r.seen + [x]), bound) < WorkIn(r, bound)
  {
  }

  lemma FinishIsLess(r: Running, o: Output, bound: nat)
    requires r.pos < |r.batch| && |r.seen| <= bound
    ensures WorkIn(Running(r.batch, r.pos + 1, [], r.outputs + [o]), bound) < WorkIn(r, bound)
  {
    assert Cost(|r.batch| - r.pos, bound) == Cost(|r.batch| - (r.pos + 1), bound) + bound + 1;
  }

  lemma SetThenGet<T>(x: Per<T>, p: Pointer, v: T, q: Pointer)
    ensures x.Set(p, v).Get(q) == if q == p then v else x.Get(q)
  {
  }

  /** Only the batch under execution by `p` changes. */
  lemma RunningChanges(st: State, st': State, p: Pointer, r': Running, bound: nat)
    requires st.queues.Get(p) == [] && st.running.Get(p).Some?
    requires WorkIn(r', bound) < WorkIn(st.running.Get(p).value, bound)
    requires |r'.seen| <= bound && (r'.pos == |r'.batch| ==> r'.seen == [])
    requires st'.index == st.index && st'.queues == st.queues && st'.replies == st.replies
    requires st'.running == st.running.Set(p, Some(r'))
    ensures Lighter(st, st', p, bound)
  {
    SetThenGet(st.running, p, Some(r'), p);
    forall q: Pointer | q != p
      ensures WorkOf(st', q, bound) == WorkOf(st, q, bound)
      ensures ReadsBounded(st, q, bound) ==> ReadsBounded(st', q, bound)
    {
      SetThenGet(st.running, p, Some(r'), q);
    }
  }

  lemma ActMeasured(block: seq<Tx>, base: BaseView, st: State, p: Pointer, bound: nat)
    requires Exclusive(block, st) && Enabled(block, st, Act(p)) && ReadsBounded(st, p, bound)
    requires Finishes(block[Current(st, p)].program, bound)
    ensures Lighter(st, DoAct(block, base, st, p), p, bound)
  {
    assert Slot(st, p) && Shaped(block, st, p);
    var r := st.running.Get(p).value;
    match block[Current(st, p)].program(r.seen)
    case Read(key) =>
      var x := Lookup(base, st.cache, key);
      ReadIsLess(r, x, bound);
      RunningChanges(st, DoAct(block, base, st, p), p, r.(seen := r.seen + [x]), bound);
    case Finish(_, o) =>
      FinishIsLess(r, o, bound);
      RunningChanges(st, DoAct(block, base, st, p), p, Running(r.batch, r.pos + 1, [], r.outputs + [o]), bound);
  }

  lemma WorkIsNatural(block: seq<Tx>, st: State, bound: nat)
    requires Exclusive(block, st) && Bounded(block, st, bound)
    ensures Work(block, st, bound) >= 0
  {
    forall p: Pointer ensures WorkOf(st, p, bound) >= 0 {
      assert Slot(st, p) && Shaped(block, st, p) && ReadsBounded(st, p, bound);
    }
  }

  lemma LighterIsLess(block: seq<Tx>, st: State, st': State, p: Pointer, bound: nat)
    requires Bounded(block, st, bound) && Lighter(st, st', p, bound)
    ensures Bounded(block, st', bound) && Work(block, st', bound) < Work(block, st, bound)
  {
    forall q: Pointer ensures ReadsBounded(st', q, bound) {
      assert ReadsBounded(st, q, bound);
    }
    assert p != Aptos ==> WorkOf(st', Aptos, bound) == WorkOf(st, Aptos, bound);
    assert p != Ethereum ==> WorkOf(st', Ethereum, bound) == WorkOf(st, Ethereum, bound);
    assert p != Cross ==> WorkOf(st', Cross, bound) == WorkOf(st, Cross, bound);
  }

  lemma ScanIsLess(block: seq<Tx>, st: State, p: Pointer, bound: nat)
    requires Exclusive(block, st) && Bounded(block, st, bound) && DoScan(block, st, p) != st
    ensures var st' := DoScan(block, st, p);
            Bounded(block, st', bound) && Work(block, st', bound) < Work(block, st, bound)
  {
    ScanMeasured(block, st, p, bound);
    var st' := DoScan(block, st, p);
    var d := st'.index.Get(p) - st.index.Get(p);
    assert Unpassed(block, st'.index) == Unpassed(block, st.index) - d by {
      match p case Aptos => case Ethereum => case Cross =>
    }
    PriceSplits(Unpassed(block, st.index), d, bound);
    assert p != Aptos ==> WorkOf(st', Aptos, bound) == WorkOf(st, Aptos, bound);
    assert p != Ethereum ==> WorkOf(st', Ethereum, bound) == WorkOf(st, Ethereum, bound);
    assert p != Cross ==> WorkOf(st', Cross, bound) == WorkOf(st, Cross, bound);
  }

  /** Every step with an effect leaves less to do. */
  lemma StepIsLess(block: seq<Tx>, base: BaseView, bound: nat, st: State, step: Step)
    requires AllFinish(block, bound) && Exclusive(block, st) && Bounded(block, st, bound) && Effective(block, st, step)
    ensures var st' := Do(block, base, st, step);
            Bounded(block, st', bound) && Work(block, st', bound) < Work(block, st, bound)
  {
    var st', p := Do(block, base, st, step), step.p;
    assert ReadsBounded(st, p, bound);
    match step
    case Scan(_) => ScanIsLess(block, st, p, bound);
    case Fetch(_) => FetchMeasured(block, st, p, bound); LighterIsLess(block, st, st', p, bound);
    case Act(_) => ActMeasured(block, base, st, p, bound); LighterIsLess(block, st, st', p, bound);
    case Answer(_) => AnswerMeasured(block, st, p, bound); LighterIsLess(block, st, st', p, bound);
    case Collect(_) => CollectMeasured(block, st, p, bound); LighterIsLess(block, st, st', p, bound);
  }

  // ---------------------------------------------------------------- the next nonce

  /** The first transaction of an order that has not been sent. */
  lemma FirstUnsent(order: seq<nat>, sent: seq<nat>) returns (k: nat)
    requires Permutation(order, |order|) && |sent| < |order|
    ensures k < |order| && order[k] !in sent && forall j :: 0 <= j < k ==> order[j] in sent
  {
    k := 0;
    while k < |order| && order[k] in sent
      invariant k <= |order| && forall j :: 0 <= j < k ==> order[j] in sent
    {
      k := k + 1;
    }
    if k == |order| {
      assert Elements(order) <= Elements(sent);
      ElementsSize(order);
      ElementsSize(sent);
      SubsetSize(Elements(order), Elements(sent));
      assert false;
    }
  }

  /** A transaction has the same place in any two numbered lists. */
  lemma SamePlace(block: seq<Tx>, sender: nat, first: nat, a: seq<nat>, t: nat, b: seq<nat>, k: nat)
    requires Numbered(block, sender, first, a) && Numbered(block, sender, first, b)
    requires t < |a| && k < |b| && a[t] == b[k]
    ensures t == k
  {
    assert HasNonce(block, sender, a[t], first + t) && HasNonce(block, sender, b[k], first + k);
  }

  lemma {:induction false} FilterFits<T>(s: seq<T>, keep: T -> bool)
    ensures |Filter(s, keep)| <= |s|
  {
    if s != [] {
      FilterFits(s[..|s| - 1], keep);
    }
  }

  /** The transactions of a sender that come before a place in an order, and the one there. */
  lemma SplitAt(block: seq<Tx>, order: seq<nat>, k: nat, sender: nat)
    requires k < |order| && FromSender(block, sender, order[k])
    ensures var head, mine := Filter(order[..k], By(block, sender)), Filter(order, By(block, sender));
            |head| < |mine| <= |order| && mine[..|head|] == head && mine[|head|] == order[k]
  {
    var keep := By(block, sender);
    assert order == (order[..k] + [order[k]]) + order[k + 1..];
    FilterAppend(order[..k] + [order[k]], order[k + 1..], keep);
    FilterLast(order[..k], order[k], keep);
    FilterFits(order, keep);
  }

  /** Two numbered lists are prefixes of a numbered list that contains both. */
  lemma NumberedPrefix(block: seq<Tx>, sender: nat, first: nat, a: seq<nat>, b: seq<nat>, t: nat)
    requires Numbered(block, sender, first, a) && Numbered(block, sender, first, b)
    requires t < |a| && a[t] in b
    ensures t < |b| && b[t] == a[t]
  {
    var t' :| 0 <= t' < |b| && b[t'] == a[t];
    SamePlace(block, sender, first, a, t, b, t');
  }

  /** A transaction that follows those sent, and no others, has the next nonce. */
  lemma FollowsSent(block: seq<Tx>, sender: nat, first: nat, mine: seq<nat>, k: nat, sent: seq<nat>)
    requires Numbered(block, sender, first, mine) && Numbered(block, sender, first, sent)
    requires k < |mine|
    requires forall t :: 0 <= t < |sent| ==> sent[t] in mine
    requires mine[k] !in sent && forall t :: 0 <= t < k ==> mine[t] in sent
    ensures |sent| == k
  {
    if |sent| > k {
      NumberedPrefix(block, sender, first, sent, mine, k);
      assert false;
    } else if |sent| < k {
      NumberedPrefix(block, sender, first, mine, sent, |sent|);
      assert false;
    }
  }

  /** Up to the first place that is not sent, a sender's transactions in an order are those sent. */
  lemma SentUpTo(block: seq<Tx>, order: seq<nat>, sent: seq<nat>, k: nat, sender: nat)
    requires Permutation(order, |block|) && k < |order| && FromSender(block, sender, order[k])
    requires order[k] !in sent && forall j :: 0 <= j < k ==> order[j] in sent
    ensures var head, mine, his :=
              Filter(order[..k], By(block, sender)), Filter(order, By(block, sender)), Filter(sent, By(block, sender));
            && order[k] !in his
            && (forall x :: x in head ==> x in his)
            && (forall x :: x in his ==> x in mine)
  {
    var keep := By(block, sender);
    FilterMember(sent, keep, order[k]);
    forall x | x in Filter(order[..k], keep) ensures x in Filter(sent, keep) {
      FilterMember(order[..k], keep, x);
      FilterMember(sent, keep, x);
    }
    forall x | x in Filter(sent, keep) ensures x in Filter(order, keep) {
      FilterMember(sent, keep, x);
      FilterMember(order, keep, x);
    }
  }

  lemma NumberedAt(block: seq<Tx>, sender: nat, first: nat, mine: seq<nat>, k: nat)
    requires Numbered(block, sender, first, mine) && k < |mine|
    ensures HasNonce(block, sender, mine[k], first + k)
  {
  }

  lemma NextOfHead(block: seq<Tx>, sender: nat, first: nat, mine: seq<nat>, head: seq<nat>, sent: seq<nat>)
    requires Numbered(block, sender, first, mine) && Numbered(block, sender, first, sent)
    requires |head| < |mine| && mine[..|head|] == head
    requires mine[|head|] !in sent && (forall x :: x in head ==> x in sent) && forall x :: x in sent ==> x in mine
    ensures HasNonce(block, sender, mine[|head|], first + |sent|)
  {
    forall t | 0 <= t < |head| ensures mine[t] in sent {
      assert head[t] in head && mine[t] == head[t];
    }
    FollowsSent(block, sender, first, mine, |head|, sent);
    NumberedAt(block, sender, first, mine, |head|);
  }

  /** A sender's transactions in an order, and those of them before the first one not sent. */
  lemma ListsOf(
    block: seq<Tx>, order: seq<nat>, sent: seq<nat>, k: nat, sender: nat)
    returns (mine: seq<nat>, head: seq<nat>)
    requires Permutation(order, |block|) && k < |order| && FromSender(block, sender, order[k])
    requires order[k] !in sent && forall j :: 0 <= j < k ==> order[j] in sent
    ensures mine == Filter(order, By(block, sender))
    ensures |head| < |mine| <= |order| && mine[..|head|] == head && mine[|head|] == order[k]
    ensures order[k] !in Filter(sent, By(block, sender))
    ensures forall x :: x in head ==> x in Filter(sent, By(block, sender))
    ensures forall x :: x in Filter(sent, By(block, sender)) ==> x in mine
  {
    mine, head := Filter(order, By(block, sender)), Filter(order[..k], By(block, sender));
    SplitAt(block, order, k, sender);
    SentUpTo(block, order, sent, k, sender);
  }

  /** The place of the first transaction not sent among those of its sender. */
  lemma FirstUnsentPlace(block: seq<Tx>, first: nat, order: seq<nat>, sent: seq<nat>, k: nat, sender: nat)
    requires Permutation(order, |block|) && k < |order| && FromSender(block, sender, order[k])
    requires Numbered(block, sender, first, Filter(order, By(block, sender)))
    requires Numbered(block, sender, first, Filter(sent, By(block, sender)))
    requires order[k] !in sent && forall j :: 0 <= j < k ==> order[j] in sent
    ensures HasNonce(block, sender, order[k], first + |Filter(sent, By(block, sender))|)
  {
    var mine, head := ListsOf(block, order, sent, k, sender);
    NextOfHead(block, sender, first, mine, head, Filter(sent, By(block, sender)));
  }

  /** The first transaction not sent has the nonce that is next for its sender. */
  lemma FirstUnsentIsNext(block: seq<Tx>, before: map<nat, U64>, st: State, order: seq<nat>, k: nat, sender: nat)
    requires Permutation(order, |block|) && k < |order| && FromSender(block, sender, order[k])
    requires Numbered(block, sender, NextNonce(before, sender), Filter(order, By(block, sender)))
    requires InNonceOrder(block, before, st.nonces, st.sent, sender)
    requires order[k] !in st.sent && forall j :: 0 <= j < k ==> order[j] in st.sent
    ensures block[order[k]].nonce == NextNonce(st.nonces, sender)
  {
    FirstUnsentPlace(block, NextNonce(before, sender), order, st.sent, k, sender);
  }

  // ---------------------------------------------------------------- never panicking

  /** Nonce zero is not left for a sender that is known already. */
  lemma ZeroIsFirst(
    block: seq<Tx>, before: map<nat, U64>, nonces: map<nat, U64>, order: seq<nat>, sent: seq<nat>, i: nat, sender: nat)
    requires Permutation(order, |block|) && FromSender(block, sender, i) && i !in sent && sender in nonces
    requires Numbered(block, sender, NextNonce(before, sender), Filter(order, By(block, sender)))
    requires InNonceOrder(block, before, nonces, sent, sender)
    ensures block[i].nonce != 0
  {
    var keep, first := By(block, sender), NextNonce(before, sender);
    var mine, his := Filter(order, keep), Filter(sent, keep);
    FilterMember(order, keep, i);
    var t := PositionOf(mine, i);
    NumberedAt(block, sender, first, mine, t);
    if first + t == 0 {
      NumberedAt(block, sender, first, his, 0);
      FilterMember(sent, keep, his[0]);
      FilterMember(order, keep, his[0]);
      NumberedPrefix(block, sender, first, his, mine, 0);
    }
  }

  lemma {:induction false} ScanNeverPanics(
    block: seq<Tx>, before: map<nat, U64>, order: seq<nat>, sent: seq<nat>,
    p: Pointer, loaded: Per<bool>, processed: nat, s: Scanned)
    requires Dispatchable(block, NextOf(before), order)
    requires forall sender: nat :: InNonceOrder(block, before, s.nonces, sent + s.batch, sender)
    requires forall x :: x in sent + s.batch && x < |block| && ClassOf(block[x]) == p ==> x < s.index
    ensures !ScanPanics(block, p, loaded, processed, s)
    decreases |block| - s.index
  {
    if s.index < |block| {
      var d := Decide(block[s.index], p, loaded, s.nonces, processed, |block|);
      if d.Take? {
        var s' := Scanned(s.index + 1, d.nonces, s.batch + [s.index]);
        assert sent + s'.batch == (sent + s.batch) + [s.index];
        forall sender: nat ensures InNonceOrder(block, before, s'.nonces, sent + s'.batch, sender) {
          TakeKeepsNonceOrder(block, before, s.nonces, sent + s.batch, s.index, sender, p, loaded, processed);
        }
        ScanNeverPanics(block, before, order, sent, p, loaded, processed, s');
      } else if d.Panic? {
        var sender := block[s.index].sender;
        assert Numbered(block, sender, NextOf(before)(sender), Filter(order, By(block, sender)));
        ZeroIsFirst(block, before, s.nonces, order, sent + s.batch, s.index, sender);
      }
    }
  }

  /** If some order suits the block, no scan ever panics. */
  lemma NeverPanics(block: seq<Tx>, before: map<nat, U64>, order: seq<nat>, st: State, p: Pointer)
    requires Dispatchable(block, NextOf(before), order) && SentInv(block, before, st)
    ensures !PanicsAt(block, st, p)
  {
    assert st.sent + [] == st.sent;
    forall x | x in st.sent && x < |block| && ClassOf(block[x]) == p ensures x < st.index.Get(p) {
      assert Passed(block, st.index, x);
    }
    ScanNeverPanics(block, before, order, st.sent, p, st.loaded, st.processed, Scanned(st.index.Get(p), st.nonces, []));
  }

  // ---------------------------------------------------------------- never stuck

  /** A pointer that need not wait moves. */
  lemma MovesUnlessWaiting(block: seq<Tx>, st: State, p: Pointer)
    requires st.index.Get(p) < |block|
    requires var d := Decide(block[st.index.Get(p)], p, st.loaded, st.nonces, st.processed, |block|); d.Take? || d.Skip?
    ensures DoScan(block, st, p).index.Get(p) > st.index.Get(p)
  {
    var j := st.index.Get(p);
    var d := Decide(block[j], p, st.loaded, st.nonces, st.processed, |block|);
    if d.Take? {
      ScanFinds(block, p, st.loaded, st.processed, Scanned(j + 1, d.nonces, [] + [j]));
    }
  }

  /** A transaction with the next nonce of its sender is taken if its worker is free. */
  lemma TakesNext(tx: Tx, loaded: Per<bool>, nonces: map<nat, U64>, processed: nat, size: nat)
    requires tx.User? && Free(loaded, ClassOf(tx)) && tx.nonce == NextNonce(nonces, tx.sender)
    ensures Decide(tx, ClassOf(tx), loaded, nonces, processed, size).Take?
  {
  }

  lemma EarlierInClass(block: seq<Tx>, order: seq<nat>, k: nat, j: nat) returns (k': nat)
    requires Permutation(order, |block|) && InBlockOrder(block, order) && k < |order|
    requires j < order[k] && ClassOf(block[j]) == ClassOf(block[order[k]])
    ensures k' < k && order[k'] == j
  {
    k' := PositionOf(order, j);
  }

  /** What comes before a transaction in its class has been sent, so its pointer is not past it
      and need not wait before it. */
  lemma PointerGetsThere(block: seq<Tx>, next: nat -> nat, order: seq<nat>, st: State, k: nat)
    requires Dispatchable(block, next, order) && k < |order|
    requires SentIsPassed(block, st.index, st.sent)
    requires order[k] !in st.sent && forall j :: 0 <= j < k ==> order[j] in st.sent
    ensures var i := order[k]; var p := ClassOf(block[i]);
            && st.index.Get(p) <= i
            && (st.index.Get(p) < i ==> block[st.index.Get(p)].User? && ClassOf(block[st.index.Get(p)]) != p)
  {
    var i := order[k];
    var p := ClassOf(block[i]);
    var j := st.index.Get(p);
    assert !Passed(block, st.index, i);
    if j < i {
      if ClassOf(block[j]) == p {
        var k' := EarlierInClass(block, order, k, j);
        assert false;
      }
      assert !IsCheckpoint(block, j);
    }
  }

  /** With every worker idle, the pointer of the first transaction not sent need not wait. */
  lemma NeedNotWait(block: seq<Tx>, before: map<nat, U64>, order: seq<nat>, st: State, k: nat)
    requires Dispatchable(block, NextOf(before), order) && SentInv(block, before, st)
    requires st.processed == |st.sent| < |block| && !st.loaded.aptos && !st.loaded.ethereum && !st.loaded.cross
    requires k < |order| && order[k] !in st.sent && forall j :: 0 <= j < k ==> order[j] in st.sent
    ensures var p := ClassOf(block[order[k]]);
            && st.index.Get(p) < |block|
            && var d := Decide(block[st.index.Get(p)], p, st.loaded, st.nonces, st.processed, |block|);
               d.Take? || d.Skip?
  {
    var i := order[k];
    PointerGetsThere(block, NextOf(before), order, st, k);
    if st.index.Get(ClassOf(block[i])) == i {
      if block[i].User? {
        var sender := block[i].sender;
        assert InNonceOrder(block, before, st.nonces, st.sent, sender);
        assert Numbered(block, sender, NextOf(before)(sender), Filter(order, By(block, sender)));
        FirstUnsentIsNext(block, before, st, order, k, sender);
        TakesNext(block[i], st.loaded, st.nonces, st.processed, |block|);
      } else {
        assert k + 1 == |block|;
        AllButLast(order, st.sent);
      }
    }
  }

  lemma AllButLast(order: seq<nat>, sent: seq<nat>)
    requires Permutation(order, |order|) && |sent| < |order| && forall j :: 0 <= j < |order| - 1 ==> order[j] in sent
    ensures |sent| == |order| - 1
  {
    var init := order[..|order| - 1];
    assert Elements(init) <= Elements(sent);
    ElementsSize(init);
    ElementsSize(sent);
    SubsetSize(Elements(init), Elements(sent));
  }

  lemma PointerMoves(block: seq<Tx>, before: map<nat, U64>, order: seq<nat>, st: State) returns (p: Pointer)
    requires Dispatchable(block, NextOf(before), order)
    requires SentInv(block, before, st) && st.processed < |block|
    requires !st.loaded.aptos && !st.loaded.ethereum && !st.loaded.cross
    ensures Effective(block, st, Scan(p))
  {
    NothingOut(block, st);
    var k := FirstUnsent(order, st.sent);
    p := ClassOf(block[order[k]]);
    NeedNotWait(block, before, order, st, k);
    MovesUnlessWaiting(block, st, p);
    NeverPanics(block, before, order, st, p);
  }

  /** As long as a block that some order suits is not finished, some step has an effect. */
  lemma NeverStuck(block: seq<Tx>, before: map<nat, U64>, bound: nat, order: seq<nat>, st: State) returns (step: Step)
    requires AllFinish(block, bound) && Dispatchable(block, NextOf(before), order)
    requires SentInv(block, before, st) && st.processed < |block|
    ensures Effective(block, st, step)
  {
    if p: Pointer :| st.loaded.Get(p) {
      step := BusyWorkerActs(block, bound, st, p);
    } else {
      assert !st.loaded.Get(Aptos) && !st.loaded.Get(Ethereum) && !st.loaded.Get(Cross);
      var p := PointerMoves(block, before, order, st);
      step := Scan(p);
    }
  }

  lemma BusyWorkerActs(block: seq<Tx>, bound: nat, st: State, p: Pointer) returns (step: Step)
    requires AllFinish(block, bound) && Exclusive(block, st) && st.loaded.Get(p)
    ensures Effective(block, st, step)
  {
    assert Slot(st, p) && Shaped(block, st, p);
    if st.queues.Get(p) != [] {
      step := Fetch(p);
    } else if st.running.Get(p).Some? {
      var r := st.running.Get(p).value;
      if r.pos < |r.batch| {
        assert Finishes(block[r.batch[r.pos]].program, bound);
        step := Act(p);
      } else {
        step := Answer(p);
      }
    } else {
      step := Collect(p);
    }
  }

  // ---------------------------------------------------------------- whole schedules

  lemma {:induction false} WorkRunsOut(
    block: seq<Tx>, base: BaseView, bound: nat, states: seq<State>, steps: seq<Step>, n: nat)
    requires AllFinish(block, bound) && Schedule(block, base, states, steps) && n < |states|
    requires forall i :: 0 <= i < |steps| ==> Effective(block, states[i], steps[i])
    requires Exclusive(block, states[0]) && Bounded(block, states[0], bound)
    ensures Exclusive(block, states[n]) && Bounded(block, states[n], bound)
    ensures Work(block, states[n], bound) <= Work(block, states[0], bound) - n
  {
    if n > 0 {
      WorkRunsOut(block, base, bound, states, steps, n - 1);
      assert Effective(block, states[n - 1], steps[n - 1]);
      StepKeepsExclusive(block, base, states[n - 1], steps[n - 1]);
      StepIsLess(block, base, bound, states[n - 1], steps[n - 1]);
    }
  }

  lemma InitialWork(block: seq<Tx>, before: map<nat, U64>, bound: nat)
    ensures Exclusive(block, Initial(before)) && Bounded(block, Initial(before), bound)
    ensures Work(block, Initial(before), bound) == Price(3 * |block|, bound)
  {
    var st := Initial(before);
    forall p: Pointer ensures Slot(st, p) && Shaped(block, st, p) && ReadsBounded(st, p, bound) {
    }
    assert WorkOf(st, Aptos, bound) == WorkOf(st, Ethereum, bound) == WorkOf(st, Cross, bound) == 0;
  }

  /** No schedule goes on for ever: each step with an effect uses up work, of which a block of `n`
      transactions has no more than `3 * n * (bound + 5)`. */
  lemma SchedulesAreFinite(
    block: seq<Tx>, base: BaseView, before: map<nat, U64>, bound: nat, states: seq<State>, steps: seq<Step>)
    requires AllFinish(block, bound) && Schedule(block, base, states, steps) && states[0] == Initial(before)
    requires forall i :: 0 <= i < |steps| ==> Effective(block, states[i], steps[i])
    ensures |steps| <= 3 * |block| * (bound + 5)
  {
    InitialWork(block, before, bound);
    WorkRunsOut(block, base, bound, states, steps, |steps|);
    WorkIsNatural(block, states[|steps|], bound);
    PriceIs(3 * |block|, bound);
  }

  /** No step has an effect any more. */
  ghost predicate Stuck(block: seq<Tx>, st: State) {
    forall step: Step :: !Effective(block, st, step)
  }

  /** A schedule that goes on until no step has an effect. */
  ghost predicate StoppedRun(
    block: seq<Tx>, base: BaseView, before: map<nat, U64>, states: seq<State>, steps: seq<Step>)
  {
    Schedule(block, base, states, steps) && states[0] == Initial(before) && Stuck(block, states[|steps|])
  }

  lemma StopsOnlyWhenFinished(
    block: seq<Tx>, base: BaseView, before: map<nat, U64>, bound: nat, order: seq<nat>,
    states: seq<State>, steps: seq<Step>)
    requires AllFinish(block, bound) && Dispatchable(block, NextOf(before), order)
    requires StoppedRun(block, base, before, states, steps)
    ensures FinishedRun(block, base, before, states, steps)
  {
    var st := states[|steps|];
    RunKeepsSentInv(block, base, before, states, steps, |steps|);
    SentIsDistinct(block, st.sent);
    DistinctFits(st.sent, |block|);
    if st.processed < |block| {
      var step := NeverStuck(block, before, bound, order, st);
    }
  }

  /** Any schedule can be continued until it stops. */
  lemma {:induction false} GoesOnUntilStuck(
    block: seq<Tx>, base: BaseView, before: map<nat, U64>, bound: nat, states: seq<State>, steps: seq<Step>)
    returns (states': seq<State>, steps': seq<Step>)
    requires AllFinish(block, bound) && Schedule(block, base, states, steps) && states[0] == Initial(before)
    requires Exclusive(block, states[|steps|]) && Bounded(block, states[|steps|], bound)
    ensures StoppedRun(block, base, before, states', steps')
    decreases Work(block, states[|steps|], bound)
  {
    var st := states[|steps|];
    if step :| Effective(block, st, step) {
      StepKeepsExclusive(block, base, st, step);
      StepIsLess(block, base, bound, st, step);
      WorkIsNatural(block, Do(block, base, st, step), bound);
      ScheduleGoesOn(block, base, states, steps, step);
      states', steps' := GoesOnUntilStuck(
        block, base, before, bound, states + [Do(block, base, st, step)], steps + [step]);
    } else {
      states', steps' := states, steps;
    }
  }

  lemma SomeScheduleStops(block: seq<Tx>, base: BaseView, before: map<nat, U64>, bound: nat)
    returns (states: seq<State>, steps: seq<Step>)
    requires AllFinish(block, bound)
    ensures StoppedRun(block, base, before, states, steps)
  {
    InitialWork(block, before, bound);
    states, steps := GoesOnUntilStuck(block, base, before, bound, [Initial(before)], []);
  }

  /** The order in which a finished run has sent the block suits it. */
  lemma FinishedIsDispatchable(
    block: seq<Tx>, base: BaseView, before: map<nat, U64>, states: seq<State>, steps: seq<Step>)
    requires FinishedRun(block, base, before, states, steps)
    ensures Dispatchable(block, NextOf(before), states[|steps|].sent)
  {
    FinishedRunSendsAll(block, base, before, states, steps);
    var st := states[|steps|];
    forall sender: nat ensures Numbered(block, sender, NextOf(before)(sender), Filter(st.sent, By(block, sender))) {
      assert InNonceOrder(block, before, st.nonces, st.sent, sender);
    }
  }

  /** No scan panics here, and if no step has an effect, the block is finished. */
  ghost predicate GoesWell(block: seq<Tx>, st: State) {
    (forall p: Pointer :: !PanicsAt(block, st, p)) && (Stuck(block, st) ==> st.processed == |block|)
  }

  ghost predicate StartedRun(
    block: seq<Tx>, base: BaseView, before: map<nat, U64>, states: seq<State>, steps: seq<Step>)
  {
    Schedule(block, base, states, steps) && states[0] == Initial(before)
  }

  ghost predicate EveryScheduleFinishes(block: seq<Tx>, base: BaseView, before: map<nat, U64>) {
    forall states: seq<State>, steps: seq<Step> ::
      StartedRun(block, base, before, states, steps) ==> GoesWell(block, states[|steps|])
  }

  ghost predicate SomeScheduleFinishes(block: seq<Tx>, base: BaseView, before: map<nat, U64>) {
    exists states: seq<State>, steps: seq<Step> :: FinishedRun(block, base, before, states, steps)
  }

  lemma SuitedGoesWell(
    block: seq<Tx>, base: BaseView, before: map<nat, U64>, bound: nat, order: seq<nat>,
    states: seq<State>, steps: seq<Step>)
    requires AllFinish(block, bound) && Dispatchable(block, NextOf(before), order)
    requires StartedRun(block, base, before, states, steps)
    ensures GoesWell(block, states[|steps|])
  {
    RunKeepsSentInv(block, base, before, states, steps, |steps|);
    forall p: Pointer ensures !PanicsAt(block, states[|steps|], p) {
      NeverPanics(block, before, order, states[|steps|], p);
    }
    if Stuck(block, states[|steps|]) {
      StopsOnlyWhenFinished(block, base, before, bound, order, states, steps);
    }
  }

  /** No schedule panics, and every one that stops has finished the block, if and only if some order
      of sending suits the block; and if some schedule finishes it, all do. */
  lemma FinishesExactlyIf(block: seq<Tx>, base: BaseView, before: map<nat, U64>, bound: nat)
    requires AllFinish(block, bound)
    ensures EveryScheduleFinishes(block, base, before) <==> exists order :: Dispatchable(block, NextOf(before), order)
    ensures EveryScheduleFinishes(block, base, before) <==> SomeScheduleFinishes(block, base, before)
  {
    if order :| Dispatchable(block, NextOf(before), order) {
      forall states, steps | StartedRun(block, base, before, states, steps) ensures GoesWell(block, states[|steps|]) {
        SuitedGoesWell(block, base, before, bound, order, states, steps);
      }
    }
    if EveryScheduleFinishes(block, base, before) {
      var states, steps := SomeScheduleStops(block, base, before, bound);
      assert StartedRun(block, base, before, states, steps) && FinishedRun(block, base, before, states, steps);
    }
    if states, steps :| FinishedRun(block, base, before, states, steps) {
      FinishedIsDispatchable(block, base, before, states, steps);
    }
  }

  /** A gap in the nonces of a sender does get the dispatcher stuck. */
  lemma GapGetsStuck(base: BaseView, program: Program) returns (block: seq<Tx>, states: seq<State>, steps: seq<Step>)
    ensures Schedule(block, base, states, steps) && states[0] == Initial(map[])
    ensures var st := states[|steps|]; st.processed < |block| && Stuck(block, st)
  {
    block := [User(AptosTx, 0, 1, program)];
    var s0 := Initial(map[]);
    var s1 := s0.(index := Per(0, 1, 0));
    var s2 := s0.(index := Per(0, 1, 1));
    states, steps := [s0, s1, s2], [Scan(Ethereum), Scan(Cross)];
    assert s1 == Do(block, base, s0, Scan(Ethereum)) && s2 == Do(block, base, s1, Scan(Cross));
    assert DoScan(block, s2, Aptos) == s2 && DoScan(block, s2, Ethereum) == s2 && DoScan(block, s2, Cross) == s2;
    forall step: Step ensures !Effective(block, s2, step) {
      match step.p case Aptos => case Ethereum => case Cross =>
    }
  }

  /** An account that has used its largest nonce makes the first scan panic when it starts over. */
  lemma LargestNoncePanics(base: BaseView, program: Program) returns (block: seq<Tx>, before: map<nat, U64>)
    ensures block == [User(AptosTx, 0, 0, program)] && before == map[0 := MAX_U64]
    ensures PanicsAt(block, Initial(before), Aptos) && !EveryScheduleFinishes(block, base, before)
  {
    block, before := [User(AptosTx, 0, 0, program)], map[0 := MAX_U64];
    assert PanicsAt(block, Initial(before), Aptos);
    var steps: seq<Step> := [];
    assert StartedRun(block, base, before, [Initial(before)], steps);
    assert !GoesWell(block, [Initial(before)][|steps|]);
  }
}
