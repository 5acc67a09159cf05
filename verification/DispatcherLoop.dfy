/** The loop of the dispatcher as it is coded: the pointers take turns, and after its scan a pointer
    whose worker is busy polls, once, the channel on which all workers answer. */
module DispatcherLoop {
  import opened Options
  import opened TransactionPrograms
  import opened Dispatcher
  import opened DispatcherInvariant
  import opened DispatcherRuns
  import opened DispatcherAnswers
  import opened DispatcherProgress

  /** Whether the channel is polled before the next scan; an answer that is waiting is then taken. */
  datatype Poll = Closed | Open(due: bool)

  /** The pointer that scanned last, and the workers whose answers wait, the oldest first. */
  datatype Loop = Loop(at: Pointer, poll: Poll, channel: seq<Pointer>)

  const START := Loop(Cross, Closed, [])

  function After(p: Pointer): Pointer {
    match p case Aptos => Ethereum case Ethereum => Cross case Cross => Aptos
  }

  /** Where the loop is after a step that ends in `st`; nothing if the loop does not take it. */
  function Advance(l: Loop, step: Step, st: State): Option<Loop> {
    match step
    case Scan(p) =>
      if p != After(l.at) || (l.poll.Open? && l.poll.due) then None
      else Some(Loop(p, if st.loaded.Get(p) then Open(l.channel != []) else Closed, l.channel))
    case Collect(p) =>
      if l.poll.Closed? || l.channel == [] || l.channel[0] != p then None
      else Some(Loop(l.at, Closed, l.channel[1..]))
    case Answer(p) => Some(l.(channel := l.channel + [p]))
    case _ => Some(l)
  }

  function LoopAt(states: seq<State>, steps: seq<Step>, n: nat): Option<Loop>
    requires n <= |steps| < |states|
  {
    if n == 0 then Some(START)
    else match LoopAt(states, steps, n - 1)
      case None => None
      case Some(l) => Advance(l, steps[n - 1], states[n])
  }

  /** The dispatcher's steps in this schedule are those of its loop. */
  predicate AsCoded(states: seq<State>, steps: seq<Step>) {
    |steps| < |states| && LoopAt(states, steps, |steps|).Some?
  }

  // ---------------------------------------------------------------- reaching states

  ghost predicate Reached(
    block: seq<Tx>, base: BaseView, before: map<nat, U64>, coded: bool,
    states: seq<State>, steps: seq<Step>, st: State, l: Loop)
  {
    && Schedule(block, base, states, steps)
    && states[0] == Initial(before)
    && states[|steps|] == st
    && (coded ==> LoopAt(states, steps, |steps|) == Some(l))
  }

  /** Some schedule leads here; if `coded`, one of the loop as coded, and else any, with `l` idle. */
  ghost predicate CanReach(block: seq<Tx>, base: BaseView, before: map<nat, U64>, coded: bool, st: State, l: Loop) {
    exists states: seq<State>, steps: seq<Step> :: Reached(block, base, before, coded, states, steps, st, l)
  }

  lemma {:induction false} LoopAtPrefix(states: seq<State>, steps: seq<Step>, st: State, step: Step, n: nat)
    requires n <= |steps| < |states|
    ensures LoopAt(states + [st], steps + [step], n) == LoopAt(states, steps, n)
  {
    if n > 0 {
      LoopAtPrefix(states, steps, st, step, n - 1);
    }
  }

  lemma Go(block: seq<Tx>, base: BaseView, before: map<nat, U64>, coded: bool, st: State, l: Loop, step: Step, l': Loop)
    requires CanReach(block, base, before, coded, st, l) && Enabled(block, st, step)
    requires coded ==> Advance(l, step, Do(block, base, st, step)) == Some(l')
    ensures CanReach(block, base, before, coded, Do(block, base, st, step), l')
  {
    var states, steps :| Reached(block, base, before, coded, states, steps, st, l);
    var st' := Do(block, base, st, step);
    ScheduleGoesOn(block, base, states, steps, step);
    LoopAtPrefix(states, steps, st', step, |steps|);
    assert Reached(block, base, before, coded, states + [st'], steps + [step], st', l');
  }

  lemma Begin(block: seq<Tx>, base: BaseView, before: map<nat, U64>, coded: bool)
    ensures CanReach(block, base, before, coded, Initial(before), START)
  {
    assert Reached(block, base, before, coded, [Initial(before)], [], Initial(before), START);
  }

  lemma ReachedInv(block: seq<Tx>, base: BaseView, before: map<nat, U64>, coded: bool, st: State, l: Loop)
    requires CanReach(block, base, before, coded, st, l)
    ensures SentInv(block, before, st)
  {
    var states, steps :| Reached(block, base, before, coded, states, steps, st, l);
    RunKeepsSentInv(block, base, before, states, steps, |steps|);
  }

  // ---------------------------------------------------------------- a worker serves its batch

  /** Only what the worker `p` executes differs. */
  ghost predicate OnlyRunning(st: State, st': State, p: Pointer) {
    && st'.index == st.index && st'.loaded == st.loaded && st'.nonces == st.nonces
    && st'.ret == st.ret && st'.processed == st.processed && st'.answered == st.answered && st'.sent == st.sent
    && st'.queues == st.queues && st'.replies == st.replies
    && st'.running.Get(p).Some? && st.running.Get(p).Some? &&
       st'.running.Get(p).value.batch == st.running.Get(p).value.batch
    && forall q: Pointer :: q != p ==> st'.running.Get(q) == st.running.Get(q)
  }

  lemma ActsOnlyRunning(block: seq<Tx>, base: BaseView, st: State, p: Pointer)
    requires Enabled(block, st, Act(p))
    ensures OnlyRunning(st, DoAct(block, base, st, p), p)
  {
    forall q: Pointer | q != p ensures DoAct(block, base, st, p).running.Get(q) == st.running.Get(q) {
    }
  }

  /** The worker executes its batch to the end. */
  lemma {:induction false} WorkerExecutes(
    block: seq<Tx>, base: BaseView, before: map<nat, U64>, coded: bool, bound: nat, st: State, l: Loop, p: Pointer)
    returns (st': State)
    requires CanReach(block, base, before, coded, st, l) && AllFinish(block, bound)
    requires st.running.Get(p).Some? && ReadsBounded(st, p, bound)
    ensures CanReach(block, base, before, coded, st', l) && OnlyRunning(st, st', p)
    ensures st'.running.Get(p).value.pos == |st.running.Get(p).value.batch|
    decreases if st.running.Get(p).Some? then WorkIn(st.running.Get(p).value, bound) else 0
  {
    ReachedInv(block, base, before, coded, st, l);
    var r := st.running.Get(p).value;
    assert Slot(st, p) && Shaped(block, st, p);
    st' := st;
    if r.pos < |r.batch| {
      assert Finishes(block[r.batch[r.pos]].program, bound);
      var next := DoAct(block, base, st, p);
      Go(block, base, before, coded, st, l, Act(p), l);
      ActMeasured(block, base, st, p, bound);
      ActsOnlyRunning(block, base, st, p);
      ReachedInv(block, base, before, coded, next, l);
      assert Slot(next, p) && Shaped(block, next, p);
      st' := WorkerExecutes(block, base, before, coded, bound, next, l, p);
    }
  }

  /** Of two states, the second is after the answer to the batch of `p`. */
  ghost predicate Served(st: State, st': State, p: Pointer) {
    && st'.index == st.index && st'.nonces == st.nonces && st'.sent == st.sent
    && st'.loaded == st.loaded.Set(p, false)
    && st'.answered == st.answered + Held(st, p)
    && st'.processed == st.processed + |Held(st, p)|
    && forall q: Pointer :: q != p ==>
         st'.queues.Get(q) == st.queues.Get(q) && st'.running.Get(q) == st.running.Get(q) &&
           st'.replies.Get(q) == st.replies.Get(q)
  }

  lemma OthersServed(st: State, s2: State, p: Pointer, q: Pointer)
    requires st.queues.Get(p) != [] && OnlyRunning(DoFetch(st, p), s2, p) && q != p
    ensures var st' := DoCollect(DoAnswer(s2, p), p);
            st'.queues.Get(q) == st.queues.Get(q) && st'.running.Get(q) == st.running.Get(q) &&
              st'.replies.Get(q) == st.replies.Get(q)
  {
    assert s2.running.Get(q) == DoFetch(st, p).running.Get(q);
  }

  lemma AnswerServes(block: seq<Tx>, st: State, s2: State, p: Pointer)
    requires Exclusive(block, st) && Exclusive(block, s2) && st.queues.Get(p) != []
    requires OnlyRunning(DoFetch(st, p), s2, p)
    requires s2.running.Get(p).value.pos == |s2.running.Get(p).value.batch|
    ensures Enabled(block, s2, Answer(p)) && Enabled(block, DoAnswer(s2, p), Collect(p))
    ensures Served(st, DoCollect(DoAnswer(s2, p), p), p)
  {
    assert Slot(st, p) && Slot(s2, p) && Shaped(block, s2, p);
    assert st.replies.Get(p) == [];
    forall q: Pointer | q != p
      ensures var st' := DoCollect(DoAnswer(s2, p), p);
              st'.queues.Get(q) == st.queues.Get(q) && st'.running.Get(q) == st.running.Get(q) &&
                st'.replies.Get(q) == st.replies.Get(q)
    {
      OthersServed(st, s2, p, q);
    }
  }

  /** The worker takes the batch sent to it, and executes it. */
  lemma WorkerTakes(
    block: seq<Tx>, base: BaseView, before: map<nat, U64>, coded: bool, bound: nat, st: State, l: Loop, p: Pointer)
    returns (st': State)
    requires CanReach(block, base, before, coded, st, l) && AllFinish(block, bound) && st.queues.Get(p) != []
    ensures CanReach(block, base, before, coded, st', l) && OnlyRunning(DoFetch(st, p), st', p)
    ensures st'.running.Get(p).value.pos == |st'.running.Get(p).value.batch|
  {
    ReachedInv(block, base, before, coded, st, l);
    assert Slot(st, p);
    Go(block, base, before, coded, st, l, Fetch(p), l);
    st' := WorkerExecutes(block, base, before, coded, bound, DoFetch(st, p), l, p);
  }

  lemma AnswerAndPoll(
    block: seq<Tx>, base: BaseView, before: map<nat, U64>, coded: bool, st: State, l: Loop, p: Pointer)
    requires CanReach(block, base, before, coded, st, l) && l.poll.Open? && l.channel == []
    requires Enabled(block, st, Answer(p)) && Enabled(block, DoAnswer(st, p), Collect(p))
    ensures CanReach(block, base, before, coded, DoCollect(DoAnswer(st, p), p), l.(poll := Closed))
  {
    assert l.channel + [p] == [p] && [p][1..] == [];
    Go(block, base, before, coded, st, l, Answer(p), l.(channel := [p]));
    Go(block, base, before, coded, DoAnswer(st, p), l.(channel := [p]), Collect(p), l.(poll := Closed));
  }

  /** The worker takes the batch sent to it, executes it and answers, and the answer is collected. */
  lemma WorkerServes(
    block: seq<Tx>, base: BaseView, before: map<nat, U64>, coded: bool, bound: nat, st: State, l: Loop, p: Pointer)
    returns (st': State)
    requires CanReach(block, base, before, coded, st, l) && AllFinish(block, bound)
    requires st.queues.Get(p) != [] && l.poll.Open? && l.channel == []
    ensures CanReach(block, base, before, coded, st', l.(poll := Closed)) && Served(st, st', p)
  {
    var s2 := WorkerTakes(block, base, before, coded, bound, st, l, p);
    ReachedInv(block, base, before, coded, st, l);
    ReachedInv(block, base, before, coded, s2, l);
    AnswerServes(block, st, s2, p);
    AnswerAndPoll(block, base, before, coded, s2, l, p);
    st' := DoCollect(DoAnswer(s2, p), p);
  }
}
