/** What the loop of the dispatcher, as it is coded, does between two scans: the pointers take turns,
    and a turn takes one answer at most, the oldest one waiting. */
module DispatcherPolls {
  import opened Dispatcher
  import opened DispatcherLoop

  /** The workers in the order in which they have answered, and in which their answers were taken. */
  function Answers(steps: seq<Step>, n: nat): seq<Pointer>
    requires n <= |steps|
  {
    if n == 0 then [] else Answers(steps, n - 1) + if steps[n - 1].Answer? then [steps[n - 1].p] else []
  }

  function Taken(steps: seq<Step>, n: nat): seq<Pointer>
    requires n <= |steps|
  {
    if n == 0 then [] else Taken(steps, n - 1) + if steps[n - 1].Collect? then [steps[n - 1].p] else []
  }

  /** Answers are taken in the order in which they were given; the rest is waiting. */
  lemma {:induction false} TakenInOrder(states: seq<State>, steps: seq<Step>, n: nat)
    requires n <= |steps| < |states| && LoopAt(states, steps, n).Some?
    ensures Taken(steps, n) + LoopAt(states, steps, n).value.channel == Answers(steps, n)
  {
    if n > 0 {
      TakenInOrder(states, steps, n - 1);
      var l := LoopAt(states, steps, n - 1).value;
      if steps[n - 1].Collect? {
        assert l.channel == [l.channel[0]] + l.channel[1..];
      }
    }
  }

  lemma {:induction false} LoopWasAt(states: seq<State>, steps: seq<Step>, m: nat, n: nat)
    requires m <= n <= |steps| < |states| && LoopAt(states, steps, n).Some?
    ensures LoopAt(states, steps, m).Some?
  {
    if m < n {
      LoopWasAt(states, steps, m, n - 1);
    }
  }

  predicate NoScanIn(steps: seq<Step>, m: nat, n: nat) {
    forall k :: m <= k < n && k < |steps| ==> !steps[k].Scan?
  }

  function TakenIn(steps: seq<Step>, m: nat, n: nat): int
    requires m <= |steps| && n <= |steps|
  {
    |Taken(steps, n)| - |Taken(steps, m)|
  }

  /** After a scan the poll stays as it is until an answer is taken, and is then closed. */
  lemma {:induction false} TurnGoesOn(states: seq<State>, steps: seq<Step>, i: nat, k: nat)
    requires i < k <= |steps| < |states| && steps[i].Scan? && NoScanIn(steps, i + 1, k)
    requires LoopAt(states, steps, k).Some?
    ensures LoopAt(states, steps, i + 1).Some? && LoopAt(states, steps, k).value.at == steps[i].p
    ensures 0 <= TakenIn(steps, i, k) <= 1
    ensures var first, poll := LoopAt(states, steps, i + 1).value.poll, LoopAt(states, steps, k).value.poll;
            if TakenIn(steps, i, k) == 0 then poll == first else first.Open? && poll.Closed?
  {
    LoopWasAt(states, steps, i + 1, k);
    if k > i + 1 {
      TurnGoesOn(states, steps, i, k - 1);
      assert !steps[k - 1].Scan?;
    }
  }

  /** The pointers take turns. In the turn of a pointer whose worker is busy after the scan, one answer
      at most is taken, and exactly one if any was waiting; in another turn none is. */
  lemma OneAnswerPerTurn(states: seq<State>, steps: seq<Step>, i: nat, j: nat)
    requires AsCoded(states, steps) && i < j < |steps| && steps[i].Scan? && steps[j].Scan?
    requires NoScanIn(steps, i + 1, j)
    ensures steps[j].p == match steps[i].p case Aptos => Ethereum case Ethereum => Cross case Cross => Aptos
    ensures 0 <= TakenIn(steps, i, j) <= 1
    ensures var busy := states[i + 1].loaded.Get(steps[i].p);
            && (!busy ==> TakenIn(steps, i, j) == 0)
            && (busy && Taken(steps, i) != Answers(steps, i) ==> TakenIn(steps, i, j) == 1)
  {
    LoopWasAt(states, steps, i, |steps|);
    LoopWasAt(states, steps, j, |steps|);
    LoopWasAt(states, steps, j + 1, |steps|);
    TurnGoesOn(states, steps, i, j);
    TakenInOrder(states, steps, i);
    assert Taken(steps, i) + [] == Taken(steps, i);
  }

  lemma {:induction false} NothingBeforeScan(states: seq<State>, steps: seq<Step>, n: nat)
    requires n <= |steps| < |states| && NoScanIn(steps, 0, n) && LoopAt(states, steps, n).Some?
    ensures var l := LoopAt(states, steps, n).value; l.at == Cross && l.poll == Closed
    ensures Taken(steps, n) == []
  {
    if n > 0 {
      NothingBeforeScan(states, steps, n - 1);
      assert !steps[n - 1].Scan?;
    }
  }

  /** The first turn is that of the Aptos pointer, and nothing is taken before it. */
  lemma FirstTurn(states: seq<State>, steps: seq<Step>, i: nat)
    requires AsCoded(states, steps) && i < |steps| && steps[i].Scan? && NoScanIn(steps, 0, i)
    ensures steps[i].p == Aptos && Taken(steps, i) == []
  {
    LoopWasAt(states, steps, i, |steps|);
    LoopWasAt(states, steps, i + 1, |steps|);
    NothingBeforeScan(states, steps, i);
  }
}
