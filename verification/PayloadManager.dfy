/** Getting the transactions of a block whose payload is a list of proofs of stored batches: the
    batches are requested once, awaited, and then cached. */
module PayloadManager {
  import opened Options

  datatype LogicalTime = LogicalTime(epoch: nat, round: nat) {
    predicate AtMost(other: LogicalTime) {
      epoch < other.epoch || (epoch == other.epoch && round <= other.round)
    }
  }

  datatype ProofOfStore = ProofOfStore(digest: nat, expiration: LogicalTime)

  type Transaction = nat

  /** A digest determines its batch. */
  type Batches = nat -> seq<Transaction>

  /** What comes out of a receiver: the batch, an error, or nothing because the sender is gone. */
  datatype Answer = Delivered | Failed(error: nat) | Lost

  datatype DataStatus = Requested(digests: seq<nat>) | Cached(data: seq<Transaction>)

  datatype Result = Ok(txns: seq<Transaction>) | DataNotFound(digest: nat) | Err(error: nat)

  // ---------------------------------------------------------------- the meaning of a payload

  /** A later epoch, or a later round of the epoch, has begun. */
  predicate Expired(p: ProofOfStore, time: LogicalTime) {
    time.epoch > p.expiration.epoch || (time.epoch == p.expiration.epoch && time.round > p.expiration.round)
  }

  /** The batches of the proofs that have not expired at the block's time, in order. */
  function Contents(proofs: seq<ProofOfStore>, time: LogicalTime, batches: Batches): seq<Transaction> {
    if proofs == [] then []
    else
      (if Expired(proofs[0], time) then [] else batches(proofs[0].digest))
      + Contents(proofs[1..], time, batches)
  }

  function Unexpired(proofs: seq<ProofOfStore>, time: LogicalTime): seq<nat> {
    if proofs == [] then []
    else (if time.AtMost(proofs[0].expiration) then [proofs[0].digest] else []) + Unexpired(proofs[1..], time)
  }

  function Flatten(digests: seq<nat>, batches: Batches): seq<Transaction> {
    if digests == [] then [] else batches(digests[0]) + Flatten(digests[1..], batches)
  }

  lemma {:induction false} FlattenUnexpired(proofs: seq<ProofOfStore>, time: LogicalTime, batches: Batches)
    ensures Flatten(Unexpired(proofs, time), batches) == Contents(proofs, time, batches)
  {
    if proofs != [] {
      FlattenUnexpired(proofs[1..], time, batches);
      var rest := Unexpired(proofs[1..], time);
      if time.AtMost(proofs[0].expiration) {
        assert ([proofs[0].digest] + rest)[1..] == rest;
      } else {
        assert [] + rest == rest && [] + Contents(proofs[1..], time, batches) == Contents(proofs[1..], time, batches);
      }
    }
  }

  lemma {:induction false} FlattenLast(digests: seq<nat>, d: nat, batches: Batches)
    ensures Flatten(digests + [d], batches) == Flatten(digests, batches) + batches(d)
  {
    if digests == [] {
      assert [d][1..] == [] && [] + [d] == [d];
      assert batches(d) + [] == [] + batches(d);
    } else {
      FlattenLast(digests[1..], d, batches);
      assert (digests + [d])[1..] == digests[1..] + [d];
      assert batches(digests[0]) + (Flatten(digests[1..], batches) + batches(d))
          == (batches(digests[0]) + Flatten(digests[1..], batches)) + batches(d);
    }
  }

  lemma {:induction false} UnexpiredLast(proofs: seq<ProofOfStore>, p: ProofOfStore, time: LogicalTime)
    ensures Unexpired(proofs + [p], time) == Unexpired(proofs, time)
            + (if time.AtMost(p.expiration) then [p.digest] else [])
  {
    if proofs == [] {
      assert [] + [p] == [p] && [p][1..] == [];
    } else {
      UnexpiredLast(proofs[1..], p, time);
      assert (proofs + [p])[1..] == proofs[1..] + [p];
    }
  }

  /** Awaiting the receivers in order: all the batches, or the first failure. */
  function Await(digests: seq<nat>, answers: seq<Answer>, batches: Batches): Result
    requires |answers| == |digests|
  {
    if digests == [] then Ok([])
    else
      var n := |digests| - 1;
      match Await(digests[..n], answers[..n], batches)
      case Ok(txns) =>
        (match answers[n]
         case Delivered => Ok(txns + batches(digests[n]))
         case Failed(e) => Err(e)
         case Lost => DataNotFound(digests[n]))
      case failure => failure
  }

  /** Nothing but all batches in order is ever returned as a success. */
  lemma {:induction false} AwaitAll(digests: seq<nat>, answers: seq<Answer>, batches: Batches)
    requires |answers| == |digests|
    ensures Await(digests, answers, batches).Ok? <==> forall i :: 0 <= i < |answers| ==> answers[i] == Delivered
    ensures Await(digests, answers, batches).Ok? ==> Await(digests, answers, batches).txns == Flatten(digests, batches)
  {
    if digests != [] {
      var n := |digests| - 1;
      AwaitAll(digests[..n], answers[..n], batches);
      FlattenLast(digests[..n], digests[n], batches);
      assert digests == digests[..n] + [digests[n]] && answers == answers[..n] + [answers[n]];
    }
  }

  /** A failure is that of the first batch that does not arrive. */
  lemma {:induction false} AwaitFails(digests: seq<nat>, answers: seq<Answer>, batches: Batches, i: nat)
    requires |answers| == |digests| && i < |answers| && answers[i] != Delivered
    requires forall j :: 0 <= j < i ==> answers[j] == Delivered
    ensures Await(digests, answers, batches) ==
            if answers[i].Lost? then DataNotFound(digests[i]) else Err(answers[i].error)
  {
    AwaitAll(digests[..i], answers[..i], batches);
    assert digests[..i + 1][..i] == digests[..i] && answers[..i + 1][..i] == answers[..i];
    FailureStays(digests, answers, batches, i + 1);
  }

  method AwaitBatches(digests: seq<nat>, answers: seq<Answer>, batches: Batches) returns (r: Result)
    requires |answers| == |digests|
    ensures r == Await(digests, answers, batches)
  {
    var txns := [];
    for i := 0 to |digests|
      invariant Await(digests[..i], answers[..i], batches) == Ok(txns)
    {
      assert digests[..i + 1][..i] == digests[..i] && answers[..i + 1][..i] == answers[..i];
      if answers[i] != Delivered {
        r := if answers[i] == Lost then DataNotFound(digests[i]) else Err(answers[i].error);
        FailureStays(digests, answers, batches, i + 1);
        return r;
      }
      txns := txns + batches(digests[i]);
    }
    assert digests[..|digests|] == digests && answers[..|answers|] == answers;
    return Ok(txns);
  }

  lemma {:induction false} FailureStays(digests: seq<nat>, answers: seq<Answer>, batches: Batches, i: nat)
    requires |answers| == |digests| && i <= |digests| && !Await(digests[..i], answers[..i], batches).Ok?
    ensures Await(digests, answers, batches) == Await(digests[..i], answers[..i], batches)
  {
    var n := |digests| - 1;
    if i <= n {
      assert digests[..n][..i] == digests[..i] && answers[..n][..i] == answers[..i];
      FailureStays(digests[..n], answers[..n], batches, i);
    } else {
      assert digests[..i] == digests && answers[..i] == answers;
    }
  }

  // ---------------------------------------------------------------- calls in a row

  /** The proofs and the time of a block, with the batches behind the digests. */
  datatype Stored = Stored(proofs: seq<ProofOfStore>, time: LogicalTime, batches: Batches)

  datatype Call = Prefetching | Getting(answers: seq<Answer>)

  /** One answer per receiver, and no getting before a request. */
  predicate Callable(status: Option<DataStatus>, call: Call) {
    call.Getting? ==> status.Some? && (status.value.Requested? ==> |call.answers| == |status.value.digests|)
  }

  /** The status after a call, and what the call returns. */
  function Called(p: Stored, status: Option<DataStatus>, call: Call): (DataStatus, Result)
    requires Callable(status, call)
  {
    match call
    case Prefetching => (if status.Some? then status.value else Requested(Unexpired(p.proofs, p.time)), Ok([]))
    case Getting(answers) =>
      match status.value
      case Cached(data) => (Cached(data), Ok(data))
      case Requested(digests) =>
        var r := Await(digests, answers, p.batches);
        (if r.Ok? then Cached(r.txns) else Requested(Unexpired(p.proofs, p.time)), r)
  }

  /** The statuses before and after each call of a sequence. */
  ghost predicate CallRun(p: Stored, statuses: seq<Option<DataStatus>>, calls: seq<Call>) {
    && |statuses| == |calls| + 1
    && statuses[0] == None
    && forall i :: 0 <= i < |calls| ==>
         Callable(statuses[i], calls[i]) && statuses[i + 1] == Some(Called(p, statuses[i], calls[i]).0)
  }

  /** The status never is anything but the contents, cached or requested. */
  predicate StatusOk(p: Stored, status: Option<DataStatus>) {
    status.Some? ==>
      match status.value
      case Cached(data) => data == Contents(p.proofs, p.time, p.batches)
      case Requested(digests) => digests == Unexpired(p.proofs, p.time)
  }

  lemma CallKeepsStatus(p: Stored, status: Option<DataStatus>, call: Call)
    requires StatusOk(p, status) && Callable(status, call)
    ensures StatusOk(p, Some(Called(p, status, call).0))
    ensures call.Getting? && Called(p, status, call).1.Ok? ==>
              Called(p, status, call).1.txns == Contents(p.proofs, p.time, p.batches)
  {
    if call.Getting? && status.value.Requested? {
      AwaitAll(status.value.digests, call.answers, p.batches);
      FlattenUnexpired(p.proofs, p.time, p.batches);
    }
  }

  lemma {:induction false} RunKeepsStatus(p: Stored, statuses: seq<Option<DataStatus>>, calls: seq<Call>, n: nat)
    requires CallRun(p, statuses, calls) && n < |statuses|
    ensures StatusOk(p, statuses[n])
  {
    if n > 0 {
      RunKeepsStatus(p, statuses, calls, n - 1);
      CallKeepsStatus(p, statuses[n - 1], calls[n - 1]);
    }
  }

  /** Whatever failures and repeated requests come between, every success returns the contents of
      the payload, and between calls there always is a status. */
  lemma EverySuccessAgrees(p: Stored, statuses: seq<Option<DataStatus>>, calls: seq<Call>, n: nat)
    requires CallRun(p, statuses, calls) && n < |calls|
    ensures statuses[n + 1].Some? && (n > 0 ==> statuses[n].Some?)
    ensures calls[n].Getting? && Called(p, statuses[n], calls[n]).1.Ok? ==>
              Called(p, statuses[n], calls[n]).1.txns == Contents(p.proofs, p.time, p.batches)
  {
    RunKeepsStatus(p, statuses, calls, n);
    CallKeepsStatus(p, statuses[n], calls[n]);
    if n > 0 {
      assert statuses[(n - 1) + 1] == Some(Called(p, statuses[n - 1], calls[n - 1]).0);
    }
  }

  /** Once a call has returned the contents, every later one does, whatever the network yields: nothing
      is requested any more. */
  lemma {:induction false} SuccessIsCached(
    p: Stored, statuses: seq<Option<DataStatus>>, calls: seq<Call>, m: nat, n: nat)
    requires CallRun(p, statuses, calls) && m < n < |calls|
    requires calls[m].Getting? && Called(p, statuses[m], calls[m]).1.Ok?
    ensures statuses[n] == Some(Cached(Contents(p.proofs, p.time, p.batches)))
    ensures calls[n].Getting? ==> Called(p, statuses[n], calls[n]).1 == Ok(Contents(p.proofs, p.time, p.batches))
    decreases n
  {
    EverySuccessAgrees(p, statuses, calls, m);
    if n > m + 1 {
      SuccessIsCached(p, statuses, calls, m, n - 1);
    }
  }

  /** A call fails exactly if nothing has succeeded before it and some batch does not arrive; what has
      been requested is then requested again. */
  lemma FailsExactlyIf(p: Stored, statuses: seq<Option<DataStatus>>, calls: seq<Call>, n: nat)
    requires CallRun(p, statuses, calls) && n < |calls| && calls[n].Getting?
    ensures !Called(p, statuses[n], calls[n]).1.Ok? <==>
            && statuses[n] == Some(Requested(Unexpired(p.proofs, p.time)))
            && exists k :: 0 <= k < |calls[n].answers| && calls[n].answers[k] != Delivered
    ensures !Called(p, statuses[n], calls[n]).1.Ok? ==> statuses[n + 1] == statuses[n]
  {
    RunKeepsStatus(p, statuses, calls, n);
    if statuses[n].value.Requested? {
      AwaitAll(statuses[n].value.digests, calls[n].answers, p.batches);
    }
  }

  // ---------------------------------------------------------------- one block's payload

  /** `answers` at a call are what the receivers awaited by that call yield. */
  class Payload {
    const proofs: seq<ProofOfStore>
    const time: LogicalTime
    const batches: Batches
    var status: Option<DataStatus>

    constructor (proofs: seq<ProofOfStore>, time: LogicalTime, batches: Batches)
      ensures this.proofs == proofs && this.time == time && this.batches == batches && status == None
    {
      this.proofs, this.time, this.batches, status := proofs, time, batches, None;
    }

    /** A status stands for the contents of the payload, cached or still to come. */
    predicate Valid()
      reads this
    {
      StatusOk(Stored(proofs, time, batches), status)
    }

    method RequestTransactions() returns (digests: seq<nat>)
      ensures digests == Unexpired(proofs, time)
    {
      digests := [];
      for i := 0 to |proofs|
        invariant digests == Unexpired(proofs[..i], time)
      {
        assert proofs[..i + 1] == proofs[..i] + [proofs[i]];
        UnexpiredLast(proofs[..i], proofs[i], time);
        if time.AtMost(proofs[i].expiration) {
          digests := digests + [proofs[i].digest];
        }
      }
      assert proofs[..|proofs|] == proofs;
    }

    method Prefetch()
      requires Valid()
      modifies this
      ensures Valid() && status == Some(Called(Stored(proofs, time, batches), old(status), Prefetching).0)
    {
      if status.None? {
        var digests := RequestTransactions();
        status := Some(Requested(digests));
      }
    }

    /** The contents of the payload, or the first failure, after which everything is requested again. */
    method GetTransactions(answers: seq<Answer>) returns (r: Result)
      requires Valid() && Callable(status, Getting(answers))
      modifies this
      ensures Valid() && (r.Ok? ==> r.txns == Contents(proofs, time, batches))
      ensures status.Some? && (status.value, r) == Called(Stored(proofs, time, batches), old(status), Getting(answers))
    {
      CallKeepsStatus(Stored(proofs, time, batches), status, Getting(answers));
      var taken := status.value;
      status := None;
      match taken
      case Cached(data) =>
        status := Some(Cached(data));
        return Ok(data);
      case Requested(digests) =>
        r := AwaitBatches(digests, answers, batches);
        if r.Ok? {
          status := Some(Cached(r.txns));
        } else {
          var again := RequestTransactions();
          status := Some(Requested(again));
        }
    }
  }
}
