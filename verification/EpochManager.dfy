/** The epoch manager: which messages it hands to the managers of the current epoch, how it
    answers messages from other epochs, and how it replaces the managers when an epoch ends. */
module EpochManager {
  import opened Options
  import opened ConsensusTypes
  import opened EpochChange

  // ---------------------------------------------------------------- tasks and messages

  datatype Task = RoundManagerTask | RecoveryManagerTask | BufferManagerTask

  /** A round manager and a recovery manager do the same job; a buffer manager does another. */
  datatype Role = Voting | Buffering

  function RoleOf(t: Task): Role { if t.BufferManagerTask? then Buffering else Voting }

  /** `Event` is any message for a manager; `verifies` says whether its signatures check out. */
  datatype Msg =
    | Event(epoch: nat, role: Role, quorumStore: bool, verifies: bool)
    | Proof(lis: seq<Signed>)
    | Retrieval(start: nat, end: nat)
    | Unexpected

  datatype Action =
    | Spawn(task: Task, epoch: nat)
    | Acknowledged(role: Role, epoch: nat)   // a manager has stopped and said so
    | Deliver(msg: Msg)                      // a network event goes to the manager of its role
    | DeliverTimeout                         // a local timeout goes to the voting manager

  function Next(alive: seq<nat>, a: Action, role: Role): seq<nat> {
    match a
    case Spawn(task, epoch) => if RoleOf(task) == role then alive + [epoch] else alive
    case Acknowledged(r, epoch) => if r == role && alive != [] && alive[0] == epoch then alive[1..] else alive
    case _ => alive
  }

  /** The epochs of the managers of a role that are alive after these actions. */
  function Alive(trace: seq<Action>, role: Role): seq<nat> {
    if trace == [] then [] else Next(Alive(trace[..|trace| - 1], role), trace[|trace| - 1], role)
  }

  /** A manager starts only when none is alive, and gets network events only if they verify and are of
      its own epoch. A buffer manager starts before the voting manager that it serves, and stops
      after it. */
  predicate Legal(trace: seq<Action>, a: Action) {
    match a
    case Spawn(task, _) => Alive(trace, RoleOf(task)) == [] && Alive(trace, Voting) == []
    case Acknowledged(role, epoch) =>
      Alive(trace, role) == [epoch] && (role == Buffering ==> Alive(trace, Voting) == [])
    case Deliver(msg) => msg.Event? && msg.verifies && Alive(trace, msg.role) == [msg.epoch]
    case DeliverTimeout => |Alive(trace, Voting)| == 1
  }

  predicate Disciplined(trace: seq<Action>) {
    forall n :: 0 <= n < |trace| ==> Legal(trace[..n], trace[n])
  }

  lemma DisciplinedStep(trace: seq<Action>, a: Action)
    requires Disciplined(trace) && Legal(trace, a)
    ensures Disciplined(trace + [a])
    ensures forall role: Role :: Alive(trace + [a], role) == Next(Alive(trace, role), a, role)
  {
    var t := trace + [a];
    assert t[..|trace|] == trace;
    forall n | 0 <= n < |t| ensures Legal(t[..n], t[n]) {
      if n < |trace| {
        assert t[..n] == trace[..n];
      }
    }
  }

  /** At no time are two managers of a role alive. */
  lemma {:induction false} AtMostOneManager(trace: seq<Action>, n: nat, role: Role)
    requires Disciplined(trace) && n <= |trace|
    ensures |Alive(trace[..n], role)| <= 1
  {
    if n > 0 {
      AtMostOneManager(trace, n - 1, role);
      assert trace[..n][..n - 1] == trace[..n - 1];
      assert Legal(trace[..n - 1], trace[n - 1]);
    }
  }

  /** As long as a voting manager is alive, the buffer manager it was started with stays, and none comes
      that it was not started with. */
  lemma {:induction false} BufferStays(trace: seq<Action>, m: nat, n: nat)
    requires Disciplined(trace) && m <= n <= |trace|
    requires forall k :: m <= k < n ==> Alive(trace[..k], Voting) != []
    ensures Alive(trace[..n], Buffering) == Alive(trace[..m], Buffering)
  {
    if m < n {
      BufferStays(trace, m, n - 1);
      assert trace[..n][..n - 1] == trace[..n - 1];
      assert Legal(trace[..n - 1], trace[n - 1]);
    }
  }

  /** Between two starts of a role, the first manager has acknowledged its shutdown. */
  lemma {:induction false} AcknowledgedInBetween(trace: seq<Action>, i: nat, j: nat) returns (k: nat)
    requires Disciplined(trace) && i < j < |trace| && trace[i].Spawn? && trace[j].Spawn?
    requires RoleOf(trace[i].task) == RoleOf(trace[j].task)
    ensures i < k < j && trace[k] == Acknowledged(RoleOf(trace[i].task), trace[i].epoch)
  {
    var role, e := RoleOf(trace[i].task), trace[i].epoch;
    k := i + 1;
    assert Legal(trace[..i], trace[i]);
    assert trace[..i + 1][..i] == trace[..i];
    while trace[k] != Acknowledged(role, e)
      invariant i < k <= j && Alive(trace[..k], role) == [e]
      decreases j - k
    {
      assert Legal(trace[..k], trace[k]);
      assert trace[..k + 1][..k] == trace[..k];
      if k == j {
        assert false;
      }
      k := k + 1;
    }
    assert Legal(trace[..j], trace[j]);
  }

  /** Every event delivered has been received before. */
  predicate Received(trace: seq<Action>, inbox: seq<Msg>) {
    forall n :: 0 <= n < |trace| && trace[n].Deliver? ==> trace[n].msg in inbox
  }

  /** Whatever is delivered is a network event that was received and verified, and it goes to the one
      manager alive in its role, which is of the epoch of the event. */
  lemma DeliveredIsVerified(trace: seq<Action>, inbox: seq<Msg>, n: nat)
    requires Disciplined(trace) && Received(trace, inbox) && n < |trace| && trace[n].Deliver?
    ensures var e := trace[n].msg;
            e in inbox && e.Event? && e.verifies && Alive(trace[..n], e.role) == [e.epoch]
  {
    assert Legal(trace[..n], trace[n]);
  }

  // ---------------------------------------------------------------- reactions

  datatype Reaction = Forward | Ignore | Reject | Reply(msg: Msg) | Enter(li: EpochLedgerInfo)

  function Serve(db: seq<Signed>, start: nat, end: nat): Reaction {
    match EpochEndings(db, start, end, MAX_NUM_EPOCH_ENDING_LEDGER_INFO)
    case None => Reject
    case Some(page) => Reply(Proof(page.lis))
  }

  /** What to do with a message, given the current epoch and the epochs in storage. */
  function React(here: EpochState, author: Author, db: seq<Signed>, seals: Seals, msg: Msg): Reaction {
    match msg
    case Event(epoch, _, _, _) =>
      if epoch == here.epoch then Forward
      else if epoch > here.epoch then Reply(Retrieval(here.epoch, epoch))
      else if author in here.verifier.Authors() then Ignore
      else Serve(db, epoch, here.epoch)
    case Proof(lis) =>
      if lis == [] || lis[0].li.epoch != here.epoch then Reject
      else (match Verify(ByEpoch(here), lis, seals) case Verified(li) => Enter(li) case Refused(_) => Reject)
    case Retrieval(start, end) => if end > here.epoch then Reject else Serve(db, start, end)
    case Unexpected => Reject
  }

  lemma Associate(a: seq<Action>, b: seq<Action>, c: seq<Action>)
    ensures (a + b) + c == a + (b + c)
  {
  }

  // ---------------------------------------------------------------- the object

  /** What storage holds when an epoch starts: everything a round manager needs, or only the
      ledger, in which case a recovery manager runs first. */
  datatype Recovery = Full(decoupled: bool, quorumStore: bool) | Partial

  function SpawnsOf(r: Recovery, epoch: nat): seq<Action> {
    match r
    case Full(decoupled, _) =>
      (if decoupled then [Spawn(BufferManagerTask, epoch)] else []) + [Spawn(RoundManagerTask, epoch)]
    case Partial => [Spawn(RecoveryManagerTask, epoch)]
  }

  function StopOf(role: Role, handle: Option<nat>): seq<Action> {
    if handle.Some? then [Acknowledged(role, handle.value)] else []
  }

  /** The trace keeps the discipline, and the handles are those of the managers alive after it. */
  ghost predicate Traced(trace: seq<Action>, inbox: seq<Msg>, voting: Option<nat>, buffering: Option<nat>) {
    && Disciplined(trace) && Received(trace, inbox)
    && Alive(trace, Voting) == (if voting.Some? then [voting.value] else [])
    && Alive(trace, Buffering) == (if buffering.Some? then [buffering.value] else [])
  }

  /** Handles are channels to a manager; here each one holds the epoch of that manager. */
  class EpochManager {
    const author: Author
    var epochState: Option<EpochState>
    var bufferManagerMsgTx: Option<nat>
    var bufferManagerResetTx: Option<nat>
    var roundManagerTx: Option<nat>
    var roundManagerCloseTx: Option<nat>
    var blockRetrievalTx: Option<nat>
    var quorumStoreEnabled: bool
    ghost var trace: seq<Action>
    ghost var inbox: seq<Msg>

    constructor (author: Author)
      ensures this.author == author && epochState == None && trace == [] && inbox == [] && Idle() && Valid()
    {
      this.author, epochState, trace, inbox, quorumStoreEnabled := author, None, [], [], false;
      bufferManagerMsgTx, bufferManagerResetTx := None, None;
      roundManagerTx, roundManagerCloseTx, blockRetrievalTx := None, None, None;
    }

    predicate Idle()
      reads this
    {
      && bufferManagerMsgTx.None? && bufferManagerResetTx.None?
      && roundManagerTx.None? && roundManagerCloseTx.None? && blockRetrievalTx.None?
    }

    ghost predicate Valid()
      reads this
    {
      && roundManagerTx == roundManagerCloseTx && bufferManagerMsgTx == bufferManagerResetTx
      && Traced(trace, inbox, roundManagerCloseTx, bufferManagerResetTx)
    }

    /** Between messages a voting manager is alive, and all managers are of the current epoch. */
    ghost predicate Running()
      reads this
    {
      && Valid() && epochState.Some? && roundManagerTx == Some(epochState.value.epoch)
      && (bufferManagerMsgTx.Some? ==> bufferManagerMsgTx == roundManagerTx)
    }

    /** The voting manager stops before the buffer manager. */
    ghost function Shutdown(): seq<Action>
      reads this
    {
      StopOf(Voting, roundManagerCloseTx) + StopOf(Buffering, bufferManagerResetTx)
    }

    ghost method Log(a: Action)
      requires Disciplined(trace) && Received(trace, inbox) && Legal(trace, a) && (a.Deliver? ==> a.msg in inbox)
      modifies this`trace
      ensures Disciplined(trace) && Received(trace, inbox) && trace == old(trace) + [a]
      ensures forall role: Role :: Alive(trace, role) == Next(Alive(old(trace), role), a, role)
    {
      DisciplinedStep(trace, a);
      trace := trace + [a];
    }

    /** Closes the voting manager and waits for its acknowledgement. */
    method StopVoting()
      requires Valid()
      modifies this`trace, this`roundManagerCloseTx, this`roundManagerTx
      ensures Valid() && roundManagerTx.None? && trace == old(trace) + StopOf(Voting, old(roundManagerCloseTx))
    {
      if roundManagerCloseTx.Some? {
        Log(Acknowledged(Voting, roundManagerCloseTx.value));
        roundManagerCloseTx := None;
      }
      roundManagerTx := None;
    }

    /** Stops the buffer manager and waits for its acknowledgement. */
    method StopBuffering()
      requires Valid() && roundManagerTx.None?
      modifies this`trace, this`bufferManagerMsgTx, this`bufferManagerResetTx
      ensures Valid() && bufferManagerMsgTx.None? && trace == old(trace) + StopOf(Buffering, old(bufferManagerResetTx))
    {
      bufferManagerMsgTx := None;
      if bufferManagerResetTx.Some? {
        Log(Acknowledged(Buffering, bufferManagerResetTx.value));
        bufferManagerResetTx := None;
      }
    }

    method ShutdownCurrentProcessor()
      requires Valid()
      modifies this
      ensures Valid() && Idle() && trace == old(trace) + old(Shutdown())
      ensures epochState == old(epochState) && quorumStoreEnabled == old(quorumStoreEnabled) && inbox == old(inbox)
    {
      ghost var t, voting, buffering :=
        trace, StopOf(Voting, roundManagerCloseTx), StopOf(Buffering, bufferManagerResetTx);
      StopVoting();
      StopBuffering();
      blockRetrievalTx := None;
      Associate(t, voting, buffering);
    }

    method StartRecoveryManager(epoch: nat)
      requires Valid() && Idle()
      modifies this
      ensures Valid() && trace == old(trace) + [Spawn(RecoveryManagerTask, epoch)]
      ensures roundManagerTx == Some(epoch) && bufferManagerMsgTx == None && blockRetrievalTx == None
      ensures epochState == old(epochState) && quorumStoreEnabled == old(quorumStoreEnabled) && inbox == old(inbox)
    {
      roundManagerTx, roundManagerCloseTx := Some(epoch), Some(epoch);
      Log(Spawn(RecoveryManagerTask, epoch));
    }

    method SpawnDecoupledExecution(epoch: nat)
      requires Valid() && Idle()
      modifies this`trace, this`bufferManagerMsgTx, this`bufferManagerResetTx
      ensures Valid() && trace == old(trace) + [Spawn(BufferManagerTask, epoch)] && bufferManagerMsgTx == Some(epoch)
    {
      bufferManagerMsgTx, bufferManagerResetTx := Some(epoch), Some(epoch);
      Log(Spawn(BufferManagerTask, epoch));
    }

    method SpawnRoundManager(epoch: nat)
      requires Valid() && roundManagerTx.None?
      modifies this`trace, this`roundManagerTx, this`roundManagerCloseTx
      ensures Valid() && trace == old(trace) + [Spawn(RoundManagerTask, epoch)] && roundManagerTx == Some(epoch)
    {
      roundManagerTx, roundManagerCloseTx := Some(epoch), Some(epoch);
      Log(Spawn(RoundManagerTask, epoch));
    }

    method StartRoundManager(epoch: nat, decoupled: bool)
      requires Valid() && Idle()
      modifies this
      ensures Valid() && trace == old(trace) + SpawnsOf(Full(decoupled, quorumStoreEnabled), epoch)
      ensures roundManagerTx == Some(epoch) && bufferManagerMsgTx == (if decoupled then Some(epoch) else None)
      ensures blockRetrievalTx == Some(epoch)
      ensures epochState == old(epochState) && quorumStoreEnabled == old(quorumStoreEnabled) && inbox == old(inbox)
    {
      if decoupled {
        SpawnDecoupledExecution(epoch);
      }
      SpawnRoundManager(epoch);
      blockRetrievalTx := Some(epoch);
    }

    /** Only a round manager serves blocks, and only its start decides on the quorum store and on
        decoupled execution. */
    predicate Started(epoch: nat, r: Recovery, quorumStoreBefore: bool)
      reads this
    {
      && quorumStoreEnabled == (if r.Full? then r.quorumStore else quorumStoreBefore)
      && bufferManagerMsgTx == (if r.Full? && r.decoupled then Some(epoch) else None)
      && blockRetrievalTx == (if r.Full? then Some(epoch) else None)
    }

    method StartNewEpoch(next: EpochState, r: Recovery)
      requires Valid() && Idle()
      modifies this
      ensures Running() && epochState == Some(next) && trace == old(trace) + SpawnsOf(r, next.epoch)
      ensures Started(next.epoch, r, old(quorumStoreEnabled)) && inbox == old(inbox)
    {
      epochState := Some(next);
      match r
      case Full(decoupled, quorumStore) =>
        quorumStoreEnabled := quorumStore;
        StartRoundManager(next.epoch, decoupled);
      case Partial =>
        StartRecoveryManager(next.epoch);
    }

    /** `next` is the epoch that the reconfiguration notification announces once storage is on
        the ledger info of the proof. */
    method InitiateNewEpoch(proof: seq<Signed>, seals: Seals, next: EpochState, r: Recovery) returns (ok: bool)
      requires Running()
      modifies this
      ensures ok == Verify(ByEpoch(old(epochState).value), proof, seals).Verified?
      ensures Running() && inbox == old(inbox)
      ensures ok ==> epochState == Some(next) && trace == old(trace) + (old(Shutdown()) + SpawnsOf(r, next.epoch))
      ensures ok ==> Started(next.epoch, r, old(quorumStoreEnabled))
      ensures !ok ==> unchanged(this)
    {
      var outcome := VerifyProof(ByEpoch(epochState.value), proof, seals);
      if outcome.Refused? { return false; }
      ghost var t, stops := trace, Shutdown();
      ShutdownCurrentProcessor();
      StartNewEpoch(next, r);
      Associate(t, stops, SpawnsOf(r, next.epoch));
      return true;
    }

    /** The manager that gets events of a role is there. */
    predicate Handles(role: Role)
      reads this
    {
      role == Voting || bufferManagerMsgTx.Some?
    }

    method ProcessEvent(e: Msg)
      requires Running() && e.Event? && e.verifies && e.epoch == epochState.value.epoch && e in inbox
      modifies this`trace
      ensures Running()
      ensures trace == if Handles(e.role) then old(trace) + [Deliver(e)] else old(trace)
    {
      match e.role
      case Voting => Log(Deliver(e));
      case Buffering =>
        if bufferManagerMsgTx.Some? {
          Log(Deliver(e));
        }
    }

    method ProcessMessage(
      msg: Msg, db: seq<Signed>, seals: Seals, next: EpochState, r: Recovery)
      returns (reaction: Reaction)
      requires Running()
      modifies this
      ensures Running() && inbox == old(inbox) + [msg]
      ensures reaction == React(old(epochState).value, author, db, seals, msg)
      ensures reaction.Enter? ==>
                && epochState == Some(next) && trace == old(trace) + (old(Shutdown()) + SpawnsOf(r, next.epoch))
                && Started(next.epoch, r, old(quorumStoreEnabled))
      ensures reaction.Forward? <==> msg.Event? && msg.epoch == old(epochState).value.epoch
      ensures reaction.Forward? ==>
                && epochState == old(epochState)
                && trace == if msg.verifies && (msg.quorumStore ==> quorumStoreEnabled) && Handles(msg.role)
                            then old(trace) + [Deliver(msg)]
                            else old(trace)
      ensures !reaction.Enter? ==>
                quorumStoreEnabled == old(quorumStoreEnabled) && bufferManagerMsgTx == old(bufferManagerMsgTx)
      ensures !reaction.Enter? && !reaction.Forward? ==> epochState == old(epochState) && trace == old(trace)
    {
      inbox := inbox + [msg];
      reaction := React(epochState.value, author, db, seals, msg);
      match reaction
      case Forward =>
        if (!msg.quorumStore || quorumStoreEnabled) && msg.verifies {
          ProcessEvent(msg);
        }
      case Enter(_) =>
        var ok := InitiateNewEpoch(msg.lis, seals, next, r);
      case _ =>
    }

    /** Forwarded without looking at the epoch. */
    method ProcessLocalTimeout()
      requires Running()
      modifies this`trace
      ensures Running() && trace == old(trace) + [DeliverTimeout]
    {
      Log(DeliverTimeout);
    }
  }
}
