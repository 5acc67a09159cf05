/** The safety rules of one replica: the only code that signs votes, timeouts and commit
    votes. What a replica has promised is kept in persistent safety data. */
module SafetyRules {
  import opened Options
  import opened ConsensusTypes
  import opened ValidatorVerifiers

  const MAX_ROUND: nat := 0xFFFF_FFFF_FFFF_FFFF

  datatype Error =
    | NotInitialized
    | IncorrectEpoch(provided: nat, expected: nat)
    | IncorrectRound(round: Round)
    | IncorrectLastVotedRound(provided: Round, lastVoted: Round)
    | InvalidQuorumCertificate
    | InvalidProposal
    | InvalidAccumulatorExtension
    | InvalidTimeout
    | InvalidTimeoutCertificate
    | InvalidOrderedLedgerInfo
    | InconsistentExecutionResult
    | NotSafeToVote
    | NotSafeToTimeout
    | WaypointOutOfDate(previous: nat, updated: nat, currentEpoch: nat, providedEpoch: nat)
    | InvalidEpochChangeProof

  datatype Result<+T> = Ok(value: T) | Err(error: Error)

  datatype SafetyData = SafetyData(
    epoch: nat, lastVotedRound: Round, preferredRound: Round, oneChainRound: Round,
    lastVote: Option<Vote>)

  datatype EpochState = EpochState(epoch: nat, verifier: ValidatorVerifier)

  /** The persistent data, and the epoch state and key loaded by initialisation. */
  datatype State = State(data: SafetyData, epochState: Option<EpochState>, signer: Option<Author>)

  /** A block to vote on, with the outcomes of the checks that do not concern rounds: the
      proposer's signature, the remaining well-formedness rules, and local execution. */
  datatype VoteProposal = VoteProposal(
    block: BlockData, signatureOk: bool, contentOk: bool, execution: Option<Execution>)

  function FreshSafetyData(epoch: nat): SafetyData { SafetyData(epoch, 0, 0, 0, None) }

  // ---------------------------------------------------------------- certificates

  predicate VoteDataVerifies(vd: VoteData) {
    vd.parent.epoch == vd.proposed.epoch && vd.parent.round < vd.proposed.round
  }

  /** Every signer is known, together they reach a quorum, and each of them signed. */
  predicate LedgerInfoVerifies(
    li: LedgerInfo, signers: set<Author>, v: ValidatorVerifier, signed: set<Signature>)
  {
    v.IsQuorum(signers) && forall a :: a in signers ==> OnLedgerInfo(a, li) in signed
  }

  /** A certificate for round zero carries no signatures: a genesis is agreed upon implicitly. */
  predicate QcVerifies(qc: QuorumCert, v: ValidatorVerifier, signed: set<Signature>) {
    && qc.li.voteData == qc.voteData
    && if qc.voteData.proposed.round == 0 then
         qc.voteData.parent == qc.voteData.proposed == qc.li.commitInfo && qc.signers == {}
       else
         LedgerInfoVerifies(qc.li, qc.signers, v, signed) && VoteDataVerifies(qc.voteData)
  }

  predicate TimeoutVerifies(t: TwoChainTimeout, v: ValidatorVerifier, signed: set<Signature>) {
    t.HqcRound() < t.round && QcVerifies(t.qc, v, signed)
  }

  predicate TcVerifies(tc: TimeoutCert, v: ValidatorVerifier, signed: set<Signature>) {
    && TimeoutVerifies(tc.timeout, v, signed)
    && v.IsQuorum(tc.rounds.Keys)
    && (forall a :: a in tc.rounds ==>
          OnTimeout(a, tc.timeout.epoch, tc.timeout.round, tc.rounds[a]) in signed)
    && (forall a :: a in tc.rounds ==> tc.rounds[a] <= tc.timeout.HqcRound())
    && (exists a :: a in tc.rounds && tc.rounds[a] == tc.timeout.HqcRound())
  }

  lemma QcVerifiesMonotone(qc: QuorumCert, v: ValidatorVerifier, s: set<Signature>, t: set<Signature>)
    requires s <= t && QcVerifies(qc, v, s)
    ensures QcVerifies(qc, v, t)
  {
  }

  lemma TcVerifiesMonotone(tc: TimeoutCert, v: ValidatorVerifier, s: set<Signature>, t: set<Signature>)
    requires s <= t && TcVerifies(tc, v, s)
    ensures TcVerifies(tc, v, t)
  {
  }

  // ---------------------------------------------------------------- the rules as functions

  /** Rounds are 64-bit: the successor of the largest one is an error. */
  function NextRound(r: Round): Result<Round> {
    if r >= MAX_ROUND then Err(IncorrectRound(r)) else Ok(r + 1)
  }

  function TcRound(tc: Option<TimeoutCert>): Round {
    if tc.Some? then tc.value.timeout.round else 0
  }

  function TcHqcRound(tc: Option<TimeoutCert>): Round {
    if tc.Some? then tc.value.timeout.HqcRound() else 0
  }

  /** The short-circuit order matters for which 64-bit successor is taken. */
  function SafeToVote(block: BlockData, tc: Option<TimeoutCert>): Result<()> {
    var qcRound := block.qc.voteData.proposed.round;
    match NextRound(qcRound)
    case Err(e) => Err(e)
    case Ok(afterQc) =>
      if block.round == afterQc then Ok(())
      else match NextRound(TcRound(tc))
           case Err(e) => Err(e)
           case Ok(afterTc) =>
             if block.round == afterTc && qcRound >= TcHqcRound(tc) then Ok(()) else Err(NotSafeToVote)
  }

  function SafeToTimeout(t: TwoChainTimeout, tc: Option<TimeoutCert>, data: SafetyData): Result<()> {
    match NextRound(t.HqcRound())
    case Err(e) => Err(e)
    case Ok(afterQc) =>
      if t.round == afterQc then
        if t.HqcRound() >= data.oneChainRound then Ok(()) else Err(NotSafeToTimeout)
      else match NextRound(TcRound(tc))
           case Err(e) => Err(e)
           case Ok(afterTc) =>
             if t.round == afterTc && t.HqcRound() >= data.oneChainRound then Ok(())
             else Err(NotSafeToTimeout)
  }

  function ObserveQc(qc: QuorumCert, data: SafetyData): SafetyData {
    var one, two := qc.voteData.proposed.round, qc.voteData.parent.round;
    data.(oneChainRound := if one > data.oneChainRound then one else data.oneChainRound,
          preferredRound := if two > data.preferredRound then two else data.preferredRound)
  }

  function VerifyProposal(st: State, p: VoteProposal, signed: set<Signature>): Result<VoteData> {
    var parent := p.block.qc.voteData.proposed;
    if p.block.epoch != st.data.epoch then Err(IncorrectEpoch(p.block.epoch, st.data.epoch))
    else if st.epochState.None? then Err(NotInitialized)
    else if !QcVerifies(p.block.qc, st.epochState.value.verifier, signed) then Err(InvalidQuorumCertificate)
    else if !p.signatureOk then Err(InvalidProposal)
    else if !(parent.round < p.block.round && parent.epoch == p.block.epoch && p.contentOk) then
      Err(InvalidProposal)
    else if p.execution.None? then Err(InvalidAccumulatorExtension)
    else Ok(VoteData(BlockInfo(p.block.epoch, p.block.round, Hash(p.block), p.execution.value), parent))
  }

  /** A vote commits the parent of the voted block when their rounds are adjacent. */
  function CommitInfoFor(block: BlockData): BlockInfo
    requires block.qc.voteData.proposed.round < MAX_ROUND
  {
    var parent := block.qc.voteData.proposed;
    if parent.round + 1 == block.round then parent else EMPTY_BLOCK_INFO
  }

  function ConstructAndSignVote(st: State, p: VoteProposal, tc: Option<TimeoutCert>, signed: set<Signature>)
    : (State, Result<Vote>)
  {
    if st.signer.None? then (st, Err(NotInitialized))
    else match VerifyProposal(st, p, signed)
      case Err(e) => (st, Err(e))
      case Ok(vd) =>
        if tc.Some? && !TcVerifies(tc.value, st.epochState.value.verifier, signed) then
          (st, Err(InvalidTimeoutCertificate))
        else if st.data.lastVote.Some? && st.data.lastVote.value.VotedRound() == p.block.round then
          (st, Ok(st.data.lastVote.value))
        else if p.block.round <= st.data.lastVotedRound then
          (st, Err(IncorrectLastVotedRound(p.block.round, st.data.lastVotedRound)))
        else match SafeToVote(p.block, tc)
             case Err(e) => (st, Err(e))
             case Ok(_) =>
               var vote := Vote(vd, st.signer.value, LedgerInfo(CommitInfoFor(p.block), vd), None);
               var data := ObserveQc(p.block.qc, st.data.(lastVotedRound := p.block.round));
               (st.(data := data.(lastVote := Some(vote))), Ok(vote))
  }

  /** The result is the signed message. */
  function SignTimeout(st: State, t: TwoChainTimeout, tc: Option<TimeoutCert>, signed: set<Signature>)
    : (State, Result<Signature>)
  {
    if st.signer.None? then (st, Err(NotInitialized))
    else if t.epoch != st.data.epoch then (st, Err(IncorrectEpoch(t.epoch, st.data.epoch)))
    else if st.epochState.None? then (st, Err(NotInitialized))
    else if !TimeoutVerifies(t, st.epochState.value.verifier, signed) then (st, Err(InvalidTimeout))
    else if tc.Some? && !TcVerifies(tc.value, st.epochState.value.verifier, signed) then
      (st, Err(InvalidTimeoutCertificate))
    else match SafeToTimeout(t, tc, st.data)
      case Err(e) => (st, Err(e))
      case Ok(_) =>
        if t.round < st.data.lastVotedRound then
          (st, Err(IncorrectLastVotedRound(t.round, st.data.lastVotedRound)))
        else
          (st.(data := st.data.(lastVotedRound := t.round)),
           Ok(OnTimeout(st.signer.value, t.epoch, t.round, t.HqcRound())))
  }

  function SignCommitVote(st: State, ordered: LedgerInfo, signers: set<Author>, executed: LedgerInfo,
                          signed: set<Signature>): Result<Signature>
  {
    if st.signer.None? then Err(NotInitialized)
    else if !IsOrderedOnly(ordered.commitInfo) then Err(InvalidOrderedLedgerInfo)
    else if !MatchOrderedOnly(ordered.commitInfo, executed.commitInfo) then Err(InconsistentExecutionResult)
    else if st.epochState.None? then Err(NotInitialized)
    else if !LedgerInfoVerifies(ordered, signers, st.epochState.value.verifier, signed) then
      Err(InvalidQuorumCertificate)
    else Ok(OnLedgerInfo(st.signer.value, executed))
  }

  /** Enters the epoch of a verified epoch change. An older epoch is refused, the same epoch
      only reloads the key, and a newer one forgets every promise of the previous epoch. */
  function EnterEpoch(st: State, next: EpochState, author: Author): State {
    if st.data.epoch > next.epoch then st
    else
      var data := if st.data.epoch < next.epoch then FreshSafetyData(next.epoch) else st.data;
      State(data, Some(next), if author in next.verifier.Authors() then Some(author) else None)
  }

  // ---------------------------------------------------------------- the replica's object

  class SafetyRules {
    var data: SafetyData
    var epochState: Option<EpochState>
    var signer: Option<Author>

    constructor (epoch: nat)
      ensures View() == State(FreshSafetyData(epoch), None, None)
    {
      data, epochState, signer := FreshSafetyData(epoch), None, None;
    }

    function View(): State
      reads this
    {
      State(data, epochState, signer)
    }

    method VerifyAndUpdateLastVoteRound(round: Round, d: SafetyData) returns (r: Result<SafetyData>)
      ensures r.Ok? <==> round > d.lastVotedRound
      ensures r.Ok? ==> r.value == d.(lastVotedRound := round)
      ensures r.Err? ==> r.error == IncorrectLastVotedRound(round, d.lastVotedRound)
    {
      if round <= d.lastVotedRound {
        return Err(IncorrectLastVotedRound(round, d.lastVotedRound));
      }
      return Ok(d.(lastVotedRound := round));
    }

    method ConstructAndSignVoteTwoChain(p: VoteProposal, tc: Option<TimeoutCert>, signed: set<Signature>)
        returns (r: Result<Vote>)
      modifies this
      ensures (View(), r) == ConstructAndSignVote(old(View()), p, tc, signed)
    {
      if signer.None? { return Err(NotInitialized); }
      var voteData := VerifyProposal(View(), p, signed);
      if voteData.Err? { return Err(voteData.error); }
      if tc.Some? && !TcVerifies(tc.value, epochState.value.verifier, signed) {
        return Err(InvalidTimeoutCertificate);
      }
      if data.lastVote.Some? && data.lastVote.value.VotedRound() == p.block.round {
        return Ok(data.lastVote.value);
      }
      var updated := VerifyAndUpdateLastVoteRound(p.block.round, data);
      if updated.Err? { return Err(updated.error); }
      var safe := SafeToVote(p.block, tc);
      if safe.Err? { return Err(safe.error); }
      var safetyData := ObserveQc(p.block.qc, updated.value);
      var li := LedgerInfo(CommitInfoFor(p.block), voteData.value);
      var vote := Vote(voteData.value, signer.value, li, None);
      data := safetyData.(lastVote := Some(vote));
      return Ok(vote);
    }

    method SignTimeoutWithQc(t: TwoChainTimeout, tc: Option<TimeoutCert>, signed: set<Signature>)
        returns (r: Result<Signature>)
      modifies this
      ensures (View(), r) == SignTimeout(old(View()), t, tc, signed)
    {
      if signer.None? { return Err(NotInitialized); }
      if t.epoch != data.epoch { return Err(IncorrectEpoch(t.epoch, data.epoch)); }
      if epochState.None? { return Err(NotInitialized); }
      if !TimeoutVerifies(t, epochState.value.verifier, signed) { return Err(InvalidTimeout); }
      if tc.Some? && !TcVerifies(tc.value, epochState.value.verifier, signed) {
        return Err(InvalidTimeoutCertificate);
      }
      var safe := SafeToTimeout(t, tc, data);
      if safe.Err? { return Err(safe.error); }
      if t.round < data.lastVotedRound {
        return Err(IncorrectLastVotedRound(t.round, data.lastVotedRound));
      }
      if t.round > data.lastVotedRound {
        var updated := VerifyAndUpdateLastVoteRound(t.round, data);
        data := updated.value;
      }
      return Ok(OnTimeout(signer.value, t.epoch, t.round, t.HqcRound()));
    }
  }
}
