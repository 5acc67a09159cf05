/** When the safety rules sign, stated on the rounds themselves: every condition is necessary, and
    together they suffice. */
module SigningRules {
  import opened Options
  import opened ConsensusTypes
  import opened ValidatorVerifiers
  import opened SafetyRules

  function Larger(a: Round, b: Round): Round { if a > b then a else b }

  // ---------------------------------------------------------------- certificates

  /** A certificate past round zero verifies if and only if known authors with quorum power have signed
      its ledger info, and it certifies a block of a later round than its parent. One of round zero
      verifies unsigned, if and only if the block is its own parent and commits itself. */
  lemma QcExactlyIf(qc: QuorumCert, v: ValidatorVerifier, signed: set<Signature>)
    ensures var b, parent := qc.voteData.proposed, qc.voteData.parent;
            QcVerifies(qc, v, signed) <==>
            && qc.li.voteData == qc.voteData
            && (b.round == 0 ==> parent == b && qc.li.commitInfo == b && qc.signers == {})
            && (b.round > 0 ==>
                  && qc.signers <= v.Authors() && v.Power(qc.signers) >= v.quorum
                  && (forall a :: a in qc.signers ==> OnLedgerInfo(a, qc.li) in signed)
                  && parent.epoch == b.epoch && parent.round < b.round)
  {
  }

  /** A timeout certificate verifies if and only if known authors with quorum power have signed the
      timeout of its round, each with the round attributed to it, and the certificate it carries
      verifies and is of the highest of these rounds. */
  lemma TcExactlyIf(tc: TimeoutCert, v: ValidatorVerifier, signed: set<Signature>)
    ensures var t, hqc := tc.timeout, tc.timeout.qc.voteData.proposed.round;
            TcVerifies(tc, v, signed) <==>
            && hqc < t.round && QcVerifies(t.qc, v, signed)
            && tc.rounds.Keys <= v.Authors() && v.Power(tc.rounds.Keys) >= v.quorum
            && (forall a :: a in tc.rounds ==> OnTimeout(a, t.epoch, t.round, tc.rounds[a]) in signed)
            && hqc in tc.rounds.Values && (forall r :: r in tc.rounds.Values ==> r <= hqc)
  {
    forall a | a in tc.rounds ensures tc.rounds[a] in tc.rounds.Values {
    }
  }

  // ---------------------------------------------------------------- votes

  /** The replica can sign, and the proposal stands up to all checks that do not concern rounds
      voted on. */
  predicate ProposalHolds(st: State, p: VoteProposal, signed: set<Signature>) {
    && st.signer.Some? && st.epochState.Some?
    && p.block.epoch == st.data.epoch
    && QcVerifies(p.block.qc, st.epochState.value.verifier, signed)
    && p.block.qc.voteData.proposed.epoch == p.block.epoch
    && p.block.qc.voteData.proposed.round < p.block.round
    && p.signatureOk && p.contentOk && p.execution.Some?
  }

  predicate TcHolds(st: State, tc: Option<TimeoutCert>, signed: set<Signature>)
    requires st.epochState.Some?
  {
    tc.Some? ==> TcVerifies(tc.value, st.epochState.value.verifier, signed)
  }

  /** The last vote is of the round proposed. */
  predicate VotedInRound(st: State, p: VoteProposal) {
    st.data.lastVote.Some? && st.data.lastVote.value.VotedRound() == p.block.round
  }

  /** The block follows its certificate directly, or a timeout certificate none of whose signers has
      seen a higher certificate. Successors must be 64-bit rounds. */
  predicate Follows(p: VoteProposal, tc: Option<TimeoutCert>) {
    var qcRound := p.block.qc.voteData.proposed.round;
    && qcRound < MAX_ROUND
    && (|| qcRound + 1 == p.block.round
        || (&& tc.Some? && tc.value.timeout.round < MAX_ROUND
            && tc.value.timeout.round + 1 == p.block.round
            && tc.value.timeout.HqcRound() <= qcRound))
  }

  /** The proposal gets a vote. */
  predicate Votable(st: State, p: VoteProposal, tc: Option<TimeoutCert>, signed: set<Signature>) {
    && ProposalHolds(st, p, signed) && TcHolds(st, tc, signed)
    && (VotedInRound(st, p) || (p.block.round > st.data.lastVotedRound && Follows(p, tc)))
  }

  /** The vote for a block: it commits the parent if the rounds are adjacent. */
  predicate IsVoteFor(vote: Vote, author: Author, p: VoteProposal)
    requires p.execution.Some?
  {
    var parent := p.block.qc.voteData.proposed;
    && vote.author == author && vote.timeout.None?
    && vote.voteData.parent == parent && vote.li.voteData == vote.voteData
    && vote.voteData.proposed == BlockInfo(p.block.epoch, p.block.round, Hash(p.block), p.execution.value)
    && vote.li.commitInfo == (if parent.round + 1 == p.block.round then parent else EMPTY_BLOCK_INFO)
  }

  /** What is promised by a new vote. */
  predicate PromisesVote(data: SafetyData, data': SafetyData, vote: Vote, p: VoteProposal) {
    && data'.epoch == data.epoch && data'.lastVotedRound == p.block.round && data'.lastVote == Some(vote)
    && data'.oneChainRound == Larger(data.oneChainRound, p.block.qc.voteData.proposed.round)
    && data'.preferredRound == Larger(data.preferredRound, p.block.qc.voteData.parent.round)
  }

  /** A vote is returned if and only if the proposal holds and either the replica has voted last in
      this round, and then that vote is returned and nothing changes, or the round is new and the
      block follows its certificates. Otherwise nothing changes. */
  lemma VotesExactlyIf(st: State, p: VoteProposal, tc: Option<TimeoutCert>, signed: set<Signature>)
    ensures var (st', r) := ConstructAndSignVote(st, p, tc, signed);
            && (r.Ok? <==> Votable(st, p, tc, signed))
            && (r.Err? ==> st' == st)
            && (r.Ok? && VotedInRound(st, p) ==> st' == st && Some(r.value) == st.data.lastVote)
            && (r.Ok? && !VotedInRound(st, p) ==>
                  && IsVoteFor(r.value, st.signer.value, p)
                  && PromisesVote(st.data, st'.data, r.value, p) && st' == st.(data := st'.data))
  {
  }

  /** Which error keeps a proposal from its vote; those for which initialising again may help. */
  lemma VoteErrors(st: State, p: VoteProposal, tc: Option<TimeoutCert>, signed: set<Signature>)
    ensures var r := ConstructAndSignVote(st, p, tc, signed).1;
            && (r == Err(NotInitialized) <==>
                  st.signer.None? || (p.block.epoch == st.data.epoch && st.epochState.None?))
            && (r.Err? && r.error.IncorrectEpoch? <==> st.signer.Some? && p.block.epoch != st.data.epoch)
            && !(r.Err? && r.error.WaypointOutOfDate?)
            && (r == Err(IncorrectLastVotedRound(p.block.round, st.data.lastVotedRound)) <==>
                  && ProposalHolds(st, p, signed) && TcHolds(st, tc, signed)
                  && !VotedInRound(st, p) && p.block.round <= st.data.lastVotedRound)
  {
  }

  // ---------------------------------------------------------------- timeouts

  predicate TimeoutHolds(st: State, t: TwoChainTimeout, signed: set<Signature>) {
    && st.signer.Some? && st.epochState.Some?
    && t.epoch == st.data.epoch && t.HqcRound() < t.round
    && QcVerifies(t.qc, st.epochState.value.verifier, signed)
  }

  /** The round follows the certificate of the timeout, or a timeout certificate. */
  predicate TimeoutFollows(t: TwoChainTimeout, tc: Option<TimeoutCert>) {
    && t.HqcRound() < MAX_ROUND
    && (|| t.HqcRound() + 1 == t.round
        || (tc.Some? && tc.value.timeout.round < MAX_ROUND && tc.value.timeout.round + 1 == t.round))
  }

  predicate MayTimeOut(st: State, t: TwoChainTimeout, tc: Option<TimeoutCert>, signed: set<Signature>) {
    && TimeoutHolds(st, t, signed) && TcHolds(st, tc, signed) && TimeoutFollows(t, tc)
    && t.HqcRound() >= st.data.oneChainRound && t.round >= st.data.lastVotedRound
  }

  /** A timeout is signed if and only if it verifies, its round follows a certificate and is none
      before the last one voted in, and it reports no less than the certificates voted on. The round
      of a vote may be timed out in; the vote stays. */
  lemma TimesOutExactlyIf(st: State, t: TwoChainTimeout, tc: Option<TimeoutCert>, signed: set<Signature>)
    ensures var (st', r) := SignTimeout(st, t, tc, signed);
            && (r.Ok? <==> MayTimeOut(st, t, tc, signed))
            && (r.Err? ==> st' == st)
            && (r.Ok? ==>
                  && r.value == OnTimeout(st.signer.value, t.epoch, t.round, t.HqcRound())
                  && st'.data.lastVotedRound == t.round && st' == st.(data := st'.data)
                  && st'.data == st.data.(lastVotedRound := st'.data.lastVotedRound))
  {
  }

  lemma TimeoutErrors(st: State, t: TwoChainTimeout, tc: Option<TimeoutCert>, signed: set<Signature>)
    ensures var r := SignTimeout(st, t, tc, signed).1;
            && (r == Err(NotInitialized) <==> st.signer.None? || (t.epoch == st.data.epoch && st.epochState.None?))
            && (r.Err? && r.error.IncorrectEpoch? <==> st.signer.Some? && t.epoch != st.data.epoch)
            && !(r.Err? && r.error.WaypointOutOfDate?)
  {
  }

  /** After a vote, the round of the vote can be timed out in, exactly with a certificate no lower
      than those voted on; and after that no other block of the round gets a vote, but the vote is
      still returned. */
  lemma TimeOutAfterVote(
    st: State, p: VoteProposal, tc: Option<TimeoutCert>, t: TwoChainTimeout, tc': Option<TimeoutCert>,
    q: VoteProposal, tc'': Option<TimeoutCert>, signed: set<Signature>, later: set<Signature>, last: set<Signature>)
    requires ConstructAndSignVote(st, p, tc, signed).1.Ok? && !VotedInRound(st, p)
    requires var voted := ConstructAndSignVote(st, p, tc, signed).0;
             TimeoutHolds(voted, t, later) && TcHolds(voted, tc', later) && t.round == p.block.round
    ensures var (voted, vote) := ConstructAndSignVote(st, p, tc, signed);
            var (timedOut, r) := SignTimeout(voted, t, tc', later);
            && (r.Ok? <==>
                  && TimeoutFollows(t, tc') && t.HqcRound() >= st.data.oneChainRound
                  && t.HqcRound() >= p.block.qc.voteData.proposed.round)
            && (r.Ok? && ProposalHolds(timedOut, q, last) && TcHolds(timedOut, tc'', last)
                && q.block.round == p.block.round ==>
                  ConstructAndSignVote(timedOut, q, tc'', last) == (timedOut, vote))
  {
    VotesExactlyIf(st, p, tc, signed);
    var voted := ConstructAndSignVote(st, p, tc, signed).0;
    TimesOutExactlyIf(voted, t, tc', later);
    var timedOut := SignTimeout(voted, t, tc', later).0;
    VotesExactlyIf(timedOut, q, tc'', last);
  }

  // ---------------------------------------------------------------- commit votes and epochs

  /** A commit vote is signed if and only if a quorum has signed the ordering of the very block that
      was executed, and the result was still open then. */
  lemma CommitVoteExactlyIf(
    st: State, ordered: LedgerInfo, signers: set<Author>, executed: LedgerInfo, signed: set<Signature>)
    ensures var r := SignCommitVote(st, ordered, signers, executed, signed);
            && (r.Ok? <==>
                  && st.signer.Some? && st.epochState.Some?
                  && ordered.commitInfo != EMPTY_BLOCK_INFO && ordered.commitInfo.execution == Placeholder
                  && executed.commitInfo == ordered.commitInfo.(execution := executed.commitInfo.execution)
                  && LedgerInfoVerifies(ordered, signers, st.epochState.value.verifier, signed))
            && (r.Ok? ==> r.value == OnLedgerInfo(st.signer.value, executed))
  {
  }

  /** Entering an epoch: promises are forgotten exactly if it is a later one, the key is loaded
      exactly if the author is in its validator set, and an earlier epoch changes nothing. */
  lemma EntersExactlyIf(st: State, next: EpochState, author: Author)
    ensures var st' := EnterEpoch(st, next, author);
            && (next.epoch < st.data.epoch ==> st' == st)
            && (next.epoch >= st.data.epoch ==>
                  && st'.epochState == Some(next) && st'.data.epoch == next.epoch
                  && st'.signer == (if author in next.verifier.Authors() then Some(author) else None))
            && (next.epoch == st.data.epoch ==> st'.data == st.data)
            && (next.epoch > st.data.epoch ==>
                  && st'.data.lastVote.None? && st'.data.lastVotedRound == 0
                  && st'.data.oneChainRound == 0 && st'.data.preferredRound == 0)
  {
  }
}
