/** Agreement of the two-chain protocol.

    Honest replicas run the safety rules; everyone else signs what they like and passes
    any block, certificate or message to anyone at any time. Whatever the run, two ledger
    infos that each gathered a quorum of signatures never commit blocks on different chains. */
module TwoChainSafety {
  import opened Options
  import opened ConsensusTypes
  import opened ValidatorVerifiers
  import opened SafetyRules

  /** The validator set of every epoch, and the authors that need not follow the rules. */
  datatype Config = Config(verifierOf: nat -> ValidatorVerifier, byzantine: set<Author>)

  /** `signed` holds every signature made; `voted` those that honest replicas made as votes. */
  datatype World = World(replicas: map<Author, State>, signed: set<Signature>, voted: set<Signature>)

  /** Byzantine power stays below the guaranteed overlap of two quorums, in every epoch. */
  ghost predicate FaultBound(cfg: Config) {
    forall e: nat :: FaultBoundIn(cfg, e)
  }

  ghost predicate FaultBoundIn(cfg: Config, e: nat) {
    var v := cfg.verifierOf(e);
    v.Power(cfg.byzantine) + v.Total() < 2 * v.quorum
  }

  /** Every epoch has the default quorum, and tolerates what a quorum can do without: less than a
      third of the voting power. */
  ghost predicate DefaultQuorums(cfg: Config) {
    forall e: nat :: HasDefaultQuorum(cfg, e)
  }

  predicate HasDefaultQuorum(cfg: Config, e: nat) {
    var v := cfg.verifierOf(e);
    v.infos != [] && v == WithDefaultQuorum(v.infos) && v.Power(cfg.byzantine) + v.quorum <= v.Total()
  }

  lemma DefaultQuorumsSuffice(cfg: Config)
    requires DefaultQuorums(cfg)
    ensures FaultBound(cfg)
  {
    forall e: nat ensures FaultBoundIn(cfg, e) {
      assert HasDefaultQuorum(cfg, e);
      DefaultQuorumTolerance(cfg.verifierOf(e).infos, cfg.byzantine);
    }
  }

  datatype Step =
    | VoteOn(replica: Author, proposal: VoteProposal, tc: Option<TimeoutCert>)
    | TimeOut(replica: Author, timeout: TwoChainTimeout, tc: Option<TimeoutCert>)
    | CommitVote(replica: Author, ordered: LedgerInfo, signers: set<Author>, executed: LedgerInfo)
    | NewEpoch(replica: Author, epoch: nat)
    | Restart(replica: Author)
    | Byzantine(signature: Signature)

  /** What the callers of the safety rules guarantee. A timeout certificate handed to them is
      of the epoch of the block; a commit vote keeps the vote data of the ordering proof and
      is asked for in the epoch of that proof, by a buffer manager that lives in that epoch. */
  ghost predicate Allowed(cfg: Config, w: World, step: Step) {
    match step
    case VoteOn(a, p, tc) => a in w.replicas && (tc.Some? ==> tc.value.timeout.epoch == p.block.epoch)
    case TimeOut(a, _, _) => a in w.replicas
    case CommitVote(a, ordered, _, executed) =>
      a in w.replicas && executed.voteData == ordered.voteData
      && ordered.voteData.proposed.epoch == w.replicas[a].data.epoch
    case NewEpoch(a, _) => a in w.replicas
    case Restart(a) => a in w.replicas
    case Byzantine(s) => s.author in cfg.byzantine
  }

  ghost function Do(cfg: Config, w: World, step: Step): World
    requires Allowed(cfg, w, step)
  {
    match step
    case VoteOn(a, p, tc) =>
      var (st, r) := ConstructAndSignVote(w.replicas[a], p, tc, w.signed);
      var sigs := if r.Ok? then {OnLedgerInfo(a, r.value.li)} else {};
      World(w.replicas[a := st], w.signed + sigs, w.voted + sigs)
    case TimeOut(a, t, tc) =>
      var (st, r) := SignTimeout(w.replicas[a], t, tc, w.signed);
      World(w.replicas[a := st], w.signed + (if r.Ok? then {r.value} else {}), w.voted)
    case CommitVote(a, ordered, signers, executed) =>
      var r := SignCommitVote(w.replicas[a], ordered, signers, executed, w.signed);
      w.(signed := w.signed + if r.Ok? then {r.value} else {})
    case NewEpoch(a, e) =>
      w.(replicas := w.replicas[a := EnterEpoch(w.replicas[a], EpochState(e, cfg.verifierOf(e)), a)])
    case Restart(a) =>
      w.(replicas := w.replicas[a := w.replicas[a].(epochState := None, signer := None)])
    case Byzantine(s) =>
      w.(signed := w.signed + {s})
  }

  /** Honest replicas start with fresh safety data and have signed nothing. */
  ghost predicate Init(cfg: Config, w: World) {
    && (forall a :: a in w.replicas ==>
          a !in cfg.byzantine && w.replicas[a].data == FreshSafetyData(w.replicas[a].data.epoch)
          && w.replicas[a].epochState.None? && w.replicas[a].signer.None?)
    && w.voted == {}
    && forall s :: s in w.signed ==> s.author in cfg.byzantine
  }

  /** `ws` is a run: every world follows from the previous one by an allowed step. */
  ghost predicate Run(cfg: Config, ws: seq<World>, steps: seq<Step>) {
    && |ws| == |steps| + 1
    && Init(cfg, ws[0])
    && forall i :: 0 <= i < |steps| ==>
         Allowed(cfg, ws[i], steps[i]) && ws[i + 1] == Do(cfg, ws[i], steps[i])
  }

  // ---------------------------------------------------------------- invariant

  /** Why a replica was free to vote for a block that does not directly follow its parent. */
  ghost predicate SkipJustified(cfg: Config, signed: set<Signature>, vd: VoteData) {
    exists tc: TimeoutCert ::
      && TcVerifies(tc, cfg.verifierOf(vd.proposed.epoch), signed)
      && tc.timeout.epoch == vd.proposed.epoch
      && tc.timeout.round + 1 == vd.proposed.round
      && vd.parent.round >= tc.timeout.HqcRound()
  }

  /** The ledger info of a rule-abiding vote. */
  ghost predicate ProperVote(cfg: Config, signed: set<Signature>, li: LedgerInfo) {
    var vd := li.voteData;
    && vd.proposed.id.Hash?
    && vd.parent == vd.proposed.id.data.qc.voteData.proposed
    && QcVerifies(vd.proposed.id.data.qc, cfg.verifierOf(vd.proposed.epoch), signed)
    && VoteDataVerifies(vd)
    && li.commitInfo == (if vd.parent.round + 1 == vd.proposed.round then vd.parent else EMPTY_BLOCK_INFO)
    && (vd.parent.round + 1 == vd.proposed.round || SkipJustified(cfg, signed, vd))
  }

  /** A quorum of the epoch whose honest members all voted for `li`. */
  ghost predicate VoteQuorum(cfg: Config, w: World, li: LedgerInfo, signers: set<Author>) {
    && cfg.verifierOf(li.voteData.proposed.epoch).IsQuorum(signers)
    && forall a :: a in signers && a !in cfg.byzantine ==> OnLedgerInfo(a, li) in w.voted
  }

  /** Votes behind a signature on a ledger info that was not itself a vote. */
  ghost predicate Backed(cfg: Config, w: World, li: LedgerInfo) {
    exists ordered: LedgerInfo, signers: set<Author> :: BackedBy(cfg, w, li, ordered, signers)
  }

  ghost predicate BackedBy(cfg: Config, w: World, li: LedgerInfo, ordered: LedgerInfo, signers: set<Author>) {
    && VoteQuorum(cfg, w, ordered, signers)
    && ordered.voteData == li.voteData
    && MatchOrderedOnly(ordered.commitInfo, li.commitInfo)
    && (li.commitInfo == EMPTY_BLOCK_INFO || ordered.commitInfo != EMPTY_BLOCK_INFO)
  }

  /** What the safety data of a replica remembers about its own vote for `li`. */
  ghost predicate Remembered(data: SafetyData, li: LedgerInfo) {
    var vd := li.voteData;
    && vd.proposed.epoch <= data.epoch
    && (vd.proposed.epoch == data.epoch ==>
          vd.proposed.round <= data.lastVotedRound && vd.parent.round <= data.oneChainRound)
  }

  /** Everything a single honest replica keeps. */
  ghost predicate ReplicaInv(cfg: Config, w: World, a: Author)
    requires a in w.replicas
  {
    var st := w.replicas[a];
    && a !in cfg.byzantine
    && (st.epochState.Some? ==>
          st.epochState.value == EpochState(st.data.epoch, cfg.verifierOf(st.data.epoch)))
    && (st.signer.Some? ==> st.signer.value == a && st.epochState.Some?)
    && (st.data.lastVote.Some? ==>
          && OnLedgerInfo(a, st.data.lastVote.value.li) in w.voted
          && st.data.lastVote.value.voteData == st.data.lastVote.value.li.voteData
          && st.data.lastVote.value.author == a
          && st.data.lastVote.value.VotedEpoch() == st.data.epoch)
    && (forall s :: s in w.voted && s.author == a ==> s.OnLedgerInfo? && Remembered(st.data, s.li))
    && (forall s :: s in w.signed && s.OnTimeout? && s.author == a ==> TimeoutRemembered(st.data, s))
  }

  ghost predicate TimeoutRemembered(data: SafetyData, s: Signature)
    requires s.OnTimeout?
  {
    s.epoch <= data.epoch && (s.epoch == data.epoch ==> s.round <= data.lastVotedRound)
  }

  /** Votes cast in the same round of the same epoch. */
  predicate SameSlot(a: LedgerInfo, b: LedgerInfo) {
    a.voteData.proposed.epoch == b.voteData.proposed.epoch
    && a.voteData.proposed.round == b.voteData.proposed.round
  }

  /** A timeout at or after a vote reports a certified round no lower than the voted parent. */
  predicate ReportsParent(vote: LedgerInfo, timeout: Signature)
    requires timeout.OnTimeout?
  {
    timeout.epoch == vote.voteData.proposed.epoch && timeout.round >= vote.voteData.proposed.round
    ==> timeout.hqcRound >= vote.voteData.parent.round
  }

  ghost predicate OneVotePerRound(w: World) {
    forall s, t :: s in w.voted && t in w.voted && s.OnLedgerInfo? && t.OnLedgerInfo? ==>
      s.author == t.author && SameSlot(s.li, t.li) ==> s == t
  }

  ghost predicate TimeoutsReportParents(w: World) {
    forall s, t :: s in w.voted && t in w.signed && s.OnLedgerInfo? && t.OnTimeout? ==>
      s.author == t.author ==> ReportsParent(s.li, t)
  }

  /** An honest signature on a ledger info is a vote or rests on a quorum of votes. */
  ghost predicate Accounted(cfg: Config, w: World, s: Signature) {
    s.OnLedgerInfo? && s.author !in cfg.byzantine && s !in w.voted ==> Backed(cfg, w, s.li)
  }

  ghost predicate ReplicasOk(cfg: Config, w: World) {
    forall a :: a in w.replicas ==> ReplicaInv(cfg, w, a)
  }

  /** Whoever signed anything is a Byzantine author or one of the replicas. */
  ghost predicate SignersKnown(cfg: Config, w: World) {
    forall s :: s in w.signed && s.author !in cfg.byzantine ==> s.author in w.replicas
  }

  ghost predicate VotesProper(cfg: Config, w: World) {
    forall s :: s in w.voted ==>
      s in w.signed && s.OnLedgerInfo? && s.author !in cfg.byzantine && ProperVote(cfg, w.signed, s.li)
  }

  ghost predicate AllAccounted(cfg: Config, w: World) {
    forall s :: s in w.signed ==> Accounted(cfg, w, s)
  }

  ghost predicate Inv(cfg: Config, w: World) {
    && ReplicasOk(cfg, w)
    && SignersKnown(cfg, w)
    && VotesProper(cfg, w)
    && AllAccounted(cfg, w)
    && OneVotePerRound(w)
    && TimeoutsReportParents(w)
  }

  // ---------------------------------------------------------------- preservation

  lemma ProperVoteMonotone(cfg: Config, s: set<Signature>, t: set<Signature>, li: LedgerInfo)
    requires s <= t && ProperVote(cfg, s, li)
    ensures ProperVote(cfg, t, li)
  {
    var vd := li.voteData;
    var v := cfg.verifierOf(vd.proposed.epoch);
    QcVerifiesMonotone(vd.proposed.id.data.qc, v, s, t);
    if vd.parent.round + 1 != vd.proposed.round {
      var tc :| TcVerifies(tc, v, s) && tc.timeout.epoch == vd.proposed.epoch
                && tc.timeout.round + 1 == vd.proposed.round && vd.parent.round >= tc.timeout.HqcRound();
      TcVerifiesMonotone(tc, v, s, t);
    }
  }

  lemma BackedMonotone(cfg: Config, w: World, w': World, li: LedgerInfo)
    requires w.voted <= w'.voted && Backed(cfg, w, li)
    ensures Backed(cfg, w', li)
  {
    var ordered, signers :| BackedBy(cfg, w, li, ordered, signers);
    assert BackedBy(cfg, w', li, ordered, signers);
  }

  /** Votes stay proper when signatures are added, if each added vote is proper. */
  lemma VotesProperKept(cfg: Config, w: World, w': World)
    requires VotesProper(cfg, w) && w.signed <= w'.signed
    requires forall s :: s in w'.voted && s !in w.voted ==>
      s in w'.signed && s.OnLedgerInfo? && s.author !in cfg.byzantine && ProperVote(cfg, w'.signed, s.li)
    ensures VotesProper(cfg, w')
  {
    forall s | s in w.voted ensures ProperVote(cfg, w'.signed, s.li) {
      ProperVoteMonotone(cfg, w.signed, w'.signed, s.li);
    }
  }

  /** Signatures stay accounted for when signatures are added, if each added one is. */
  lemma AllAccountedKept(cfg: Config, w: World, w': World)
    requires AllAccounted(cfg, w) && w.voted <= w'.voted
    requires forall s :: s in w'.signed && s !in w.signed ==> Accounted(cfg, w', s)
    ensures AllAccounted(cfg, w')
  {
    forall s | s in w.signed ensures Accounted(cfg, w', s) {
      assert Accounted(cfg, w, s);
      if s.OnLedgerInfo? && s.author !in cfg.byzantine && s !in w.voted {
        BackedMonotone(cfg, w, w', s.li);
      }
    }
  }

  /** `vote` is proper and later than everything replica `a` signed in the epoch, and `data`
      takes note of it. */
  ghost predicate FreshVote(cfg: Config, w: World, a: Author, vote: Vote, data: SafetyData)
    requires a in w.replicas
  {
    var before := w.replicas[a].data;
    var vd := vote.voteData;
    && vote.author == a && vote.li.voteData == vd
    && ProperVote(cfg, w.signed, vote.li)
    && vd.proposed.epoch == before.epoch && vd.proposed.round > before.lastVotedRound
    && data.epoch == before.epoch && data.lastVotedRound == vd.proposed.round
    && data.oneChainRound >= before.oneChainRound && data.oneChainRound >= vd.parent.round
    && data.lastVote == Some(vote)
  }

  lemma SignedVoteIsFresh(cfg: Config, w: World, step: Step)
    requires Inv(cfg, w) && step.VoteOn? && Allowed(cfg, w, step)
    requires var (st, r) := ConstructAndSignVote(w.replicas[step.replica], step.proposal, step.tc, w.signed);
             r.Ok? && w.replicas[step.replica].data.lastVote != Some(r.value)
    ensures var (st, r) := ConstructAndSignVote(w.replicas[step.replica], step.proposal, step.tc, w.signed);
            FreshVote(cfg, w, step.replica, r.value, st.data)
            && st == w.replicas[step.replica].(data := st.data)
  {
    var st0, p, tc := w.replicas[step.replica], step.proposal, step.tc;
    var v := st0.epochState.value.verifier;
    var vd := VerifyProposal(st0, p, w.signed).value;
    if vd.parent.round + 1 != vd.proposed.round {
      assert tc.Some? && TcVerifies(tc.value, v, w.signed);
      assert SkipJustified(cfg, w.signed, vd);
    }
  }

  ghost function AddVote(w: World, a: Author, vote: Vote, data: SafetyData): World
    requires a in w.replicas
  {
    var sig := OnLedgerInfo(a, vote.li);
    World(w.replicas[a := w.replicas[a].(data := data)], w.signed + {sig}, w.voted + {sig})
  }

  lemma FreshVoteKeepsReplicas(cfg: Config, w: World, a: Author, vote: Vote, data: SafetyData)
    requires ReplicasOk(cfg, w) && a in w.replicas && FreshVote(cfg, w, a, vote, data)
    ensures ReplicasOk(cfg, AddVote(w, a, vote, data))
  {
    var w' := AddVote(w, a, vote, data);
    forall b | b in w'.replicas ensures ReplicaInv(cfg, w', b) {
      assert ReplicaInv(cfg, w, b);
    }
  }

  lemma FreshVoteKeepsPairs(cfg: Config, w: World, a: Author, vote: Vote, data: SafetyData)
    requires a in w.replicas && FreshVote(cfg, w, a, vote, data) && ReplicaInv(cfg, w, a)
    requires OneVotePerRound(w) && TimeoutsReportParents(w)
    ensures OneVotePerRound(AddVote(w, a, vote, data))
    ensures TimeoutsReportParents(AddVote(w, a, vote, data))
  {
  }

  lemma FreshVoteKeepsInv(cfg: Config, w: World, a: Author, vote: Vote, data: SafetyData)
    requires Inv(cfg, w) && a in w.replicas && FreshVote(cfg, w, a, vote, data)
    ensures Inv(cfg, AddVote(w, a, vote, data))
  {
    var w' := AddVote(w, a, vote, data);
    assert ReplicaInv(cfg, w, a);
    ProperVoteMonotone(cfg, w.signed, w'.signed, vote.li);
    VotesProperKept(cfg, w, w');
    AllAccountedKept(cfg, w, w');
    FreshVoteKeepsPairs(cfg, w, a, vote, data);
    FreshVoteKeepsReplicas(cfg, w, a, vote, data);
  }

  lemma VoteKeepsInv(cfg: Config, w: World, step: Step)
    requires Inv(cfg, w) && step.VoteOn? && Allowed(cfg, w, step)
    ensures Inv(cfg, Do(cfg, w, step))
  {
    var a, w' := step.replica, Do(cfg, w, step);
    var (st, r) := ConstructAndSignVote(w.replicas[a], step.proposal, step.tc, w.signed);
    if r.Err? || w.replicas[a].data.lastVote == Some(r.value) {
      assert ReplicaInv(cfg, w, a);
      assert VotesProper(cfg, w);
      assert w' == w;
    } else {
      SignedVoteIsFresh(cfg, w, step);
      FreshVoteKeepsInv(cfg, w, a, r.value, st.data);
    }
  }

  /** What signing a timeout achieves: it is not older than anything signed before, and it
      reports a certified round that covers every parent voted for in the epoch. */
  ghost predicate FreshTimeout(w: World, a: Author, s: Signature, data: SafetyData)
    requires a in w.replicas
  {
    var before := w.replicas[a].data;
    && s.OnTimeout? && s.author == a && s.epoch == before.epoch
    && s.round >= before.lastVotedRound && s.hqcRound >= before.oneChainRound
    && data == before.(lastVotedRound := s.round)
  }

  ghost function AddTimeout(w: World, a: Author, s: Signature, data: SafetyData): World
    requires a in w.replicas
  {
    World(w.replicas[a := w.replicas[a].(data := data)], w.signed + {s}, w.voted)
  }

  lemma FreshTimeoutKeepsReplicas(cfg: Config, w: World, a: Author, s: Signature, data: SafetyData)
    requires ReplicasOk(cfg, w) && a in w.replicas && FreshTimeout(w, a, s, data)
    ensures ReplicasOk(cfg, AddTimeout(w, a, s, data))
  {
    var w' := AddTimeout(w, a, s, data);
    forall b | b in w'.replicas ensures ReplicaInv(cfg, w', b) {
      assert ReplicaInv(cfg, w, b);
    }
  }

  lemma FreshTimeoutKeepsPairs(cfg: Config, w: World, a: Author, s: Signature, data: SafetyData)
    requires a in w.replicas && FreshTimeout(w, a, s, data) && ReplicaInv(cfg, w, a)
    requires TimeoutsReportParents(w)
    ensures TimeoutsReportParents(AddTimeout(w, a, s, data))
  {
    forall v | v in w.voted && v.author == a ensures ReportsParent(v.li, s) {
      assert Remembered(w.replicas[a].data, v.li);
    }
  }

  lemma TimeoutKeepsInv(cfg: Config, w: World, step: Step)
    requires Inv(cfg, w) && step.TimeOut? && Allowed(cfg, w, step)
    ensures Inv(cfg, Do(cfg, w, step))
  {
    var a, w' := step.replica, Do(cfg, w, step);
    var (st, r) := SignTimeout(w.replicas[a], step.timeout, step.tc, w.signed);
    if r.Err? {
      assert w' == w;
    } else {
      assert ReplicaInv(cfg, w, a);
      VotesProperKept(cfg, w, w');
      AllAccountedKept(cfg, w, w');
      FreshTimeoutKeepsPairs(cfg, w, a, r.value, st.data);
      FreshTimeoutKeepsReplicas(cfg, w, a, r.value, st.data);
    }
  }

  /** A ledger info signed by a quorum rests on a quorum of votes with the same vote data. */
  lemma CertifiedIsVoted(cfg: Config, w: World, li: LedgerInfo, signers: set<Author>)
      returns (ordered: LedgerInfo, voters: set<Author>)
    requires Inv(cfg, w)
    requires LedgerInfoVerifies(li, signers, cfg.verifierOf(li.voteData.proposed.epoch), w.signed)
    ensures BackedBy(cfg, w, li, ordered, voters)
  {
    if a :| a in signers && a !in cfg.byzantine && OnLedgerInfo(a, li) !in w.voted {
      assert Accounted(cfg, w, OnLedgerInfo(a, li));
      ordered, voters :| BackedBy(cfg, w, li, ordered, voters);
    } else {
      ordered, voters := li, signers;
    }
  }

  lemma CommitVoteKeepsInv(cfg: Config, w: World, step: Step)
    requires Inv(cfg, w) && step.CommitVote? && Allowed(cfg, w, step)
    ensures Inv(cfg, Do(cfg, w, step))
  {
    var a, w' := step.replica, Do(cfg, w, step);
    var r := SignCommitVote(w.replicas[a], step.ordered, step.signers, step.executed, w.signed);
    if r.Err? {
      assert w' == w;
    } else {
      assert ReplicaInv(cfg, w, a);
      VotesProperKept(cfg, w, w');
      var ordered, voters := CertifiedIsVoted(cfg, w, step.ordered, step.signers);
      assert BackedBy(cfg, w', step.executed, ordered, voters);
      AllAccountedKept(cfg, w, w');
      forall b | b in w'.replicas ensures ReplicaInv(cfg, w', b) {
        assert ReplicaInv(cfg, w, b);
      }
    }
  }

  lemma QuietStepKeepsReplicas(cfg: Config, w: World, step: Step)
    requires ReplicasOk(cfg, w) && (step.NewEpoch? || step.Restart? || step.Byzantine?)
    requires Allowed(cfg, w, step)
    ensures ReplicasOk(cfg, Do(cfg, w, step))
  {
    var w' := Do(cfg, w, step);
    forall b | b in w'.replicas ensures ReplicaInv(cfg, w', b) {
      assert ReplicaInv(cfg, w, b);
    }
  }

  lemma QuietStepKeepsInv(cfg: Config, w: World, step: Step)
    requires Inv(cfg, w) && (step.NewEpoch? || step.Restart? || step.Byzantine?) && Allowed(cfg, w, step)
    ensures Inv(cfg, Do(cfg, w, step))
  {
    var w' := Do(cfg, w, step);
    VotesProperKept(cfg, w, w');
    AllAccountedKept(cfg, w, w');
    QuietStepKeepsReplicas(cfg, w, step);
    assert TimeoutsReportParents(w');
  }

  lemma {:induction false} RunKeepsInv(cfg: Config, ws: seq<World>, steps: seq<Step>, i: nat)
    requires Run(cfg, ws, steps) && i < |ws|
    ensures Inv(cfg, ws[i])
  {
    if i > 0 {
      RunKeepsInv(cfg, ws, steps, i - 1);
      var step := steps[i - 1];
      match step
      case VoteOn(_, _, _) => VoteKeepsInv(cfg, ws[i - 1], step);
      case TimeOut(_, _, _) => TimeoutKeepsInv(cfg, ws[i - 1], step);
      case CommitVote(_, _, _, _) => CommitVoteKeepsInv(cfg, ws[i - 1], step);
      case _ => QuietStepKeepsInv(cfg, ws[i - 1], step);
    }
  }

  // ---------------------------------------------------------------- agreement

  /** At most one ledger info per round gathers a quorum of votes. */
  lemma OneQuorumPerRound(cfg: Config, w: World, a: LedgerInfo, sa: set<Author>, b: LedgerInfo, sb: set<Author>)
    requires Inv(cfg, w) && FaultBound(cfg)
    requires VoteQuorum(cfg, w, a, sa) && VoteQuorum(cfg, w, b, sb) && SameSlot(a, b)
    ensures a == b
  {
    var e := a.voteData.proposed.epoch;
    assert FaultBoundIn(cfg, e);
    var x := QuorumIntersection(cfg.verifierOf(e), sa, sb, cfg.byzantine);
    assert OnLedgerInfo(x, a) in w.voted && OnLedgerInfo(x, b) in w.voted;
  }

  lemma QuorumVoteIsProper(cfg: Config, w: World, li: LedgerInfo, signers: set<Author>)
    requires Inv(cfg, w) && FaultBound(cfg) && VoteQuorum(cfg, w, li, signers)
    ensures ProperVote(cfg, w.signed, li)
  {
    var e := li.voteData.proposed.epoch;
    assert FaultBoundIn(cfg, e);
    var x := QuorumIntersection(cfg.verifierOf(e), signers, signers, cfg.byzantine);
    assert OnLedgerInfo(x, li) in w.voted;
  }

  /** The parent of a block with a quorum of votes has a quorum of votes, past round zero. */
  lemma ParentHasQuorum(cfg: Config, w: World, li: LedgerInfo, signers: set<Author>)
      returns (parent: LedgerInfo, voters: set<Author>)
    requires Inv(cfg, w) && FaultBound(cfg) && VoteQuorum(cfg, w, li, signers)
    requires li.voteData.parent.round > 0
    ensures VoteQuorum(cfg, w, parent, voters) && parent.voteData.proposed == li.voteData.parent
    ensures parent.voteData.proposed.epoch == li.voteData.proposed.epoch
  {
    QuorumVoteIsProper(cfg, w, li, signers);
    var qc := li.voteData.proposed.id.data.qc;
    parent, voters := CertifiedIsVoted(cfg, w, qc.li, qc.signers);
  }

  /** Past a committed round, no block is certified on a parent older than that round. */
  lemma ParentNotOlder(cfg: Config, w: World, commit: LedgerInfo, sc: set<Author>, li: LedgerInfo, s: set<Author>)
    requires Inv(cfg, w) && FaultBound(cfg)
    requires VoteQuorum(cfg, w, commit, sc) && VoteQuorum(cfg, w, li, s)
    requires commit.voteData.proposed.epoch == li.voteData.proposed.epoch
    requires li.voteData.proposed.round > commit.voteData.proposed.round
    ensures li.voteData.parent.round >= commit.voteData.parent.round
  {
    var e := li.voteData.proposed.epoch;
    var v := cfg.verifierOf(e);
    QuorumVoteIsProper(cfg, w, li, s);
    QuorumVoteIsProper(cfg, w, commit, sc);
    if li.voteData.parent.round + 1 != li.voteData.proposed.round {
      var tc: TimeoutCert :| TcVerifies(tc, v, w.signed) && tc.timeout.epoch == e
                && tc.timeout.round + 1 == li.voteData.proposed.round
                && li.voteData.parent.round >= tc.timeout.HqcRound();
      assert FaultBoundIn(cfg, e);
      var x := QuorumIntersection(v, sc, tc.rounds.Keys, cfg.byzantine);
      assert OnLedgerInfo(x, commit) in w.voted;
      assert OnTimeout(x, e, tc.timeout.round, tc.rounds[x]) in w.signed;
      assert ReportsParent(commit, OnTimeout(x, e, tc.timeout.round, tc.rounds[x]));
    }
  }

  /** Every block certified at or after a committed round extends the committed block. */
  lemma {:induction false} CertifiedExtendsCommitted(
    cfg: Config, w: World, commit: LedgerInfo, sc: set<Author>, li: LedgerInfo, s: set<Author>)
    requires Inv(cfg, w) && FaultBound(cfg)
    requires VoteQuorum(cfg, w, commit, sc) && VoteQuorum(cfg, w, li, s)
    requires commit.commitInfo != EMPTY_BLOCK_INFO && commit.commitInfo.round > 0
    requires li.voteData.proposed.epoch == commit.voteData.proposed.epoch
    requires li.voteData.proposed.round >= commit.commitInfo.round
    ensures Ancestor(commit.commitInfo.id, li.voteData.proposed.id)
    decreases li.voteData.proposed.round
  {
    QuorumVoteIsProper(cfg, w, commit, sc);
    QuorumVoteIsProper(cfg, w, li, s);
    var base, sb := ParentHasQuorum(cfg, w, commit, sc);
    var round := li.voteData.proposed.round;
    if round == base.voteData.proposed.round {
      OneQuorumPerRound(cfg, w, base, sb, li, s);
    } else if round == commit.voteData.proposed.round {
      OneQuorumPerRound(cfg, w, commit, sc, li, s);
    } else {
      ParentNotOlder(cfg, w, commit, sc, li, s);
      var parent, sp := ParentHasQuorum(cfg, w, li, s);
      CertifiedExtendsCommitted(cfg, w, commit, sc, parent, sp);
    }
  }

  /** Agreement, for commits past the genesis of an epoch. */
  lemma Agreement(cfg: Config, ws: seq<World>, steps: seq<Step>, i: nat,
                  a: LedgerInfo, sa: set<Author>, b: LedgerInfo, sb: set<Author>)
    requires FaultBound(cfg) && Run(cfg, ws, steps) && i < |ws|
    requires a.voteData.proposed.epoch == b.voteData.proposed.epoch
    requires LedgerInfoVerifies(a, sa, cfg.verifierOf(a.voteData.proposed.epoch), ws[i].signed)
    requires LedgerInfoVerifies(b, sb, cfg.verifierOf(b.voteData.proposed.epoch), ws[i].signed)
    requires a.commitInfo.round > 0 && b.commitInfo.round > 0
    ensures SameChain(a.commitInfo.id, b.commitInfo.id)
  {
    var w := ws[i];
    RunKeepsInv(cfg, ws, steps, i);
    var va, qa := CertifiedIsVoted(cfg, w, a, sa);
    var vb, qb := CertifiedIsVoted(cfg, w, b, sb);
    QuorumVoteIsProper(cfg, w, va, qa);
    QuorumVoteIsProper(cfg, w, vb, qb);
    if a.commitInfo.round <= b.commitInfo.round {
      var parent, sp := ParentHasQuorum(cfg, w, vb, qb);
      CertifiedExtendsCommitted(cfg, w, va, qa, parent, sp);
    } else {
      var parent, sp := ParentHasQuorum(cfg, w, va, qa);
      CertifiedExtendsCommitted(cfg, w, vb, qb, parent, sp);
    }
  }

  // ---------------------------------------------------------------- commits of a genesis block

  /** All votes of epoch `e` grow from one genesis block, which is what the block store
      ensures by holding a single root: a certificate for round zero is not signed. */
  ghost predicate RootedAt(w: World, e: nat, genesis: BlockId) {
    forall s :: s in w.voted && s.OnLedgerInfo? && s.li.voteData.proposed.epoch == e ==>
      s.li.voteData.parent.round == 0 ==> s.li.voteData.parent.id == genesis
  }

  lemma {:induction false} CertifiedExtendsGenesis(
    cfg: Config, w: World, li: LedgerInfo, s: set<Author>, genesis: BlockId)
    requires Inv(cfg, w) && FaultBound(cfg) && VoteQuorum(cfg, w, li, s)
    requires RootedAt(w, li.voteData.proposed.epoch, genesis)
    ensures Ancestor(genesis, li.voteData.parent.id)
    ensures li.voteData.parent.round == 0 ==> li.voteData.parent.id == genesis
    decreases li.voteData.proposed.round
  {
    QuorumVoteIsProper(cfg, w, li, s);
    var e := li.voteData.proposed.epoch;
    assert FaultBoundIn(cfg, e);
    var x := QuorumIntersection(cfg.verifierOf(e), s, s, cfg.byzantine);
    assert OnLedgerInfo(x, li) in w.voted;
    if li.voteData.parent.round > 0 {
      var parent, sp := ParentHasQuorum(cfg, w, li, s);
      QuorumVoteIsProper(cfg, w, parent, sp);
      CertifiedExtendsGenesis(cfg, w, parent, sp, genesis);
    }
  }

  /** Agreement for all commits of an epoch that grows from one genesis block. */
  lemma AgreementFromGenesis(cfg: Config, ws: seq<World>, steps: seq<Step>, i: nat, genesis: BlockId,
                             a: LedgerInfo, sa: set<Author>, b: LedgerInfo, sb: set<Author>)
    requires FaultBound(cfg) && Run(cfg, ws, steps) && i < |ws|
    requires a.voteData.proposed.epoch == b.voteData.proposed.epoch
    requires RootedAt(ws[i], a.voteData.proposed.epoch, genesis)
    requires LedgerInfoVerifies(a, sa, cfg.verifierOf(a.voteData.proposed.epoch), ws[i].signed)
    requires LedgerInfoVerifies(b, sb, cfg.verifierOf(b.voteData.proposed.epoch), ws[i].signed)
    requires a.commitInfo != EMPTY_BLOCK_INFO && b.commitInfo != EMPTY_BLOCK_INFO
    ensures SameChain(a.commitInfo.id, b.commitInfo.id)
  {
    if a.commitInfo.round > 0 && b.commitInfo.round > 0 {
      Agreement(cfg, ws, steps, i, a, sa, b, sb);
    } else {
      var w := ws[i];
      RunKeepsInv(cfg, ws, steps, i);
      var va, qa := CertifiedIsVoted(cfg, w, a, sa);
      var vb, qb := CertifiedIsVoted(cfg, w, b, sb);
      QuorumVoteIsProper(cfg, w, va, qa);
      QuorumVoteIsProper(cfg, w, vb, qb);
      CertifiedExtendsGenesis(cfg, w, va, qa, genesis);
      CertifiedExtendsGenesis(cfg, w, vb, qb, genesis);
    }
  }
}
