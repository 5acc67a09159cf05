/** An epoch has one ending: ledger infos that verify and announce the next validator set
    announce the same one, because execution is deterministic and committed blocks agree. */
module EpochEndings {
  import opened Options
  import opened ConsensusTypes
  import opened ValidatorVerifiers
  import opened SafetyRules
  import opened TwoChainSafety

  /** What executing a block yields, on every honest replica. */
  type Outcomes = BlockId -> Execution

  /** The epoch state that an execution result announces, if it ends the epoch. */
  type Announcements = Execution -> Option<EpochState>

  /** Dummies announce nothing. */
  predicate DummiesAreSilent(next: Announcements) {
    next(Zero).None? && next(Placeholder).None?
  }

  /** A block on top of one that ended the epoch keeps its outcome. */
  ghost predicate EndingSticks(local: Outcomes, next: Announcements) {
    forall d: BlockData :: next(local(d.qc.voteData.proposed.id)).Some? ==>
      next(local(Hash(d))) == next(local(d.qc.voteData.proposed.id))
  }

  predicate IsLocal(local: Outcomes, b: BlockInfo) {
    b.execution == Placeholder || b.execution == local(b.id)
  }

  /** Honest replicas vote with the result of their own execution, or with the dummy while blocks
      are only ordered, and sign the commit of their own execution result. */
  predicate OwnExecution(local: Outcomes, step: Step) {
    match step
    case VoteOn(_, p, _) =>
      p.execution.Some? ==> p.execution.value == Placeholder || p.execution.value == local(Hash(p.block))
    case CommitVote(_, _, _, executed) => executed.commitInfo.execution == local(executed.commitInfo.id)
    case _ => true
  }

  /** Votes are for locally executed blocks, and so are commit signatures that are not votes. */
  ghost predicate LocalVotes(local: Outcomes, w: World) {
    forall s :: s in w.voted && s.OnLedgerInfo? ==> IsLocal(local, s.li.voteData.proposed)
  }

  ghost predicate LocalCommits(cfg: Config, local: Outcomes, w: World) {
    forall s :: s in w.signed && s.OnLedgerInfo? && s.author !in cfg.byzantine && s !in w.voted ==>
      IsLocal(local, s.li.commitInfo)
  }

  ghost predicate LocalInv(cfg: Config, local: Outcomes, w: World) {
    LocalVotes(local, w) && LocalCommits(cfg, local, w)
  }

  lemma VoteIsLocal(cfg: Config, local: Outcomes, w: World, step: Step)
    requires Inv(cfg, w) && LocalInv(cfg, local, w) && step.VoteOn? && Allowed(cfg, w, step)
    requires OwnExecution(local, step)
    ensures var r := ConstructAndSignVote(w.replicas[step.replica], step.proposal, step.tc, w.signed).1;
            r.Ok? ==> r.value.li.voteData == r.value.voteData && IsLocal(local, r.value.voteData.proposed)
  {
    assert ReplicaInv(cfg, w, step.replica);
  }

  lemma StepKeepsLocal(cfg: Config, local: Outcomes, w: World, step: Step)
    requires Inv(cfg, w) && LocalInv(cfg, local, w) && Allowed(cfg, w, step) && OwnExecution(local, step)
    ensures LocalInv(cfg, local, Do(cfg, w, step))
  {
    if step.VoteOn? {
      VoteIsLocal(cfg, local, w, step);
    }
  }

  lemma {:induction false} RunIsLocal(cfg: Config, local: Outcomes, ws: seq<World>, steps: seq<Step>, i: nat)
    requires Run(cfg, ws, steps) && i < |ws| && forall k :: 0 <= k < |steps| ==> OwnExecution(local, steps[k])
    ensures LocalInv(cfg, local, ws[i])
  {
    if i > 0 {
      RunIsLocal(cfg, local, ws, steps, i - 1);
      RunKeepsInv(cfg, ws, steps, i - 1);
      StepKeepsLocal(cfg, local, ws[i - 1], steps[i - 1]);
    }
  }

  /** A quorum of votes is for a locally executed block. */
  lemma QuorumIsLocal(cfg: Config, local: Outcomes, w: World, li: LedgerInfo, voters: set<Author>)
    requires LocalVotes(local, w) && FaultBound(cfg) && VoteQuorum(cfg, w, li, voters)
    ensures IsLocal(local, li.voteData.proposed)
  {
    assert FaultBoundIn(cfg, li.voteData.proposed.epoch);
    var x := QuorumIntersection(cfg.verifierOf(li.voteData.proposed.epoch), voters, voters, cfg.byzantine);
    assert OnLedgerInfo(x, li) in w.voted;
  }

  lemma CommittedIsLocalIn(cfg: Config, local: Outcomes, w: World, li: LedgerInfo, signers: set<Author>)
    requires Inv(cfg, w) && LocalInv(cfg, local, w) && FaultBound(cfg) && li.commitInfo.round > 0
    requires LedgerInfoVerifies(li, signers, cfg.verifierOf(li.voteData.proposed.epoch), w.signed)
    ensures IsLocal(local, li.commitInfo)
  {
    assert FaultBoundIn(cfg, li.voteData.proposed.epoch);
    var x := QuorumIntersection(cfg.verifierOf(li.voteData.proposed.epoch), signers, signers, cfg.byzantine);
    if OnLedgerInfo(x, li) in w.voted {
      assert ProperVote(cfg, w.signed, li);
      var qc := li.voteData.proposed.id.data.qc;
      var ordered, voters := CertifiedIsVoted(cfg, w, qc.li, qc.signers);
      QuorumIsLocal(cfg, local, w, ordered, voters);
    }
  }

  /** In every run, what a verified ledger info commits past round zero has been executed by honest
      replicas. */
  lemma CommittedIsLocal(
    cfg: Config, local: Outcomes, ws: seq<World>, steps: seq<Step>, i: nat, li: LedgerInfo, signers: set<Author>)
    requires FaultBound(cfg) && Run(cfg, ws, steps) && i < |ws|
    requires forall k :: 0 <= k < |steps| ==> OwnExecution(local, steps[k])
    requires LedgerInfoVerifies(li, signers, cfg.verifierOf(li.voteData.proposed.epoch), ws[i].signed)
    requires li.commitInfo.round > 0
    ensures IsLocal(local, li.commitInfo)
  {
    RunKeepsInv(cfg, ws, steps, i);
    RunIsLocal(cfg, local, ws, steps, i);
    CommittedIsLocalIn(cfg, local, ws[i], li, signers);
  }

  /** Once a block has ended the epoch, so have its descendants, with the same outcome. */
  lemma {:induction false} DescendantsAnnounceTheSame(local: Outcomes, next: Announcements, a: BlockId, b: BlockId)
    requires EndingSticks(local, next) && Ancestor(a, b) && next(local(a)).Some?
    ensures next(local(b)) == next(local(a))
    decreases b
  {
    if a != b {
      DescendantsAnnounceTheSame(local, next, a, b.data.qc.voteData.proposed.id);
      assert next(local(Hash(b.data))) == next(local(b.data.qc.voteData.proposed.id));
    }
  }

  /** In every run, two ledger infos of an epoch that verify and end the epoch announce the same
      validator set for the next one. */
  lemma OneNextEpoch(
    cfg: Config, local: Outcomes, next: Announcements, ws: seq<World>, steps: seq<Step>, i: nat,
    a: LedgerInfo, sa: set<Author>, b: LedgerInfo, sb: set<Author>)
    requires FaultBound(cfg) && Run(cfg, ws, steps) && i < |ws|
    requires DummiesAreSilent(next) && EndingSticks(local, next)
    requires forall k :: 0 <= k < |steps| ==> OwnExecution(local, steps[k])
    requires a.voteData.proposed.epoch == b.voteData.proposed.epoch
    requires LedgerInfoVerifies(a, sa, cfg.verifierOf(a.voteData.proposed.epoch), ws[i].signed)
    requires LedgerInfoVerifies(b, sb, cfg.verifierOf(b.voteData.proposed.epoch), ws[i].signed)
    requires a.commitInfo.round > 0 && b.commitInfo.round > 0
    requires next(a.commitInfo.execution).Some? && next(b.commitInfo.execution).Some?
    ensures next(a.commitInfo.execution) == next(b.commitInfo.execution)
  {
    CommittedIsLocal(cfg, local, ws, steps, i, a, sa);
    CommittedIsLocal(cfg, local, ws, steps, i, b, sb);
    Agreement(cfg, ws, steps, i, a, sa, b, sb);
    if Ancestor(a.commitInfo.id, b.commitInfo.id) {
      DescendantsAnnounceTheSame(local, next, a.commitInfo.id, b.commitInfo.id);
    } else {
      DescendantsAnnounceTheSame(local, next, b.commitInfo.id, a.commitInfo.id);
    }
  }
}
