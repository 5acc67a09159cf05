/** Why agreement on a committed genesis needs all votes to grow from the same one: a run in
    which the safety rules alone let a single validator commit two unrelated blocks. */
module TwoGeneses {
  import opened Options
  import opened ConsensusTypes
  import opened ValidatorVerifiers
  import opened SafetyRules
  import opened TwoChainSafety

  const SOLE_VALIDATOR := ValidatorVerifier([ValidatorInfo(0, 1)], 1)

  function SoleValidatorConfig(): Config { Config((e: nat) => SOLE_VALIDATOR, {}) }

  function Genesis(n: nat): BlockInfo { BlockInfo(1, 0, Opaque(n), Placeholder) }

  /** The unsigned certificate of a genesis block. */
  function GenesisQc(n: nat): QuorumCert {
    var vd := VoteData(Genesis(n), Genesis(n));
    QuorumCert(vd, LedgerInfo(Genesis(n), vd), {})
  }

  function InfoOf(b: BlockData): BlockInfo { BlockInfo(b.epoch, b.round, Hash(b), Placeholder) }

  function VoteDataOf(b: BlockData): VoteData { VoteData(InfoOf(b), b.qc.voteData.proposed) }

  function LedgerInfoOf(b: BlockData): LedgerInfo
    requires b.qc.voteData.proposed.round < MAX_ROUND
  {
    LedgerInfo(CommitInfoFor(b), VoteDataOf(b))
  }

  function Propose(b: BlockData): VoteProposal { VoteProposal(b, true, true, Some(Placeholder)) }

  const FIRST := BlockData(1, 1, 0, GenesisQc(1))
  const TIMEOUT := TwoChainTimeout(1, 1, GenesisQc(2))
  const SECOND := BlockData(1, 2, 0, GenesisQc(2))
  const THIRD := BlockData(1, 3, 0, QuorumCert(VoteDataOf(SECOND), LedgerInfoOf(SECOND), {0}))

  function Ready(data: SafetyData): State { State(data, Some(EpochState(1, SOLE_VALIDATOR)), Some(0)) }

  lemma SoleQuorum()
    ensures SOLE_VALIDATOR.Authors() == {0}
    ensures SOLE_VALIDATOR.IsQuorum({0}) && SOLE_VALIDATOR.Total() == 1 && SOLE_VALIDATOR.Power({}) == 0
  {
    assert SOLE_VALIDATOR.infos[0].address == 0;
    assert SOLE_VALIDATOR.Authors() == {0};
    assert SOLE_VALIDATOR.infos[1..] == [];
  }

  /** The vote of a ready replica for a block that directly follows its parent. */
  lemma AdjacentVote(data: SafetyData, b: BlockData, signed: set<Signature>)
    requires b.epoch == data.epoch == 1 && data.lastVotedRound < b.round < MAX_ROUND
    requires data.lastVote.Some? ==> data.lastVote.value.VotedRound() != b.round
    requires QcVerifies(b.qc, SOLE_VALIDATOR, signed)
    requires b.qc.voteData.proposed.epoch == 1 && b.qc.voteData.proposed.round + 1 == b.round
    ensures var vote := Vote(VoteDataOf(b), 0, LedgerInfoOf(b), None);
            ConstructAndSignVote(Ready(data), Propose(b), None, signed)
            == (Ready(ObserveQc(b.qc, data.(lastVotedRound := b.round)).(lastVote := Some(vote))), Ok(vote))
  {
  }

  function VoteFor(b: BlockData): Vote
    requires b.qc.voteData.proposed.round < MAX_ROUND
  {
    Vote(VoteDataOf(b), 0, LedgerInfoOf(b), None)
  }

  const SIGNED_FIRST := OnLedgerInfo(0, LedgerInfoOf(FIRST))
  const SIGNED_TIMEOUT := OnTimeout(0, 1, 1, 0)
  const SIGNED_SECOND := OnLedgerInfo(0, LedgerInfoOf(SECOND))
  const SIGNED_THIRD := OnLedgerInfo(0, LedgerInfoOf(THIRD))
  const TC := TimeoutCert(TIMEOUT, map[0 := 0])

  const AFTER_FIRST := SafetyData(1, 1, 0, 0, Some(VoteFor(FIRST)))
  const AFTER_SECOND := SafetyData(1, 2, 0, 0, Some(VoteFor(SECOND)))
  const AFTER_THIRD := SafetyData(1, 3, 0, 2, Some(VoteFor(THIRD)))

  const W0 := World(map[0 := State(FreshSafetyData(1), None, None)], {}, {})
  const W1 := World(map[0 := Ready(FreshSafetyData(1))], {}, {})
  const W2 := World(map[0 := Ready(AFTER_FIRST)], {SIGNED_FIRST}, {SIGNED_FIRST})
  const W3 := W2.(signed := {SIGNED_FIRST, SIGNED_TIMEOUT})
  const W4 := World(map[0 := Ready(AFTER_SECOND)],
                    {SIGNED_FIRST, SIGNED_TIMEOUT, SIGNED_SECOND}, {SIGNED_FIRST, SIGNED_SECOND})
  const W5 := World(map[0 := Ready(AFTER_THIRD)],
                    {SIGNED_FIRST, SIGNED_TIMEOUT, SIGNED_SECOND, SIGNED_THIRD},
                    {SIGNED_FIRST, SIGNED_SECOND, SIGNED_THIRD})

  ghost predicate Goes(w: World, step: Step, w': World) {
    Allowed(SoleValidatorConfig(), w, step) && Do(SoleValidatorConfig(), w, step) == w'
  }

  lemma EnterEpochOne()
    ensures Goes(W0, NewEpoch(0, 1), W1)
  {
    SoleQuorum();
  }

  lemma VoteFirst()
    ensures Goes(W1, VoteOn(0, Propose(FIRST), None), W2)
  {
    AdjacentVote(FreshSafetyData(1), FIRST, {});
  }

  lemma TimeOutFirst()
    ensures Goes(W2, TimeOut(0, TIMEOUT, None), W3)
  {
    assert SignTimeout(Ready(AFTER_FIRST), TIMEOUT, None, W2.signed) == (Ready(AFTER_FIRST), Ok(SIGNED_TIMEOUT));
  }

  /** The other genesis certificate is as high as anything the timeouts reported. */
  lemma VoteSecond()
    ensures Goes(W3, VoteOn(0, Propose(SECOND), Some(TC)), W4)
  {
    SoleQuorum();
    assert TC.rounds.Keys == {0} && TC.rounds[0] == TC.timeout.HqcRound();
    assert TcVerifies(TC, SOLE_VALIDATOR, W3.signed);
    assert ConstructAndSignVote(Ready(AFTER_FIRST), Propose(SECOND), Some(TC), W3.signed)
        == (Ready(AFTER_SECOND), Ok(VoteFor(SECOND)));
  }

  lemma VoteThird()
    ensures Goes(W4, VoteOn(0, Propose(THIRD), None), W5)
  {
    SoleQuorum();
    assert QcVerifies(THIRD.qc, SOLE_VALIDATOR, W4.signed);
    AdjacentVote(AFTER_SECOND, THIRD, W4.signed);
  }

  const WORLDS := [W0, W1, W2, W3, W4, W5]
  const STEPS := [NewEpoch(0, 1), VoteOn(0, Propose(FIRST), None), TimeOut(0, TIMEOUT, None),
                  VoteOn(0, Propose(SECOND), Some(TC)), VoteOn(0, Propose(THIRD), None)]

  lemma WithinFaultBound()
    ensures FaultBound(SoleValidatorConfig())
  {
    SoleQuorum();
    forall e: nat ensures FaultBoundIn(SoleValidatorConfig(), e) {
      assert SoleValidatorConfig().verifierOf(e) == SOLE_VALIDATOR;
    }
  }

  lemma StepsMakeRun(ws: seq<World>, steps: seq<Step>)
    requires |ws| == |steps| + 1 && Init(SoleValidatorConfig(), ws[0])
    requires forall i :: 0 <= i < |steps| ==> Goes(ws[i], steps[i], ws[i + 1])
    ensures Run(SoleValidatorConfig(), ws, steps)
  {
    forall i | 0 <= i < |steps|
      ensures Allowed(SoleValidatorConfig(), ws[i], steps[i])
      ensures ws[i + 1] == Do(SoleValidatorConfig(), ws[i], steps[i])
    {
      assert Goes(ws[i], steps[i], ws[i + 1]);
    }
  }

  lemma FirstWorldIsInitial()
    ensures Init(SoleValidatorConfig(), W0)
  {
  }

  lemma IsRun()
    ensures Run(SoleValidatorConfig(), WORLDS, STEPS)
  {
    EnterEpochOne(); VoteFirst(); TimeOutFirst(); VoteSecond(); VoteThird();
    forall i | 0 <= i < 5 ensures Goes(WORLDS[i], STEPS[i], WORLDS[i + 1]) {
      assert i == 0 || i == 1 || i == 2 || i == 3 || i == 4;
    }
    FirstWorldIsInitial();
    StepsMakeRun(WORLDS, STEPS);
  }

  lemma DifferentChains()
    ensures !SameChain(Opaque(1), Hash(SECOND))
  {
    assert !Ancestor(Opaque(1), Opaque(2));
  }

  /** A run within the fault bound that certifies commits on two different chains. */
  lemma ConflictingCommits(a: LedgerInfo, b: LedgerInfo)
    requires a == LedgerInfoOf(FIRST) && b == LedgerInfoOf(THIRD)
    ensures FaultBound(SoleValidatorConfig()) && Run(SoleValidatorConfig(), WORLDS, STEPS)
    ensures LedgerInfoVerifies(a, {0}, SOLE_VALIDATOR, WORLDS[5].signed)
    ensures LedgerInfoVerifies(b, {0}, SOLE_VALIDATOR, WORLDS[5].signed)
    ensures a.voteData.proposed.epoch == b.voteData.proposed.epoch == 1
    ensures a.commitInfo != EMPTY_BLOCK_INFO && b.commitInfo != EMPTY_BLOCK_INFO
    ensures !SameChain(a.commitInfo.id, b.commitInfo.id)
  {
    SoleQuorum();
    WithinFaultBound();
    IsRun();
    DifferentChains();
    assert a.commitInfo.id == Opaque(1) && b.commitInfo.id == Hash(SECOND);
  }
}
