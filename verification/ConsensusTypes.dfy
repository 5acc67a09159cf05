/** Values exchanged by the consensus protocol of one validator set per epoch.

    Two modelling conventions hold throughout:
    - a hash is the hashed value itself, under a free constructor, so that it is
      collision free and a block id determines the block and hence its whole chain;
    - a signature exists exactly when it is a member of the set of signatures made so
      far, so that only its author can bring it into existence. */
module ConsensusTypes {
  import opened Options

  type Author = nat
  type Round = nat

  /** `Hash(d)` is the id of the block with content `d`; `Opaque` covers ids that are not
      the hash of any block, such as the zero hash and the ids of genesis blocks. */
  datatype BlockId = Hash(data: BlockData) | Opaque(n: nat)

  /** `content` stands for the payload, the author, the timestamp and the failed authors. */
  datatype BlockData = BlockData(epoch: nat, round: Round, content: nat, qc: QuorumCert)

  /** The executed state, version, timestamp and next validator set of a block:
      all zero, the dummy used while a block is only ordered, or an execution result. */
  datatype Execution = Zero | Placeholder | Executed(result: nat)

  datatype BlockInfo = BlockInfo(epoch: nat, round: Round, id: BlockId, execution: Execution)

  const EMPTY_BLOCK_INFO := BlockInfo(0, 0, Opaque(0), Zero)

  datatype VoteData = VoteData(proposed: BlockInfo, parent: BlockInfo)

  /** `voteData` is what the consensus data hash commits to. */
  datatype LedgerInfo = LedgerInfo(commitInfo: BlockInfo, voteData: VoteData)

  datatype QuorumCert = QuorumCert(voteData: VoteData, li: LedgerInfo, signers: set<Author>)

  datatype TwoChainTimeout = TwoChainTimeout(epoch: nat, round: Round, qc: QuorumCert) {
    function HqcRound(): Round { qc.voteData.proposed.round }
  }

  /** `rounds` maps every signer to the highest certified round it signed. */
  datatype TimeoutCert = TimeoutCert(timeout: TwoChainTimeout, rounds: map<Author, Round>)

  datatype Vote = Vote(voteData: VoteData, author: Author, li: LedgerInfo,
                       timeout: Option<TwoChainTimeout>)
  {
    predicate IsTimeout() { timeout.Some? }
    function VotedRound(): Round { voteData.proposed.round }
    function VotedEpoch(): nat { voteData.proposed.epoch }
  }

  /** A signature, identified by its author and the signed message. */
  datatype Signature =
    | OnLedgerInfo(author: Author, li: LedgerInfo)
    | OnTimeout(author: Author, epoch: nat, round: Round, hqcRound: Round)

  predicate IsOrderedOnly(b: BlockInfo) {
    b != EMPTY_BLOCK_INFO && b.execution == Placeholder
  }

  predicate MatchOrderedOnly(ordered: BlockInfo, executed: BlockInfo) {
    ordered.epoch == executed.epoch && ordered.round == executed.round && ordered.id == executed.id
  }

  /** `a` lies on the chain that `b` hashes: `b` itself, its parent, and so on. */
  predicate Ancestor(a: BlockId, b: BlockId)
    decreases b
  {
    a == b || (b.Hash? && Ancestor(a, b.data.qc.voteData.proposed.id))
  }

  /** Neither of two blocks is off the chain of the other. */
  predicate SameChain(a: BlockId, b: BlockId) {
    Ancestor(a, b) || Ancestor(b, a)
  }
}
