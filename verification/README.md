# Verified models of HEMVM

A Dafny project that models the parts of HEMVM where correctness is hard to see from
the code: the replica side of AptosBFT consensus, and the block executor that runs a
Move and an Ethereum virtual machine side by side on one state. It proves what every
run of these parts keeps. `dafny verify dfyconfig.toml` checks all of it.

## What is modelled

**Consensus safety** (`SafetyRules`, `SigningRules`, `TwoChainSafety`, `RepeatedVotes`,
`TwoGeneses`, `EpochEndings`). The safety rules are the only code that signs. They are a
class whose methods are proved equal to functions on the persistent safety data; when
these sign is stated on the rounds themselves, as conditions that are necessary and
together sufficient. A run is any interleaving of votes, timeouts,
commit votes, epoch changes and restarts of honest replicas, with Byzantine validators
signing anything and passing any block or certificate to anyone. The main theorem is
agreement: two ledger infos with a quorum of signatures never commit blocks on different
chains. Quorums are weighted (`ValidatorVerifiers`).

**Vote aggregation** (`PendingVotes`, `PendingVotesRuns`, `PendingVotesAnswers`,
`PendingVotesOrder`, `VoteStatistics`). The accumulator of votes as a class, and theorems
about every sequence of `insert_vote` and `drain_votes`; each answer is determined by the
history of calls alone.

**Voting discipline** (`RoundManager`, `VotingActions`, `VotingDiscipline`). The handlers of
proposals, timeouts, echoed timeouts and certificates as a class that records its effects
in order; runs may crash between any two effects.

**Epochs** (`EpochChange`, `EpochManager`, `EpochCatchUp`, `WaypointSync`). Verification
of epoch-change proofs, the start and stop of the per-epoch managers, catching up over an
asynchronous network with faulty nodes, and the loop that advances the waypoint of the
safety rules.

**Crash recovery** (`Recovery`, `RecoveryRestart`). Finding the root, keeping its subtree,
deleting the rest, and recovering once more.

**Parallel execution of two virtual machines** (`TransactionPrograms`, `TwoWorkers`,
`SerialOrders`, `OrderExactness`, `Dispatcher`, `DispatcherInvariant`,
`DispatcherRouting`, `DispatcherSerial`, `DispatcherRuns`, `DispatcherAnswers`,
`DispatcherTheorems`, `DispatcherProgress`). The dispatcher and its three worker threads are a state machine over single-key reads, atomic
insertions of write sets and messages, under every schedule. A transaction is any program
that decides from what it has read what to read next, or to finish. `DispatcherLoop`
singles out the schedules of the dispatcher's loop as it is coded: pointers take turns,
and a pointer whose worker is busy polls the shared channel once (`DispatcherPolls`).
`DispatcherTurns` runs it. `SequentialResults`, `InvertedBlocks`, `RunOutputs`, `IdleScans`, `BatchedScans`,
`TurnChoices` and `ShortRuns` compare a run with the sequential executor: two properties
one would expect do not hold in general, and are proved to hold exactly under conditions
on the block.

**The benchmark file** (`FramedReader`, `BenchmarkFile`). The reader of framed
transactions, the nonces it collects, and which files the dispatcher then executes to the
end, block by block.

**Reading** (`PayloadManager`, `StateIterator`, `Pagination`, `Rendering`). The status of
a block's payload, the seeking iterator over versioned state, cursor pagination on top
of it, and the two ways to time-stamp rendered transactions.

`ValidatorVerifier` weighs signatures by voting power. `Options`, `ConsensusTypes`, `Projections`
and `Permutations` hold shared definitions.

## Conventions and assumptions

- A hash is the hashed value under a free constructor, so it is collision free. A
  signature exists exactly when it is in the set of signatures made so far, so nobody
  else can make it.
- Votes, rounds and versions are natural numbers. Where 64-bit arithmetic matters it is
  written out: the successor of a round, and the predecessor of a nonce, which panics for
  zero since all build profiles check for overflow.
- A panic ends a thread. A worker takes no step into a transaction that aborts, and the
  dispatcher no scan that would panic. A schedule may still scan with another pointer; the
  loop as coded then takes no more scans.
- Calls into code outside the model are parameters: local execution of a block, the
  outcome of storage writes, the answers of batch requests, decoding of transaction
  bodies, the reconfiguration notification.
- What callers of the safety rules guarantee is part of `TwoChainSafety.Allowed`: a
  timeout certificate is of the block's epoch, and a commit vote keeps the vote data of
  the ordering proof.
- Move transactions and Ethereum transactions touch different keys where a theorem about
  parallel execution says `Isolated`. Cross-VM transactions may touch all keys.
- The answers of the workers arrive on one shared channel. Schedules let the dispatcher
  scan with any pointer and take any answer at any time; `DispatcherLoop.AsCoded` says
  which of them are those of the code. Results that hold are proved for all schedules,
  and every run that shows a failure is one of the code.
- A default quorum gives the fault bound of the safety theorems
  (`TwoChainSafety.DefaultQuorumsSuffice`).
- After syncing to an epoch-ending ledger info, the reconfiguration notification is that
  of this ledger info or of a later one (`EpochCatchUp.Enabled`).
- `EpochChange.HonestEndings`: in each epoch, honest validators sign one epoch-ending
  ledger info, up to the part a waypoint does not cover. That an epoch announces one next
  validator set is what `EpochEndings.OneNextEpoch` proves of replicas that run the safety
  rules, provided that execution is deterministic and that a block on top of an
  epoch-ending one keeps its outcome.
- consensus/README.md describes a 3-chain commit rule. The code commits on two adjacent
  rounds, and the model follows the code.

## Model

| member | source | states |
|---|---|---|
| ValidatorVerifiers.CheckVotingPower | types/src/validator_verifier.rs:315-335 | the loop over authors finds an unknown author, or compares the power of exactly these authors with the quorum |
| ValidatorVerifiers.WithDefaultQuorum | types/src/validator_verifier.rs:141-151 | the default quorum is the least number above two thirds of the total power |
| ValidatorVerifiers.QuorumIntersection | types/src/validator_verifier.rs:315-335 | two quorums share a signer outside every set whose power is below twice the quorum minus the total |
| SafetyRules.SafetyRules.VerifyAndUpdateLastVoteRound | consensus/safety-rules/src/safety_rules.rs:165-184 | succeeds exactly for a round above the last voted one, which it then records |
| SafetyRules.SafetyRules.ConstructAndSignVoteTwoChain | consensus/safety-rules/src/safety_rules_2chain.rs:48-91 | result and new persistent state are those of the voting rule, error by error, on which `SigningRules.VotesExactlyIf` and `RepeatedVotes.SecondCallReturnsSameVote` say when there is a vote and which |
| SafetyRules.SafetyRules.SignTimeoutWithQc | consensus/safety-rules/src/safety_rules_2chain.rs:17-46 | result and new persistent state are those of the timeout rule, error by error, on which `SigningRules.TimesOutExactlyIf` says when there is a signature |
| SigningRules.QcExactlyIf | consensus/consensus-types/src/quorum_cert.rs:108-137 | a certificate past round zero verifies if and only if known authors with quorum power have signed its ledger info and it is of a later round than its parent; one of round zero, unsigned, if and only if it is its own parent and commits itself |
| SigningRules.TcExactlyIf | consensus/consensus-types/src/timeout_2chain.rs:141-177 | a timeout certificate verifies if and only if known authors with quorum power have each signed the round attributed to them, and the certificate carried verifies and is of the highest of these rounds |
| SigningRules.VotesExactlyIf | consensus/safety-rules/src/safety_rules_2chain.rs:48-91 | a vote is returned if and only if the proposal and the timeout certificate verify and either the last vote is of the round proposed, and then that vote is returned and nothing changes, or the round is above the last voted one and the block directly follows its certificate, or a timeout certificate that reports nothing higher; the new vote, its commit info and every promise are given; an error changes nothing |
| SigningRules.VoteErrors | consensus/safety-rules/src/safety_rules_2chain.rs:48-91 | which states and proposals give the errors that a caller answers by initialising again, and when a round is refused as voted on |
| SigningRules.TimesOutExactlyIf | consensus/safety-rules/src/safety_rules_2chain.rs:17-46 | a timeout is signed if and only if it verifies, follows a certificate or a timeout certificate, reports no less than the certificates voted on, and is of no round before the last voted one |
| SigningRules.TimeOutAfterVote | consensus/safety-rules/src/safety_rules_2chain.rs:17-91 | after a vote its round can be timed out in, exactly with a certificate no lower than those voted on, and afterwards no other block of the round gets a vote but the vote is still returned |
| SigningRules.CommitVoteExactlyIf | consensus/safety-rules/src/safety_rules.rs:327-361 | a commit vote is signed if and only if a quorum has signed the ordering of the very block executed, with the result still open |
| SigningRules.EntersExactlyIf | consensus/safety-rules/src/safety_rules.rs:233-299 | entering an epoch forgets the promises if and only if it is a later one, loads the key if and only if the author is in its validator set, and does nothing for an earlier one |
| RepeatedVotes.SecondCallReturnsSameVote | consensus/safety-rules/src/safety_rules_2chain.rs:63-69 | in every run: asked again for a round of an epoch in which it has returned a vote, a replica returns that very vote and changes nothing if the proposal and the timeout certificate verify and it has made no later vote since, and no vote otherwise |
| TwoChainSafety.RunKeepsInv | consensus/safety-rules/src/safety_rules_2chain.rs:17-171 | every run keeps: votes are rule-abiding, one per round and replica; timeouts report the parents of earlier votes; every honest signature is a vote or backed by a quorum of votes |
| TwoChainSafety.OneQuorumPerRound | consensus/safety-rules/src/safety_rules_2chain.rs:48-91 | two quorums of votes in one round of an epoch are for the same ledger info |
| TwoChainSafety.ParentNotOlder | consensus/safety-rules/src/safety_rules_2chain.rs:95-150 | a certified block above a committed one has a parent no older than the committed block, whether it follows a certificate or a timeout certificate |
| TwoChainSafety.CertifiedExtendsCommitted | consensus/safety-rules/src/safety_rules_2chain.rs:121-171 | every certified block of at least the committed round descends from the committed block |
| TwoChainSafety.Agreement | consensus/safety-rules/src/safety_rules_2chain.rs:17-171 | in every run, two ledger infos of an epoch that verify commit blocks on one chain, for commits past round zero |
| TwoChainSafety.AgreementFromGenesis | consensus/src/block_storage/block_store.rs:342-390 | the same for all commits, if the votes of the epoch grow from one genesis block, as a block store with a single root ensures |
| TwoGeneses.ConflictingCommits | consensus/consensus-types/src/quorum_cert.rs:108-137 | a run in which commits of round zero conflict, since a certificate of round zero verifies without signatures: the single root is needed |
| EpochEndings.CommittedIsLocal | consensus/safety-rules/src/safety_rules.rs:327-361 | in every run, what a verified ledger info commits past round zero is the result of execution on an honest replica, or the dummy of an ordered block |
| EpochEndings.OneNextEpoch | execution/executor/src/block_executor.rs:200-213 | in every run, two verified ledger infos that end an epoch announce the same next validator set |
| PendingVotes.PendingVotes.InsertVote | consensus/src/pending_votes.rs:84-218 | result and new state are those of the aggregation function: duplicates, equivocation, upgrade to a timeout, certificate before timeout certificate, echo; `PendingVotesAnswers.EveryAnswer` gives each answer from the history of calls |
| PendingVotes.PendingVotes.DrainVotes | consensus/src/pending_votes.rs:220-231 | hands out every ledger info with its signers once, and the partial timeout certificate, and forgets both but not who voted |
| PendingVotesRuns.RunConsistent | consensus/src/pending_votes.rs:84-231 | after any sequence of calls each author's power is behind one ledger info at most, and partial timeouts are those of recorded votes |
| PendingVotesRuns.OneCertificatePerRound | consensus/src/pending_votes.rs:84-170 | one instance never certifies two ledger infos, whoever sends the votes, if two quorums exceed the total |
| PendingVotesRuns.EmittedQcVerifies | consensus/src/pending_votes.rs:124-170 | a certificate formed from verified votes passes certificate verification |
| PendingVotesRuns.CertificatesAgree | consensus/src/pending_votes.rs:84-170 | two replicas, any arrival orders: if honest authors sign one ledger info in the round, certificates carry the same one |
| PendingVotesRuns.CertifiedBlocksAgree | consensus/src/pending_votes.rs:84-170 | the same for replicas that run the safety rules, in every run: one certified block per round across replicas |
| PendingVotesRuns.EmittedTcVerifies | consensus/src/pending_votes.rs:176-198 | a timeout certificate passes verification, and its signers have recorded timeout votes, even those that upgraded a plain vote |
| PendingVotesRuns.EchoOnce | consensus/src/pending_votes.rs:201-210 | the echo is returned at most once over any sequence of calls |
| PendingVotesRuns.EchoHasHonestTimeout | consensus/src/pending_votes.rs:201-210 | when it is returned, an honest author has timed out |
| PendingVotesAnswers.EveryAnswer | consensus/src/pending_votes.rs:84-231 | after any sequence of calls, the answer to a vote is determined by the history: an equivocation if and only if its author has voted for another ledger info; a repetition if and only if as much was received before; an error for an unknown author; a certificate if and only if the voters since the last drain are a quorum; failing that, a timeout certificate if and only if those who timed out are one; failing that, the echo if and only if they exceed for the first time what a quorum can do without; and else the power so far |
| PendingVotesAnswers.TimeoutCertificateCarries | consensus/src/pending_votes.rs:176-198 | a timeout certificate carries for each of its authors the round that author reported, and the highest certificate among them |
| PendingVotesOrder.OrderIndependence | consensus/src/pending_votes.rs:84-218 | every arrival order of the same non-equivocating plain votes ends in the same state |
| PendingVotesOrder.CertificateWhenQuorum | consensus/src/pending_votes.rs:84-170 | a vote is answered with a certificate if and only if it is new and its ledger info has quorum power with it |
| PendingVotesOrder.FirstCertificateAtQuorum | consensus/src/pending_votes.rs:84-170 | the first certificate of a ledger info comes exactly at the first prefix whose distinct authors reach the quorum |
| VoteStatistics.DrainedDisjoint | consensus/src/pending_votes.rs:96-141 | drained ledger infos never share a signer |
| VoteStatistics.MaxTallyIsLargest | consensus/src/round_manager.rs:334-338 | the maximum is reached by a ledger info and exceeded by none, by power and then by count |
| VoteStatistics.StatsConserve | consensus/src/round_manager.rs:314-343 | for every reachable accumulator, maximum plus conflicting equals the power, and the number, of the distinct authors behind any ledger info, all of whom have voted, at most the total |
| RoundManager.RoundManager.ProcessVerifiedProposal | consensus/src/round_manager.rs:726-790 | persists the promise, saves, records and sends the vote, in this order, and stops at the first failure |
| RoundManager.RoundManager.ProcessDelayedProposal | consensus/src/round_manager.rs:448-458 | a proposal of another round has no effect |
| RoundManager.RoundManager.ProcessLocalTimeout | consensus/src/round_manager.rs:559-614 | repeats the recorded vote of the round or votes for a NIL block, adds a signed timeout, records and sends |
| RoundManager.RoundManager.ProcessEchoTimeout | consensus/src/round_manager.rs:874-880 | joins the timeout unless it has timed out already |
| RoundManager.RoundManager.ProcessCertificates | consensus/src/liveness/round_state.rs:241-272 | enters the round after the highest certificate if that is a later round, forgetting the recorded vote |
| RoundManager.RoundManager.SignVoteWithRetry | consensus/src/metrics_safety_rules.rs:65-79 | signs once; only after an error that calls for it, initialises the safety rules and signs a second time |
| RoundManager.RoundManager.constructor | consensus/src/round_manager.rs:911-922 | a start records the last saved vote if it is of this epoch and round |
| VotingActions.SignVoteExactlyIf | consensus/src/metrics_safety_rules.rs:65-79 | a vote is obtained if and only if the rules, initialised again exactly if they ask for it and that can be had, have one to give; it is the last vote if that was of the round, and else the vote for the proposal |
| VotingActions.ProposalExactlyIf | consensus/src/round_manager.rs:726-790 | a proposal is voted on if and only if it is of the current round, was executed, no vote is recorded, the replica is not only syncing, the rules have a vote to give and storage takes it; that vote and no other is then promised, saved, recorded and sent, and otherwise nothing is |
| VotingActions.TimeoutAfterVoteExactlyIf | consensus/src/round_manager.rs:559-614 | with a vote recorded, a local timeout sends it again if it has timed out before, and else the same vote with the signed timeout if and only if the rules sign it |
| VotingActions.TimeoutWithoutVoteExactlyIf | consensus/src/round_manager.rs:559-614 | without one, it votes for a NIL block and times out with that vote if and only if the rules have the vote to give, storage takes it and the rules sign the timeout; if only the vote is made, it is saved but not sent |
| VotingActions.EchoExactlyIf | consensus/src/round_manager.rs:874-880 | an echoed timeout is a local one, unless the recorded vote is a timeout already, and then nothing changes |
| VotingActions.CertificatesExactlyIf | consensus/src/liveness/round_state.rs:241-272 | after any sequence of certificates the replica is in the round after the highest one, or in the later one it was in before, and the recorded vote is forgotten if and only if the round has changed |
| VotingActions.PromisedVoteIsSent | consensus/src/round_manager.rs:757-790 | the vote promised before a crash is the one sent when any block of its round is proposed again after the restart, even if it had not been saved |
| VotingDiscipline.RunHasInv | consensus/src/round_manager.rs:448-458 | over every run with crashes at any effect, what is saved is promised, and what is recorded or sent is saved |
| VotingDiscipline.NoEquivocation | consensus/src/round_manager.rs:726-790 | at every crash point all votes sent in a round carry the same vote data, and each sent vote is of an earlier round than the saved vote or equal to it in vote data |
| VotingDiscipline.OnlyTheCurrentRound | consensus/src/round_manager.rs:500-614 | an event makes a replica send votes for its current round only |
| VotingDiscipline.SentIsRecorded | consensus/src/round_manager.rs:742-744 | once an event is handled, the vote it sent is the one recorded in the round state |
| VotingDiscipline.OneVotePerRound | consensus/src/round_manager.rs:763-768 | with a vote recorded for the round, no proposal is voted on, and timeouts send that vote data only |
| EpochChange.VerifyProof | types/src/epoch_change.rs:66-118 | the loop skips the stale prefix and checks each ledger info with the validators announced by the one before |
| EpochChange.VerifiesExactlyIf | types/src/epoch_change.rs:66-118 | a proof is accepted if and only if its last ledger info is not stale and, after the stale ones at its front, the first is accepted by the verifier, each other one by the validators its predecessor announces, and all announce some; the result is the last one |
| EpochChange.AcceptedProofIsSound | types/src/epoch_change.rs:58-118 | any accepted proof, from an epoch state or a waypoint, ends in the validator set the network really had in a later epoch |
| EpochChange.ServedPageIsAccepted | storage/aptosdb/src/lib.rs:567-610 | a page that reaches beyond the reader's epoch is accepted despite stale entries, and leads to the epoch after its last entry |
| EpochManager.EpochManager.ShutdownCurrentProcessor | consensus/src/epoch_manager.rs:513-543 | every manager alive has acknowledged, voting manager first, and no handle is left |
| EpochManager.EpochManager.StartNewEpoch | consensus/src/epoch_manager.rs:708-735 | from the idle state, starts a recovery manager, or a round manager with a buffer manager if execution is decoupled, all of the new epoch |
| EpochManager.EpochManager.InitiateNewEpoch | consensus/src/epoch_manager.rs:406-430 | a verified proof shuts the managers down, then starts those of the new epoch; another proof changes nothing |
| EpochManager.EpochManager.ProcessMessage | consensus/src/epoch_manager.rs:737-844 | reacts by epoch as specified; a network event is delivered, as it is, if and only if it is of the current epoch, verifies, is not of a quorum store that is off, and the manager of its role is there; only an accepted proof changes the epoch |
| EpochManager.DeliveredIsVerified | consensus/src/epoch_manager.rs:752-780 | over every history, whatever is delivered was received, verifies, and goes to the one manager alive in its role, which is of the epoch of the event |
| EpochManager.EpochManager.ProcessLocalTimeout | consensus/src/epoch_manager.rs:922-924 | a local timeout goes to the voting manager alive |
| EpochManager.AtMostOneManager | consensus/src/epoch_manager.rs:513-572 | at no time are two round or recovery managers alive, nor two buffer managers |
| EpochManager.AcknowledgedInBetween | consensus/src/epoch_manager.rs:513-543 | between two starts of a role the first manager has acknowledged its shutdown |
| EpochManager.BufferStays | consensus/src/epoch_manager.rs:513-543 | as long as a voting manager is alive, the buffer manager it was started with is, and none that it was not started with: the one is started before it and stopped after it |
| EpochCatchUp.EpochsNeverDecrease | consensus/src/epoch_manager.rs:406-430 | with any message delay and faulty nodes, no node's epoch ever decreases, and no node's storage loses one |
| EpochCatchUp.RequestsAreServed | consensus/src/epoch_manager.rs:829-838 | a request between honest nodes is never beyond what the addressee has, and is answered with a page from the requested epoch |
| EpochCatchUp.BadRequestIsRejected | consensus/src/epoch_manager.rs:829-838 | a request beyond the epoch of its addressee, or for an interval that ends before it starts, changes nothing |
| EpochCatchUp.EventAsks | consensus/src/epoch_manager.rs:388-398 | an event of a later epoch makes a node ask its sender for exactly the epochs from its own to that one |
| EpochCatchUp.EarlierEventIsServed | consensus/src/epoch_manager.rs:359-387 | an event of an earlier epoch makes a node outside the validator set send the page of the proof that starts there, and one inside it do nothing |
| EpochCatchUp.ProofsOnlyAdvance | consensus/src/epoch_manager.rs:811-828 | in every run, a proof that changes anything starts in the epoch of the node it reaches, and brings this node and no other to a later epoch; stale and repeated proofs change nothing |
| EpochCatchUp.NoProofTwice | consensus/src/epoch_manager.rs:811-828 | a proof that has changed a node's epoch has no effect when it arrives again |
| EpochCatchUp.AnswerCatchesUp | consensus/src/epoch_manager.rs:323-404 | in every run, an answer that arrives any time later, while the asker still is in the epoch it asked from, brings it to the requested epoch or a page of 100 epochs further, or later |
| EpochCatchUp.EventCatchesUp | consensus/src/epoch_manager.rs:323-404 | from an event of a later epoch to its end: the request and the answer, however late they arrive, bring a node that still is where it was to the epoch of the event or a page of 100 epochs further, or later |
| WaypointSync.PerformInitialize | consensus/src/metrics_safety_rules.rs:34-63 | the loop ends, with the distance of the waypoint to the last epoch in storage as measure, in the state of the specification |
| WaypointSync.UpdateIsBounded | consensus/safety-rules/src/safety_rules.rs:215-243 | the waypoint only advances, and never past storage |
| WaypointSync.InitialisationCatchesUp | consensus/src/metrics_safety_rules.rs:34-63 | initialisation enters the first page boundary not before the epoch of the safety data, and fails if and only if storage is behind that epoch |
| WaypointSync.NothingBeyondStorage | consensus/src/metrics_safety_rules.rs:34-63 | with the waypoint beyond all epochs in storage nothing is entered: storage does not have its version, or offers no proof |
| Recovery.SortSorts | consensus/src/persistent_liveness_storage.rs:108-109 | sorting by epoch and round yields a sorted permutation |
| Recovery.SortFilter | consensus/src/persistent_liveness_storage.rs:108-109 | the sort is stable: deleting before or after it makes no difference |
| Recovery.FindBlocksToPrune | consensus/src/persistent_liveness_storage.rs:271-299 | the two passes compute the kept blocks, the kept certificates and the prune list of the specification |
| Recovery.KeptIsSubtree | consensus/src/persistent_liveness_storage.rs:276-289 | one pass over sorted blocks keeps exactly those joined to the root by a path of parents |
| RecoveryRestart.RecoveryData | consensus/src/persistent_liveness_storage.rs:77-242 | finds root, root certificate and ordering certificate or fails as the code does, then prunes; the rows below say what of the database is recovered |
| RecoveryRestart.RecoversIf | consensus/src/persistent_liveness_storage.rs:111-125 | recovery succeeds if and only if the committed block, a certificate for it and one that commits it exist, and finds them; each error names what is missing |
| RecoveryRestart.GenesisIsFound | consensus/src/persistent_liveness_storage.rs:89-100 | after an epoch-ending ledger info recovery always succeeds, from the virtual genesis block |
| RecoveryRestart.ExactSubtree | consensus/src/persistent_liveness_storage.rs:180-182 | recovered blocks are exactly those in the database with the root as an ancestor, parents first, in round order |
| RecoveryRestart.ExactCertificates | consensus/src/persistent_liveness_storage.rs:290-297 | recovered certificates are exactly those that certify the root or a recovered block |
| RecoveryRestart.ExactPruneList | consensus/src/persistent_liveness_storage.rs:276-298 | the prune list is exactly what is in the database and not recovered: never the root or a recovered block |
| RecoveryRestart.ExactVoteAndTimeout | consensus/src/persistent_liveness_storage.rs:226-241 | the last vote, and the timeout certificate, are recovered if and only if they are of the epoch of the root, and as they were |
| RecoveryRestart.RestartIsIdempotent | consensus/src/persistent_liveness_storage.rs:383-404 | after the deletions a second recovery gives the same data with an empty prune list if and only if a recovered certificate commits the root |
| RecoveryRestart.RestartChangesNothing | consensus/src/block_storage/block_store.rs:403-434 | a restart recovers exactly the same, from any database in which a certificate that commits the root is not stored without the child of the root it certifies, as its writers see to; the deletions keep it so |
| RecoveryRestart.RestartCanFail | consensus/src/persistent_liveness_storage.rs:121-125 | the writers must see to it: with a certificate stored without its block, the next recovery fails |
| Dispatcher.ScanBatch | aptos-move/block-executor/src/executor.rs:427-470 | the scanning loop finds the batch, the new pointer and the nonces of the specification, or panics at nonce zero of a sender it knows; `DispatcherRouting` gives what is taken on the kinds of transactions |
| Dispatcher.ScanFinds | aptos-move/block-executor/src/executor.rs:427-470 | a scan sends consecutive transactions of its class, only when no worker is busy that could interfere, and steps over at most one other |
| DispatcherInvariant.StepKeepsExclusive | aptos-move/block-executor/src/executor.rs:542-748 | under every schedule a worker has at most one batch, and the cross-VM worker has one only when the others have none |
| DispatcherRouting.RoutedByKind | aptos-move/block-executor/src/executor.rs:404-748 | under every schedule the Aptos worker holds Move transactions only, the Ethereum worker Ethereum transactions only, and the cross-VM worker only transactions of both cross-VM kinds and the checkpoint, while the other two then hold nothing |
| DispatcherRouting.TakenExactlyIf | aptos-move/block-executor/src/executor.rs:542-748 | a pointer takes the transaction under it if and only if it is of a kind of that pointer, the workers that could interfere are idle, and its nonce is the one after the last of its sender, or zero if there is none, and a checkpoint if and only if it is all that is left; likewise for stepping over, waiting and panicking |
| DispatcherSerial.ScheduleKeepsInv | api/src/transactions.rs:1020-1210 | under every schedule the write sets inserted so far are those of a serial execution, what a running transaction has read stays valid, and each machine sees its transactions in the order sent |
| DispatcherRuns.RunKeepsInv | aptos-move/block-executor/src/executor.rs:417-532 | and nothing is lost, doubled or answered without being executed; classes go in block order, senders in nonce order, the checkpoint last |
| DispatcherAnswers.RunKeepsAnswerInv | aptos-move/block-executor/src/executor.rs:486-528 | each machine sees its transactions and the cross-VM ones answered in the order sent; pointers pass a checkpoint only when one transaction at most is unsent, and nothing behind it is ever sent |
| DispatcherTheorems.FinishedRunSendsAll | aptos-move/block-executor/src/executor.rs:417-536 | whatever the programs touch, a finished run has sent every transaction once, classes in block order, senders in nonce order, the checkpoint last; a block with a checkpoint elsewhere than at its end never finishes |
| DispatcherTheorems.FinishedRunIsSerial | aptos-move/block-executor/src/executor.rs:381-536 | the cache of a finished run and the vector it returns, position by position, are those of executing all transactions one by one in the order of their answers, which neither machine can tell from the order sent; so outputs are serial up to the order of answers |
| SequentialResults.SequentialCacheExactlyIf | aptos-move/block-executor/src/executor.rs:826-881 | for the kinds of transactions in a block, every finished run leaves the cache of the sequential executor, whatever senders, nonces and isolated programs, if and only if a checkpoint keeps the block from finishing or no transaction of a cross-VM kind shares it with a Move or an Ethereum transaction; for the loop as coded and for every schedule |
| SequentialResults.SequentialVectorExactlyIf | aptos-move/block-executor/src/executor.rs:500-535 | and every finished run returns the sequential vector, output by output, if and only if a checkpoint keeps the block from finishing or its user transactions are all Move, all Ethereum, or all of cross-VM kinds |
| IdleScans.RunScansAsIdle | aptos-move/block-executor/src/executor.rs:417-532 | under every schedule, what has been sent so far, and the pointers and nonces, are those of some order of scans with no worker ever busy |
| IdleScans.SequentialCacheOfBlockExactlyIf | aptos-move/block-executor/src/executor.rs:826-881 | for a block with its senders and nonces, every finished run leaves the sequential cache, whatever isolated programs it runs, if and only if all orders of such idle scans that send the block let each machine see it in block order |
| TurnChoices.RunIsChosen | aptos-move/block-executor/src/executor.rs:404-532 | every run of the loop as coded is one of a loop without workers and programs, in which each turn of a busy pointer takes no answer or that of some busy worker |
| DispatcherPolls.OneAnswerPerTurn | aptos-move/block-executor/src/executor.rs:404-532 | in every run of the loop as coded the pointers take turns, and between two scans one answer is taken at most: none if the worker of the pointer is idle after its scan, and exactly one if it is busy and an answer was waiting |
| DispatcherPolls.TakenInOrder | aptos-move/block-executor/src/executor.rs:486-495 | and answers are taken in the order in which the workers gave them |
| TurnChoices.LoopCacheExactlyIf | aptos-move/block-executor/src/executor.rs:404-532 | for a block with its senders and nonces, every run of the loop as coded that finishes leaves the sequential cache, whatever isolated programs it runs, if and only if no choice of answers makes a machine see the block sent in another order |
| TurnChoices.LoopVectorExactlyIf | aptos-move/block-executor/src/executor.rs:486-535 | and returns the sequential vector if and only if no choice takes the answers in another order than that of the block |
| BatchedScans.BatchesKeepOrder | aptos-move/block-executor/src/executor.rs:427-482 | nonces alone do not decide this: a block that its nonces would let be sent in another order, and that is always sent in block order because a scan sends all it finds |
| RunOutputs.VectorOfRunExactlyIf | execution/executor/src/components/apply_chunk_output.rs:118-123 | a single schedule returns the outputs at the places of their transactions, for every choice of isolated programs, if and only if it collects the answers in block order |
| ShortRuns.OutputsChangePlaces | aptos-move/block-executor/src/executor.rs:500-535 | outputs may change places: a run of the loop as coded, of a Move and an Ethereum transaction, that leaves the sequential cache and returns the second output first |
| ShortRuns.NotTheBlockOrder | aptos-move/block-executor/src/executor.rs:404-532 | and the cache may differ: a run of the loop as coded, of accounts with nonces in block order, in which a cross-VM transaction that waits for the Ethereum worker is overtaken by a later Move transaction |
| DispatcherProgress.SchedulesAreFinite | aptos-move/block-executor/src/executor.rs:417-532 | if programs finish, no schedule has more than 3n(b+5) steps with an effect, for n transactions of at most b reads |
| DispatcherProgress.NeverPanics | aptos-move/block-executor/src/executor.rs:650-728 | if some order suits the block, no scan panics in any reachable state: nonce zero is never left for a sender that is known |
| DispatcherProgress.NeverStuck | aptos-move/block-executor/src/executor.rs:542-748 | and some step has an effect in every reachable unfinished state: a worker acts, an answer is collected, or a pointer moves |
| DispatcherProgress.FinishesExactlyIf | aptos-move/block-executor/src/executor.rs:417-748 | no schedule panics and every one that stops has finished the block, and some schedule finishes it, if and only if the block can be put in an order that keeps each class in block order, numbers each sender consecutively from its next nonce, of which there is none after the largest, and has the checkpoint, which ends the block, last |
| DispatcherTurns.LoopFinishesExactlyIf | aptos-move/block-executor/src/executor.rs:404-532 | the loop as coded can finish exactly these blocks |
| DispatcherProgress.GapGetsStuck | aptos-move/block-executor/src/executor.rs:680-692 | for other blocks it gets stuck: a single transaction with a nonce gap is never sent |
| DispatcherProgress.LargestNoncePanics | aptos-move/block-executor/src/executor.rs:680-692 | or panics: an account that has used its largest nonce starts over from zero |
| SerialOrders.Commute | api/src/transactions.rs:1033-1063 | a Move and an Ethereum transaction commute, including when one does not finish |
| SerialOrders.ReadsLastWrite | api/src/transactions.rs:1020-1063 | after any transactions, what is read under a key is what the last one that wrote it wrote, and the value before the block if none did |
| SerialOrders.SameOrderSameOutcome | api/src/transactions.rs:1020-1148 | orders that agree on each machine's own and cross-VM transactions have the same cache and the same outputs |
| OrderExactness.SameOrderIsExact | aptos-move/block-executor/src/executor.rs:381-536 | and only those: two orders of a block have the same outcome for every choice of isolated programs if and only if each machine sees its own and the cross-VM transactions in the same order |
| TwoWorkers.EveryInterleavingIsSerial | api/src/transactions.rs:1020-1148 | every interleaving of a Move batch and an Ethereum batch ends with the cache and the outputs, in batch order, of one whole batch after the other, in either order |
| FramedReader.ReadEncoded | api/src/transactions.rs:570-580 | reading well-formed frames ends exactly at the end of the file and recovers them in order |
| FramedReader.ReadIsEncoded | api/src/transactions.rs:1223-1233 | any file that can be read is the encoding of what is read |
| FramedReader.FrameLayout | api/src/transactions.rs:1223-1235 | a frame is cut if and only if its two length bytes, low byte first, are there and cover a type byte that is one of four; the type byte is the last one |
| FramedReader.TransactionReader.ReadTx | api/src/transactions.rs:1215-1293 | cuts the next frame, and keeps the nonce map and both flags right for all frames read |
| FramedReader.TransactionReader.ReadTxOnly | api/src/transactions.rs:1296-1340 | the reader without nonces cuts the same frame |
| FramedReader.TransactionReader.ReadFile | api/src/transactions.rs:570-580 | reads the whole file or stops where the reader panics; the nonce map holds exactly the senders seen before their machine's first zero sequence number, with the predecessor of the first one |
| BenchmarkFile.BlocksPartition | api/src/transactions.rs:597-600 | the blocks hold the transactions of the file in order, 2500 in each but the last, each followed by a checkpoint |
| BenchmarkFile.FrameIsRouted | aptos-move/block-executor/src/executor.rs:404-748 | under every schedule the type byte of a frame decides which worker gets its transaction: 1 the Aptos worker, 5 the Ethereum worker, 3 and 7 the cross-VM worker with nothing running beside it |
| BenchmarkFile.FileIsExecutedExactlyIf | api/src/transactions.rs:570-634 | a file that has been read is executed to the end, by some schedules of the loop as coded, and by all schedules without a panic, if and only if each block of 2500 transactions and a checkpoint can be sent in an order that keeps classes in file order and numbers every sender consecutively through the blocks, from its first sequence number if that comes before the first zero of its machine, and from zero otherwise |
| PayloadManager.AwaitAll | consensus/src/payload_manager.rs:131-178 | awaiting succeeds if and only if every batch arrives, and then yields all of them in order |
| PayloadManager.AwaitFails | consensus/src/payload_manager.rs:131-168 | a failure is that of the first batch that does not arrive |
| PayloadManager.Payload.RequestTransactions | consensus/src/payload_manager.rs:28-51 | requests exactly the batches of unexpired proofs, in order |
| PayloadManager.Payload.Prefetch | consensus/src/payload_manager.rs:79-106 | requests if there is no status, and leaves a status alone |
| PayloadManager.Payload.GetTransactions | consensus/src/payload_manager.rs:110-180 | returns the cache, or awaits and caches, or fails with the first failure and requests everything again; a success is the contents of the payload |
| PayloadManager.EverySuccessAgrees | consensus/src/payload_manager.rs:79-189 | over every sequence of calls, there always is a status between calls and every success returns the unexpired batches in order |
| PayloadManager.SuccessIsCached | consensus/src/payload_manager.rs:123-130 | after a success every later call returns the same, whatever the network yields |
| PayloadManager.FailsExactlyIf | consensus/src/payload_manager.rs:131-178 | a call fails if and only if nothing was cached and some batch does not arrive, and then the same is requested again |
| StateIterator.PrefixedStateValueIterator.constructor | storage/aptosdb/src/utils/iterators.rs:101-132 | stands before the account's listing, or before a given key of it |
| StateIterator.PrefixedStateValueIterator.Next | storage/aptosdb/src/utils/iterators.rs:134-167 | the seeking loop yields the next entry of the account at the version asked for, and ends only when there is none left |
| StateIterator.MoveIsRight | storage/aptosdb/src/utils/iterators.rs:134-167 | no round of the loop loses or repeats an entry, and every round that yields nothing makes progress |
| Pagination.DetermineLimit | api/src/page.rs:74-97 | zero is refused, and the limit is the smaller of what is asked for and the maximum |
| Pagination.FromEntry | api/src/context.rs:285-289 | a cursor stands exactly before the entry whose key it is |
| Pagination.PageRefusedExactlyIf | api/src/context.rs:310-320 | a request fails if and only if a malformed key is on its page or is the first one after it |
| Pagination.PagesPartition | api/src/context.rs:278-366 | following the cursor from the start ends if and only if no key of the account is malformed, and the pages then partition its entries of the kind wanted, each once, in key order |
| Rendering.RenderSequential | api/src/context.rs:508-537 | the renderer carries the timestamp of the last block metadata transaction along |
| Rendering.RenderersAgree | api/src/context.rs:508-564 | a run started with its block timestamp gets the looked-up timestamps if and only if no transaction in it starts a block at another time without being block metadata |
| Rendering.FrameworkLedgersAgree | aptos-move/framework/aptos-framework/sources/block.move:173-214 | on a ledger whose other block events come from the framework, genesis at time zero and write sets at the current time, the two renderers always agree |
| Rendering.SilentBlockDiffers | api/src/context.rs:539-564 | a ledger on which they differ, with a write set written by hand that starts a block at a later time |

## Left out

- DispatcherTheorems.FinishedRunIsSerial: is about runs that finish; a transaction that aborts stops its worker for good.
- DispatcherProgress.FinishesExactlyIf: is about blocks whose programs finish after a bounded number of reads.
- EpochManager.EpochManager.ProcessLocalTimeout: local timeouts are forwarded without an epoch check, so they are not part of the claim about epochs.
- RecoveryRestart.RecoveryData: merging the ordering certificate with the executed ledger info, and its panic when they do not match, are not modelled.
- VotingDiscipline.NoEquivocation: votes that crash between the promise and the database are covered; loss of the database itself is not.
- Liveness of consensus, round timers, leader election and reputation, and the proposal generator.
- The block store and block retrieval, except for the assumption that an epoch has one root.
- Placeholder and system transactions, which make the dispatcher panic, and the skip-rest flag, which the parallel executor ignores.
- Signatures, hashes, BCS and RLP decoding, the Move VM and the EVM.
- Gas-price estimation and block page sizes of the REST API.
- Quorum store, buffer manager phases and state sync.
- REST endpoints, logging, counters, configuration, network plumbing and test tooling.
