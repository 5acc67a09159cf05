/** Guarantees of vote aggregation over whole runs: any sequence of votes and drains. */
module PendingVotesRuns {
  import opened Options
  import opened ConsensusTypes
  import opened ValidatorVerifiers
  import opened PendingVotes
  import Rules = SafetyRules
  import Protocol = TwoChainSafety

  datatype Op = Receive(vote: Vote) | Drain

  function Apply(st: State, op: Op, v: ValidatorVerifier): State
    requires v.quorum <= v.Total()
  {
    match op
    case Receive(vote) => Insert(st, vote, v).0
    case Drain => Drained(st)
  }

  function After(ops: seq<Op>, v: ValidatorVerifier): State
    requires v.quorum <= v.Total()
  {
    if ops == [] then EMPTY else Apply(After(ops[..|ops| - 1], v), ops[|ops| - 1], v)
  }

  /** The answer to the vote received at position `i`. */
  function ResultAt(ops: seq<Op>, i: nat, v: ValidatorVerifier): VoteReceptionResult
    requires v.quorum <= v.Total() && i < |ops| && ops[i].Receive?
  {
    Insert(After(ops[..i], v), ops[i].vote, v).1
  }

  lemma AfterStep(ops: seq<Op>, i: nat, v: ValidatorVerifier)
    requires v.quorum <= v.Total() && i < |ops|
    ensures After(ops[..i + 1], v) == Apply(After(ops[..i], v), ops[i], v)
  {
    assert ops[..i + 1][..i] == ops[..i];
  }

  // ---------------------------------------------------------------- invariant

  /** The partial certificate lists stored timeout votes with the rounds they signed, and
      carries the one with the highest certificate. */
  ghost predicate TcConsistent(p: PartialTc, votes: map<Author, Vote>) {
    && (forall a :: a in p.rounds ==>
          && a in votes && votes[a].timeout.Some?
          && p.rounds[a] == votes[a].timeout.value.HqcRound() <= p.timeout.HqcRound())
    && exists a :: a in p.rounds && a in votes && votes[a].timeout == Some(p.timeout)
  }

  ghost predicate Consistent(st: State) {
    && (forall a :: a in st.authorVotes ==> st.authorVotes[a].author == a)
    && (forall li, a :: li in st.liVotes && a in st.liVotes[li] ==>
          a in st.authorVotes && st.authorVotes[a].li == li)
    && (st.partialTc.Some? ==> TcConsistent(st.partialTc.value, st.authorVotes))
  }

  /** Once recorded, the ledger info and the timeout of an author stay. */
  ghost predicate Extends(st: State, st': State) {
    && (forall a :: a in st.authorVotes ==>
          && a in st'.authorVotes && st'.authorVotes[a].li == st.authorVotes[a].li
          && (st.authorVotes[a].timeout.Some? ==> st'.authorVotes[a] == st.authorVotes[a]))
    && (st.echoTimeout ==> st'.echoTimeout)
  }

  lemma StoredKeeps(st: State, vote: Vote)
    requires Consistent(st) && Refusal(st, vote).None?
    ensures Consistent(Stored(st, vote)) && Extends(st, Stored(st, vote))
    ensures st.partialTc.Some? ==> vote.author !in st.partialTc.value.rounds
  {
    var st' := Stored(st, vote);
    if st.partialTc.Some? {
      var p := st.partialTc.value;
      var a :| a in p.rounds && a in st.authorVotes && st.authorVotes[a].timeout == Some(p.timeout);
      assert a in p.rounds && a in st'.authorVotes && st'.authorVotes[a].timeout == Some(p.timeout);
    }
  }

  lemma AddToTcKeeps(partial: Option<PartialTc>, vote: Vote, votes: map<Author, Vote>)
    requires vote.author in votes && votes[vote.author] == vote && vote.timeout.Some?
    requires partial.Some? ==> TcConsistent(partial.value, votes) && vote.author !in partial.value.rounds
    ensures var p := AddToTc(partial, vote.author, vote.timeout.value);
            TcConsistent(p, votes) &&
              p.rounds.Keys == (if partial.Some? then partial.value.rounds.Keys else {}) + {vote.author}
  {
    var p := AddToTc(partial, vote.author, vote.timeout.value);
    if partial.Some? && p.timeout == partial.value.timeout {
      var a :| a in partial.value.rounds && a in votes && votes[a].timeout == Some(partial.value.timeout);
      assert a in p.rounds && votes[a].timeout == Some(p.timeout);
    } else {
      assert vote.author in p.rounds && votes[vote.author].timeout == Some(p.timeout);
    }
  }

  /** What an accepted vote changes, and what each certificate-bearing answer says about it. */
  lemma InsertFacts(st: State, vote: Vote, v: ValidatorVerifier)
    requires v.quorum <= v.Total() && Refusal(st, vote).None?
    ensures var (st', r) := Insert(st, vote, v);
            var kept := Stored(st, vote);
            && st'.authorVotes == kept.authorVotes && st'.liVotes == kept.liVotes
            && (st'.partialTc == st.partialTc
                || (vote.timeout.Some? &&
                  st'.partialTc == Some(AddToTc(st.partialTc, vote.author, vote.timeout.value))))
            && (st.echoTimeout ==> st'.echoTimeout)
            && (r.EchoTimeout? ==>
                  && !st.echoTimeout && st'.echoTimeout && st'.partialTc.Some?
                  && v.Power(st'.partialTc.value.rounds.Keys) > v.Total() - v.quorum)
            && (r.New2ChainTimeoutCertificate? ==>
                  st'.partialTc == Some(PartialTc(r.tc.timeout, r.tc.rounds)) && v.IsQuorum(r.tc.rounds.Keys))
            && (r.NewQuorumCertificate? ==>
                  r.qc == QuorumCert(vote.voteData, vote.li, st'.liVotes[vote.li]) && v.IsQuorum(r.qc.signers))
  {
  }

  lemma InsertKeeps(st: State, vote: Vote, v: ValidatorVerifier)
    requires v.quorum <= v.Total() && Consistent(st)
    ensures Consistent(Insert(st, vote, v).0)
  {
    if Refusal(st, vote).None? {
      InsertFacts(st, vote, v);
      StoredKeeps(st, vote);
      var st', kept := Insert(st, vote, v).0, Stored(st, vote);
      assert kept.partialTc == st.partialTc;
      if st'.partialTc != st.partialTc {
        AddToTcKeeps(st.partialTc, vote, kept.authorVotes);
      }
    }
  }

  lemma StepExtends(st: State, op: Op, v: ValidatorVerifier)
    requires v.quorum <= v.Total() && Consistent(st)
    ensures Extends(st, Apply(st, op, v))
  {
    if op.Receive? && Refusal(st, op.vote).None? {
      InsertFacts(st, op.vote, v);
      StoredKeeps(st, op.vote);
    }
  }

  lemma {:induction false} RunConsistent(ops: seq<Op>, v: ValidatorVerifier)
    requires v.quorum <= v.Total()
    ensures Consistent(After(ops, v))
  {
    if ops != [] {
      RunConsistent(ops[..|ops| - 1], v);
      if ops[|ops| - 1].Receive? {
        InsertKeeps(After(ops[..|ops| - 1], v), ops[|ops| - 1].vote, v);
      }
    }
  }

  lemma StepOfRunExtends(ops: seq<Op>, i: nat, v: ValidatorVerifier)
    requires v.quorum <= v.Total() && i < |ops|
    ensures Extends(After(ops[..i], v), After(ops[..i + 1], v))
  {
    AfterStep(ops, i, v);
    RunConsistent(ops[..i], v);
    StepExtends(After(ops[..i], v), ops[i], v);
  }

  lemma ExtendsReflexive(st: State)
    ensures Extends(st, st)
  {
  }

  lemma ExtendsTransitive(a: State, b: State, c: State)
    requires Extends(a, b) && Extends(b, c)
    ensures Extends(a, c)
  {
  }

  lemma {:induction false} RunExtends(ops: seq<Op>, i: nat, j: nat, v: ValidatorVerifier)
    requires v.quorum <= v.Total() && i <= j <= |ops|
    ensures Extends(After(ops[..i], v), After(ops[..j], v))
    decreases j
  {
    if i == j {
      ExtendsReflexive(After(ops[..i], v));
    } else {
      RunExtends(ops, i, j - 1, v);
      StepOfRunExtends(ops, j - 1, v);
      ExtendsTransitive(After(ops[..i], v), After(ops[..j - 1], v), After(ops[..j], v));
    }
  }

  /** Every recorded vote was received. */
  lemma {:induction false} RecordedWasReceived(ops: seq<Op>, v: ValidatorVerifier)
    requires v.quorum <= v.Total()
    ensures forall a :: a in After(ops, v).authorVotes ==> Receive(After(ops, v).authorVotes[a]) in ops
  {
    if ops != [] {
      var init := ops[..|ops| - 1];
      RecordedWasReceived(init, v);
      assert forall op :: op in init ==> op in ops;
      var last := ops[|ops| - 1];
      assert last in ops;
      if last.Receive? && Refusal(After(init, v), last.vote).None? {
        InsertFacts(After(init, v), last.vote, v);
      }
    }
  }

  // ---------------------------------------------------------------- quorum certificates

  /** The signers of an emitted certificate all have a recorded vote for its ledger info. */
  lemma QcSigners(ops: seq<Op>, i: nat, v: ValidatorVerifier)
    requires v.quorum <= v.Total() && i < |ops| && ops[i].Receive?
    requires ResultAt(ops, i, v).NewQuorumCertificate?
    ensures var qc, st := ResultAt(ops, i, v).qc, After(ops[..i + 1], v);
            && v.IsQuorum(qc.signers) && qc.voteData == ops[i].vote.voteData && qc.li == ops[i].vote.li
            && forall a :: a in qc.signers ==> a in st.authorVotes && st.authorVotes[a].li == qc.li
  {
    InsertFacts(After(ops[..i], v), ops[i].vote, v);
    AfterStep(ops, i, v);
    RunConsistent(ops[..i + 1], v);
  }

  /** Whatever votes arrive, honest or not, one replica never certifies two ledger infos. */
  lemma OneCertificatePerRound(ops: seq<Op>, i: nat, j: nat, v: ValidatorVerifier)
    requires v.quorum <= v.Total() < 2 * v.quorum
    requires i <= j < |ops| && ops[i].Receive? && ops[j].Receive?
    requires ResultAt(ops, i, v).NewQuorumCertificate? && ResultAt(ops, j, v).NewQuorumCertificate?
    ensures ResultAt(ops, i, v).qc.li == ResultAt(ops, j, v).qc.li
  {
    var a, b := ResultAt(ops, i, v).qc, ResultAt(ops, j, v).qc;
    QcSigners(ops, i, v);
    QcSigners(ops, j, v);
    RunExtends(ops, i + 1, j + 1, v);
    if a.li != b.li {
      assert a.signers !! b.signers;
      DisjointPower(v, a.signers, b.signers);
      assert false;
    }
  }

  /** What the network layer checks of a vote before it is counted. */
  ghost predicate VoteVerifies(vote: Vote, v: ValidatorVerifier, signed: set<Signature>) {
    && vote.li.voteData == vote.voteData
    && vote.author in v.Authors()
    && OnLedgerInfo(vote.author, vote.li) in signed
    && (vote.timeout.Some? ==>
          var t := vote.timeout.value;
          && t.epoch == vote.VotedEpoch() && t.round == vote.VotedRound()
          && Rules.TimeoutVerifies(t, v, signed)
          && OnTimeout(vote.author, t.epoch, t.round, t.HqcRound()) in signed)
    && Rules.VoteDataVerifies(vote.voteData)
  }

  /** All votes received verify, and are for round `r` of epoch `e`. */
  ghost predicate Verified(ops: seq<Op>, v: ValidatorVerifier, signed: set<Signature>, e: nat, r: Round) {
    forall op :: op in ops && op.Receive? ==>
      VoteVerifies(op.vote, v, signed) && op.vote.VotedEpoch() == e && op.vote.VotedRound() == r
  }

  /** An emitted certificate passes the verification of every other replica. */
  lemma EmittedQcVerifies(ops: seq<Op>, i: nat, v: ValidatorVerifier, signed: set<Signature>, e: nat, r: Round)
    requires v.quorum <= v.Total() && i < |ops| && ops[i].Receive?
    requires Verified(ops, v, signed, e, r)
    requires ResultAt(ops, i, v).NewQuorumCertificate?
    ensures Rules.QcVerifies(ResultAt(ops, i, v).qc, v, signed)
  {
    var qc, st := ResultAt(ops, i, v).qc, After(ops[..i + 1], v);
    QcSigners(ops, i, v);
    RecordedWasReceived(ops[..i + 1], v);
    RunConsistent(ops[..i + 1], v);
    assert VoteVerifies(ops[i].vote, v, signed);
    forall a | a in qc.signers ensures OnLedgerInfo(a, qc.li) in signed {
      var op := Receive(st.authorVotes[a]);
      assert op in ops[..i + 1];
      assert op in ops && VoteVerifies(op.vote, v, signed);
    }
  }

  /** Across replicas: if every honest author signs one ledger info in the round and Byzantine
      power is below the overlap of two quorums, all certificates carry the same ledger info. */
  lemma CertificatesAgree(
    ops: seq<Op>, i: nat, ops': seq<Op>, j: nat, v: ValidatorVerifier, byzantine: set<Author>,
    choice: map<Author, LedgerInfo>)
    requires v.quorum <= v.Total() && v.Power(byzantine) + v.Total() < 2 * v.quorum
    requires forall op :: op in ops + ops' && op.Receive? && op.vote.author !in byzantine ==>
      op.vote.author in choice && choice[op.vote.author] == op.vote.li
    requires i < |ops| && ops[i].Receive? && ResultAt(ops, i, v).NewQuorumCertificate?
    requires j < |ops'| && ops'[j].Receive? && ResultAt(ops', j, v).NewQuorumCertificate?
    ensures ResultAt(ops, i, v).qc.li == ResultAt(ops', j, v).qc.li
  {
    QcSigners(ops, i, v);
    QcSigners(ops', j, v);
    var a := QuorumIntersection(v, ResultAt(ops, i, v).qc.signers, ResultAt(ops', j, v).qc.signers, byzantine);
    RecordedWasReceived(ops[..i + 1], v);
    RecordedWasReceived(ops'[..j + 1], v);
    RunConsistent(ops[..i + 1], v);
    RunConsistent(ops'[..j + 1], v);
    var mine, theirs := After(ops[..i + 1], v).authorVotes[a], After(ops'[..j + 1], v).authorVotes[a];
    assert Receive(mine) in ops[..i + 1] && Receive(theirs) in ops'[..j + 1];
    assert Receive(mine) in ops + ops' && Receive(theirs) in ops + ops';
  }

  /** The honesty assumption is met by replicas that run the safety rules: in any world they
      reach, two replicas that aggregate verified votes of one round certify the same block. */
  lemma CertifiedBlocksAgree(
    cfg: Protocol.Config, ws: seq<Protocol.World>, steps: seq<Protocol.Step>, k: nat, e: nat, r: Round,
    ops: seq<Op>, i: nat, ops': seq<Op>, j: nat)
    requires Protocol.FaultBound(cfg) && Protocol.Run(cfg, ws, steps) && k < |ws|
    requires cfg.verifierOf(e).quorum <= cfg.verifierOf(e).Total()
    requires Verified(ops, cfg.verifierOf(e), ws[k].signed, e, r)
    requires Verified(ops', cfg.verifierOf(e), ws[k].signed, e, r)
    requires i < |ops| && ops[i].Receive? && ResultAt(ops, i, cfg.verifierOf(e)).NewQuorumCertificate?
    requires j < |ops'| && ops'[j].Receive? && ResultAt(ops', j, cfg.verifierOf(e)).NewQuorumCertificate?
    ensures ResultAt(ops, i, cfg.verifierOf(e)).qc.voteData == ResultAt(ops', j, cfg.verifierOf(e)).qc.voteData
  {
    var v, w := cfg.verifierOf(e), ws[k];
    var a, b := ResultAt(ops, i, v).qc, ResultAt(ops', j, v).qc;
    EmittedQcVerifies(ops, i, v, w.signed, e, r);
    EmittedQcVerifies(ops', j, v, w.signed, e, r);
    QcSigners(ops, i, v);
    QcSigners(ops', j, v);
    assert ops[i] in ops && ops'[j] in ops';
    Protocol.RunKeepsInv(cfg, ws, steps, k);
    var va, qa := Protocol.CertifiedIsVoted(cfg, w, a.li, a.signers);
    var vb, qb := Protocol.CertifiedIsVoted(cfg, w, b.li, b.signers);
    Protocol.OneQuorumPerRound(cfg, w, va, qa, vb, qb);
  }

  // ---------------------------------------------------------------- timeouts

  /** An emitted timeout certificate passes the verification of every other replica; its
      signers have recorded timeout votes, however late they added the timeout. */
  lemma EmittedTcVerifies(ops: seq<Op>, i: nat, v: ValidatorVerifier, signed: set<Signature>, e: nat, r: Round)
    requires v.quorum <= v.Total() && i < |ops| && ops[i].Receive?
    requires Verified(ops, v, signed, e, r)
    requires ResultAt(ops, i, v).New2ChainTimeoutCertificate?
    ensures var tc, st := ResultAt(ops, i, v).tc, After(ops[..i + 1], v);
            && Rules.TcVerifies(tc, v, signed) && tc.timeout.epoch == e && tc.timeout.round == r
            && forall a :: a in tc.rounds ==> a in st.authorVotes && st.authorVotes[a].timeout.Some?
  {
    var tc, st := ResultAt(ops, i, v).tc, After(ops[..i + 1], v);
    InsertFacts(After(ops[..i], v), ops[i].vote, v);
    AfterStep(ops, i, v);
    RunConsistent(ops[..i + 1], v);
    RecordedWasReceived(ops[..i + 1], v);
    assert st.partialTc == Some(PartialTc(tc.timeout, tc.rounds));
    forall a | a in st.authorVotes
      ensures VoteVerifies(st.authorVotes[a], v, signed) && st.authorVotes[a].VotedEpoch() == e
      ensures st.authorVotes[a].VotedRound() == r
    {
      var op := Receive(st.authorVotes[a]);
      assert op in ops[..i + 1];
      assert op in ops;
    }
    var top :| top in tc.rounds && top in st.authorVotes && st.authorVotes[top].timeout == Some(tc.timeout);
    assert tc.rounds[top] == tc.timeout.HqcRound();
  }

  /** Timeouts are echoed at most once. */
  lemma EchoOnce(ops: seq<Op>, i: nat, j: nat, v: ValidatorVerifier)
    requires v.quorum <= v.Total() && i < j < |ops| && ops[i].Receive? && ops[j].Receive?
    requires ResultAt(ops, i, v).EchoTimeout?
    ensures !ResultAt(ops, j, v).EchoTimeout?
  {
    InsertFacts(After(ops[..i], v), ops[i].vote, v);
    AfterStep(ops, i, v);
    RunExtends(ops, i + 1, j, v);
    if Refusal(After(ops[..j], v), ops[j].vote).None? {
      InsertFacts(After(ops[..j], v), ops[j].vote, v);
    }
  }

  /** Timeouts are only echoed when some honest author has timed out. */
  lemma EchoHasHonestTimeout(ops: seq<Op>, i: nat, v: ValidatorVerifier, byzantine: set<Author>)
      returns (honest: Author)
    requires v.quorum <= v.Total() && i < |ops| && ops[i].Receive?
    requires v.Power(byzantine) + v.quorum <= v.Total()
    requires ResultAt(ops, i, v).EchoTimeout?
    ensures var st := After(ops[..i + 1], v);
            && honest !in byzantine && honest in st.authorVotes
            && st.authorVotes[honest].timeout.Some? && Receive(st.authorVotes[honest]) in ops
  {
    var st := After(ops[..i + 1], v);
    InsertFacts(After(ops[..i], v), ops[i].vote, v);
    AfterStep(ops, i, v);
    RunConsistent(ops[..i + 1], v);
    RecordedWasReceived(ops[..i + 1], v);
    var signers := st.partialTc.value.rounds.Keys;
    assert v.Power(signers) > v.Power(byzantine);
    if signers <= byzantine {
      PowerMonotone(v, signers, byzantine);
      assert false;
    }
    honest :| honest in signers && honest !in byzantine;
    assert Receive(st.authorVotes[honest]) in ops[..i + 1];
  }
}
