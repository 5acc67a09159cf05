/** Aggregation of the votes that one replica receives for one round. */
module PendingVotes {
  import opened Options
  import opened ConsensusTypes
  import opened ValidatorVerifiers

  datatype VoteReceptionResult =
    | VoteAdded(votingPower: nat)
    | DuplicateVote
    | EquivocateVote
    | NewQuorumCertificate(qc: QuorumCert)
    | New2ChainTimeoutCertificate(tc: TimeoutCert)
    | ErrorAddingVote
    | EchoTimeout(votingPower: nat)

  /** A timeout certificate in the making: the timeout with the highest certificate so far,
      and for every signer the certified round it signed. */
  datatype PartialTc = PartialTc(timeout: TwoChainTimeout, rounds: map<Author, Round>)

  /** A digest is identified with the ledger info it is the hash of. */
  datatype State = State(
    liVotes: map<LedgerInfo, set<Author>>,
    partialTc: Option<PartialTc>,
    authorVotes: map<Author, Vote>,
    echoTimeout: bool)

  const EMPTY := State(map[], None, map[], false)

  function Signers(votes: map<LedgerInfo, set<Author>>, li: LedgerInfo): set<Author> {
    if li in votes then votes[li] else {}
  }

  // ---------------------------------------------------------------- insertion as a function

  /** Keeps the timeout with the highest certificate and the first round of every signer. */
  function AddToTc(partial: Option<PartialTc>, author: Author, timeout: TwoChainTimeout): PartialTc {
    var p := if partial.Some? then partial.value else PartialTc(timeout, map[]);
    PartialTc(
      if timeout.HqcRound() > p.timeout.HqcRound() then timeout else p.timeout,
      if author in p.rounds then p.rounds else p.rounds[author := timeout.HqcRound()])
  }

  function InsertTimeout(st: State, author: Author, timeout: TwoChainTimeout, v: ValidatorVerifier, votingPower: nat)
    : (State, VoteReceptionResult)
    requires v.quorum <= v.Total()
  {
    var p := AddToTc(st.partialTc, author, timeout);
    var st' := st.(partialTc := Some(p));
    match v.Check(p.rounds.Keys)
    case Enough => (st', New2ChainTimeoutCertificate(TimeoutCert(p.timeout, p.rounds)))
    case UnknownAuthor => (st', ErrorAddingVote)
    case TooLittleVotingPower(tcPower) =>
      if !st.echoTimeout && tcPower >= v.Total() - v.quorum + 1 then
        (st'.(echoTimeout := true), EchoTimeout(tcPower))
      else (st', VoteAdded(votingPower))
  }

  /** Whether `st` turns `vote` away, as a repetition or as an equivocation. */
  function Refusal(st: State, vote: Vote): Option<VoteReceptionResult> {
    if vote.author !in st.authorVotes then None
    else
      var previous := st.authorVotes[vote.author];
      if previous.li != vote.li then Some(EquivocateVote)
      else if vote.IsTimeout() && !previous.IsTimeout() then None
      else Some(DuplicateVote)
  }

  function Stored(st: State, vote: Vote): State {
    st.(authorVotes := st.authorVotes[vote.author := vote],
        liVotes := st.liVotes[vote.li := Signers(st.liVotes, vote.li) + {vote.author}])
  }

  function Insert(st: State, vote: Vote, v: ValidatorVerifier): (State, VoteReceptionResult)
    requires v.quorum <= v.Total()
  {
    var refusal := Refusal(st, vote);
    if refusal.Some? then (st, refusal.value)
    else
      var st' := Stored(st, vote);
      var signers := st'.liVotes[vote.li];
      match v.Check(signers)
      case Enough => (st', NewQuorumCertificate(QuorumCert(vote.voteData, vote.li, signers)))
      case UnknownAuthor => (st', ErrorAddingVote)
      case TooLittleVotingPower(power) =>
        if vote.timeout.Some? then InsertTimeout(st', vote.author, vote.timeout.value, v, power)
        else (st', VoteAdded(power))
  }

  // ---------------------------------------------------------------- the aggregator

  class PendingVotes {
    var liVotes: map<LedgerInfo, set<Author>>
    var partialTc: Option<PartialTc>
    var authorVotes: map<Author, Vote>
    var echoTimeout: bool

    constructor ()
      ensures View() == EMPTY
    {
      liVotes, partialTc, authorVotes, echoTimeout := map[], None, map[], false;
    }

    function View(): State
      reads this
    {
      State(liVotes, partialTc, authorVotes, echoTimeout)
    }

    method InsertVote(vote: Vote, v: ValidatorVerifier) returns (r: VoteReceptionResult)
      requires v.Valid()
      modifies this
      ensures (View(), r) == Insert(old(View()), vote, v)
    {
      if vote.author in authorVotes {
        var previous := authorVotes[vote.author];
        if vote.li == previous.li {
          var newTimeoutVote := vote.IsTimeout() && !previous.IsTimeout();
          if !newTimeoutVote {
            return DuplicateVote;
          }
        } else {
          return EquivocateVote;
        }
      }
      authorVotes := authorVotes[vote.author := vote];
      if vote.li !in liVotes {
        liVotes := liVotes[vote.li := {}];
      }
      liVotes := liVotes[vote.li := liVotes[vote.li] + {vote.author}];
      assert liVotes == Stored(old(View()), vote).liVotes;
      var check := CheckVotingPower(v, liVotes[vote.li]);
      if check == Enough {
        return NewQuorumCertificate(QuorumCert(vote.voteData, vote.li, liVotes[vote.li]));
      } else if check == UnknownAuthor {
        return ErrorAddingVote;
      }
      var votingPower := check.votingPower;
      if vote.timeout.Some? {
        partialTc := Some(AddToTc(partialTc, vote.author, vote.timeout.value));
        var tcCheck := CheckVotingPower(v, partialTc.value.rounds.Keys);
        if tcCheck == Enough {
          return New2ChainTimeoutCertificate(TimeoutCert(partialTc.value.timeout, partialTc.value.rounds));
        } else if tcCheck == UnknownAuthor {
          return ErrorAddingVote;
        }
        if !echoTimeout {
          var fPlusOne := v.Total() - v.quorum + 1;
          if tcCheck.votingPower >= fPlusOne {
            echoTimeout := true;
            return EchoTimeout(tcCheck.votingPower);
          }
        }
      }
      return VoteAdded(votingPower);
    }

    /** Hands over the collected votes, in any order, and forgets them. Who voted for what, and
        whether timeouts were echoed, is remembered. */
    method DrainVotes() returns (votes: seq<(LedgerInfo, set<Author>)>, timeouts: Option<PartialTc>)
      modifies this
      ensures Enumerates(votes, old(liVotes)) && timeouts == old(partialTc)
      ensures View() == Drained(old(View()))
    {
      votes := [];
      var rest := liVotes.Keys;
      while rest != {}
        invariant rest <= liVotes.Keys
        invariant forall i :: 0 <= i < |votes| ==>
                  votes[i].0 in liVotes.Keys - rest && votes[i].1 == liVotes[votes[i].0]
        invariant forall i, j :: 0 <= i < j < |votes| ==> votes[i].0 != votes[j].0
        invariant forall li :: li in liVotes && li !in rest ==> Listed(votes, li)
        invariant liVotes == old(liVotes) && View() == old(View())
        decreases rest
      {
        var li :| li in rest;
        ghost var before := votes;
        votes := votes + [(li, liVotes[li])];
        assert votes[|before|].0 == li;
        forall other | Listed(before, other) ensures Listed(votes, other) {
          var i :| 0 <= i < |before| && before[i].0 == other;
          assert votes[i].0 == other;
        }
        rest := rest - {li};
      }
      timeouts := partialTc;
      liVotes, partialTc := map[], None;
    }
  }

  function Drained(st: State): State { st.(liVotes := map[], partialTc := None) }

  /** `entries` lists the map, every key once. */
  ghost predicate Enumerates(entries: seq<(LedgerInfo, set<Author>)>, votes: map<LedgerInfo, set<Author>>) {
    && (forall i :: 0 <= i < |entries| ==> entries[i].0 in votes && entries[i].1 == votes[entries[i].0])
    && (forall i, j :: 0 <= i < j < |entries| ==> entries[i].0 != entries[j].0)
    && (forall li :: li in votes ==> Listed(entries, li))
  }

  ghost predicate Listed(entries: seq<(LedgerInfo, set<Author>)>, li: LedgerInfo) {
    exists i :: 0 <= i < |entries| && entries[i].0 == li
  }
}
