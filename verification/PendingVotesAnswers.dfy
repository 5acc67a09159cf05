/** The answer to every vote, over any run of votes and drains, told from the votes received alone. */
module PendingVotesAnswers {
  import opened Options
  import opened ConsensusTypes
  import opened ValidatorVerifiers
  import opened PendingVotes
  import opened PendingVotesRuns

  // ---------------------------------------------------------------- what the history says

  /** The ledger info of the first vote received from an author. */
  function First(ops: seq<Op>, a: Author): Option<LedgerInfo> {
    if ops == [] then None
    else
      var first, last := First(ops[..|ops| - 1], a), ops[|ops| - 1];
      if first.None? && last.Receive? && last.vote.author == a then Some(last.vote.li) else first
  }

  /** A vote of this author for this ledger info has been received, with a timeout if asked for. */
  predicate Sent(ops: seq<Op>, a: Author, li: LedgerInfo, timeout: bool) {
    ops != [] &&
    var last := ops[|ops| - 1];
    || Sent(ops[..|ops| - 1], a, li, timeout)
    || (last.Receive? && last.vote.author == a && last.vote.li == li && (timeout ==> last.vote.IsTimeout()))
  }

  /** The first vote of its author was for another ledger info. */
  predicate Contradicts(ops: seq<Op>, vote: Vote) {
    First(ops, vote.author).Some? && First(ops, vote.author) != Some(vote.li)
  }

  /** It is no contradiction and says something new. */
  predicate Accepted(ops: seq<Op>, vote: Vote) {
    !Contradicts(ops, vote) && !Sent(ops, vote.author, vote.li, vote.IsTimeout())
  }

  /** The authors behind a ledger info since the last drain. */
  function Voters(ops: seq<Op>, li: LedgerInfo): set<Author> {
    if ops == [] || ops[|ops| - 1].Drain? then {}
    else
      var init, vote := ops[..|ops| - 1], ops[|ops| - 1].vote;
      Voters(init, li) + if vote.li == li && Accepted(init, vote) then {vote.author} else {}
  }

  /** The last vote is an accepted timeout vote, and the voters of its ledger info are known and no
      quorum. */
  predicate TimesOut(ops: seq<Op>, v: ValidatorVerifier)
    requires ops != []
  {
    && ops[|ops| - 1].Receive? && ops[|ops| - 1].vote.IsTimeout()
    && Accepted(ops[..|ops| - 1], ops[|ops| - 1].vote)
    && Voters(ops, ops[|ops| - 1].vote.li) <= v.Authors()
    && v.Power(Voters(ops, ops[|ops| - 1].vote.li)) < v.quorum
  }

  /** The authors of such votes since the last drain. */
  function TimedOut(ops: seq<Op>, v: ValidatorVerifier): set<Author> {
    if ops == [] || ops[|ops| - 1].Drain? then {}
    else TimedOut(ops[..|ops| - 1], v) + if TimesOut(ops, v) then {ops[|ops| - 1].vote.author} else {}
  }

  /** The last vote leaves the timeouts below a quorum, but with some honest one among them. */
  predicate EchoDue(ops: seq<Op>, v: ValidatorVerifier)
    requires ops != []
  {
    TimesOut(ops, v) && v.Total() - v.quorum + 1 <= v.Power(TimedOut(ops, v)) < v.quorum
  }

  predicate EverDue(ops: seq<Op>, v: ValidatorVerifier) {
    ops != [] && (EverDue(ops[..|ops| - 1], v) || EchoDue(ops, v))
  }

  // ---------------------------------------------------------------- the state is the history

  function RoundsKeys(partial: Option<PartialTc>): set<Author> {
    if partial.Some? then partial.value.rounds.Keys else {}
  }

  ghost predicate AuthorMatches(ops: seq<Op>, st: State, a: Author) {
    && First(ops, a) == (if a in st.authorVotes then Some(st.authorVotes[a].li) else None)
    && (a in st.authorVotes ==>
          (st.authorVotes[a].IsTimeout() <==> Sent(ops, a, st.authorVotes[a].li, true)))
  }

  ghost predicate Matches(ops: seq<Op>, st: State, v: ValidatorVerifier) {
    && (forall a: Author :: AuthorMatches(ops, st, a))
    && (forall li: LedgerInfo :: Signers(st.liVotes, li) == Voters(ops, li))
    && RoundsKeys(st.partialTc) == TimedOut(ops, v)
    && (st.echoTimeout <==> EverDue(ops, v))
  }

  lemma {:induction false} FirstWasSent(ops: seq<Op>, a: Author, li: LedgerInfo)
    requires First(ops, a) == Some(li)
    ensures Sent(ops, a, li, false)
  {
    if First(ops[..|ops| - 1], a) == Some(li) {
      FirstWasSent(ops[..|ops| - 1], a, li);
    }
  }

  lemma {:induction false} NobodySent(ops: seq<Op>, a: Author, li: LedgerInfo, timeout: bool)
    requires First(ops, a).None?
    ensures !Sent(ops, a, li, timeout)
  {
    if ops != [] {
      NobodySent(ops[..|ops| - 1], a, li, timeout);
    }
  }

  /** A vote is refused exactly as the history says. */
  lemma RefusedExactlyIf(ops: seq<Op>, st: State, v: ValidatorVerifier, vote: Vote)
    requires Matches(ops, st, v)
    ensures Refusal(st, vote) ==
            if Contradicts(ops, vote) then Some(EquivocateVote)
            else if Sent(ops, vote.author, vote.li, vote.IsTimeout()) then Some(DuplicateVote)
            else None
  {
    assert AuthorMatches(ops, st, vote.author);
    if vote.author in st.authorVotes {
      if st.authorVotes[vote.author].li == vote.li {
        FirstWasSent(ops, vote.author, vote.li);
      }
    } else {
      NobodySent(ops, vote.author, vote.li, vote.IsTimeout());
    }
  }

  lemma LastIsVoter(ops: seq<Op>)
    requires ops != [] && ops[|ops| - 1].Receive? && Accepted(ops[..|ops| - 1], ops[|ops| - 1].vote)
    ensures ops[|ops| - 1].vote.author in Voters(ops, ops[|ops| - 1].vote.li)
  {
  }

  lemma {:induction false} TimedOutKnown(ops: seq<Op>, v: ValidatorVerifier)
    ensures TimedOut(ops, v) <= v.Authors()
  {
    if ops != [] {
      TimedOutKnown(ops[..|ops| - 1], v);
      if TimesOut(ops, v) {
        LastIsVoter(ops);
      }
    }
  }

  // ---------------------------------------------------------------- one vote more

  lemma AuthorsStep(ops: seq<Op>, st: State, v: ValidatorVerifier, vote: Vote, votes': map<Author, Vote>, a: Author)
    requires Matches(ops, st, v)
    requires votes' == if Accepted(ops, vote) then st.authorVotes[vote.author := vote] else st.authorVotes
    ensures AuthorMatches(ops + [Receive(vote)], st.(authorVotes := votes'), a)
  {
    assert (ops + [Receive(vote)])[..|ops|] == ops;
    assert AuthorMatches(ops, st, a);
    if a == vote.author && a !in st.authorVotes {
      NobodySent(ops, a, vote.li, true);
      NobodySent(ops, a, vote.li, vote.IsTimeout());
    } else if a == vote.author && st.authorVotes[a].li == vote.li {
      FirstWasSent(ops, a, vote.li);
    }
  }

  lemma VotersStep(ops: seq<Op>, vote: Vote, li: LedgerInfo)
    ensures Voters(ops + [Receive(vote)], li) ==
            Voters(ops, li) + if vote.li == li && Accepted(ops, vote) then {vote.author} else {}
  {
    assert (ops + [Receive(vote)])[..|ops|] == ops;
  }

  lemma TimedOutStep(ops: seq<Op>, vote: Vote, v: ValidatorVerifier)
    ensures var now := ops + [Receive(vote)];
            && now != [] && now[..|ops|] == ops && now[|ops|] == Receive(vote)
            && TimedOut(now, v) == TimedOut(ops, v) + (if TimesOut(now, v) then {vote.author} else {})
            && (EverDue(now, v) <==> EverDue(ops, v) || EchoDue(now, v))
  {
    assert (ops + [Receive(vote)])[..|ops|] == ops;
  }

  /** What the answer to an accepted vote is, from the history up to and with this vote. */
  predicate AnswerIs(r: VoteReceptionResult, ops: seq<Op>, v: ValidatorVerifier)
    requires ops != [] && ops[|ops| - 1].Receive?
  {
    var vote := ops[|ops| - 1].vote;
    var power, timedOut := v.Power(Voters(ops, vote.li)), v.Power(TimedOut(ops, v));
    if !(Voters(ops, vote.li) <= v.Authors()) then r == ErrorAddingVote
    else if power >= v.quorum then r == NewQuorumCertificate(QuorumCert(vote.voteData, vote.li, Voters(ops, vote.li)))
    else if vote.IsTimeout() && timedOut >= v.quorum then
      r.New2ChainTimeoutCertificate? && r.tc.rounds.Keys == TimedOut(ops, v)
    else if EchoDue(ops, v) && !EverDue(ops[..|ops| - 1], v) then r == EchoTimeout(timedOut)
    else r == VoteAdded(power)
  }

  lemma AddsKey(partial: Option<PartialTc>, author: Author, timeout: TwoChainTimeout)
    ensures AddToTc(partial, author, timeout).rounds.Keys == RoundsKeys(partial) + {author}
  {
  }

  /** The answer to an accepted vote, and what it leaves behind. */
  lemma AcceptedAnswer(ops: seq<Op>, st: State, v: ValidatorVerifier, vote: Vote)
    requires v.quorum <= v.Total() && Matches(ops, st, v) && Accepted(ops, vote)
    ensures var now, (st', r) := ops + [Receive(vote)], Insert(st, vote, v);
            && now[|now| - 1] == Receive(vote) && AnswerIs(r, now, v)
            && RoundsKeys(st'.partialTc) == TimedOut(now, v) && (st'.echoTimeout <==> EverDue(now, v))
            && st'.authorVotes == Stored(st, vote).authorVotes && st'.liVotes == Stored(st, vote).liVotes
  {
    var now := ops + [Receive(vote)];
    RefusedExactlyIf(ops, st, v, vote);
    TimedOutStep(ops, vote, v);
    VotersStep(ops, vote, vote.li);
    TimedOutKnown(now, v);
    InsertFacts(st, vote, v);
    assert Signers(st.liVotes, vote.li) == Voters(ops, vote.li);
    assert Stored(st, vote).liVotes[vote.li] == Voters(now, vote.li);
    if vote.timeout.Some? {
      AddsKey(st.partialTc, vote.author, vote.timeout.value);
    }
  }

  lemma ReceiveMatches(ops: seq<Op>, st: State, v: ValidatorVerifier, vote: Vote)
    requires v.quorum <= v.Total() && Matches(ops, st, v)
    ensures Matches(ops + [Receive(vote)], Insert(st, vote, v).0, v)
  {
    var now, st' := ops + [Receive(vote)], Insert(st, vote, v).0;
    RefusedExactlyIf(ops, st, v, vote);
    TimedOutStep(ops, vote, v);
    if Accepted(ops, vote) {
      AcceptedAnswer(ops, st, v, vote);
    }
    forall a: Author ensures AuthorMatches(now, st', a) {
      AuthorsStep(ops, st, v, vote, st'.authorVotes, a);
      assert AuthorMatches(now, st.(authorVotes := st'.authorVotes), a);
    }
    forall li: LedgerInfo ensures Signers(st'.liVotes, li) == Voters(now, li) {
      VotersStep(ops, vote, li);
      assert Signers(st.liVotes, li) == Voters(ops, li);
    }
  }

  lemma DrainMatches(ops: seq<Op>, st: State, v: ValidatorVerifier)
    requires Matches(ops, st, v)
    ensures Matches(ops + [Drain], Drained(st), v)
  {
    assert (ops + [Drain])[..|ops|] == ops;
    forall a: Author ensures AuthorMatches(ops + [Drain], Drained(st), a) {
      assert AuthorMatches(ops, st, a);
    }
  }

  // ---------------------------------------------------------------- whole runs

  lemma {:induction false} RunMatches(ops: seq<Op>, v: ValidatorVerifier)
    requires v.quorum <= v.Total()
    ensures Matches(ops, After(ops, v), v)
  {
    if ops == [] {
      assert forall a: Author :: AuthorMatches([], EMPTY, a);
    } else {
      var init, last := ops[..|ops| - 1], ops[|ops| - 1];
      RunMatches(init, v);
      assert ops == init + [last];
      if last.Receive? {
        ReceiveMatches(init, After(init, v), v, last.vote);
      } else {
        DrainMatches(init, After(init, v), v);
      }
    }
  }

  /** Every answer over any run of votes and drains. A vote is an equivocation
      exactly if its author's first vote was for another ledger info, and a repetition exactly if as
      much was received before. Any other vote is answered with an error exactly if an unknown author
      is among the voters of its ledger info since the last drain; failing that, with a quorum
      certificate exactly if they are a quorum; failing that, with a timeout certificate exactly if it
      is a timeout vote and those who timed out are a quorum; failing that, with an echo exactly if it
      brings the timeouts beyond what the faulty could do alone and that has not happened before; and
      otherwise with the power behind its ledger info. */
  lemma EveryAnswer(ops: seq<Op>, i: nat, v: ValidatorVerifier)
    requires v.quorum <= v.Total() && i < |ops| && ops[i].Receive?
    ensures var vote, r := ops[i].vote, ResultAt(ops, i, v);
            if Contradicts(ops[..i], vote) then r == EquivocateVote
            else if Sent(ops[..i], vote.author, vote.li, vote.IsTimeout()) then r == DuplicateVote
            else AnswerIs(r, ops[..i + 1], v)
  {
    var vote := ops[i].vote;
    RunMatches(ops[..i], v);
    RefusedExactlyIf(ops[..i], After(ops[..i], v), v, vote);
    assert ops[..i + 1] == ops[..i] + [Receive(vote)];
    if Accepted(ops[..i], vote) {
      AcceptedAnswer(ops[..i], After(ops[..i], v), v, vote);
    }
  }

  /** A timeout certificate carries the highest certificate among those who timed out, and for each of
      them the round it reported. */
  lemma TimeoutCertificateCarries(ops: seq<Op>, i: nat, v: ValidatorVerifier, a: Author)
    requires v.quorum <= v.Total() && i < |ops| && ops[i].Receive? && ResultAt(ops, i, v).New2ChainTimeoutCertificate?
    requires a in ResultAt(ops, i, v).tc.rounds
    ensures var tc, votes := ResultAt(ops, i, v).tc, After(ops[..i + 1], v).authorVotes;
            && a in votes && votes[a].timeout.Some?
            && tc.rounds[a] == votes[a].timeout.value.HqcRound() <= tc.timeout.HqcRound()
            && exists b :: b in tc.rounds && b in votes && votes[b].timeout == Some(tc.timeout)
  {
    InsertFacts(After(ops[..i], v), ops[i].vote, v);
    AfterStep(ops, i, v);
    RunConsistent(ops[..i + 1], v);
  }
}
