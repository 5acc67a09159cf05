/** What each event makes a replica do, exactly: when it sends a vote and which one, when it joins a
    timeout, and which round it is in. */
module VotingActions {
  import opened Options
  import opened ConsensusTypes
  import opened SigningRules
  import opened RoundManager
  import opened VotingDiscipline

  // ---------------------------------------------------------------- signing with one retry

  /** The safety rules are not ready for this epoch. */
  predicate NeedsInit(rules: Rules.State, epoch: nat) {
    rules.signer.None? || rules.epochState.None? || rules.data.epoch != epoch
  }

  /** The rules that sign in the end: they are initialised again exactly if they are not ready and
      there is something to initialise them with. */
  function Ready(rules: Rules.State, epoch: nat, i: Input): Rules.State {
    if NeedsInit(rules, epoch) && i.reinit.Some? then Rules.EnterEpoch(rules, i.reinit.value, i.author) else rules
  }

  /** A vote for `p`: the last one if that was in the same round, and a new one otherwise. */
  predicate IsAnswer(rules: Rules.State, p: Rules.VoteProposal, vote: Vote) {
    if VotedInRound(rules, p) then rules.data.lastVote == Some(vote)
    else rules.signer.Some? && p.execution.Some? && IsVoteFor(vote, rules.signer.value, p)
  }

  /** A vote is obtained if and only if the rules, once ready, have one to give. */
  lemma SignVoteExactlyIf(st: State, p: Rules.VoteProposal, i: Input)
    ensures var ((effects, vote), ready) := (SignVote(st.rules, p, i), Ready(st.rules, p.block.epoch, i));
            && (vote.Some? <==> Votable(ready, p, i.tc, i.signed))
            && (vote.Some? ==> IsAnswer(ready, p, vote.value) && vote.value.VotedRound() == p.block.round)
            && Quiet(st, ApplyAll(st, effects))
            && (vote.Some? ==> ApplyAll(st, effects).rules.data.lastVote == vote)
  {
    VoteErrors(st.rules, p, i.tc, i.signed);
    VotesExactlyIf(st.rules, p, i.tc, i.signed);
    VoteChangesData(st.rules, p, i.tc, i.signed);
    var once := Rules.ConstructAndSignVote(st.rules, p, i.tc, i.signed).0;
    ApplyOne(st, Promise(once.data));
    if NeedsInit(st.rules, p.block.epoch) && i.reinit.Some? {
      var init := Initialise(i.reinit.value, i.author);
      var entered := Rules.EnterEpoch(st.rules, i.reinit.value, i.author);
      VotesExactlyIf(entered, p, i.tc, i.signed);
      VoteChangesData(entered, p, i.tc, i.signed);
      var again := Rules.ConstructAndSignVote(entered, p, i.tc, i.signed).0;
      ApplyOne(st, init);
      ApplyAppend(st, [init], Promised(entered, again));
      ApplyOne(Apply(st, init), Promise(again.data));
    }
  }

  /** Only the safety rules differ. */
  predicate Quiet(st: State, st': State) { st' == st.(rules := st'.rules) }

  lemma SignTimeoutExactlyIf(st: State, t: TwoChainTimeout, i: Input)
    ensures var (effects, ok) := SignTimeout(st.rules, t, i);
            && (ok <==> MayTimeOut(Ready(st.rules, t.epoch, i), t, i.tc, i.signed))
            && Quiet(st, ApplyAll(st, effects))
  {
    TimeoutErrors(st.rules, t, i.tc, i.signed);
    TimesOutExactlyIf(st.rules, t, i.tc, i.signed);
    TimeoutChangesData(st.rules, t, i.tc, i.signed);
    ApplyOne(st, Promise(Rules.SignTimeout(st.rules, t, i.tc, i.signed).0.data));
    if NeedsInit(st.rules, t.epoch) && i.reinit.Some? {
      var init := Initialise(i.reinit.value, i.author);
      var entered := Rules.EnterEpoch(st.rules, i.reinit.value, i.author);
      TimesOutExactlyIf(entered, t, i.tc, i.signed);
      TimeoutChangesData(entered, t, i.tc, i.signed);
      var again := Rules.SignTimeout(entered, t, i.tc, i.signed).0;
      ApplyOne(st, init);
      ApplyAppend(st, [init], Promised(entered, again));
      ApplyOne(Apply(st, init), Promise(again.data));
    }
  }

  // ---------------------------------------------------------------- proposals

  /** A block gets the vote of a replica: it could be executed, nothing has been voted on in the round,
      the replica may vote, and the vote could be saved. */
  predicate GetsVote(st: State, p: Option<Rules.VoteProposal>, i: Input) {
    && p.Some? && st.voteSent.None? && !i.syncOnly && i.saveOk
    && Votable(Ready(st.rules, p.value.block.epoch, i), p.value, i.tc, i.signed)
  }

  /** The vote is saved and promised; recorded and sent are as before. */
  predicate SavedVote(st: State, st': State, vote: Vote) {
    st' == st.(rules := st'.rules, stored := Some(vote)) && st'.rules.data.lastVote == Some(vote)
  }

  lemma ExecuteAndVoteExactlyIf(st: State, p: Option<Rules.VoteProposal>, i: Input)
    ensures var (effects, vote) := ExecuteAndVote(st, p, i);
            && (vote.Some? <==> GetsVote(st, p, i))
            && (vote.Some? ==>
                  && IsAnswer(Ready(st.rules, p.value.block.epoch, i), p.value, vote.value)
                  && vote.value.VotedRound() == p.value.block.round
                  && SavedVote(st, ApplyAll(st, effects), vote.value))
            && (vote.None? ==> Quiet(st, ApplyAll(st, effects)))
  {
    if p.Some? && st.voteSent.None? && !i.syncOnly {
      SignVoteExactlyIf(st, p.value, i);
      var (effects, vote) := SignVote(st.rules, p.value, i);
      if vote.Some? && i.saveOk {
        ApplyAppend(st, effects, [SaveVote(vote.value)]);
        ApplyOne(ApplyAll(st, effects), SaveVote(vote.value));
      }
    }
  }

  lemma RecordSendApplies(st: State, effects: seq<Effect>, vote: Vote)
    requires vote.VotedRound() == ApplyAll(st, effects).round
    ensures var before, after := ApplyAll(st, effects), ApplyAll(st, effects + [RecordVote(vote), Send(vote)]);
            after == before.(voteSent := Some(vote), sent := before.sent + [vote])
  {
    var before := ApplyAll(st, effects);
    ApplyAppend(st, effects, [RecordVote(vote), Send(vote)]);
    ApplyAppend(before, [RecordVote(vote)], [Send(vote)]);
    assert [RecordVote(vote)] + [Send(vote)] == [RecordVote(vote), Send(vote)];
    ApplyOne(before, RecordVote(vote));
    ApplyOne(Apply(before, RecordVote(vote)), Send(vote));
  }

  /** A proposal is voted on if and only if it is of the current round and gets the replica's vote; the
      vote, and no other, is then saved, recorded and sent. Otherwise nothing is. */
  lemma ProposalExactlyIf(st: State, round: Round, p: Option<Rules.VoteProposal>, i: Input)
    requires p.Some? ==> p.value.block.round == round
    ensures var st' := ApplyAll(st, OnProposal(st, round, p, i));
            if round == st.round && GetsVote(st, p, i) then
              && st'.stored.Some? && st'.voteSent == st'.stored && st'.sent == st.sent + [st'.stored.value]
              && IsAnswer(Ready(st.rules, p.value.block.epoch, i), p.value, st'.stored.value)
              && st'.round == st.round && st'.rules.data.lastVote == st'.stored
            else Quiet(st, st')
  {
    if round == st.round {
      ExecuteAndVoteExactlyIf(st, p, i);
      var (effects, vote) := ExecuteAndVote(st, p, i);
      if vote.Some? {
        RecordSendApplies(st, effects, vote.value);
      }
    }
  }

  // ---------------------------------------------------------------- timeouts

  /** The timeout that goes with a vote. */
  function TimeoutFor(vote: Vote, i: Input): TwoChainTimeout {
    TwoChainTimeout(vote.VotedEpoch(), vote.VotedRound(), i.hqc)
  }

  /** The vote is a timeout vote already, or the rules sign its timeout. */
  predicate CanTimeOut(rules: Rules.State, vote: Vote, i: Input) {
    vote.IsTimeout() || MayTimeOut(Ready(rules, vote.VotedEpoch(), i), TimeoutFor(vote, i), i.tc, i.signed)
  }

  function WithTimeout(vote: Vote, i: Input): Vote {
    if vote.IsTimeout() then vote else vote.(timeout := Some(TimeoutFor(vote, i)))
  }

  /** From the vote to time out with: what is sent and recorded. */
  lemma TimesOutWith(st: State, effects: seq<Effect>, vote: Vote, i: Input, all: seq<Effect>)
    requires vote.VotedRound() == ApplyAll(st, effects).round
    requires var t := TimeoutFor(vote, i);
             var (more, ok) := SignTimeout(ApplyAll(st, effects).rules, t, i);
             all == if vote.IsTimeout() then effects + [RecordVote(vote), Send(vote)]
                    else if !ok then effects + more
                    else effects + more + [RecordVote(vote.(timeout := Some(t))), Send(vote.(timeout := Some(t)))]
    ensures var before, after := ApplyAll(st, effects), ApplyAll(st, all);
            if CanTimeOut(before.rules, vote, i) then
              var w := WithTimeout(vote, i);
              after == before.(rules := after.rules, voteSent := Some(w), sent := before.sent + [w])
            else Quiet(before, after)
  {
    var before, t := ApplyAll(st, effects), TimeoutFor(vote, i);
    var (more, ok) := SignTimeout(before.rules, t, i);
    if vote.IsTimeout() {
      RecordSendApplies(st, effects, vote);
    } else {
      SignTimeoutExactlyIf(before, t, i);
      ApplyAppend(st, effects, more);
      if ok {
        RecordSendApplies(st, effects + more, vote.(timeout := Some(t)));
      }
    }
  }

  predicate VotedThisRound(st: State) { st.voteSent.Some? && st.voteSent.value.VotedRound() == st.round }

  /** A local timeout of the current round: a replica that has voted sends its vote again, with a
      timeout, if and only if it has one or may sign it. */
  lemma TimeoutAfterVoteExactlyIf(st: State, round: Round, nil: Option<Rules.VoteProposal>, i: Input)
    requires VotedThisRound(st)
    ensures var st' := ApplyAll(st, OnLocalTimeout(st, round, nil, i));
            if round == st.round && !i.syncOnly && CanTimeOut(st.rules, st.voteSent.value, i) then
              var w := WithTimeout(st.voteSent.value, i);
              st' == st.(rules := st'.rules, voteSent := Some(w), sent := st.sent + [w])
            else Quiet(st, st')
  {
    if round == st.round && !i.syncOnly {
      assert ApplyAll(st, []) == st;
      var (more, _) := SignTimeout(st.rules, TimeoutFor(st.voteSent.value, i), i);
      assert [] + more == more;
      TimesOutWith(st, [], st.voteSent.value, i, OnLocalTimeout(st, round, nil, i));
    }
  }

  /** And one that has not, votes for a NIL block and times out with that vote, if and only if it gets
      its vote and may sign the timeout; if only the vote is made, it is saved but not sent. */
  lemma TimeoutWithoutVoteExactlyIf(st: State, round: Round, nil: Option<Rules.VoteProposal>, i: Input)
    requires st.voteSent.None? && (nil.Some? ==> nil.value.block.round == round)
    ensures var st' := ApplyAll(st, OnLocalTimeout(st, round, nil, i));
            if round == st.round && GetsVote(st, nil, i) then
              && st'.stored.Some?
              && IsAnswer(Ready(st.rules, nil.value.block.epoch, i), nil.value, st'.stored.value)
              && exists saved: State :: SavedVote(st, saved, st'.stored.value) &&
                   if CanTimeOut(saved.rules, st'.stored.value, i) then
                     var w := WithTimeout(st'.stored.value, i);
                     st' == saved.(rules := st'.rules, voteSent := Some(w), sent := st.sent + [w])
                   else Quiet(saved, st')
            else Quiet(st, st')
  {
    if round == st.round && !i.syncOnly {
      ExecuteAndVoteExactlyIf(st, nil, i);
      var (effects, vote) := ExecuteAndVote(st, nil, i);
      if vote.Some? {
        TimesOutWith(st, effects, vote.value, i, OnLocalTimeout(st, round, nil, i));
        assert SavedVote(st, ApplyAll(st, effects), vote.value);
      }
    }
  }

  /** An echoed timeout is a local one, unless the replica has timed out in the round already. */
  lemma EchoExactlyIf(st: State, round: Round, nil: Option<Rules.VoteProposal>, i: Input)
    ensures ApplyAll(st, OnEchoTimeout(st, round, nil, i)) ==
            if st.voteSent.Some? && st.voteSent.value.timeout.Some? then st
            else ApplyAll(st, OnLocalTimeout(st, round, nil, i))
  {
  }

  // ---------------------------------------------------------------- rounds

  function Highest(round: Round, certified: seq<Round>): Round {
    if certified == [] then round
    else Larger(Highest(round, certified[..|certified| - 1]), certified[|certified| - 1] + 1)
  }

  function AfterCertificates(st: State, certified: seq<Round>): State {
    if certified == [] then st
    else
      var before := AfterCertificates(st, certified[..|certified| - 1]);
      ApplyAll(before, OnCertificates(before, certified[|certified| - 1]))
  }

  /** After any certificates the replica is in the round after the highest one, or in a later one it was
      in before, and the vote of the round is forgotten exactly if the round has changed. */
  lemma {:induction false} CertificatesExactlyIf(st: State, certified: seq<Round>)
    ensures var st' := AfterCertificates(st, certified);
            && st'.round == Highest(st.round, certified) >= st.round
            && st' == st.(round := st'.round, voteSent := if st'.round == st.round then st.voteSent else None)
            && (forall h :: h in certified ==> h < st'.round)
            && (st'.round != st.round ==> st'.round - 1 in certified)
  {
    if certified != [] {
      var init, h := certified[..|certified| - 1], certified[|certified| - 1];
      CertificatesExactlyIf(st, init);
      assert certified == init + [h];
      ApplyOne(AfterCertificates(st, init), EnterRound(h + 1));
    }
  }

  // ---------------------------------------------------------------- crashes

  /** A start records the saved vote exactly if it is of the epoch and round it starts in. */
  lemma RestartRecords(st: State, r: Restart)
    ensures var st' := Recover(st, r);
            && st'.round == r.highest + 1 && st'.stored == st.stored && st'.sent == st.sent
            && st'.rules.data.epoch >= st.rules.data.epoch
            && (st'.voteSent.Some? <==>
                  && st.stored.Some? && st.stored.value.VotedEpoch() == r.epoch
                  && st.stored.value.VotedRound() == r.highest + 1)
            && (st'.voteSent.Some? ==> st'.voteSent == st.stored)
  {
  }

  /** The vote that was promised before a crash is the one sent afterwards: proposed any block of the
      same round again, the replica sends it, even if it had not been saved. */
  lemma PromisedVoteIsSent(
    st: State, r: Restart, vote: Vote, p: Rules.VoteProposal, i: Input)
    requires st.rules.data.lastVote == Some(vote) && vote.VotedRound() == r.highest + 1
    requires st.stored.Some? ==>
               st.stored.value.VotedEpoch() != r.epoch || st.stored.value.VotedRound() != r.highest + 1
    requires r.init.Some? && r.init.value.epoch == st.rules.data.epoch && r.author in r.init.value.verifier.Authors()
    requires p.block.round == vote.VotedRound() && !i.syncOnly && i.saveOk
    requires var rules := Recover(st, r).rules; ProposalHolds(rules, p, i.signed) && TcHolds(rules, i.tc, i.signed)
    ensures var st' := ApplyAll(Recover(st, r), OnProposal(Recover(st, r), p.block.round, Some(p), i));
            st'.sent == st.sent + [vote] && st'.stored == Some(vote) && st'.voteSent == Some(vote)
  {
    EntersExactlyIf(Rules.State(st.rules.data, None, None), r.init.value, r.author);
    RestartRecords(st, r);
    ProposalExactlyIf(Recover(st, r), p.block.round, Some(p), i);
  }
}
