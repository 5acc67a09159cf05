/** Asked again for a round it has voted in, a replica returns the vote it made, whatever happened in
    between: restarts, epoch changes, timeouts, other proposals. */
module RepeatedVotes {
  import opened Options
  import opened ConsensusTypes
  import opened SafetyRules
  import opened SigningRules
  import opened TwoChainSafety

  /** What the replica answers at this step of a run. */
  ghost function AnswerAt(ws: seq<World>, steps: seq<Step>, k: nat): Result<Vote>
    requires k < |ws| && k < |steps| && steps[k].VoteOn? && steps[k].replica in ws[k].replicas
  {
    ConstructAndSignVote(ws[k].replicas[steps[k].replica], steps[k].proposal, steps[k].tc, ws[k].signed).1
  }

  /** At this step the replica `a` returns a vote. */
  ghost predicate VotesAt(ws: seq<World>, steps: seq<Step>, a: Author, k: nat) {
    && k < |ws| && k < |steps| && steps[k].VoteOn? && steps[k].replica == a && a in ws[k].replicas
    && AnswerAt(ws, steps, k).Ok?
  }

  /** From `m` on, the replica has returned no vote of a later round of the epoch of `vote`. */
  ghost predicate NoLaterVote(ws: seq<World>, steps: seq<Step>, a: Author, vote: Vote, m: nat, n: nat) {
    forall k ::
      m <= k < n && VotesAt(ws, steps, a, k) && AnswerAt(ws, steps, k).value.VotedEpoch() == vote.VotedEpoch() ==>
      AnswerAt(ws, steps, k).value.VotedRound() <= vote.VotedRound()
  }

  /** What the safety data remembers of `vote`: it is the last vote as long as there is no later one,
      and the epoch has not been left. */
  ghost predicate Kept(data: SafetyData, vote: Vote, noneLater: bool) {
    && vote.VotedEpoch() <= data.epoch
    && (vote.VotedEpoch() == data.epoch ==>
          && data.lastVote.Some?
          && data.lastVote.value.VotedRound() <= data.lastVotedRound
          && (noneLater ==> data.lastVote == Some(vote))
          && (!noneLater ==> data.lastVote.value.VotedRound() > vote.VotedRound()))
  }

  /** The last vote is of the epoch of the safety data, and of no later round than the last one voted in. */
  ghost predicate LastVoteOk(data: SafetyData) {
    data.lastVote.Some? ==>
      data.lastVote.value.VotedEpoch() == data.epoch && data.lastVote.value.VotedRound() <= data.lastVotedRound
  }

  lemma VoteStepKeeps(
    st: State, p: VoteProposal, tc: Option<TimeoutCert>, signed: set<Signature>, vote: Vote, noneLater: bool)
    requires LastVoteOk(st.data) && Kept(st.data, vote, noneLater)
    ensures var (st', r) := ConstructAndSignVote(st, p, tc, signed);
            && LastVoteOk(st'.data)
            && (r.Ok? ==> st'.data.lastVote == Some(r.value) && r.value.VotedEpoch() == st.data.epoch)
            && Kept(st'.data, vote, noneLater &&
                    (r.Ok? && r.value.VotedEpoch() == vote.VotedEpoch() ==> r.value.VotedRound() <= vote.VotedRound()))
  {
    VotesExactlyIf(st, p, tc, signed);
  }

  lemma OtherStepKeeps(cfg: Config, w: World, step: Step, a: Author, vote: Vote, noneLater: bool)
    requires Allowed(cfg, w, step) && a in w.replicas && !(step.VoteOn? && step.replica == a)
    requires LastVoteOk(w.replicas[a].data) && Kept(w.replicas[a].data, vote, noneLater)
    ensures var w' := Do(cfg, w, step);
            a in w'.replicas && LastVoteOk(w'.replicas[a].data) && Kept(w'.replicas[a].data, vote, noneLater)
  {
    if step.TimeOut? && step.replica == a {
      TimesOutExactlyIf(w.replicas[a], step.timeout, step.tc, w.signed);
    } else if step.NewEpoch? && step.replica == a {
      EntersExactlyIf(w.replicas[a], EpochState(step.epoch, cfg.verifierOf(step.epoch)), a);
    }
  }

  lemma NoneLaterStep(ws: seq<World>, steps: seq<Step>, a: Author, vote: Vote, m: nat, n: nat)
    requires m < n
    ensures NoLaterVote(ws, steps, a, vote, m, n) <==>
            && NoLaterVote(ws, steps, a, vote, m, n - 1)
            && (VotesAt(ws, steps, a, n - 1) && AnswerAt(ws, steps, n - 1).value.VotedEpoch() == vote.VotedEpoch() ==>
                  AnswerAt(ws, steps, n - 1).value.VotedRound() <= vote.VotedRound())
  {
  }

  lemma StepKeepsLastVoteOk(cfg: Config, w: World, step: Step, a: Author)
    requires Allowed(cfg, w, step) && a in w.replicas && LastVoteOk(w.replicas[a].data)
    ensures var w' := Do(cfg, w, step); a in w'.replicas && LastVoteOk(w'.replicas[a].data)
  {
    var st := w.replicas[a];
    if step.VoteOn? && step.replica == a {
      VotesExactlyIf(st, step.proposal, step.tc, w.signed);
    } else if step.TimeOut? && step.replica == a {
      TimesOutExactlyIf(st, step.timeout, step.tc, w.signed);
    } else if step.NewEpoch? && step.replica == a {
      EntersExactlyIf(st, EpochState(step.epoch, cfg.verifierOf(step.epoch)), a);
    }
  }

  lemma {:induction false} RunHasLastVoteOk(cfg: Config, ws: seq<World>, steps: seq<Step>, n: nat, a: Author)
    requires Run(cfg, ws, steps) && n < |ws| && a in ws[0].replicas
    ensures a in ws[n].replicas && LastVoteOk(ws[n].replicas[a].data)
  {
    if n > 0 {
      RunHasLastVoteOk(cfg, ws, steps, n - 1, a);
      StepKeepsLastVoteOk(cfg, ws[n - 1], steps[n - 1], a);
    }
  }

  lemma {:induction false} SameReplicas(cfg: Config, ws: seq<World>, steps: seq<Step>, n: nat)
    requires Run(cfg, ws, steps) && n < |ws|
    ensures ws[n].replicas.Keys == ws[0].replicas.Keys
  {
    if n > 0 {
      SameReplicas(cfg, ws, steps, n - 1);
    }
  }

  /** A vote that was returned stays the last one until a later one is made or the epoch is left. */
  lemma {:induction false} RunKeepsVote(cfg: Config, ws: seq<World>, steps: seq<Step>, a: Author, m: nat, n: nat)
    requires Run(cfg, ws, steps) && m < n < |ws| && VotesAt(ws, steps, a, m)
    ensures a in ws[n].replicas
    ensures Kept(ws[n].replicas[a].data, AnswerAt(ws, steps, m).value,
                 NoLaterVote(ws, steps, a, AnswerAt(ws, steps, m).value, m, n))
    decreases n
  {
    var vote, step := AnswerAt(ws, steps, m).value, steps[n - 1];
    SameReplicas(cfg, ws, steps, m);
    RunHasLastVoteOk(cfg, ws, steps, n - 1, a);
    NoneLaterStep(ws, steps, a, vote, m, n);
    if n == m + 1 {
      VotesExactlyIf(ws[m].replicas[a], step.proposal, step.tc, ws[m].signed);
    } else {
      RunKeepsVote(cfg, ws, steps, a, m, n - 1);
      var noneLater := NoLaterVote(ws, steps, a, vote, m, n - 1);
      if step.VoteOn? && step.replica == a {
        VoteStepKeeps(ws[n - 1].replicas[a], step.proposal, step.tc, ws[n - 1].signed, vote, noneLater);
      } else {
        OtherStepKeeps(cfg, ws[n - 1], step, a, vote, noneLater);
      }
    }
  }

  /** In every run: asked for a round of an epoch in which it has returned a vote before, a replica
      returns the same vote if the proposal holds and it has made no later vote since, and no vote
      otherwise. */
  lemma SecondCallReturnsSameVote(cfg: Config, ws: seq<World>, steps: seq<Step>, a: Author, m: nat, n: nat)
    requires Run(cfg, ws, steps) && m < n < |steps| && VotesAt(ws, steps, a, m)
    requires steps[n].VoteOn? && steps[n].replica == a
    requires var vote, block := AnswerAt(ws, steps, m).value, steps[n].proposal.block;
             block.epoch == vote.VotedEpoch() && block.round == vote.VotedRound()
    ensures a in ws[n].replicas
    ensures var vote, st := AnswerAt(ws, steps, m).value, ws[n].replicas[a];
            && (AnswerAt(ws, steps, n).Ok? <==>
                  && ProposalHolds(st, steps[n].proposal, ws[n].signed) && TcHolds(st, steps[n].tc, ws[n].signed)
                  && NoLaterVote(ws, steps, a, vote, m, n))
            && (AnswerAt(ws, steps, n).Ok? ==> AnswerAt(ws, steps, n).value == vote && ws[n + 1].replicas[a] == st)
  {
    RunKeepsVote(cfg, ws, steps, a, m, n);
    VotesExactlyIf(ws[n].replicas[a], steps[n].proposal, steps[n].tc, ws[n].signed);
  }
}
