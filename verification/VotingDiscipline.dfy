/** Over every run of a replica, with crashes between any two effects, the votes on the wire
    never contradict each other and never run ahead of what is persisted. */
module VotingDiscipline {
  import opened Options
  import opened ConsensusTypes
  import opened RoundManager

  // ---------------------------------------------------------------- runs

  datatype Event =
    | Proposal(round: Round, block: Option<Rules.VoteProposal>, i: Input)   // also a delayed one
    | LocalTimeout(round: Round, block: Option<Rules.VoteProposal>, i: Input)
    | EchoTimeout(round: Round, block: Option<Rules.VoteProposal>, i: Input)
    | Certificates(highest: Round)

  /** A proposal message and a generated NIL block are for the round of the event. */
  predicate WellFormed(e: Event) {
    e.Certificates? || (e.block.Some? ==> e.block.value.block.round == e.round)
  }

  function Effects(st: State, e: Event): seq<Effect> {
    match e
    case Proposal(round, p, i) => OnProposal(st, round, p, i)
    case LocalTimeout(round, nil, i) => OnLocalTimeout(st, round, nil, i)
    case EchoTimeout(round, nil, i) => OnEchoTimeout(st, round, nil, i)
    case Certificates(highest) => OnCertificates(st, highest)
  }

  /** The state at a crash point, `keep` effects into the handling of an event. */
  function CrashPoint(st: State, e: Event, keep: nat): State
    requires keep <= |Effects(st, e)|
  {
    ApplyAll(st, Effects(st, e)[..keep])
  }

  /** A crash loses everything but the persistent data; starting again may enter another epoch. */
  datatype Restart = Restart(init: Option<Rules.EpochState>, author: Author, epoch: nat, highest: Round)

  function Recover(st: State, r: Restart): State {
    var cold := Rules.State(st.rules.data, None, None);
    var rules := if r.init.Some? then Rules.EnterEpoch(cold, r.init.value, r.author) else cold;
    Restarted(rules, st.stored, st.sent, r.epoch, r.highest)
  }

  datatype Step = Handle(e: Event) | Crash(e: Event, keep: nat, restart: Restart)

  predicate Enabled(st: State, step: Step) {
    WellFormed(step.e) && (step.Crash? ==> step.keep <= |Effects(st, step.e)|)
  }

  function Do(st: State, step: Step): State
    requires Enabled(st, step)
  {
    match step
    case Handle(e) => ApplyAll(st, Effects(st, e))
    case Crash(e, keep, restart) => Recover(CrashPoint(st, e, keep), restart)
  }

  /** A replica that has never voted. */
  predicate Init(st: State) {
    st.stored.None? && st.voteSent.None? && st.sent == [] && st.rules.data.lastVote.None?
  }

  ghost predicate Run(states: seq<State>, steps: seq<Step>) {
    && |states| == |steps| + 1
    && Init(states[0])
    && forall i :: 0 <= i < |steps| ==> Enabled(states[i], steps[i]) && states[i + 1] == Do(states[i], steps[i])
  }

  // ---------------------------------------------------------------- the invariant

  predicate Before(v: Vote, w: Vote) {
    v.VotedEpoch() < w.VotedEpoch() || (v.VotedEpoch() == w.VotedEpoch() && v.VotedRound() < w.VotedRound())
  }

  /** `v` is of an earlier round than `w`, or says the same. */
  predicate Covered(v: Vote, w: Vote) {
    Before(v, w) || v.voteData == w.voteData
  }

  predicate SameRound(v: Vote, w: Vote) {
    v.VotedEpoch() == w.VotedEpoch() && v.VotedRound() == w.VotedRound()
  }

  predicate DataOk(d: Rules.SafetyData) {
    d.lastVote.Some? ==> d.lastVote.value.VotedEpoch() == d.epoch && d.lastVote.value.VotedRound() <= d.lastVotedRound
  }

  /** What the database holds never runs ahead of what the safety rules promised. */
  predicate StoredOk(st: State) {
    st.stored.Some? ==>
      || st.stored.value.VotedEpoch() < st.rules.data.epoch
      || (st.rules.data.lastVote.Some? && Covered(st.stored.value, st.rules.data.lastVote.value))
  }

  predicate VoteSentOk(st: State) {
    st.voteSent.Some? ==> st.stored.Some? && st.voteSent.value.voteData == st.stored.value.voteData
  }

  predicate SentCovered(sent: seq<Vote>, stored: Option<Vote>) {
    sent != [] ==> stored.Some? && forall k :: 0 <= k < |sent| ==> Covered(sent[k], stored.value)
  }

  predicate SentAgree(sent: seq<Vote>) {
    forall j, k :: 0 <= j < |sent| && 0 <= k < |sent| && SameRound(sent[j], sent[k]) ==>
      sent[j].voteData == sent[k].voteData
  }

  predicate Inv(st: State) {
    DataOk(st.rules.data) && StoredOk(st) && VoteSentOk(st) && SentCovered(st.sent, st.stored) && SentAgree(st.sent)
  }

  // ---------------------------------------------------------------- one effect

  predicate Advances(d: Rules.SafetyData, d': Rules.SafetyData) {
    && d'.epoch == d.epoch
    && d.lastVotedRound <= d'.lastVotedRound
    && (d'.lastVote == d.lastVote
        || (d'.lastVote.Some? && d'.lastVote.value.VotedEpoch() == d.epoch
            && d.lastVotedRound < d'.lastVote.value.VotedRound() <= d'.lastVotedRound))
  }

  /** Nothing is saved but the last promise, and nothing recorded or sent but what is saved. */
  predicate EffectOk(st: State, e: Effect) {
    match e
    case Initialise(_, _) => true
    case Promise(data) => Advances(st.rules.data, data)
    case SaveVote(vote) => st.voteSent.None? && st.rules.data.lastVote == Some(vote)
    case RecordVote(vote) => st.stored.Some? && vote.voteData == st.stored.value.voteData
    case Send(vote) => st.stored.Some? && vote.voteData == st.stored.value.voteData
    case EnterRound(_) => true
  }

  lemma CoveredTransitive(u: Vote, v: Vote, w: Vote)
    requires Covered(u, v) && Covered(v, w)
    ensures Covered(u, w)
  {
  }

  lemma SaveKeepsInv(st: State, vote: Vote)
    requires Inv(st) && EffectOk(st, SaveVote(vote))
    ensures Inv(Apply(st, SaveVote(vote)))
  {
    forall k | 0 <= k < |st.sent| ensures Covered(st.sent[k], vote) {
      CoveredTransitive(st.sent[k], st.stored.value, vote);
    }
  }

  lemma EffectKeepsInv(st: State, e: Effect)
    requires Inv(st) && EffectOk(st, e)
    ensures Inv(Apply(st, e))
  {
    if e.SaveVote? {
      SaveKeepsInv(st, e.vote);
    }
  }

  predicate AllOk(st: State, effects: seq<Effect>)
    decreases effects
  {
    effects == [] || (EffectOk(st, effects[0]) && AllOk(Apply(st, effects[0]), effects[1..]))
  }

  lemma {:induction false} AllOkAppend(st: State, a: seq<Effect>, b: seq<Effect>)
    requires AllOk(st, a) && AllOk(ApplyAll(st, a), b)
    ensures AllOk(st, a + b)
    decreases a
  {
    if a == [] {
      assert a + b == b;
    } else {
      AllOkAppend(Apply(st, a[0]), a[1..], b);
      assert (a + b)[1..] == a[1..] + b;
    }
  }

  lemma {:induction false} PrefixKeepsInv(st: State, effects: seq<Effect>, keep: nat)
    requires Inv(st) && AllOk(st, effects) && keep <= |effects|
    ensures Inv(ApplyAll(st, effects[..keep]))
    decreases effects
  {
    if keep > 0 {
      EffectKeepsInv(st, effects[0]);
      PrefixKeepsInv(Apply(st, effects[0]), effects[1..], keep - 1);
      assert effects[..keep][1..] == effects[1..][..keep - 1];
    }
  }

  // ---------------------------------------------------------------- the handlers

  lemma VoteAdvances(rules: Rules.State, p: Rules.VoteProposal, tc: Option<TimeoutCert>, signed: set<Signature>)
    ensures var (rules', r) := Rules.ConstructAndSignVote(rules, p, tc, signed);
            && rules'.(data := rules.data) == rules
            && Advances(rules.data, rules'.data)
            && (r.Ok? ==> rules'.data.lastVote == Some(r.value) && r.value.VotedRound() == p.block.round)
  {
  }

  lemma TimeoutAdvances(rules: Rules.State, t: TwoChainTimeout, tc: Option<TimeoutCert>, signed: set<Signature>)
    ensures var (rules', r) := Rules.SignTimeout(rules, t, tc, signed);
            rules'.(data := rules.data) == rules && Advances(rules.data, rules'.data)
  {
  }

  /** Signing touches only the safety rules, and a vote signed is the last promise. */
  lemma SignVoteOk(st: State, p: Rules.VoteProposal, i: Input)
    ensures var (effects, vote) := SignVote(st.rules, p, i);
            && AllOk(st, effects)
            && ApplyAll(st, effects).(rules := st.rules) == st
            && (vote.Some? ==> ApplyAll(st, effects).rules.data.lastVote == vote)
  {
    VoteAdvances(st.rules, p, i.tc, i.signed);
    if i.reinit.Some? {
      var st' := Apply(st, Initialise(i.reinit.value, i.author));
      VoteAdvances(st'.rules, p, i.tc, i.signed);
      var promised := Promised(st'.rules, Rules.ConstructAndSignVote(st'.rules, p, i.tc, i.signed).0);
      assert AllOk(st', promised);
      AllOkAppend(st, [Initialise(i.reinit.value, i.author)], promised);
      ApplyAppend(st, [Initialise(i.reinit.value, i.author)], promised);
    }
  }

  lemma SignTimeoutOk(st: State, t: TwoChainTimeout, i: Input)
    ensures var effects := SignTimeout(st.rules, t, i).0;
            AllOk(st, effects) && ApplyAll(st, effects).(rules := st.rules) == st
  {
    TimeoutAdvances(st.rules, t, i.tc, i.signed);
    if i.reinit.Some? {
      var st' := Apply(st, Initialise(i.reinit.value, i.author));
      TimeoutAdvances(st'.rules, t, i.tc, i.signed);
      var promised := Promised(st'.rules, Rules.SignTimeout(st'.rules, t, i.tc, i.signed).0);
      assert AllOk(st', promised);
      AllOkAppend(st, [Initialise(i.reinit.value, i.author)], promised);
      ApplyAppend(st, [Initialise(i.reinit.value, i.author)], promised);
    }
  }

  /** A vote returned has been saved. */
  lemma ExecuteAndVoteOk(st: State, p: Option<Rules.VoteProposal>, i: Input)
    ensures var (effects, vote) := ExecuteAndVote(st, p, i);
            AllOk(st, effects) && (vote.Some? ==> ApplyAll(st, effects).stored == vote)
  {
    if p.Some? && st.voteSent.None? && !i.syncOnly {
      SignVoteOk(st, p.value, i);
      var (effects, vote) := SignVote(st.rules, p.value, i);
      if vote.Some? && i.saveOk {
        AllOkAppend(st, effects, [SaveVote(vote.value)]);
        ApplyAppend(st, effects, [SaveVote(vote.value)]);
      }
    }
  }

  lemma SendOk(st: State, effects: seq<Effect>, vote: Vote)
    requires AllOk(st, effects) && ApplyAll(st, effects).stored.Some?
    requires vote.voteData == ApplyAll(st, effects).stored.value.voteData
    ensures AllOk(st, effects + [RecordVote(vote), Send(vote)])
  {
    AllOkAppend(st, effects, [RecordVote(vote), Send(vote)]);
  }

  lemma ProposalOk(st: State, p: Option<Rules.VoteProposal>, i: Input)
    ensures AllOk(st, OnVerifiedProposal(st, p, i))
  {
    ExecuteAndVoteOk(st, p, i);
    var (effects, vote) := ExecuteAndVote(st, p, i);
    if vote.Some? {
      SendOk(st, effects, vote.value);
    }
  }

  lemma LocalTimeoutOk(st: State, round: Round, nil: Option<Rules.VoteProposal>, i: Input)
    requires Inv(st)
    ensures AllOk(st, OnLocalTimeout(st, round, nil, i))
  {
    ExecuteAndVoteOk(st, nil, i);
    var (effects, vote) := VoteOrNil(st, round, nil, i);
    if round == st.round && !i.syncOnly && vote.Some? {
      if vote.value.IsTimeout() {
        SendOk(st, effects, vote.value);
      } else {
        var t := TwoChainTimeout(vote.value.VotedEpoch(), vote.value.VotedRound(), i.hqc);
        var st' := ApplyAll(st, effects);
        SignTimeoutOk(st', t, i);
        var (more, ok) := SignTimeout(st'.rules, t, i);
        AllOkAppend(st, effects, more);
        ApplyAppend(st, effects, more);
        if ok {
          SendOk(st, effects + more, vote.value.(timeout := Some(t)));
        }
      }
    }
  }

  lemma HandlersOk(st: State, e: Event)
    requires Inv(st)
    ensures AllOk(st, Effects(st, e))
  {
    match e
    case Proposal(round, p, i) => ProposalOk(st, p, i);
    case LocalTimeout(round, nil, i) => LocalTimeoutOk(st, round, nil, i);
    case EchoTimeout(round, nil, i) => LocalTimeoutOk(st, round, nil, i);
    case Certificates(highest) =>
  }

  // ---------------------------------------------------------------- whole runs

  lemma CrashPointHasInv(st: State, e: Event, keep: nat)
    requires Inv(st) && keep <= |Effects(st, e)|
    ensures Inv(CrashPoint(st, e, keep))
  {
    HandlersOk(st, e);
    PrefixKeepsInv(st, Effects(st, e), keep);
  }

  lemma StepKeepsInv(st: State, step: Step)
    requires Inv(st) && Enabled(st, step)
    ensures Inv(Do(st, step))
  {
    match step
    case Handle(e) =>
      CrashPointHasInv(st, e, |Effects(st, e)|);
      assert Effects(st, e)[..|Effects(st, e)|] == Effects(st, e);
    case Crash(e, keep, restart) =>
      CrashPointHasInv(st, e, keep);
  }

  lemma {:induction false} RunHasInv(states: seq<State>, steps: seq<Step>, n: nat)
    requires Run(states, steps) && n < |states|
    ensures Inv(states[n])
  {
    if n > 0 {
      RunHasInv(states, steps, n - 1);
      StepKeepsInv(states[n - 1], steps[n - 1]);
    }
  }

  /** At every crash point of every run: all votes sent in one round carry the same vote data, and
      each of them has a round no higher than the persisted vote's, with the same vote data when
      the rounds are equal. */
  lemma NoEquivocation(states: seq<State>, steps: seq<Step>, n: nat, e: Event, keep: nat, j: nat, k: nat)
    requires Run(states, steps) && n < |states| && keep <= |Effects(states[n], e)|
    requires j < |CrashPoint(states[n], e, keep).sent| && k < |CrashPoint(states[n], e, keep).sent|
    ensures var st := CrashPoint(states[n], e, keep);
            && (SameRound(st.sent[j], st.sent[k]) ==> st.sent[j].voteData == st.sent[k].voteData)
            && st.stored.Some?
            && (Before(st.sent[j], st.stored.value) || st.sent[j].voteData == st.stored.value.voteData)
  {
    RunHasInv(states, steps, n);
    CrashPointHasInv(states[n], e, keep);
  }

  // ---------------------------------------------------------------- the current round only

  predicate SendsFor(effects: seq<Effect>, round: Round) {
    forall k :: 0 <= k < |effects| && effects[k].Send? ==> effects[k].vote.VotedRound() == round
  }

  lemma SignVoteSendsNothing(rules: Rules.State, p: Rules.VoteProposal, i: Input, round: Round)
    ensures var (effects, vote) := SignVote(rules, p, i);
            SendsFor(effects, round) && (vote.Some? ==> vote.value.VotedRound() == p.block.round)
  {
    VoteAdvances(rules, p, i.tc, i.signed);
    if i.reinit.Some? {
      VoteAdvances(Rules.EnterEpoch(rules, i.reinit.value, i.author), p, i.tc, i.signed);
    }
  }

  lemma SignTimeoutSendsNothing(rules: Rules.State, t: TwoChainTimeout, i: Input, round: Round)
    ensures SendsFor(SignTimeout(rules, t, i).0, round)
  {
  }

  lemma SendsForAppend(a: seq<Effect>, b: seq<Effect>, round: Round)
    requires SendsFor(a, round) && SendsFor(b, round)
    ensures SendsFor(a + b, round)
  {
  }

  lemma VoteOrNilSendsNothing(st: State, round: Round, nil: Option<Rules.VoteProposal>, i: Input)
    requires nil.Some? ==> nil.value.block.round == round
    ensures var (effects, vote) := VoteOrNil(st, round, nil, i);
            SendsFor(effects, round) && (vote.Some? ==> vote.value.VotedRound() == round)
  {
    if nil.Some? {
      SignVoteSendsNothing(st.rules, nil.value, i, round);
    }
  }

  lemma TimeoutSendsFor(st: State, round: Round, nil: Option<Rules.VoteProposal>, i: Input)
    requires nil.Some? ==> nil.value.block.round == round
    ensures SendsFor(OnLocalTimeout(st, round, nil, i), round)
  {
    VoteOrNilSendsNothing(st, round, nil, i);
    var (effects, vote) := VoteOrNil(st, round, nil, i);
    if vote.Some? {
      SendsForAppend(effects, [RecordVote(vote.value), Send(vote.value)], round);
      var t := TwoChainTimeout(vote.value.VotedEpoch(), vote.value.VotedRound(), i.hqc);
      var more := SignTimeout(ApplyAll(st, effects).rules, t, i).0;
      var timeoutVote := vote.value.(timeout := Some(t));
      SignTimeoutSendsNothing(ApplyAll(st, effects).rules, t, i, round);
      SendsForAppend(effects, more, round);
      SendsForAppend(effects + more, [RecordVote(timeoutVote), Send(timeoutVote)], round);
    }
  }

  lemma EffectsSendFor(st: State, e: Event)
    requires WellFormed(e)
    ensures SendsFor(Effects(st, e), st.round)
  {
    match e
    case Proposal(round, p, i) => if p.Some? { SignVoteSendsNothing(st.rules, p.value, i, round); }
    case LocalTimeout(round, nil, i) => TimeoutSendsFor(st, round, nil, i);
    case EchoTimeout(round, nil, i) => TimeoutSendsFor(st, round, nil, i);
    case Certificates(_) =>
  }

  lemma {:induction false} WhatIsSent(st: State, effects: seq<Effect>, round: Round)
    requires SendsFor(effects, round)
    ensures var sent := ApplyAll(st, effects).sent;
            && |st.sent| <= |sent| && sent[..|st.sent|] == st.sent
            && forall k :: |st.sent| <= k < |sent| ==> sent[k].VotedRound() == round
    decreases effects
  {
    if effects != [] {
      var st', sent := Apply(st, effects[0]), ApplyAll(st, effects).sent;
      assert forall k :: 0 <= k < |effects| - 1 ==> effects[1..][k] == effects[k + 1];
      WhatIsSent(st', effects[1..], round);
      assert sent[..|st.sent|] == sent[..|st'.sent|][..|st.sent|];
      if effects[0].Send? {
        assert sent[|st.sent|] == sent[..|st'.sent|][|st.sent|] == effects[0].vote;
      }
    }
  }

  /** Handling an event, a replica sends votes for its current round only, and takes none back. */
  lemma OnlyTheCurrentRound(st: State, e: Event, keep: nat)
    requires WellFormed(e) && keep <= |Effects(st, e)|
    ensures var sent := CrashPoint(st, e, keep).sent;
            && |st.sent| <= |sent| && sent[..|st.sent|] == st.sent
            && forall k :: |st.sent| <= k < |sent| ==> sent[k].VotedRound() == st.round
  {
    EffectsSendFor(st, e);
    WhatIsSent(st, Effects(st, e)[..keep], st.round);
  }

  // ---------------------------------------------------------------- recorded votes

  /** The last vote sent, if any was sent, is the one recorded. */
  predicate LastSentRecorded(st: State, st': State) {
    st'.sent != st.sent ==> st'.sent != [] && st'.voteSent == Some(st'.sent[|st'.sent| - 1])
  }

  /** Nothing is recorded or sent, and no round is entered. */
  predicate Quiet(effects: seq<Effect>) {
    forall k :: 0 <= k < |effects| ==> effects[k].Initialise? || effects[k].Promise? || effects[k].SaveVote?
  }

  lemma {:induction false} QuietEffects(st: State, effects: seq<Effect>)
    requires Quiet(effects)
    ensures var st' := ApplyAll(st, effects);
            st'.sent == st.sent && st'.round == st.round && st'.voteSent == st.voteSent
    decreases effects
  {
    if effects != [] {
      assert forall k :: 0 <= k < |effects| - 1 ==> effects[1..][k] == effects[k + 1];
      QuietEffects(Apply(st, effects[0]), effects[1..]);
    }
  }

  lemma RecordAndSendRecords(st: State, effects: seq<Effect>, vote: Vote)
    requires Quiet(effects) && vote.VotedRound() == st.round
    ensures LastSentRecorded(st, ApplyAll(st, effects + [RecordVote(vote), Send(vote)]))
  {
    QuietEffects(st, effects);
    var mid := ApplyAll(st, effects);
    ApplyAppend(st, effects, [RecordVote(vote), Send(vote)]);
    ApplyAppend(mid, [RecordVote(vote)], [Send(vote)]);
    assert [RecordVote(vote)] + [Send(vote)] == [RecordVote(vote), Send(vote)];
    ApplyOne(mid, RecordVote(vote));
    ApplyOne(Apply(mid, RecordVote(vote)), Send(vote));
  }

  lemma ExecuteAndVoteIsQuiet(st: State, p: Option<Rules.VoteProposal>, i: Input)
    ensures Quiet(ExecuteAndVote(st, p, i).0)
    ensures p.Some? && ExecuteAndVote(st, p, i).1.Some? ==>
            ExecuteAndVote(st, p, i).1.value.VotedRound() == p.value.block.round
  {
    if p.Some? {
      SignVoteSendsNothing(st.rules, p.value, i, 0);
    }
  }

  lemma ProposalRecords(st: State, round: Round, p: Option<Rules.VoteProposal>, i: Input)
    requires p.Some? ==> p.value.block.round == round
    ensures LastSentRecorded(st, ApplyAll(st, OnProposal(st, round, p, i)))
  {
    ExecuteAndVoteIsQuiet(st, p, i);
    var (effects, vote) := ExecuteAndVote(st, p, i);
    if round == st.round {
      if vote.Some? {
        RecordAndSendRecords(st, effects, vote.value);
      } else {
        QuietEffects(st, effects);
      }
    }
  }

  lemma SignTimeoutIsQuiet(rules: Rules.State, t: TwoChainTimeout, i: Input)
    ensures Quiet(SignTimeout(rules, t, i).0)
  {
  }

  lemma QuietAppend(a: seq<Effect>, b: seq<Effect>)
    requires Quiet(a) && Quiet(b)
    ensures Quiet(a + b)
  {
  }

  lemma TimeoutRecords(st: State, round: Round, nil: Option<Rules.VoteProposal>, i: Input)
    requires nil.Some? ==> nil.value.block.round == round
    ensures LastSentRecorded(st, ApplyAll(st, OnLocalTimeout(st, round, nil, i)))
  {
    ExecuteAndVoteIsQuiet(st, nil, i);
    VoteOrNilSendsNothing(st, round, nil, i);
    var (effects, vote) := VoteOrNil(st, round, nil, i);
    QuietEffects(st, effects);
    if round == st.round && !i.syncOnly && vote.Some? {
      if vote.value.IsTimeout() {
        RecordAndSendRecords(st, effects, vote.value);
      } else {
        var t := TwoChainTimeout(vote.value.VotedEpoch(), vote.value.VotedRound(), i.hqc);
        var (more, ok) := SignTimeout(ApplyAll(st, effects).rules, t, i);
        SignTimeoutIsQuiet(ApplyAll(st, effects).rules, t, i);
        QuietAppend(effects, more);
        QuietEffects(st, effects + more);
        if ok {
          RecordAndSendRecords(st, effects + more, vote.value.(timeout := Some(t)));
        }
      }
    }
  }

  /** After an event has been handled, the vote it sent is the one recorded: a later timeout of
      the round repeats it, and a later proposal of the round gets no vote. */
  lemma SentIsRecorded(st: State, e: Event)
    requires WellFormed(e)
    ensures LastSentRecorded(st, ApplyAll(st, Effects(st, e)))
  {
    match e
    case Proposal(round, p, i) => ProposalRecords(st, round, p, i);
    case LocalTimeout(round, nil, i) => TimeoutRecords(st, round, nil, i);
    case EchoTimeout(round, nil, i) => TimeoutRecords(st, round, nil, i);
    case Certificates(_) =>
  }

  /** With a vote recorded, no proposal is voted on, and a timeout sends that vote and no other. */
  lemma OneVotePerRound(st: State, e: Event, keep: nat, k: nat)
    requires WellFormed(e) && keep <= |Effects(st, e)|
    requires st.voteSent.Some? && st.voteSent.value.VotedRound() == st.round
    requires |st.sent| <= k < |CrashPoint(st, e, keep).sent|
    ensures !e.Proposal? && CrashPoint(st, e, keep).sent[k].voteData == st.voteSent.value.voteData
  {
    OnlyTheCurrentRound(st, e, keep);
    SendsOnlyRecorded(st, e);
    WhatIsSentSays(st, Effects(st, e)[..keep], st.voteSent.value.voteData);
  }

  predicate SendsOnly(effects: seq<Effect>, data: VoteData) {
    forall k :: 0 <= k < |effects| && effects[k].Send? ==> effects[k].vote.voteData == data
  }

  lemma SendsOnlyRecorded(st: State, e: Event)
    requires st.voteSent.Some? && st.voteSent.value.VotedRound() == st.round
    ensures SendsOnly(Effects(st, e), st.voteSent.value.voteData) && (e.Proposal? ==> Effects(st, e) == [])
  {
    if e.LocalTimeout? || e.EchoTimeout? {
      var t := TwoChainTimeout(st.voteSent.value.VotedEpoch(), st.voteSent.value.VotedRound(), e.i.hqc);
      SignTimeoutIsQuiet(st.rules, t, e.i);
    }
  }

  lemma {:induction false} WhatIsSentSays(st: State, effects: seq<Effect>, data: VoteData)
    requires SendsOnly(effects, data)
    ensures var sent := ApplyAll(st, effects).sent;
            |st.sent| <= |sent| && forall k :: |st.sent| <= k < |sent| ==> sent[k].voteData == data
    decreases effects
  {
    if effects != [] {
      var st', sent := Apply(st, effects[0]), ApplyAll(st, effects).sent;
      assert forall k :: 0 <= k < |effects| - 1 ==> effects[1..][k] == effects[k + 1];
      WhatIsSentSays(st', effects[1..], data);
      if effects[0].Send? {
        PrefixStays(st', effects[1..]);
        assert sent[|st.sent|] == st'.sent[|st.sent|];
      }
    }
  }

  lemma {:induction false} PrefixStays(st: State, effects: seq<Effect>)
    ensures |st.sent| <= |ApplyAll(st, effects).sent| && ApplyAll(st, effects).sent[..|st.sent|] == st.sent
    decreases effects
  {
    if effects != [] {
      var st' := Apply(st, effects[0]);
      PrefixStays(st', effects[1..]);
      assert ApplyAll(st, effects).sent[..|st.sent|] == ApplyAll(st, effects).sent[..|st'.sent|][..|st.sent|];
    }
  }
}
