/** The voting discipline of one replica: which votes its round manager puts on the wire, and in
    which order it persists, records and sends them. A crash may fall between any two effects. */
module RoundManager {
  import opened Options
  import opened ConsensusTypes
  import Rules = SafetyRules

  /** `rules.data` and `stored` survive a crash; `round` and `voteSent` do not. `sent` is the
      history of the votes put on the wire. */
  datatype State = State(
    rules: Rules.State, stored: Option<Vote>, round: Round, voteSent: Option<Vote>, sent: seq<Vote>)

  datatype Effect =
    | Initialise(next: Rules.EpochState, author: Author)  // the safety rules enter an epoch
    | Promise(data: Rules.SafetyData)                     // the safety rules persist their data
    | SaveVote(vote: Vote)                                // the consensus database stores the vote
    | RecordVote(vote: Vote)                              // the round state remembers the vote
    | Send(vote: Vote)
    | EnterRound(round: Round)

  function Apply(st: State, e: Effect): State {
    match e
    case Initialise(next, author) => st.(rules := Rules.EnterEpoch(st.rules, next, author))
    case Promise(data) => st.(rules := st.rules.(data := data))
    case SaveVote(vote) => st.(stored := Some(vote))
    case RecordVote(vote) => if vote.VotedRound() == st.round then st.(voteSent := Some(vote)) else st
    case Send(vote) => st.(sent := st.sent + [vote])
    case EnterRound(round) => st.(round := round, voteSent := None)
  }

  function ApplyAll(st: State, effects: seq<Effect>): State
    decreases effects
  {
    if effects == [] then st else ApplyAll(Apply(st, effects[0]), effects[1..])
  }

  lemma ApplyOne(st: State, e: Effect)
    ensures ApplyAll(st, [e]) == Apply(st, e)
  {
    assert [e][1..] == [];
  }

  lemma {:induction false} ApplyAppend(st: State, a: seq<Effect>, b: seq<Effect>)
    ensures ApplyAll(st, a + b) == ApplyAll(ApplyAll(st, a), b)
    decreases a
  {
    if a == [] {
      assert a + b == b;
    } else {
      ApplyAppend(Apply(st, a[0]), a[1..], b);
      assert (a + b)[1..] == a[1..] + b;
    }
  }

  // ---------------------------------------------------------------- what the handlers do

  /** What a handler takes from the block store, the network and storage. */
  datatype Input = Input(
    tc: Option<TimeoutCert>, hqc: QuorumCert, signed: set<Signature>, syncOnly: bool, saveOk: bool,
    reinit: Option<Rules.EpochState>, author: Author)

  /** Errors after which the safety rules are initialised again and the call is repeated. */
  predicate Retryable(e: Rules.Error) { e.NotInitialized? || e.IncorrectEpoch? || e.WaypointOutOfDate? }

  function Promised(before: Rules.State, after: Rules.State): seq<Effect> {
    if after == before then [] else [Promise(after.data)]
  }

  function SignVote(rules: Rules.State, p: Rules.VoteProposal, i: Input): (seq<Effect>, Option<Vote>) {
    var (once, r) := Rules.ConstructAndSignVote(rules, p, i.tc, i.signed);
    if r.Ok? then (Promised(rules, once), Some(r.value))
    else if !Retryable(r.error) || i.reinit.None? then ([], None)
    else
      var entered := Rules.EnterEpoch(rules, i.reinit.value, i.author);
      var (again, r') := Rules.ConstructAndSignVote(entered, p, i.tc, i.signed);
      ([Initialise(i.reinit.value, i.author)] + Promised(entered, again), if r'.Ok? then Some(r'.value) else None)
  }

  function SignTimeout(rules: Rules.State, t: TwoChainTimeout, i: Input): (seq<Effect>, bool) {
    var (once, r) := Rules.SignTimeout(rules, t, i.tc, i.signed);
    if r.Ok? then (Promised(rules, once), true)
    else if !Retryable(r.error) || i.reinit.None? then ([], false)
    else
      var entered := Rules.EnterEpoch(rules, i.reinit.value, i.author);
      var (again, r') := Rules.SignTimeout(entered, t, i.tc, i.signed);
      ([Initialise(i.reinit.value, i.author)] + Promised(entered, again), r'.Ok?)
  }

  /** `p` is the executed block, or nothing if it could not be executed and inserted. */
  function ExecuteAndVote(st: State, p: Option<Rules.VoteProposal>, i: Input): (seq<Effect>, Option<Vote>) {
    if p.None? || st.voteSent.Some? || i.syncOnly then ([], None)
    else
      var (effects, vote) := SignVote(st.rules, p.value, i);
      if vote.None? || !i.saveOk then (effects, None)
      else (effects + [SaveVote(vote.value)], vote)
  }

  function OnVerifiedProposal(st: State, p: Option<Rules.VoteProposal>, i: Input): seq<Effect> {
    var (effects, vote) := ExecuteAndVote(st, p, i);
    if vote.None? then effects else effects + [RecordVote(vote.value), Send(vote.value)]
  }

  /** A proposal for another round, delayed or not, is dropped. */
  function OnProposal(st: State, round: Round, p: Option<Rules.VoteProposal>, i: Input): seq<Effect> {
    if round != st.round then [] else OnVerifiedProposal(st, p, i)
  }

  function VoteOrNil(st: State, round: Round, nil: Option<Rules.VoteProposal>, i: Input): (seq<Effect>, Option<Vote>) {
    if st.voteSent.Some? && st.voteSent.value.VotedRound() == round then ([], st.voteSent)
    else ExecuteAndVote(st, nil, i)
  }

  function OnLocalTimeout(st: State, round: Round, nil: Option<Rules.VoteProposal>, i: Input): seq<Effect> {
    if round != st.round || i.syncOnly then []
    else
      var (effects, vote) := VoteOrNil(st, round, nil, i);
      if vote.None? then effects
      else if vote.value.IsTimeout() then effects + [RecordVote(vote.value), Send(vote.value)]
      else
        var t := TwoChainTimeout(vote.value.VotedEpoch(), vote.value.VotedRound(), i.hqc);
        var (more, ok) := SignTimeout(ApplyAll(st, effects).rules, t, i);
        if !ok then effects + more
        else
          var timeoutVote := vote.value.(timeout := Some(t));
          effects + more + [RecordVote(timeoutVote), Send(timeoutVote)]
  }

  /** Enough other replicas have timed out: join them, unless that was done already. */
  function OnEchoTimeout(st: State, round: Round, nil: Option<Rules.VoteProposal>, i: Input): seq<Effect> {
    if st.voteSent.Some? && st.voteSent.value.IsTimeout() then [] else OnLocalTimeout(st, round, nil, i)
  }

  /** `highest` is the highest certified or timed-out round known. */
  function OnCertificates(st: State, highest: Round): seq<Effect> {
    if highest + 1 > st.round then [EnterRound(highest + 1)] else []
  }

  // ---------------------------------------------------------------- the object

  /** Voting and timing out change nothing but the persistent data, and nothing at all on error. */
  lemma VoteChangesData(rules: Rules.State, p: Rules.VoteProposal, tc: Option<TimeoutCert>, signed: set<Signature>)
    ensures var (rules', r) := Rules.ConstructAndSignVote(rules, p, tc, signed);
            rules'.(data := rules.data) == rules && (r.Err? ==> rules' == rules)
  {
  }

  lemma TimeoutChangesData(rules: Rules.State, t: TwoChainTimeout, tc: Option<TimeoutCert>, signed: set<Signature>)
    ensures var (rules', r) := Rules.SignTimeout(rules, t, tc, signed);
            rules'.(data := rules.data) == rules && (r.Err? ==> rules' == rules)
  {
  }

  class RoundManager {
    const safetyRules: Rules.SafetyRules
    var stored: Option<Vote>
    var currentRound: Round
    var voteSent: Option<Vote>
    var sent: seq<Vote>
    /** Everything done so far, in order. */
    ghost var trace: seq<Effect>

    /** Starts a round from the certificates in storage, remembering the last vote if it is of
        this epoch and round. */
    constructor (rules: Rules.SafetyRules, lastVote: Option<Vote>, wire: seq<Vote>, epoch: nat, highest: Round)
      ensures safetyRules == rules && fresh(this) && trace == []
      ensures View() == Restarted(rules.View(), lastVote, wire, epoch, highest)
    {
      safetyRules, stored, sent := rules, lastVote, wire;
      currentRound, voteSent, trace := highest + 1, None, [];
      if lastVote.Some? && lastVote.value.VotedEpoch() == epoch && lastVote.value.VotedRound() == highest + 1 {
        voteSent := lastVote;
      }
    }

    function View(): State
      reads this, safetyRules
    {
      State(safetyRules.View(), stored, currentRound, voteSent, sent)
    }

    method InitialiseRules(next: Rules.EpochState, author: Author)
      modifies this, safetyRules
      ensures Did(old(View()), old(trace), [Initialise(next, author)])
    {
      if safetyRules.data.epoch <= next.epoch {
        if safetyRules.data.epoch < next.epoch {
          safetyRules.data := Rules.FreshSafetyData(next.epoch);
        }
        safetyRules.epochState := Some(next);
        safetyRules.signer := if author in next.verifier.Authors() then Some(author) else None;
      }
      trace := trace + [Initialise(next, author)];
    }

    /** The effects were carried out, in this order, on top of what was done before. */
    ghost predicate Did(before: State, done: seq<Effect>, effects: seq<Effect>)
      reads this, safetyRules
    {
      View() == ApplyAll(before, effects) && trace == done + effects
    }

    lemma Extend(st: State, done: seq<Effect>, a: seq<Effect>, b: seq<Effect>)
      requires Did(ApplyAll(st, a), done + a, b)
      ensures Did(st, done, a + b)
    {
      ApplyAppend(st, a, b);
      assert (done + a) + b == done + (a + b);
    }

    method SignVoteOnce(p: Rules.VoteProposal, i: Input) returns (r: Rules.Result<Vote>)
      modifies this, safetyRules
      ensures var (rules, r') := Rules.ConstructAndSignVote(old(View()).rules, p, i.tc, i.signed);
              r == r' && Did(old(View()), old(trace), Promised(old(View()).rules, rules))
    {
      ghost var st := View();
      r := safetyRules.ConstructAndSignVoteTwoChain(p, i.tc, i.signed);
      trace := trace + Promised(st.rules, View().rules);
      VoteChangesData(st.rules, p, i.tc, i.signed);
    }

    method SignVoteWithRetry(p: Rules.VoteProposal, i: Input) returns (vote: Option<Vote>)
      modifies this, safetyRules
      ensures vote == SignVote(old(View()).rules, p, i).1
      ensures Did(old(View()), old(trace), SignVote(old(View()).rules, p, i).0)
    {
      ghost var st, done := View(), trace;
      VoteChangesData(st.rules, p, i.tc, i.signed);
      var r := SignVoteOnce(p, i);
      if r.Err? && Retryable(r.error) && i.reinit.Some? {
        assert Did(st, done, []);
        InitialiseRules(i.reinit.value, i.author);
        ghost var entered := View().rules;
        ApplyOne(st, Initialise(i.reinit.value, i.author));
        assert entered == Rules.EnterEpoch(st.rules, i.reinit.value, i.author);
        r := SignVoteOnce(p, i);
        ghost var promised := Promised(entered, Rules.ConstructAndSignVote(entered, p, i.tc, i.signed).0);
        Extend(st, done, [Initialise(i.reinit.value, i.author)], promised);
        assert SignVote(st.rules, p, i)
               == ([Initialise(i.reinit.value, i.author)] + promised, if r.Ok? then Some(r.value) else None);
      }
      return if r.Ok? then Some(r.value) else None;
    }

    method SignTimeoutOnce(t: TwoChainTimeout, i: Input) returns (r: Rules.Result<Signature>)
      modifies this, safetyRules
      ensures var (rules, r') := Rules.SignTimeout(old(View()).rules, t, i.tc, i.signed);
              r == r' && Did(old(View()), old(trace), Promised(old(View()).rules, rules))
    {
      ghost var st := View();
      r := safetyRules.SignTimeoutWithQc(t, i.tc, i.signed);
      trace := trace + Promised(st.rules, View().rules);
      TimeoutChangesData(st.rules, t, i.tc, i.signed);
    }

    method SignTimeoutWithRetry(t: TwoChainTimeout, i: Input) returns (ok: bool)
      modifies this, safetyRules
      ensures ok == SignTimeout(old(View()).rules, t, i).1
      ensures Did(old(View()), old(trace), SignTimeout(old(View()).rules, t, i).0)
    {
      ghost var st, done := View(), trace;
      TimeoutChangesData(st.rules, t, i.tc, i.signed);
      var r := SignTimeoutOnce(t, i);
      if r.Err? && Retryable(r.error) && i.reinit.Some? {
        assert Did(st, done, []);
        InitialiseRules(i.reinit.value, i.author);
        ghost var entered := View().rules;
        ApplyOne(st, Initialise(i.reinit.value, i.author));
        assert entered == Rules.EnterEpoch(st.rules, i.reinit.value, i.author);
        r := SignTimeoutOnce(t, i);
        ghost var promised := Promised(entered, Rules.SignTimeout(entered, t, i.tc, i.signed).0);
        Extend(st, done, [Initialise(i.reinit.value, i.author)], promised);
        assert SignTimeout(st.rules, t, i) == ([Initialise(i.reinit.value, i.author)] + promised, r.Ok?);
      }
      return r.Ok?;
    }

    method SaveToStorage(vote: Vote)
      modifies this
      ensures Did(old(View()), old(trace), [SaveVote(vote)])
    {
      stored := Some(vote);
      trace := trace + [SaveVote(vote)];
    }

    method RecordAndSend(vote: Vote)
      modifies this
      ensures Did(old(View()), old(trace), [RecordVote(vote), Send(vote)])
    {
      if vote.VotedRound() == currentRound {
        voteSent := Some(vote);
      }
      sent := sent + [vote];
      trace := trace + [RecordVote(vote), Send(vote)];
      ApplyAppend(old(View()), [RecordVote(vote)], [Send(vote)]);
      assert [RecordVote(vote)] + [Send(vote)] == [RecordVote(vote), Send(vote)];
    }

    method ExecuteBlockAndVote(p: Option<Rules.VoteProposal>, i: Input) returns (vote: Option<Vote>)
      modifies this, safetyRules
      ensures vote == ExecuteAndVote(old(View()), p, i).1
      ensures Did(old(View()), old(trace), ExecuteAndVote(old(View()), p, i).0)
    {
      if p.None? || voteSent.Some? || i.syncOnly { return None; }
      ghost var st, done := View(), trace;
      vote := SignVoteWithRetry(p.value, i);
      if vote.None? { return None; }
      if !i.saveOk { return None; }
      SaveToStorage(vote.value);
      Extend(st, done, SignVote(st.rules, p.value, i).0, [SaveVote(vote.value)]);
    }

    method ProcessVerifiedProposal(p: Option<Rules.VoteProposal>, i: Input)
      modifies this, safetyRules
      ensures Did(old(View()), old(trace), OnVerifiedProposal(old(View()), p, i))
    {
      ghost var st, done := View(), trace;
      var vote := ExecuteBlockAndVote(p, i);
      if vote.Some? {
        RecordAndSend(vote.value);
        Extend(st, done, ExecuteAndVote(st, p, i).0, [RecordVote(vote.value), Send(vote.value)]);
      }
    }

    method ProcessDelayedProposal(round: Round, p: Option<Rules.VoteProposal>, i: Input)
      modifies this, safetyRules
      ensures Did(old(View()), old(trace), OnProposal(old(View()), round, p, i))
    {
      if round != currentRound { return; }
      ProcessVerifiedProposal(p, i);
    }

    method ProcessLocalTimeout(round: Round, nil: Option<Rules.VoteProposal>, i: Input)
      modifies this, safetyRules
      ensures Did(old(View()), old(trace), OnLocalTimeout(old(View()), round, nil, i))
    {
      if round != currentRound || i.syncOnly { return; }
      ghost var st, done := View(), trace;
      ghost var effects := VoteOrNil(st, round, nil, i).0;
      var vote := voteSent;
      if vote.None? || vote.value.VotedRound() != round {
        vote := ExecuteBlockAndVote(nil, i);
      }
      if vote.None? { return; }
      var timeoutVote := vote.value;
      if !timeoutVote.IsTimeout() {
        var t := TwoChainTimeout(timeoutVote.VotedEpoch(), timeoutVote.VotedRound(), i.hqc);
        ghost var more := SignTimeout(View().rules, t, i).0;
        var ok := SignTimeoutWithRetry(t, i);
        Extend(st, done, effects, more);
        if !ok { return; }
        effects := effects + more;
        timeoutVote := timeoutVote.(timeout := Some(t));
      }
      RecordAndSend(timeoutVote);
      Extend(st, done, effects, [RecordVote(timeoutVote), Send(timeoutVote)]);
    }

    method ProcessEchoTimeout(round: Round, nil: Option<Rules.VoteProposal>, i: Input)
      modifies this, safetyRules
      ensures Did(old(View()), old(trace), OnEchoTimeout(old(View()), round, nil, i))
    {
      if voteSent.Some? && voteSent.value.IsTimeout() { return; }
      ProcessLocalTimeout(round, nil, i);
    }

    method ProcessCertificates(highest: Round)
      modifies this
      ensures Did(old(View()), old(trace), OnCertificates(old(View()), highest))
    {
      if highest + 1 > currentRound {
        currentRound := highest + 1;
        voteSent := None;
        trace := trace + [EnterRound(highest + 1)];
      }
    }
  }

  /** The state after a start: `wire` is only history. */
  function Restarted(rules: Rules.State, stored: Option<Vote>, wire: seq<Vote>, epoch: nat, highest: Round): State {
    var voteSent :=
      if stored.Some? && stored.value.VotedEpoch() == epoch && stored.value.VotedRound() == highest + 1 then stored
        else None;
    State(rules, stored, highest + 1, voteSent, wire)
  }
}
