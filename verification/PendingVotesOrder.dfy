/** Arrival order does not matter to vote aggregation, and certificates come at the earliest
    moment: results about plain votes without equivocation. */
module PendingVotesOrder {
  import opened ConsensusTypes
  import opened ValidatorVerifiers
  import opened PendingVotes
  import opened PendingVotesRuns

  function Receives(votes: seq<Vote>): seq<Op> {
    seq(|votes|, i requires 0 <= i < |votes| => Receive(votes[i]))
  }

  /** No timeouts, and nobody votes for two different things. */
  predicate Plain(votes: seq<Vote>) {
    && (forall x :: x in votes ==> x.timeout.None?)
    && (forall x, y :: x in votes && y in votes && x.author == y.author ==> x == y)
  }

  function Distinct(votes: seq<Vote>): set<Vote> { set x | x in votes }

  function VotersFor(votes: set<Vote>, li: LedgerInfo): set<Author> {
    set x | x in votes && x.li == li :: x.author
  }

  /** `st` holds the votes of the set and nothing else. */
  ghost predicate Holds(st: State, votes: set<Vote>) {
    && (forall x :: x in votes ==> x.author in st.authorVotes && st.authorVotes[x.author] == x)
    && (forall a :: a in st.authorVotes ==> st.authorVotes[a] in votes && st.authorVotes[a].author == a)
    && (forall x :: x in votes ==> x.li in st.liVotes)
    && (forall li :: li in st.liVotes ==> (exists x :: x in votes && x.li == li)
                                          && st.liVotes[li] == VotersFor(votes, li))
    && st.partialTc.None? && !st.echoTimeout
  }

  /** A set of votes determines the state that holds it. */
  lemma HoldsUnique(a: State, b: State, votes: set<Vote>)
    requires Holds(a, votes) && Holds(b, votes)
    ensures a == b
  {
    assert a.liVotes.Keys == b.liVotes.Keys;
    assert a.liVotes == b.liVotes;
    assert a.authorVotes.Keys == b.authorVotes.Keys;
    assert a.authorVotes == b.authorVotes;
  }

  lemma ReceivesPrefix(votes: seq<Vote>, n: nat)
    requires n <= |votes|
    ensures Receives(votes[..n]) == Receives(votes)[..n]
  {
  }

  lemma PlainPrefix(votes: seq<Vote>, n: nat)
    requires Plain(votes) && n <= |votes|
    ensures Plain(votes[..n])
  {
  }

  lemma DistinctStep(votes: seq<Vote>, i: nat)
    requires i < |votes|
    ensures Distinct(votes[..i + 1]) == Distinct(votes[..i]) + {votes[i]}
  {
    assert votes[..i + 1] == votes[..i] + [votes[i]];
  }

  lemma AddSeen(votes: set<Vote>, vote: Vote)
    ensures vote in votes ==> votes + {vote} == votes
  {
  }

  lemma VotersForAdd(votes: set<Vote>, vote: Vote, li: LedgerInfo)
    ensures VotersFor(votes + {vote}, li) == VotersFor(votes, li) + if vote.li == li then {vote.author} else {}
  {
    if vote.li == li {
      forall x | x in votes && x.li == li ensures x.author in VotersFor(votes + {vote}, li) {
        assert x in votes + {vote};
      }
      assert vote in votes + {vote};
    } else {
      forall x | x in votes && x.li == li ensures x.author in VotersFor(votes + {vote}, li) {
        assert x in votes + {vote};
      }
    }
  }

  lemma SignersAreVoters(st: State, votes: set<Vote>, li: LedgerInfo)
    requires Holds(st, votes)
    ensures Signers(st.liVotes, li) == VotersFor(votes, li)
  {
    if li !in st.liVotes {
      assert VotersFor(votes, li) == {};
    }
  }

  /** A vote is refused exactly if it has been seen. */
  lemma RefusedIfSeen(st: State, votes: set<Vote>, vote: Vote)
    requires Holds(st, votes) && vote.timeout.None?
    requires forall x :: x in votes && x.author == vote.author ==> x == vote
    ensures vote in votes <==> Refusal(st, vote).Some?
  {
  }

  lemma StoredHolds(st: State, votes: set<Vote>, vote: Vote)
    requires Holds(st, votes) && vote !in votes
    requires forall x :: x in votes ==> x.author != vote.author
    ensures Holds(Stored(st, vote), votes + {vote})
  {
    var st', all := Stored(st, vote), votes + {vote};
    SignersAreVoters(st, votes, vote.li);
    forall li | li in st'.liVotes
      ensures (exists x :: x in all && x.li == li) && st'.liVotes[li] == VotersFor(all, li)
    {
      VotersForAdd(votes, vote, li);
      if li == vote.li {
        assert vote in all && vote.li == li;
      } else {
        var x :| x in votes && x.li == li;
        assert x in all && x.li == li;
      }
    }
  }

  /** One more plain vote: repeated votes change nothing, new ones are added. */
  lemma ReceivePlain(st: State, votes: set<Vote>, vote: Vote, v: ValidatorVerifier)
    requires v.quorum <= v.Total() && Holds(st, votes) && vote.timeout.None?
    requires forall x :: x in votes && x.author == vote.author ==> x == vote
    ensures Holds(Insert(st, vote, v).0, votes + {vote})
  {
    RefusedIfSeen(st, votes, vote);
    if vote in votes {
      assert votes + {vote} == votes;
    } else {
      InsertFacts(st, vote, v);
      StoredHolds(st, votes, vote);
      assert Insert(st, vote, v).0 == Stored(st, vote);
    }
  }

  lemma CertificateForPlain(st: State, votes: set<Vote>, vote: Vote, v: ValidatorVerifier)
    requires v.quorum <= v.Total() && Holds(st, votes) && vote.timeout.None?
    requires forall x :: x in votes && x.author == vote.author ==> x == vote
    requires forall x :: x in votes + {vote} ==> x.author in v.Authors()
    ensures Insert(st, vote, v).1.NewQuorumCertificate?
       <==> vote !in votes && v.Power(VotersFor(votes + {vote}, vote.li)) >= v.quorum
  {
    RefusedIfSeen(st, votes, vote);
    SignersAreVoters(st, votes, vote.li);
    VotersForAdd(votes, vote, vote.li);
    assert VotersFor(votes + {vote}, vote.li) <= v.Authors();
  }

  lemma {:induction false} VotesAreHeld(votes: seq<Vote>, v: ValidatorVerifier)
    requires v.quorum <= v.Total() && Plain(votes)
    ensures Holds(After(Receives(votes), v), Distinct(votes))
  {
    if votes != [] {
      var n := |votes| - 1;
      var init, last := votes[..n], votes[n];
      PlainPrefix(votes, n);
      ReceivesPrefix(votes, n);
      VotesAreHeld(init, v);
      assert votes[..n + 1] == votes;
      DistinctStep(votes, n);
      ReceivePlain(After(Receives(init), v), Distinct(init), last, v);
    }
  }

  /** Any two arrival orders of the same votes lead to the same state. */
  lemma OrderIndependence(a: seq<Vote>, b: seq<Vote>, v: ValidatorVerifier)
    requires v.quorum <= v.Total() && Plain(a) && Plain(b)
    requires Distinct(a) == Distinct(b)
    ensures After(Receives(a), v) == After(Receives(b), v)
  {
    VotesAreHeld(a, v);
    VotesAreHeld(b, v);
    HoldsUnique(After(Receives(a), v), After(Receives(b), v), Distinct(a));
  }

  /** The power behind `li` after the first `n` votes. */
  function PowerFor(votes: seq<Vote>, n: nat, li: LedgerInfo, v: ValidatorVerifier): nat
    requires n <= |votes|
  {
    v.Power(VotersFor(Distinct(votes[..n]), li))
  }

  /** A certificate answers a vote exactly when the vote is new and its ledger info has, with
      it, the power of a quorum behind it. */
  lemma CertificateWhenQuorum(votes: seq<Vote>, i: nat, v: ValidatorVerifier)
    requires v.quorum <= v.Total() && Plain(votes) && i < |votes|
    requires forall x :: x in votes ==> x.author in v.Authors()
    ensures ResultAt(Receives(votes), i, v).NewQuorumCertificate?
       <==> votes[i] !in votes[..i] && PowerFor(votes, i + 1, votes[i].li, v) >= v.quorum
  {
    PlainPrefix(votes, i);
    ReceivesPrefix(votes, i);
    VotesAreHeld(votes[..i], v);
    DistinctStep(votes, i);
    CertificateForPlain(After(Receives(votes[..i]), v), Distinct(votes[..i]), votes[i], v);
  }

  /** The first certificate for a ledger info answers exactly the vote that completes its quorum. */
  lemma FirstCertificateAtQuorum(votes: seq<Vote>, i: nat, li: LedgerInfo, v: ValidatorVerifier)
    requires 0 < v.quorum <= v.Total() && Plain(votes) && i < |votes| && votes[i].li == li
    requires forall x :: x in votes ==> x.author in v.Authors()
    ensures (&& ResultAt(Receives(votes), i, v).NewQuorumCertificate?
             && forall j :: 0 <= j < i && votes[j].li == li ==> !ResultAt(Receives(votes), j, v).NewQuorumCertificate?)
       <==> PowerFor(votes, i, li, v) < v.quorum <= PowerFor(votes, i + 1, li, v)
  {
    CertificateWhenQuorum(votes, i, v);
    if PowerFor(votes, i, li, v) < v.quorum {
      forall j | 0 <= j < i && votes[j].li == li ensures !ResultAt(Receives(votes), j, v).NewQuorumCertificate? {
        CertificateWhenQuorum(votes, j, v);
        PowerForMonotone(votes, j + 1, i, li, v);
      }
      DistinctStep(votes, i);
      AddSeen(Distinct(votes[..i]), votes[i]);
    } else {
      var j := CertificateBefore(votes, i, li, v);
    }
  }

  lemma PowerForMonotone(votes: seq<Vote>, m: nat, n: nat, li: LedgerInfo, v: ValidatorVerifier)
    requires m <= n <= |votes|
    ensures PowerFor(votes, m, li, v) <= PowerFor(votes, n, li, v)
  {
    var a, b := Distinct(votes[..m]), Distinct(votes[..n]);
    forall x | x in votes[..m] ensures x in votes[..n] {
      var k :| 0 <= k < m && votes[k] == x;
      assert votes[..n][k] == x;
    }
    assert VotersFor(a, li) <= VotersFor(b, li);
    PowerMonotone(v, VotersFor(a, li), VotersFor(b, li));
  }

  /** If a quorum is behind `li`, a certificate for it has been issued. */
  lemma {:induction false} CertificateBefore(votes: seq<Vote>, n: nat, li: LedgerInfo, v: ValidatorVerifier)
      returns (j: nat)
    requires 0 < v.quorum <= v.Total() && Plain(votes) && n <= |votes|
    requires forall x :: x in votes ==> x.author in v.Authors()
    requires PowerFor(votes, n, li, v) >= v.quorum
    ensures j < n && votes[j].li == li && ResultAt(Receives(votes), j, v).NewQuorumCertificate?
  {
    assert n > 0 by {
      assert VotersFor(Distinct(votes[..0]), li) == {};
      PowerOfNone(v.infos, {});
    }
    if PowerFor(votes, n - 1, li, v) >= v.quorum {
      j := CertificateBefore(votes, n - 1, li, v);
    } else {
      j := n - 1;
      var init := Distinct(votes[..j]);
      DistinctStep(votes, j);
      VotersForAdd(init, votes[j], li);
      assert VotersFor(init, li) + {} == VotersFor(init, li);
      assert votes[j].li == li;
      AddSeen(init, votes[j]);
      CertificateWhenQuorum(votes, j, v);
    }
  }
}
