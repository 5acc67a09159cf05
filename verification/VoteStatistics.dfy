/** The statistics a leader logs about the votes of the previous round. */
module VoteStatistics {
  import opened ConsensusTypes
  import opened ValidatorVerifiers
  import opened PendingVotes
  import opened PendingVotesRuns

  type Entry = (LedgerInfo, set<Author>)

  datatype Stats = Stats(maxPower: nat, maxVotes: nat, conflictingPower: nat, conflictingVotes: nat)

  /** Voting power and number of the known authors among `signers`. */
  function Tally(v: ValidatorVerifier, signers: set<Author>): (nat, nat) {
    (v.Power(signers), |signers * v.Authors()|)
  }

  function AllSigners(entries: seq<Entry>): set<Author> {
    if entries == [] then {} else entries[0].1 + AllSigners(entries[1..])
  }

  /** Pairs are compared by power first, then by count. */
  predicate AtMost(a: (nat, nat), b: (nat, nat)) {
    a.0 < b.0 || (a.0 == b.0 && a.1 <= b.1)
  }

  function Plus(a: (nat, nat), b: (nat, nat)): (nat, nat) { (a.0 + b.0, a.1 + b.1) }

  function SumTally(v: ValidatorVerifier, entries: seq<Entry>): (nat, nat) {
    if entries == [] then (0, 0) else Plus(Tally(v, entries[0].1), SumTally(v, entries[1..]))
  }

  /** The largest tally of a ledger info; it never exceeds the sum of all of them. */
  function MaxTally(v: ValidatorVerifier, entries: seq<Entry>): (r: (nat, nat))
    ensures r.0 <= SumTally(v, entries).0 && r.1 <= SumTally(v, entries).1
  {
    if entries == [] then (0, 0)
    else
      var head, rest := Tally(v, entries[0].1), MaxTally(v, entries[1..]);
      if |entries| == 1 || !AtMost(head, rest) then head else rest
  }

  lemma {:induction false} MaxTallyIsLargest(v: ValidatorVerifier, entries: seq<Entry>, k: nat) returns (best: nat)
    requires k < |entries|
    ensures var power, count := v.Power(entries[k].1), |entries[k].1 * v.Authors()|;
            var top := MaxTally(v, entries);
            power < top.0 || (power == top.0 && count <= top.1)
    ensures best < |entries| && Tally(v, entries[best].1) == MaxTally(v, entries)
  {
    best := 0;
    if |entries| > 1 {
      var rest := MaxTallyIsLargest(v, entries[1..], if k > 0 then k - 1 else 0);
      if AtMost(Tally(v, entries[0].1), MaxTally(v, entries[1..])) {
        best := rest + 1;
      }
    }
  }

  /** Neither subtraction can underflow. */
  function CollectedStats(v: ValidatorVerifier, entries: seq<Entry>): Stats {
    var best, sum := MaxTally(v, entries), SumTally(v, entries);
    Stats(best.0, best.1, sum.0 - best.0, sum.1 - best.1)
  }

  predicate PairwiseDisjoint(entries: seq<Entry>) {
    forall i, j :: 0 <= i < j < |entries| ==> entries[i].1 !! entries[j].1
  }

  lemma {:induction false} InAllSigners(entries: seq<Entry>, a: Author)
    ensures a in AllSigners(entries) <==> exists i :: 0 <= i < |entries| && a in entries[i].1
  {
    if entries != [] {
      InAllSigners(entries[1..], a);
      if i :| 0 <= i < |entries| && a in entries[i].1 && i > 0 {
        assert entries[1..][i - 1] == entries[i];
      }
      if a in AllSigners(entries[1..]) {
        var i :| 0 <= i < |entries[1..]| && a in entries[1..][i].1;
        assert entries[i + 1] == entries[1..][i];
      }
    }
  }

  lemma HeadDisjoint(entries: seq<Entry>)
    requires entries != [] && PairwiseDisjoint(entries)
    ensures entries[0].1 !! AllSigners(entries[1..])
  {
    forall a | a in AllSigners(entries[1..]) ensures a !in entries[0].1 {
      InAllSigners(entries[1..], a);
      var i :| 0 <= i < |entries[1..]| && a in entries[1..][i].1;
      assert a in entries[i + 1].1;
    }
  }

  lemma CountAddsUp(known: set<Author>, a: set<Author>, b: set<Author>)
    requires a !! b
    ensures |(a + b) * known| == |a * known| + |b * known|
  {
    assert (a + b) * known == a * known + b * known;
  }

  lemma TallyDisjoint(v: ValidatorVerifier, a: set<Author>, b: set<Author>)
    requires a !! b
    ensures Tally(v, a + b) == Plus(Tally(v, a), Tally(v, b))
  {
    DisjointPower(v, a, b);
    CountAddsUp(v.Authors(), a, b);
  }

  lemma TallyNone(v: ValidatorVerifier)
    ensures Tally(v, {}) == (0, 0)
  {
    PowerOfNone(v.infos, {});
    assert {} * v.Authors() == {};
  }

  lemma TailDisjoint(entries: seq<Entry>)
    requires entries != [] && PairwiseDisjoint(entries)
    ensures PairwiseDisjoint(entries[1..])
  {
  }

  /** Nobody is counted twice: the tallies add up to that of all signers together. */
  lemma {:induction false} TalliesAddUp(v: ValidatorVerifier, entries: seq<Entry>)
    requires PairwiseDisjoint(entries)
    ensures SumTally(v, entries) == Tally(v, AllSigners(entries))
  {
    if entries == [] {
      TallyNone(v);
    } else {
      TailDisjoint(entries);
      TalliesAddUp(v, entries[1..]);
      HeadDisjoint(entries);
      TallyDisjoint(v, entries[0].1, AllSigners(entries[1..]));
    }
  }

  /** Votes drained from a reachable aggregator never share a signer. */
  lemma DrainedDisjoint(ops: seq<Op>, v: ValidatorVerifier, entries: seq<Entry>)
    requires v.quorum <= v.Total() && Enumerates(entries, After(ops, v).liVotes)
    ensures PairwiseDisjoint(entries)
  {
    var st := After(ops, v);
    RunConsistent(ops, v);
    forall i, j, a | 0 <= i < j < |entries| && a in entries[i].1 ensures a !in entries[j].1 {
      assert entries[i].0 in st.liVotes && entries[j].0 in st.liVotes;
      assert st.authorVotes[a].li == entries[i].0;
    }
  }

  lemma DrainedSignersVoted(ops: seq<Op>, v: ValidatorVerifier, entries: seq<Entry>)
    requires v.quorum <= v.Total() && Enumerates(entries, After(ops, v).liVotes)
    ensures AllSigners(entries) <= After(ops, v).authorVotes.Keys
  {
    RunConsistent(ops, v);
    forall a | a in AllSigners(entries) ensures a in After(ops, v).authorVotes {
      InAllSigners(entries, a);
      var i :| 0 <= i < |entries| && a in entries[i].1;
      assert entries[i].0 in After(ops, v).liVotes;
    }
  }

  lemma StatsOfDisjoint(v: ValidatorVerifier, entries: seq<Entry>)
    requires PairwiseDisjoint(entries)
    ensures var stats := CollectedStats(v, entries);
            && stats.maxPower + stats.conflictingPower == v.Power(AllSigners(entries)) <= v.Total()
            && stats.maxVotes + stats.conflictingVotes == |AllSigners(entries) * v.Authors()|
  {
    TalliesAddUp(v, entries);
    PowerAtMostTotal(v, AllSigners(entries));
  }

  /** For every reachable aggregator, maximum plus conflicting is exactly the power, and the
      number, of the distinct authors who signed any of the drained ledger infos, all of whom have
      voted. */
  lemma StatsConserve(ops: seq<Op>, v: ValidatorVerifier, entries: seq<Entry>)
    requires v.quorum <= v.Total() && Enumerates(entries, After(ops, v).liVotes)
    ensures var stats := CollectedStats(v, entries);
            && stats.maxPower + stats.conflictingPower == v.Power(AllSigners(entries)) <= v.Total()
            && stats.maxVotes + stats.conflictingVotes == |AllSigners(entries) * v.Authors()|
    ensures AllSigners(entries) <= After(ops, v).authorVotes.Keys
  {
    DrainedSignersVoted(ops, v, entries);
    DrainedDisjoint(ops, v, entries);
    StatsOfDisjoint(v, entries);
  }
}
