/** Epoch-change proofs: ledger infos that end consecutive epochs, each signed by the validators
    the previous one announces, and the database that serves them in pages. */
module EpochChange {
  import opened Options
  import opened ConsensusTypes
  import opened ValidatorVerifiers
  import Rules = SafetyRules

  type EpochState = Rules.EpochState

  /** `next` is the epoch state announced by the last ledger info of an epoch. `consensusData`
      is the only part that a waypoint does not cover. */
  datatype EpochLedgerInfo = EpochLedgerInfo(
    epoch: nat, version: nat, next: Option<EpochState>, content: nat, consensusData: nat)

  datatype Signed = Signed(li: EpochLedgerInfo, signers: set<Author>)

  /** The signatures made so far: who signed what. */
  type Seals = set<(Author, EpochLedgerInfo)>

  datatype Waypoint = Waypoint(version: nat, value: EpochLedgerInfo)

  /** What a waypoint hashes. */
  function Essence(li: EpochLedgerInfo): EpochLedgerInfo { li.(consensusData := 0) }

  function WaypointOf(li: EpochLedgerInfo): Waypoint { Waypoint(li.version, Essence(li)) }

  datatype Verifier = ByEpoch(state: EpochState) | ByWaypoint(waypoint: Waypoint) {
    predicate Stale(li: EpochLedgerInfo) {
      match this
      case ByEpoch(state) => li.epoch < state.epoch
      case ByWaypoint(w) => li.version < w.version
    }

    predicate Accepts(s: Signed, seals: Seals) {
      match this
      case ByEpoch(state) =>
        && s.li.epoch == state.epoch
        && state.verifier.IsQuorum(s.signers)
        && forall a :: a in s.signers ==> (a, s.li) in seals
      case ByWaypoint(w) => s.li.version == w.version && Essence(s.li) == w.value
    }
  }

  datatype ProofError = EmptyProof | StaleProof | Unverified | NoValidatorSet

  datatype Outcome = Verified(li: EpochLedgerInfo) | Refused(error: ProofError)

  // ---------------------------------------------------------------- verification

  /** The ledger infos after the stale ones at the front. */
  function Fresh(v: Verifier, proof: seq<Signed>): seq<Signed> {
    if proof != [] && v.Stale(proof[0].li) then Fresh(v, proof[1..]) else proof
  }

  /** Each ledger info is accepted by the validators its predecessor announces. */
  function Linked(v: Verifier, proof: seq<Signed>, seals: Seals): Option<ProofError>
    decreases proof
  {
    if proof == [] then None
    else if !v.Accepts(proof[0], seals) then Some(Unverified)
    else if proof[0].li.next.None? then Some(NoValidatorSet)
    else Linked(ByEpoch(proof[0].li.next.value), proof[1..], seals)
  }

  function Verify(v: Verifier, proof: seq<Signed>, seals: Seals): Outcome {
    if proof == [] then Refused(EmptyProof)
    else if v.Stale(proof[|proof| - 1].li) then Refused(StaleProof)
    else match Linked(v, Fresh(v, proof), seals)
      case Some(e) => Refused(e)
      case None => Verified(proof[|proof| - 1].li)
  }

  method VerifyProof(v: Verifier, proof: seq<Signed>, seals: Seals) returns (r: Outcome)
    ensures r == Verify(v, proof, seals)
  {
    if proof == [] { return Refused(EmptyProof); }
    if v.Stale(proof[|proof| - 1].li) { return Refused(StaleProof); }
    var i := 0;
    while i < |proof| && v.Stale(proof[i].li)
      invariant 0 <= i <= |proof| && Fresh(v, proof[i..]) == Fresh(v, proof)
    {
      assert proof[i..][1..] == proof[i + 1..];
      i := i + 1;
    }
    var current := v;
    while i < |proof|
      invariant 0 <= i <= |proof| && Linked(current, proof[i..], seals) == Linked(v, Fresh(v, proof), seals)
    {
      assert proof[i..][1..] == proof[i + 1..];
      if !current.Accepts(proof[i], seals) { return Refused(Unverified); }
      if proof[i].li.next.None? { return Refused(NoValidatorSet); }
      current := ByEpoch(proof[i].li.next.value);
      i := i + 1;
    }
    return Verified(proof[|proof| - 1].li);
  }

  /** From the `i`-th ledger info on none is passed over: the first is accepted by the verifier, each
      other one by the validators that its predecessor announces, and the last announces some, too. */
  ghost predicate ChainFrom(v: Verifier, proof: seq<Signed>, i: nat, seals: Seals) {
    && i < |proof| && v.Accepts(proof[i], seals)
    && (forall j :: i <= j < |proof| ==> proof[j].li.next.Some?)
    && (forall j :: i < j < |proof| ==> ByEpoch(proof[j - 1].li.next.value).Accepts(proof[j], seals))
  }

  /** The stale ledger infos before the `i`-th are the ones passed over. */
  predicate StaleUpTo(v: Verifier, proof: seq<Signed>, i: nat) {
    && i <= |proof| && (forall j :: 0 <= j < i ==> v.Stale(proof[j].li))
    && (i < |proof| ==> !v.Stale(proof[i].li))
  }

  lemma {:induction false} FreshFrom(v: Verifier, proof: seq<Signed>, i: nat)
    requires StaleUpTo(v, proof, i)
    ensures Fresh(v, proof) == proof[i..]
  {
    if i > 0 {
      assert StaleUpTo(v, proof[1..], i - 1);
      FreshFrom(v, proof[1..], i - 1);
      assert proof[1..][i - 1..] == proof[i..];
    }
  }

  lemma {:induction false} LinkedExactlyIf(v: Verifier, proof: seq<Signed>, i: nat, seals: Seals)
    requires i < |proof|
    ensures Linked(v, proof[i..], seals).None? <==> ChainFrom(v, proof, i, seals)
    ensures Linked(v, proof[i..], seals) in {None, Some(Unverified), Some(NoValidatorSet)}
    decreases |proof| - i
  {
    assert proof[i..][0] == proof[i] && proof[i..][1..] == proof[i + 1..];
    if i + 1 < |proof| && proof[i].li.next.Some? {
      LinkedExactlyIf(ByEpoch(proof[i].li.next.value), proof, i + 1, seals);
    }
  }

  /** A proof is accepted if and only if it does not end with a stale ledger info and, apart from stale
      ones at its front, is a chain; the result is then its last ledger info. */
  lemma VerifiesExactlyIf(v: Verifier, proof: seq<Signed>, i: nat, seals: Seals)
    requires StaleUpTo(v, proof, i)
    ensures var r := Verify(v, proof, seals);
            && (r.Verified? <==> proof != [] && !v.Stale(proof[|proof| - 1].li) && ChainFrom(v, proof, i, seals))
            && (r.Verified? ==> r.li == proof[|proof| - 1].li)
            && (r == Refused(EmptyProof) <==> proof == [])
            && (r == Refused(StaleProof) <==> proof != [] && v.Stale(proof[|proof| - 1].li))
  {
    FreshFrom(v, proof, i);
    if i < |proof| {
      LinkedExactlyIf(v, proof, i, seals);
    }
  }

  // ---------------------------------------------------------------- the epochs that really happened

  /** `states[e]` is the validator set of epoch `e`, and `endings[e]` the ledger info that ended it. */
  datatype Chain = Chain(states: seq<EpochState>, endings: seq<EpochLedgerInfo>) {
    predicate IsEpoch(e: nat)
      requires e < |states|
    {
      states[e].epoch == e
    }

    predicate Ends(e: nat)
      requires e < |endings| && e + 1 < |states|
    {
      endings[e].epoch == e && endings[e].next == Some(states[e + 1])
    }

    predicate Later(d: nat, e: nat)
      requires d < e < |endings|
    {
      endings[d].version < endings[e].version
    }

    predicate Valid() {
      && |states| == |endings| + 1
      && (forall e :: 0 <= e < |states| ==> IsEpoch(e))
      && (forall e :: 0 <= e < |endings| ==> Ends(e))
      && (forall d, e :: 0 <= d < e < |endings| ==> Later(d, e))
    }
  }

  predicate Bounded(c: Chain, byzantine: set<Author>, e: nat)
    requires e < |c.states|
  {
    c.states[e].verifier.Power(byzantine) < c.states[e].verifier.quorum
  }

  /** In every epoch a quorum cannot do without the honest validators, and these sign no other
      epoch-ending ledger info than the one that ended the epoch. */
  ghost predicate HonestEndings(c: Chain, seals: Seals, byzantine: set<Author>) {
    && c.Valid()
    && (forall e :: 0 <= e < |c.states| ==> Bounded(c, byzantine, e))
    && (forall s :: s in seals && s.0 !in byzantine && s.1.epoch < |c.states| && s.1.next.Some? ==>
          s.1.epoch < |c.endings| && Essence(s.1) == Essence(c.endings[s.1.epoch]))
  }

  lemma HonestSigner(v: ValidatorVerifier, signers: set<Author>, byzantine: set<Author>) returns (a: Author)
    requires v.IsQuorum(signers) && v.Power(byzantine) < v.quorum
    ensures a in signers && a !in byzantine
  {
    if signers <= byzantine {
      PowerMonotone(v, signers, byzantine);
      assert false;
    }
    a :| a in signers && a !in byzantine;
  }

  /** `v` is what a node that has reached epoch `e` verifies with. */
  predicate Trusted(c: Chain, v: Verifier, e: nat) {
    || (e < |c.states| && v == ByEpoch(c.states[e]))
    || (e < |c.endings| && v == ByWaypoint(WaypointOf(c.endings[e])))
  }

  lemma AcceptedEndsEpoch(c: Chain, seals: Seals, byzantine: set<Author>, v: Verifier, e: nat, s: Signed)
    requires HonestEndings(c, seals, byzantine) && Trusted(c, v, e) && v.Accepts(s, seals) && s.li.next.Some?
    ensures e < |c.endings| && Essence(s.li) == Essence(c.endings[e])
  {
    if v.ByEpoch? {
      assert c.IsEpoch(e) && Bounded(c, byzantine, e);
      var a := HonestSigner(v.state.verifier, s.signers, byzantine);
      assert (a, s.li) in seals;
    }
  }

  lemma {:induction false} LinkedIsChain(
    c: Chain, seals: Seals, byzantine: set<Author>, v: Verifier, e: nat, proof: seq<Signed>)
    requires HonestEndings(c, seals, byzantine) && Trusted(c, v, e) && Linked(v, proof, seals).None? && proof != []
    ensures e + |proof| <= |c.endings|
    ensures forall k :: 0 <= k < |proof| ==> Essence(proof[k].li) == Essence(c.endings[e + k])
    decreases proof
  {
    AcceptedEndsEpoch(c, seals, byzantine, v, e, proof[0]);
    assert c.Ends(e) && c.IsEpoch(e + 1);
    assert Essence(proof[0].li).next == proof[0].li.next;
    if |proof| > 1 {
      LinkedIsChain(c, seals, byzantine, ByEpoch(c.states[e + 1]), e + 1, proof[1..]);
      forall k | 0 < k < |proof| ensures Essence(proof[k].li) == Essence(c.endings[e + k]) {
        assert proof[k] == proof[1..][k - 1];
      }
    }
  }

  lemma LastIsChain(c: Chain, seals: Seals, byzantine: set<Author>, v: Verifier, e: nat, proof: seq<Signed>)
    requires HonestEndings(c, seals, byzantine) && Trusted(c, v, e) && Linked(v, proof, seals).None? && proof != []
    ensures var li := proof[|proof| - 1].li;
            e <= li.epoch < |c.endings| && Essence(li) == Essence(c.endings[li.epoch])
            && li.next == Some(c.states[li.epoch + 1])
  {
    LinkedIsChain(c, seals, byzantine, v, e, proof);
    SameEssence(c, proof[|proof| - 1].li, e + (|proof| - 1));
  }

  lemma SameEssence(c: Chain, li: EpochLedgerInfo, e: nat)
    requires c.Valid() && e < |c.endings| && Essence(li) == Essence(c.endings[e])
    ensures li.epoch == e && li.next == Some(c.states[e + 1])
  {
    assert c.Ends(e) && c.IsEpoch(e + 1);
    assert Essence(li).epoch == li.epoch && Essence(li).next == li.next;
  }

  lemma {:induction false} FreshIsSuffix(v: Verifier, proof: seq<Signed>)
    requires proof != [] && !v.Stale(proof[|proof| - 1].li)
    ensures var f := Fresh(v, proof);
            0 < |f| <= |proof| && f == proof[|proof| - |f|..] && f[|f| - 1] == proof[|proof| - 1]
  {
    if v.Stale(proof[0].li) {
      FreshIsSuffix(v, proof[1..]);
    }
  }

  /** Whatever the proof and whoever made it: once accepted, it leads to the validator set that
      the network really had in a later epoch. */
  lemma AcceptedProofIsSound(c: Chain, seals: Seals, byzantine: set<Author>, v: Verifier, e: nat, proof: seq<Signed>)
    requires HonestEndings(c, seals, byzantine) && Trusted(c, v, e) && Verify(v, proof, seals).Verified?
    ensures var li := Verify(v, proof, seals).li;
            e <= li.epoch < |c.endings| && Essence(li) == Essence(c.endings[li.epoch])
            && li.next == Some(c.states[li.epoch + 1])
  {
    var f := Fresh(v, proof);
    FreshIsSuffix(v, proof);
    LastIsChain(c, seals, byzantine, v, e, f);
  }

  // ---------------------------------------------------------------- the database

  const MAX_NUM_EPOCH_ENDING_LEDGER_INFO: nat := 100

  datatype Page = Page(lis: seq<Signed>, more: bool)

  /** The epoch-ending ledger infos of `[start, end)`, at most `limit` of them. `db[e]` ended
      epoch `e`; asking for an epoch that is still open is an error. */
  function EpochEndings(db: seq<Signed>, start: nat, end: nat, limit: nat): Option<Page> {
    if start > end || end > |db| then None
    else if end - start > limit then Some(Page(db[start..start + limit], true))
    else Some(Page(db[start..end], false))
  }

  /** The database holds certified endings of the first epochs. */
  ghost predicate Certified(c: Chain, db: seq<Signed>, seals: Seals) {
    c.Valid() && |db| <= |c.endings| && forall e :: 0 <= e < |db| ==> Sealed(c, db, seals, e)
  }

  ghost predicate Sealed(c: Chain, db: seq<Signed>, seals: Seals, e: nat)
    requires e < |db| && e < |c.endings| && e < |c.states|
  {
    db[e].li == c.endings[e] && (e > 0 ==> ByEpoch(c.states[e]).Accepts(db[e], seals))
  }

  lemma CertifiedPrefix(c: Chain, db: seq<Signed>, seals: Seals, n: nat)
    requires Certified(c, db, seals) && n <= |db|
    ensures Certified(c, db[..n], seals)
  {
    forall e | 0 <= e < n ensures Sealed(c, db[..n], seals, e) {
      assert Sealed(c, db, seals, e);
    }
  }

  lemma {:induction false} ChainIsLinked(c: Chain, db: seq<Signed>, seals: Seals, v: Verifier, e: nat, stop: nat)
    requires Certified(c, db, seals) && Trusted(c, v, e) && e < stop <= |db|
    requires v.ByEpoch? ==> e > 0
    ensures Linked(v, db[e..stop], seals).None?
    decreases stop - e
  {
    assert Sealed(c, db, seals, e) && c.Ends(e) && c.IsEpoch(e + 1);
    assert db[e..stop][0] == db[e] && v.Accepts(db[e], seals);
    assert db[e..stop][1..] == db[e + 1..stop];
    if e + 1 < stop {
      ChainIsLinked(c, db, seals, ByEpoch(c.states[e + 1]), e + 1, stop);
    }
  }

  lemma {:induction false} PageIsFresh(
    c: Chain, db: seq<Signed>, seals: Seals, v: Verifier, e: nat, start: nat, stop: nat)
    requires Certified(c, db, seals) && Trusted(c, v, e) && start <= e < stop <= |db|
    ensures Fresh(v, db[start..stop]) == db[e..stop]
    decreases e - start
  {
    assert db[start..stop][0] == db[start];
    assert Sealed(c, db, seals, start) && c.Ends(start) && c.IsEpoch(e);
    if start < e {
      assert v.ByWaypoint? ==> c.Later(start, e);
      assert db[start..stop][1..] == db[start + 1..stop];
      PageIsFresh(c, db, seals, v, e, start + 1, stop);
    }
  }

  lemma NotStale(c: Chain, v: Verifier, e: nat, d: nat)
    requires c.Valid() && Trusted(c, v, e) && e <= d < |c.endings|
    ensures !v.Stale(c.endings[d])
  {
    assert c.Ends(d) && c.IsEpoch(e);
    assert v.ByWaypoint? && e < d ==> c.Later(e, d);
  }

  /** A page that reaches beyond the epoch of the reader is accepted, and brings the reader to
      the epoch after its last entry; earlier entries do no harm. */
  lemma ServedPageIsAccepted(
    c: Chain, db: seq<Signed>, seals: Seals, v: Verifier, e: nat, start: nat, end: nat, limit: nat)
    requires Certified(c, db, seals) && Trusted(c, v, e) && (v.ByEpoch? ==> e > 0)
    requires start <= e < end <= |db| && e < start + limit
    ensures var stop := if end - start > limit then start + limit else end;
            && EpochEndings(db, start, end, limit) == Some(Page(db[start..stop], end - start > limit))
            && Verify(v, db[start..stop], seals) == Verified(c.endings[stop - 1])
  {
    PageVerifies(c, db, seals, v, e, start, if end - start > limit then start + limit else end);
  }

  lemma PageVerifies(c: Chain, db: seq<Signed>, seals: Seals, v: Verifier, e: nat, start: nat, stop: nat)
    requires Certified(c, db, seals) && Trusted(c, v, e) && (v.ByEpoch? ==> e > 0)
    requires start <= e < stop <= |db|
    ensures Verify(v, db[start..stop], seals) == Verified(c.endings[stop - 1])
  {
    LastOfPage(c, db, seals, v, e, start, stop);
    PageIsFresh(c, db, seals, v, e, start, stop);
    ChainIsLinked(c, db, seals, v, e, stop);
    VerifiedIf(v, db[start..stop], seals);
  }

  lemma LastOfPage(c: Chain, db: seq<Signed>, seals: Seals, v: Verifier, e: nat, start: nat, stop: nat)
    requires Certified(c, db, seals) && Trusted(c, v, e) && start <= e < stop <= |db|
    ensures var li := db[start..stop][stop - start - 1].li; li == c.endings[stop - 1] && !v.Stale(li)
  {
    assert Sealed(c, db, seals, stop - 1);
    assert db[start..stop][stop - start - 1] == db[stop - 1];
    NotStale(c, v, e, stop - 1);
  }

  lemma VerifiedIf(v: Verifier, proof: seq<Signed>, seals: Seals)
    requires proof != [] && !v.Stale(proof[|proof| - 1].li) && Linked(v, Fresh(v, proof), seals).None?
    ensures Verify(v, proof, seals) == Verified(proof[|proof| - 1].li)
  {
  }
}
