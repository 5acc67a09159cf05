/** Initialising the safety rules from storage: the persisted waypoint is advanced page by page
    until it reaches the epoch of the safety data. */
module WaypointSync {
  import opened Options
  import opened ConsensusTypes
  import opened EpochChange

  /** What the safety rules persist, and what initialisation loads. */
  datatype State = State(rules: Rules.State, waypoint: Waypoint)

  datatype InitResult =
    | Initialised
    | NotInSet
    | Storage                 // storage could not provide a proof
    | InvalidProof
    | OutOfDate(previous: nat, updated: nat)

  /** The waypoint is advanced even if its epoch turns out to be older than the safety data. */
  function Initialise(st: State, proof: seq<Signed>, seals: Seals, author: Author): (State, InitResult) {
    match Verify(ByWaypoint(st.waypoint), proof, seals)
    case Refused(_) => (st, InvalidProof)
    case Verified(li) =>
      if li.next.None? then (st, InvalidProof)
      else
        var next := li.next.value;
        var waypoint := if li.version > st.waypoint.version then WaypointOf(li) else st.waypoint;
        if st.rules.data.epoch > next.epoch then
          (st.(waypoint := waypoint), OutOfDate(st.waypoint.version, li.version))
        else
          (State(Rules.EnterEpoch(st.rules, next, author), waypoint),
           if author in next.verifier.Authors() then Initialised else NotInSet)
  }

  /** The epoch of a version: how many epochs ended before it. */
  function EpochOf(db: seq<Signed>, version: nat): nat {
    if db == [] then 0 else EpochOf(db[..|db| - 1], version) + if db[|db| - 1].li.version < version then 1 else 0
  }

  /** `ledgerVersion` is the version of the latest ledger info in storage. */
  function RetrieveProof(db: seq<Signed>, ledgerVersion: nat, version: nat): Option<seq<Signed>> {
    if version > ledgerVersion then None
    else if EpochOf(db, version) >= |db| then Some([])
    else match EpochEndings(db, EpochOf(db, version), |db|, MAX_NUM_EPOCH_ENDING_LEDGER_INFO)
      case None => None
      case Some(page) => Some(page.lis)
  }

  function HighestVersion(db: seq<Signed>): nat {
    if db == [] then 0
    else
      var rest, last := HighestVersion(db[..|db| - 1]), db[|db| - 1].li.version;
      if last > rest then last else rest
  }

  lemma {:induction false} HighestIsBound(db: seq<Signed>, s: Signed)
    requires s in db
    ensures s.li.version <= HighestVersion(db)
  {
    if s != db[|db| - 1] {
      HighestIsBound(db[..|db| - 1], s);
    }
  }

  /** A proof served by storage never leads past storage. */
  lemma UpdateIsBounded(db: seq<Signed>, ledgerVersion: nat, version: nat, st: State, seals: Seals, author: Author)
    requires RetrieveProof(db, ledgerVersion, version).Some?
    ensures var (st', r) := Initialise(st, RetrieveProof(db, ledgerVersion, version).value, seals, author);
            r.OutOfDate? && r.previous < r.updated ==>
              st'.waypoint.version == r.updated <= HighestVersion(db) && r.previous == st.waypoint.version
  {
    var proof := RetrieveProof(db, ledgerVersion, version).value;
    if proof != [] {
      assert proof[|proof| - 1] in db;
      HighestIsBound(db, proof[|proof| - 1]);
    }
  }

  /** Initialise again and again, as long as the waypoint advances. */
  function Advance(st: State, version: nat, db: seq<Signed>, ledgerVersion: nat, seals: Seals, author: Author)
    : (State, InitResult)
    requires version == st.waypoint.version
    decreases if HighestVersion(db) > version then HighestVersion(db) - version else 0
  {
    match RetrieveProof(db, ledgerVersion, version)
    case None => (st, Storage)
    case Some(proof) =>
      var (st', r) := Initialise(st, proof, seals, author);
      if r.OutOfDate? && r.previous < r.updated then
        UpdateIsBounded(db, ledgerVersion, version, st, seals, author);
        Advance(st', r.updated, db, ledgerVersion, seals, author)
      else (st', r)
  }

  /** The loop; it ends because the waypoint cannot pass the last epoch in storage. */
  method PerformInitialize(start: State, db: seq<Signed>, ledgerVersion: nat, seals: Seals, author: Author)
      returns (st: State, r: InitResult)
    ensures (st, r) == Advance(start, start.waypoint.version, db, ledgerVersion, seals, author)
  {
    st := start;
    var version := st.waypoint.version;
    while true
      invariant version == st.waypoint.version
      invariant Advance(st, version, db, ledgerVersion, seals, author)
             == Advance(start, start.waypoint.version, db, ledgerVersion, seals, author)
      decreases if HighestVersion(db) > version then HighestVersion(db) - version else 0
    {
      var proof := RetrieveProof(db, ledgerVersion, version);
      if proof.None? { return st, Storage; }
      UpdateIsBounded(db, ledgerVersion, version, st, seals, author);
      var next, result := Initialise(st, proof.value, seals, author).0, Initialise(st, proof.value, seals, author).1;
      st := next;
      if result.OutOfDate? && result.previous < result.updated {
        version := result.updated;
      } else {
        return st, result;
      }
    }
  }

  // ---------------------------------------------------------------- what it achieves

  /** The epoch after the page that starts with the ending of epoch `w`. */
  function PageEnd(w: nat, latest: nat): nat {
    if latest - w > MAX_NUM_EPOCH_ENDING_LEDGER_INFO then w + MAX_NUM_EPOCH_ENDING_LEDGER_INFO else latest
  }

  /** The first page boundary, counted from epoch `w`, that is not before epoch `current`. */
  function EntryEpoch(w: nat, current: nat, latest: nat): (e: nat)
    requires w < latest && current <= latest
    ensures w < e <= latest && current <= e
    decreases latest - w
  {
    var end := PageEnd(w, latest);
    if end >= current then end else EntryEpoch(end - 1, current, latest)
  }

  lemma {:induction false} EpochOfEnding(c: Chain, db: seq<Signed>, seals: Seals, w: nat)
    requires Certified(c, db, seals) && w < |c.endings|
    ensures EpochOf(db, c.endings[w].version) == if w < |db| then w else |db|
  {
    if db != [] {
      var rest := db[..|db| - 1];
      assert Sealed(c, db, seals, |db| - 1);
      forall e | 0 <= e < |rest| ensures Sealed(c, rest, seals, e) {
        assert Sealed(c, db, seals, e);
      }
      EpochOfEnding(c, rest, seals, w);
      assert w < |db| - 1 ==> c.Later(w, |db| - 1);
      assert w > |db| - 1 ==> c.Later(|db| - 1, w);
    }
  }

  lemma PageRetrieved(db: seq<Signed>, ledgerVersion: nat, version: nat, w: nat)
    requires EpochOf(db, version) == w < |db| && version <= ledgerVersion
    ensures RetrieveProof(db, ledgerVersion, version) == Some(db[w..PageEnd(w, |db|)])
  {
  }

  lemma LaterVersion(c: Chain, d: nat, e: nat)
    requires c.Valid() && d <= e < |c.endings|
    ensures c.endings[d].version <= c.endings[e].version && (d < e ==> c.endings[d].version < c.endings[e].version)
    ensures c.endings[e].next == Some(c.states[e + 1]) && c.states[e + 1].epoch == e + 1
  {
    assert c.Ends(e) && c.IsEpoch(e + 1);
    assert d < e ==> c.Later(d, e);
  }

  lemma PageFound(c: Chain, db: seq<Signed>, seals: Seals, ledgerVersion: nat, w: nat)
    requires Certified(c, db, seals) && w < |db| && c.endings[|db| - 1].version <= ledgerVersion
    ensures RetrieveProof(db, ledgerVersion, c.endings[w].version) == Some(db[w..PageEnd(w, |db|)])
  {
    EpochOfEnding(c, db, seals, w);
    LaterVersion(c, w, |db| - 1);
    PageRetrieved(db, ledgerVersion, c.endings[w].version, w);
  }

  lemma InitialiseOn(st: State, proof: seq<Signed>, seals: Seals, author: Author, li: EpochLedgerInfo)
    requires Verify(ByWaypoint(st.waypoint), proof, seals) == Verified(li) && li.next.Some?
    requires li.version > st.waypoint.version || st.waypoint == WaypointOf(li)
    ensures Initialise(st, proof, seals, author) ==
            if st.rules.data.epoch > li.next.value.epoch
            then (st.(waypoint := WaypointOf(li)), OutOfDate(st.waypoint.version, li.version))
            else (State(Rules.EnterEpoch(st.rules, li.next.value, author), WaypointOf(li)),
                  if author in li.next.value.verifier.Authors() then Initialised else NotInSet)
  {
  }

  /** One round of the loop, with the waypoint at the end of epoch `w`. */
  lemma OneRound(c: Chain, db: seq<Signed>, seals: Seals, ledgerVersion: nat, author: Author, st: State, w: nat)
      returns (li: EpochLedgerInfo, next: EpochState)
    requires Certified(c, db, seals) && w < |db| && c.endings[|db| - 1].version <= ledgerVersion
    requires st.waypoint == WaypointOf(c.endings[w])
    ensures li == c.endings[PageEnd(w, |db|) - 1] && next == c.states[PageEnd(w, |db|)]
    ensures next.epoch == PageEnd(w, |db|)
    ensures w < PageEnd(w, |db|) - 1 ==> st.waypoint.version < li.version
    ensures w == PageEnd(w, |db|) - 1 ==> st.waypoint.version == li.version
    ensures RetrieveProof(db, ledgerVersion, st.waypoint.version).Some?
    ensures Initialise(st, RetrieveProof(db, ledgerVersion, st.waypoint.version).value, seals, author) ==
            if st.rules.data.epoch > next.epoch
            then (st.(waypoint := WaypointOf(li)), OutOfDate(st.waypoint.version, li.version))
            else (State(Rules.EnterEpoch(st.rules, next, author), WaypointOf(li)),
                  if author in next.verifier.Authors() then Initialised else NotInSet)
  {
    var end := PageEnd(w, |db|);
    li, next := c.endings[end - 1], c.states[end];
    LaterVersion(c, w, end - 1);
    PageFound(c, db, seals, ledgerVersion, w);
    PageVerifies(c, db, seals, ByWaypoint(st.waypoint), w, w, end);
    InitialiseOn(st, db[w..end], seals, author, li);
  }

  /** The outcome of entering epoch `e`, or of finding out that storage, with all epochs before
      `latest`, is behind the safety data. */
  function Outcome(c: Chain, latest: nat, author: Author, rules: Rules.State, e: Option<nat>): (State, InitResult)
    requires c.Valid() && 0 < latest <= |c.endings| && (e.Some? ==> 0 < e.value <= latest)
  {
    match e
    case Some(e) =>
      (State(Rules.EnterEpoch(rules, c.states[e], author), WaypointOf(c.endings[e - 1])),
       if author in c.states[e].verifier.Authors() then Initialised else NotInSet)
    case None =>
      (State(rules, WaypointOf(c.endings[latest - 1])),
       OutOfDate(c.endings[latest - 1].version, c.endings[latest - 1].version))
  }

  /** The epoch entered, if the safety data is at `current` and the waypoint ends epoch `w`. */
  function Target(w: nat, current: nat, latest: nat): (e: Option<nat>)
    requires w < latest
    ensures e.Some? ==> w < e.value <= latest && current <= e.value
    ensures e.None? <==> current > latest
  {
    if current > latest then None else Some(EntryEpoch(w, current, latest))
  }

  lemma TargetLater(w: nat, current: nat, latest: nat)
    requires w < latest && current > PageEnd(w, latest)
    ensures w < PageEnd(w, latest) - 1 ==> Target(w, current, latest) == Target(PageEnd(w, latest) - 1, current, latest)
    ensures w >= PageEnd(w, latest) - 1 ==> Target(w, current, latest).None? && latest == w + 1
  {
  }

  /** One round either goes on from the new waypoint or is the end. */
  lemma AdvanceOnce(
    st: State, db: seq<Signed>, ledgerVersion: nat, seals: Seals, author: Author, st': State, r: InitResult)
    requires RetrieveProof(db, ledgerVersion, st.waypoint.version).Some?
    requires Initialise(st, RetrieveProof(db, ledgerVersion, st.waypoint.version).value, seals, author) == (st', r)
    ensures if r.OutOfDate? && r.previous < r.updated then
              && st'.waypoint.version == r.updated
              && Advance(st, st.waypoint.version, db, ledgerVersion, seals, author)
                 == Advance(st', r.updated, db, ledgerVersion, seals, author)
            else
              Advance(st, st.waypoint.version, db, ledgerVersion, seals, author) == (st', r)
  {
    UpdateIsBounded(db, ledgerVersion, st.waypoint.version, st, seals, author);
  }

  lemma OneRoundOnwards(c: Chain, db: seq<Signed>, seals: Seals, ledgerVersion: nat, author: Author, st: State, w: nat)
      returns (li: EpochLedgerInfo, next: EpochState)
    requires Certified(c, db, seals) && w < |db| && c.endings[|db| - 1].version <= ledgerVersion
    requires st.waypoint == WaypointOf(c.endings[w])
    ensures li == c.endings[PageEnd(w, |db|) - 1] && next == c.states[PageEnd(w, |db|)]
    ensures next.epoch == PageEnd(w, |db|)
    ensures Advance(st, st.waypoint.version, db, ledgerVersion, seals, author) ==
            if st.rules.data.epoch > next.epoch && w < next.epoch - 1
            then Advance(st.(waypoint := WaypointOf(li)), li.version, db, ledgerVersion, seals, author)
            else if st.rules.data.epoch > next.epoch
            then (st.(waypoint := WaypointOf(li)), OutOfDate(st.waypoint.version, li.version))
            else (State(Rules.EnterEpoch(st.rules, next, author), WaypointOf(li)),
                  if author in next.verifier.Authors() then Initialised else NotInSet)
  {
    li, next := OneRound(c, db, seals, ledgerVersion, author, st, w);
    var (st1, r1) := Initialise(st, RetrieveProof(db, ledgerVersion, st.waypoint.version).value, seals, author);
    AdvanceOnce(st, db, ledgerVersion, seals, author, st1, r1);
  }

  /** The first round goes on or is the end. */
  lemma FirstRound(
    c: Chain, db: seq<Signed>, seals: Seals, ledgerVersion: nat, author: Author, rules: Rules.State, w: nat)
    requires Certified(c, db, seals) && w < |db| && c.endings[|db| - 1].version <= ledgerVersion
    ensures var end, st := PageEnd(w, |db|), State(rules, WaypointOf(c.endings[w]));
            Advance(st, st.waypoint.version, db, ledgerVersion, seals, author) ==
            if rules.data.epoch <= end then Outcome(c, |db|, author, rules, Some(end))
            else if w < end - 1 then
              Advance(State(rules, WaypointOf(c.endings[end - 1])), c.endings[end - 1].version, db, ledgerVersion,
                seals, author)
            else Outcome(c, |db|, author, rules, None)
  {
    var li, next := OneRoundOnwards(c, db, seals, ledgerVersion, author, State(rules, WaypointOf(c.endings[w])), w);
  }

  /** With the waypoint at the end of some epoch in storage, initialisation enters the first page
      boundary not before the epoch of the safety data, and fails only if storage itself is behind
      that epoch, with the waypoint then at the last epoch in storage. */
  lemma {:induction false} InitialisationCatchesUp(
    c: Chain, db: seq<Signed>, seals: Seals, ledgerVersion: nat, author: Author, rules: Rules.State, w: nat)
    requires Certified(c, db, seals) && w < |db| && c.endings[|db| - 1].version <= ledgerVersion
    ensures Advance(State(rules, WaypointOf(c.endings[w])), c.endings[w].version, db, ledgerVersion, seals, author)
         == Outcome(c, |db|, author, rules, Target(w, rules.data.epoch, |db|))
    decreases |db| - w
  {
    FirstRound(c, db, seals, ledgerVersion, author, rules, w);
    var end := PageEnd(w, |db|);
    if rules.data.epoch > end {
      TargetLater(w, rules.data.epoch, |db|);
      if w < end - 1 {
        InitialisationCatchesUp(c, db, seals, ledgerVersion, author, rules, end - 1);
      }
    }
  }

  /** With the waypoint beyond all epochs in storage nothing is entered: storage either does not have the
      version of the waypoint, or has no proof to offer from it. */
  lemma NothingBeyondStorage(
    c: Chain, db: seq<Signed>, seals: Seals, ledgerVersion: nat, author: Author, rules: Rules.State, w: nat)
    requires Certified(c, db, seals) && |db| <= w < |c.endings|
    ensures var st := State(rules, WaypointOf(c.endings[w]));
            Advance(st, st.waypoint.version, db, ledgerVersion, seals, author) ==
            (st, if c.endings[w].version > ledgerVersion then Storage else InvalidProof)
  {
    EpochOfEnding(c, db, seals, w);
  }
}
