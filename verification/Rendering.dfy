/** The timestamps given to rendered transactions: carried along a run of transactions, or looked
    up for each version. */
module Rendering {
  import opened Options

  /** `metadata` is the timestamp in a block metadata transaction, and `event` the time in the
      new-block event that a transaction emits. */
  datatype Txn = Txn(metadata: Option<nat>, event: Option<nat>)

  /** A block metadata transaction emits the event of its block. Genesis and write-set
      transactions may emit one too. */
  predicate LedgerOk(ledger: seq<Txn>) {
    forall v :: 0 <= v < |ledger| && ledger[v].metadata.Some? ==> ledger[v].event == ledger[v].metadata
  }

  /** The time in the last new-block event at or before a version. */
  function BlockTimestamp(ledger: seq<Txn>, version: nat): Option<nat>
    requires version < |ledger|
  {
    if ledger[version].event.Some? then ledger[version].event
    else if version == 0 then None
    else BlockTimestamp(ledger, version - 1)
  }

  /** The timestamps the sequential renderer gives to `data`. */
  function Running(data: seq<Txn>, timestamp: nat): (r: seq<nat>)
    ensures |r| == |data|
  {
    if data == [] then []
    else
      var init, last := Running(data[..|data| - 1], timestamp), data[|data| - 1];
      init + [if last.metadata.Some? then last.metadata.value else if init == [] then timestamp else init[|init| - 1]]
  }

  method RenderSequential(data: seq<Txn>, timestamp: nat) returns (r: seq<nat>)
    ensures r == Running(data, timestamp)
  {
    r := [];
    var current := timestamp;
    for i := 0 to |data|
      invariant r == Running(data[..i], timestamp)
      invariant current == if i == 0 then timestamp else r[i - 1]
    {
      assert data[..i + 1][..i] == data[..i];
      if data[i].metadata.Some? {
        current := data[i].metadata.value;
      }
      r := r + [current];
    }
    assert data[..|data|] == data;
  }

  /** A transaction of the run that starts a block without being block metadata says nothing new. */
  predicate NoSilentBlock(ledger: seq<Txn>, start: nat, n: nat)
    requires start + n <= |ledger|
  {
    forall v :: start < v < start + n && ledger[v].event.Some? && ledger[v].metadata.None? ==>
      BlockTimestamp(ledger, v) == BlockTimestamp(ledger, v - 1)
  }

  predicate AgreeAt(ledger: seq<Txn>, start: nat, rendered: seq<nat>, k: nat)
    requires k < |rendered| && start + k < |ledger|
  {
    BlockTimestamp(ledger, start + k) == Some(rendered[k])
  }

  /** Both renderers give the first `n` transactions from `start` the same timestamps. */
  predicate Agree(ledger: seq<Txn>, start: nat, n: nat, timestamp: nat)
    requires start + n <= |ledger|
  {
    var rendered := Running(ledger[start..start + n], timestamp);
    forall k :: 0 <= k < n ==> AgreeAt(ledger, start, rendered, k)
  }

  lemma RunningStep(ledger: seq<Txn>, start: nat, n: nat, timestamp: nat)
    requires start + n < |ledger|
    ensures var r := Running(ledger[start..start + n], timestamp);
            Running(ledger[start..start + n + 1], timestamp) ==
            r + [if ledger[start + n].metadata.Some? then ledger[start + n].metadata.value
                 else if n == 0 then timestamp else r[n - 1]]
  {
    var data := ledger[start..start + n + 1];
    assert data[..n] == ledger[start..start + n] && data[n] == ledger[start + n];
  }

  lemma AgreeStep(ledger: seq<Txn>, start: nat, n: nat, timestamp: nat)
    requires LedgerOk(ledger) && start + n < |ledger| && BlockTimestamp(ledger, start) == Some(timestamp)
    requires Agree(ledger, start, n, timestamp)
    ensures Agree(ledger, start, n + 1, timestamp) <==>
            (n > 0 && ledger[start + n].event.Some? && ledger[start + n].metadata.None? ==>
               BlockTimestamp(ledger, start + n) == BlockTimestamp(ledger, start + n - 1))
  {
    var r, r' := Running(ledger[start..start + n], timestamp), Running(ledger[start..start + n + 1], timestamp);
    RunningStep(ledger, start, n, timestamp);
    assert forall k :: 0 <= k < n ==> r'[k] == r[k];
    if n > 0 {
      assert AgreeAt(ledger, start, r, n - 1);
    }
    assert forall k :: 0 <= k < n ==> (AgreeAt(ledger, start, r', k) <==> AgreeAt(ledger, start, r, k));
    assert Agree(ledger, start, n + 1, timestamp) <==> AgreeAt(ledger, start, r', n);
  }

  lemma AgreeShrinks(ledger: seq<Txn>, start: nat, n: nat, timestamp: nat)
    requires start + n < |ledger| && Agree(ledger, start, n + 1, timestamp)
    ensures Agree(ledger, start, n, timestamp)
  {
    RunningStep(ledger, start, n, timestamp);
    var r, r' := Running(ledger[start..start + n], timestamp), Running(ledger[start..start + n + 1], timestamp);
    forall k | 0 <= k < n ensures AgreeAt(ledger, start, r, k) {
      assert AgreeAt(ledger, start, r', k);
    }
  }

  /** Started with the block timestamp of its first version, a run is rendered with the looked-up
      timestamps if and only if no transaction in it starts a block silently. */
  lemma {:induction false} RenderersAgree(ledger: seq<Txn>, start: nat, n: nat, timestamp: nat)
    requires LedgerOk(ledger) && start < |ledger| && start + n <= |ledger|
    requires BlockTimestamp(ledger, start) == Some(timestamp)
    ensures Agree(ledger, start, n, timestamp) <==> NoSilentBlock(ledger, start, n)
  {
    if n > 0 {
      RenderersAgree(ledger, start, n - 1, timestamp);
      if Agree(ledger, start, n - 1, timestamp) {
        AgreeStep(ledger, start, n - 1, timestamp);
      } else if Agree(ledger, start, n, timestamp) {
        AgreeShrinks(ledger, start, n - 1, timestamp);
      }
    }
  }

  // ---------------------------------------------------------------- events of the framework

  /** The clock of the framework: the timestamp of the last block metadata transaction, and zero
      before the first one. */
  function Clock(ledger: seq<Txn>, version: nat): nat
    requires version < |ledger|
  {
    if ledger[version].metadata.Some? then ledger[version].metadata.value
    else if version == 0 then 0
    else Clock(ledger, version - 1)
  }

  /** Genesis emits its block event at time zero, and the framework's write-set event repeats the
      clock. */
  predicate EventsTellClock(ledger: seq<Txn>) {
    forall v :: 0 <= v < |ledger| && ledger[v].event.Some? && ledger[v].metadata.None? ==>
      ledger[v].event == Some(Clock(ledger, v))
  }

  lemma {:induction false} TimestampIsClock(ledger: seq<Txn>, v: nat)
    requires LedgerOk(ledger) && EventsTellClock(ledger) && v < |ledger|
    ensures BlockTimestamp(ledger, v).Some? ==> BlockTimestamp(ledger, v) == Some(Clock(ledger, v))
  {
    if ledger[v].event.None? && v > 0 {
      TimestampIsClock(ledger, v - 1);
    }
  }

  lemma {:induction false} TimestampStays(ledger: seq<Txn>, start: nat, v: nat)
    requires start <= v < |ledger| && BlockTimestamp(ledger, start).Some?
    ensures BlockTimestamp(ledger, v).Some?
  {
    if start < v {
      TimestampStays(ledger, start, v - 1);
    }
  }

  /** On a ledger whose events come from the framework, every run is rendered alike. */
  lemma FrameworkLedgersAgree(ledger: seq<Txn>, start: nat, n: nat, timestamp: nat)
    requires LedgerOk(ledger) && EventsTellClock(ledger) && start < |ledger| && start + n <= |ledger|
    requires BlockTimestamp(ledger, start) == Some(timestamp)
    ensures Agree(ledger, start, n, timestamp)
  {
    forall v | start < v < start + n && ledger[v].event.Some? && ledger[v].metadata.None?
      ensures BlockTimestamp(ledger, v) == BlockTimestamp(ledger, v - 1)
    {
      TimestampStays(ledger, start, v - 1);
      TimestampIsClock(ledger, v);
      TimestampIsClock(ledger, v - 1);
    }
    RenderersAgree(ledger, start, n, timestamp);
  }

  /** The two renderers differ after a write-set transaction that starts a block at a later time. A
      change set written by hand can contain such an event; the framework never emits it. */
  lemma SilentBlockDiffers() returns (ledger: seq<Txn>)
    ensures LedgerOk(ledger) && |ledger| == 2 && BlockTimestamp(ledger, 0) == Some(1) && !EventsTellClock(ledger)
    ensures !Agree(ledger, 0, 2, 1)
  {
    ledger := [Txn(Some(1), Some(1)), Txn(None, Some(2))];
    assert BlockTimestamp(ledger, 1) != BlockTimestamp(ledger, 0);
    RenderersAgree(ledger, 0, 2, 1);
    assert Clock(ledger, 0) == 1;
  }
}
