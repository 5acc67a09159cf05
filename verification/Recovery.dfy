/** Crash recovery: from the blocks and certificates in the consensus database, find the last
    committed block, keep its subtree, and delete the rest. */
module Recovery {
  import opened Options
  import opened Projections

  /** Blocks are stored under their id. */
  datatype Block = Block(id: nat, parent: nat, epoch: nat, round: nat)

  /** Certificates are stored under the id of the block they certify. */
  datatype Qc = Qc(certified: nat, commits: nat)

  /** `saved` is a last vote or a highest timeout certificate. */
  datatype Saved = Saved(epoch: nat, content: nat)

  datatype Db = Db(blocks: seq<Block>, qcs: seq<Qc>, vote: Option<Saved>, tc: Option<Saved>)

  /** The latest ledger info: the block it commits, and the virtual genesis block that replaces
      this block if the ledger info ends an epoch. */
  datatype Ledger = Ledger(block: nat, genesis: Option<Block>) {
    function Root(): nat { if genesis.Some? then genesis.value.id else block }
  }

  datatype Data = Data(
    root: Block, rootQc: Qc, orderedCert: Qc, blocks: seq<Block>, qcs: seq<Qc>, prune: set<nat>,
    vote: Option<Saved>, tc: Option<Saved>)

  datatype Error = NoRoot | NoRootQc | NoLedgerInfo

  datatype Result = Recovered(data: Data) | Failed(error: Error)

  // ---------------------------------------------------------------- sorting

  predicate Before(a: Block, b: Block) { a.epoch < b.epoch || (a.epoch == b.epoch && a.round < b.round) }

  /** Inserts after everything that does not come later. */
  function Insert(b: Block, s: seq<Block>): seq<Block> {
    if s == [] || !Before(b, s[|s| - 1]) then s + [b] else Insert(b, s[..|s| - 1]) + [s[|s| - 1]]
  }

  /** A stable sort by epoch and round. */
  function Sort(s: seq<Block>): seq<Block> {
    if s == [] then [] else Insert(s[|s| - 1], Sort(s[..|s| - 1]))
  }

  /** By epoch, and within an epoch by round. */
  predicate Sorted(s: seq<Block>) {
    forall i, j :: 0 <= i < j < |s| ==>
      s[i].epoch < s[j].epoch || (s[i].epoch == s[j].epoch && s[i].round <= s[j].round)
  }

  lemma {:induction false} InsertMembers(b: Block, s: seq<Block>)
    ensures multiset(Insert(b, s)) == multiset(s) + multiset{b} && |Insert(b, s)| == |s| + 1
  {
    if s != [] && Before(b, s[|s| - 1]) {
      InsertMembers(b, s[..|s| - 1]);
      assert s == s[..|s| - 1] + [s[|s| - 1]];
    }
  }

  lemma SortedAppend(s: seq<Block>, last: Block)
    requires Sorted(s) && forall x :: x in s ==> !Before(last, x)
    ensures Sorted(s + [last])
  {
    assert forall i :: 0 <= i < |s| ==> s[i] in s && !Before(last, s[i]);
  }

  lemma {:induction false} InsertSorts(b: Block, s: seq<Block>)
    requires Sorted(s)
    ensures Sorted(Insert(b, s)) && |Insert(b, s)| == |s| + 1
    ensures multiset(Insert(b, s)) == multiset(s) + multiset{b}
  {
    InsertMembers(b, s);
    if s != [] && Before(b, s[|s| - 1]) {
      var init, last := s[..|s| - 1], s[|s| - 1];
      InsertSorts(b, init);
      forall x | x in Insert(b, init) ensures !Before(last, x) {
        assert x in multiset(init) + multiset{b};
      }
      SortedAppend(Insert(b, init), last);
    } else {
      forall x | x in s ensures !Before(b, x) {
        var k :| 0 <= k < |s| && s[k] == x;
        assert k < |s| - 1 ==> !Before(s[|s| - 1], s[k]);
      }
      SortedAppend(s, b);
    }
  }

  lemma {:induction false} SortSorts(s: seq<Block>)
    ensures Sorted(Sort(s)) && multiset(Sort(s)) == multiset(s) && |Sort(s)| == |s|
  {
    if s != [] {
      SortSorts(s[..|s| - 1]);
      InsertSorts(s[|s| - 1], Sort(s[..|s| - 1]));
      assert s == s[..|s| - 1] + [s[|s| - 1]];
    }
  }

  lemma {:induction false} InsertFilter(b: Block, s: seq<Block>, keep: Block -> bool)
    requires Sorted(s)
    ensures Filter(Insert(b, s), keep) == if keep(b) then Insert(b, Filter(s, keep)) else Filter(s, keep)
  {
    if s == [] || !Before(b, s[|s| - 1]) {
      FilterLast(s, b, keep);
      if keep(b) {
        LastNotLater(b, s, keep);
      }
    } else {
      var init, last := s[..|s| - 1], s[|s| - 1];
      assert s == init + [last];
      InsertFilter(b, init, keep);
      FilterLast(Insert(b, init), last, keep);
      FilterLast(init, last, keep);
      if keep(b) && !keep(last) {
        assert Filter(s, keep) == Filter(init, keep);
      } else if keep(b) {
        assert (Filter(init, keep) + [last])[..|Filter(init, keep)|] == Filter(init, keep);
      }
    }
  }

  lemma LastNotLater(b: Block, s: seq<Block>, keep: Block -> bool)
    requires Sorted(s) && (s == [] || !Before(b, s[|s| - 1]))
    ensures Insert(b, Filter(s, keep)) == Filter(s, keep) + [b]
  {
    var f := Filter(s, keep);
    if f != [] {
      FilterMember(s, keep, f[|f| - 1]);
      var k :| 0 <= k < |s| && s[k] == f[|f| - 1];
      assert k < |s| - 1 ==> !Before(s[|s| - 1], s[k]);
    }
  }

  lemma SortLast(s: seq<Block>, b: Block)
    ensures Sort(s + [b]) == Insert(b, Sort(s))
  {
    assert (s + [b])[..|s|] == s;
  }

  lemma FilterSortLast(init: seq<Block>, last: Block, keep: Block -> bool)
    ensures Filter(Sort(init + [last]), keep) ==
            if keep(last) then Insert(last, Filter(Sort(init), keep)) else Filter(Sort(init), keep)
  {
    SortSorts(init);
    SortLast(init, last);
    InsertFilter(last, Sort(init), keep);
  }

  lemma SortFilterLast(init: seq<Block>, last: Block, keep: Block -> bool)
    ensures Sort(Filter(init + [last], keep)) ==
            if keep(last) then Insert(last, Sort(Filter(init, keep))) else Sort(Filter(init, keep))
  {
    FilterLast(init, last, keep);
    SortLast(Filter(init, keep), last);
    assert Filter(init, keep) + [] == Filter(init, keep);
  }

  /** Deleting before or after sorting makes no difference. */
  lemma {:induction false} SortFilter(s: seq<Block>, keep: Block -> bool)
    ensures Sort(Filter(s, keep)) == Filter(Sort(s), keep)
  {
    if s != [] {
      var init, last := s[..|s| - 1], s[|s| - 1];
      assert s == init + [last];
      SortFilter(init, keep);
      FilterSortLast(init, last, keep);
      SortFilterLast(init, last, keep);
    }
  }

  // ---------------------------------------------------------------- the subtree of the root

  /** The ids found to descend from the root, in one pass over the blocks. */
  function Tree(root: nat, blocks: seq<Block>): set<nat> {
    if blocks == [] then {root}
    else
      var tree, b := Tree(root, blocks[..|blocks| - 1]), blocks[|blocks| - 1];
      if b.parent in tree then tree + {b.id} else tree
  }

  function Kept(root: nat, blocks: seq<Block>): seq<Block> {
    if blocks == [] then []
    else
      var init, b := blocks[..|blocks| - 1], blocks[|blocks| - 1];
      Kept(root, init) + if b.parent in Tree(root, init) then [b] else []
  }

  function Dropped(root: nat, blocks: seq<Block>): set<nat> {
    if blocks == [] then {}
    else
      var init, b := blocks[..|blocks| - 1], blocks[|blocks| - 1];
      Dropped(root, init) + if b.parent in Tree(root, init) then {} else {b.id}
  }

  function Certifies(tree: set<nat>): Qc -> bool { (q: Qc) => q.certified in tree }

  function DroppedQcs(tree: set<nat>, qcs: seq<Qc>): set<nat> {
    set q | q in qcs && q.certified !in tree :: q.certified
  }

  lemma DroppedQcsStep(tree: set<nat>, qcs: seq<Qc>, q: Qc)
    ensures DroppedQcs(tree, qcs + [q]) == DroppedQcs(tree, qcs) + if q.certified in tree then {} else {q.certified}
  {
  }

  method RetainBlocks(root: nat, blocks: seq<Block>) returns (kept: seq<Block>, tree: set<nat>, toRemove: set<nat>)
    ensures kept == Kept(root, blocks) && tree == Tree(root, blocks) && toRemove == Dropped(root, blocks)
  {
    kept, tree, toRemove := [], {root}, {};
    for i := 0 to |blocks|
      invariant tree == Tree(root, blocks[..i]) && kept == Kept(root, blocks[..i])
      invariant toRemove == Dropped(root, blocks[..i])
    {
      assert blocks[..i + 1][..i] == blocks[..i];
      if blocks[i].parent in tree {
        tree := tree + {blocks[i].id};
        kept := kept + [blocks[i]];
      } else {
        toRemove := toRemove + {blocks[i].id};
      }
    }
    assert blocks[..|blocks|] == blocks;
  }

  method RetainQcs(tree: set<nat>, qcs: seq<Qc>) returns (kept: seq<Qc>, toRemove: set<nat>)
    ensures kept == Filter(qcs, Certifies(tree)) && toRemove == DroppedQcs(tree, qcs)
  {
    kept, toRemove := [], {};
    for i := 0 to |qcs|
      invariant kept == Filter(qcs[..i], Certifies(tree)) && toRemove == DroppedQcs(tree, qcs[..i])
    {
      assert qcs[..i + 1] == qcs[..i] + [qcs[i]];
      FilterLast(qcs[..i], qcs[i], Certifies(tree));
      DroppedQcsStep(tree, qcs[..i], qcs[i]);
      if qcs[i].certified in tree {
        kept := kept + [qcs[i]];
      } else {
        toRemove := toRemove + {qcs[i].certified};
      }
    }
    assert qcs[..|qcs|] == qcs;
  }

  method FindBlocksToPrune(root: nat, blocks: seq<Block>, qcs: seq<Qc>)
      returns (kept: seq<Block>, keptQcs: seq<Qc>, toRemove: set<nat>)
    ensures kept == Kept(root, blocks)
    ensures keptQcs == Filter(qcs, Certifies(Tree(root, blocks)))
    ensures toRemove == Dropped(root, blocks) + DroppedQcs(Tree(root, blocks), qcs)
  {
    var tree, blockIds, qcIds;
    kept, tree, blockIds := RetainBlocks(root, blocks);
    keptQcs, qcIds := RetainQcs(tree, qcs);
    toRemove := blockIds + qcIds;
  }

  // ---------------------------------------------------------------- it is the subtree

  /** Each block of the path is the parent of the next, and the root that of the first. */
  ghost predicate Path(blocks: seq<Block>, root: nat, path: seq<Block>) {
    && path != []
    && path[0].parent == root
    && (forall i :: 0 <= i < |path| ==> path[i] in blocks)
    && (forall i :: 0 <= i < |path| - 1 ==> path[i + 1].parent == path[i].id)
  }

  ghost predicate Descends(blocks: seq<Block>, root: nat, b: Block) {
    exists path :: Path(blocks, root, path) && path[|path| - 1] == b
  }

  predicate DistinctIds(blocks: seq<Block>) {
    forall i, j :: 0 <= i < j < |blocks| ==> blocks[i].id != blocks[j].id
  }

  /** A block is of a later round or epoch than its parent. */
  predicate ParentsBefore(blocks: seq<Block>) {
    forall i, j :: 0 <= i < |blocks| && 0 <= j < |blocks| && blocks[i].id == blocks[j].parent ==>
      Before(blocks[i], blocks[j])
  }

  predicate IsKept(root: nat, blocks: seq<Block>, k: nat)
    requires k < |blocks|
  {
    blocks[k].parent in Tree(root, blocks[..k])
  }

  lemma {:induction false} TreeHas(root: nat, blocks: seq<Block>, n: nat, id: nat)
    requires n <= |blocks|
    ensures id in Tree(root, blocks[..n]) <==>
            id == root || exists k: nat :: k < n && IsKept(root, blocks, k) && blocks[k].id == id
  {
    if n > 0 {
      assert blocks[..n][..n - 1] == blocks[..n - 1];
      TreeHas(root, blocks, n - 1, id);
      if id in Tree(root, blocks[..n]) && id !in Tree(root, blocks[..n - 1]) {
        assert IsKept(root, blocks, n - 1);
      }
    }
  }

  lemma KeptDescends(root: nat, blocks: seq<Block>, k: nat)
    requires k < |blocks| && IsKept(root, blocks, k)
    ensures Descends(blocks, root, blocks[k])
  {
    var b := blocks[k];
    if b.parent == root {
      assert Path(blocks, root, [b]);
    } else {
      TreeHas(root, blocks, k, b.parent);
      var j: nat :| j < k && IsKept(root, blocks, j) && blocks[j].id == b.parent;
      KeptDescends(root, blocks, j);
      var path :| Path(blocks, root, path) && path[|path| - 1] == blocks[j];
      assert Path(blocks, root, path + [b]);
      assert (path + [b])[|path + [b]| - 1] == b;
    }
  }

  lemma {:induction false} DescendantIsKept(root: nat, blocks: seq<Block>, path: seq<Block>) returns (k: nat)
    requires Sorted(blocks) && ParentsBefore(blocks) && Path(blocks, root, path)
    ensures k < |blocks| && blocks[k] == path[|path| - 1] && IsKept(root, blocks, k)
  {
    var b := path[|path| - 1];
    k :| 0 <= k < |blocks| && blocks[k] == b;
    if |path| == 1 {
      TreeHas(root, blocks, k, b.parent);
    } else {
      var init := path[..|path| - 1];
      assert Path(blocks, root, init);
      var j := DescendantIsKept(root, blocks, init);
      assert path[|path| - 2] == init[|init| - 1];
      assert blocks[j].id == b.parent && Before(blocks[j], b);
      assert j < k;
      TreeHas(root, blocks, k, b.parent);
    }
  }

  lemma {:induction false} KeptHas(root: nat, blocks: seq<Block>, n: nat, b: Block)
    requires n <= |blocks|
    ensures b in Kept(root, blocks[..n]) <==> exists k: nat :: k < n && IsKept(root, blocks, k) && blocks[k] == b
  {
    if n > 0 {
      assert blocks[..n][..n - 1] == blocks[..n - 1];
      KeptHas(root, blocks, n - 1, b);
      if b in Kept(root, blocks[..n]) && b !in Kept(root, blocks[..n - 1]) {
        assert IsKept(root, blocks, n - 1) && blocks[n - 1] == b;
      }
    }
  }

  /** One pass over the sorted blocks keeps exactly the blocks with the root as an ancestor. */
  lemma KeptIsSubtree(root: nat, blocks: seq<Block>, b: Block)
    requires Sorted(blocks) && ParentsBefore(blocks)
    ensures b in Kept(root, blocks) <==> Descends(blocks, root, b)
  {
    assert blocks[..|blocks|] == blocks;
    KeptHas(root, blocks, |blocks|, b);
    if b in Kept(root, blocks) {
      var k: nat :| k < |blocks| && IsKept(root, blocks, k) && blocks[k] == b;
      KeptDescends(root, blocks, k);
    }
    if Descends(blocks, root, b) {
      var path :| Path(blocks, root, path) && path[|path| - 1] == b;
      var k := DescendantIsKept(root, blocks, path);
    }
  }

  /** Parents come before their children. */
  predicate Topological(root: nat, blocks: seq<Block>) {
    forall i :: 0 <= i < |blocks| ==>
      blocks[i].parent == root || exists j :: 0 <= j < i && blocks[j].id == blocks[i].parent
  }

  predicate HasId(blocks: seq<Block>, id: nat) {
    exists j :: 0 <= j < |blocks| && blocks[j].id == id
  }

  lemma {:induction false} TreeIsKeptIds(root: nat, blocks: seq<Block>, id: nat)
    ensures id in Tree(root, blocks) <==> id == root || HasId(Kept(root, blocks), id)
  {
    if blocks != [] {
      var init, b := blocks[..|blocks| - 1], blocks[|blocks| - 1];
      TreeIsKeptIds(root, init, id);
      var k := Kept(root, init);
      assert Kept(root, blocks)[..|k|] == k;
      if b.parent in Tree(root, init) {
        assert Kept(root, blocks)[|k|] == b;
      }
      assert forall j :: 0 <= j < |k| ==> Kept(root, blocks)[j] == k[j];
    }
  }

  lemma {:induction false} KeptIsTopological(root: nat, blocks: seq<Block>)
    ensures Topological(root, Kept(root, blocks))
  {
    if blocks != [] {
      var init, b := blocks[..|blocks| - 1], blocks[|blocks| - 1];
      KeptIsTopological(root, init);
      TreeIsKeptIds(root, init, b.parent);
      var k := Kept(root, init);
      forall i | 0 <= i < |Kept(root, blocks)|
        ensures Kept(root, blocks)[i].parent == root
             || exists j :: 0 <= j < i && Kept(root, blocks)[j].id == Kept(root, blocks)[i].parent
      {
        if i < |k| {
          assert Kept(root, blocks)[i] == k[i];
          if k[i].parent != root {
            var j :| 0 <= j < i && k[j].id == k[i].parent;
            assert Kept(root, blocks)[j] == k[j];
          }
        } else if b.parent != root {
          assert HasId(k, b.parent);
          var j :| 0 <= j < |k| && k[j].id == b.parent;
          assert Kept(root, blocks)[j] == k[j];
        }
      }
    }
  }
}
