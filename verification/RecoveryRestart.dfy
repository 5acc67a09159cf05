/** Recovery as a whole, the deletions it leads to, and recovering once more after them. */
module RecoveryRestart {
  import opened Options
  import opened Projections
  import opened Recovery

  // ---------------------------------------------------------------- recovery

  function First<T>(s: seq<T>, wanted: T -> bool): Option<T> {
    if s == [] then None else if wanted(s[0]) then Some(s[0]) else First(s[1..], wanted)
  }

  function RemoveFirst<T>(s: seq<T>, wanted: T -> bool): seq<T> {
    if s == [] then [] else if wanted(s[0]) then s[1..] else [s[0]] + RemoveFirst(s[1..], wanted)
  }

  function WithId(id: nat): Block -> bool { (b: Block) => b.id == id }

  function Certifying(id: nat): Qc -> bool { (q: Qc) => q.certified == id }

  function Committing(id: nat): Qc -> bool { (q: Qc) => q.commits == id }

  /** The blocks considered: a virtual genesis block is not stored. */
  function Blocks(db: Db, ledger: Ledger): seq<Block> {
    db.blocks + if ledger.genesis.Some? then [ledger.genesis.value] else []
  }

  function Qcs(db: Db, ledger: Ledger): seq<Qc> {
    db.qcs + if ledger.genesis.Some? then [Qc(ledger.Root(), ledger.Root())] else []
  }

  function OfEpoch(saved: Option<Saved>, epoch: nat): Option<Saved> {
    if saved.Some? && saved.value.epoch == epoch then saved else None
  }

  /** The blocks below the root, in order. */
  function Rest(db: Db, ledger: Ledger): seq<Block> {
    RemoveFirst(Sort(Blocks(db, ledger)), WithId(ledger.Root()))
  }

  function Recover(db: Db, ledger: Ledger): Result {
    var root, qcs := First(Sort(Blocks(db, ledger)), WithId(ledger.Root())), Qcs(db, ledger);
    if root.None? then Failed(NoRoot)
    else
      var rootQc := First(qcs, Certifying(ledger.Root()));
      var ordered := First(qcs, Committing(ledger.Root()));
      if rootQc.None? then Failed(NoRootQc)
      else if ordered.None? then Failed(NoLedgerInfo)
      else
        var rest := Rest(db, ledger);
        var tree := Tree(ledger.Root(), rest);
        Recovered(Data(
          root.value, rootQc.value, ordered.value, Kept(ledger.Root(), rest), Filter(qcs, Certifies(tree)),
          Dropped(ledger.Root(), rest) + DroppedQcs(tree, qcs),
          OfEpoch(db.vote, root.value.epoch), OfEpoch(db.tc, root.value.epoch)))
  }

  /** Finds the root and prunes; the work is in the passes over the sorted blocks. */
  method RecoveryData(db: Db, ledger: Ledger) returns (r: Result)
    ensures r == Recover(db, ledger)
  {
    var blocks, qcs := Sort(Blocks(db, ledger)), Qcs(db, ledger);
    var root := First(blocks, WithId(ledger.Root()));
    if root.None? { return Failed(NoRoot); }
    blocks := RemoveFirst(blocks, WithId(ledger.Root()));
    var rootQc := First(qcs, Certifying(ledger.Root()));
    if rootQc.None? { return Failed(NoRootQc); }
    var ordered := First(qcs, Committing(ledger.Root()));
    if ordered.None? { return Failed(NoLedgerInfo); }
    var kept, keptQcs, toRemove := FindBlocksToPrune(ledger.Root(), blocks, qcs);
    var epoch := root.value.epoch;
    return Recovered(Data(root.value, rootQc.value, ordered.value, kept, keptQcs, toRemove,
                          OfEpoch(db.vote, epoch), OfEpoch(db.tc, epoch)));
  }

  function NotPruned(ids: set<nat>): Block -> bool { (b: Block) => b.id !in ids }

  function QcNotPruned(ids: set<nat>): Qc -> bool { (q: Qc) => q.certified !in ids }

  /** The database once a restart has deleted the prune list and what is of another epoch. */
  function Cleaned(db: Db, d: Data): Db {
    Db(Filter(db.blocks, NotPruned(d.prune)), Filter(db.qcs, QcNotPruned(d.prune)), d.vote, d.tc)
  }

  /** Ids are distinct, and blocks of later rounds than their parents. */
  predicate DbOk(db: Db, ledger: Ledger) {
    DistinctIds(Blocks(db, ledger)) && ParentsBefore(Blocks(db, ledger))
  }

  // ---------------------------------------------------------------- sequences

  lemma {:induction false} FirstIs<T>(s: seq<T>, wanted: T -> bool)
    ensures First(s, wanted).Some? ==> First(s, wanted).value in s && wanted(First(s, wanted).value)
    ensures First(s, wanted).None? <==> forall x :: x in s ==> !wanted(x)
  {
    if s != [] && !wanted(s[0]) {
      FirstIs(s[1..], wanted);
      assert forall x :: x in s <==> x == s[0] || x in s[1..];
    }
  }

  lemma {:induction false} FilterHead<T>(s: seq<T>, keep: T -> bool)
    requires s != []
    ensures Filter(s, keep) == (if keep(s[0]) then [s[0]] else []) + Filter(s[1..], keep)
  {
    assert s == [s[0]] + s[1..];
    FilterAppend([s[0]], s[1..], keep);
  }

  /** If the first wanted element is kept, it is also the first wanted one among those kept. */
  lemma {:induction false} FirstKept<T>(s: seq<T>, keep: T -> bool, wanted: T -> bool)
    requires First(s, wanted).Some? && keep(First(s, wanted).value)
    ensures First(Filter(s, keep), wanted) == First(s, wanted)
  {
    FilterHead(s, keep);
    if !wanted(s[0]) {
      FirstKept(s[1..], keep, wanted);
      if keep(s[0]) {
        assert ([s[0]] + Filter(s[1..], keep))[1..] == Filter(s[1..], keep);
      } else {
        assert [] + Filter(s[1..], keep) == Filter(s[1..], keep);
      }
    }
  }

  lemma {:induction false} FilterSame<T>(s: seq<T>, p: T -> bool, q: T -> bool)
    requires forall x :: x in s ==> p(x) == q(x)
    ensures Filter(s, p) == Filter(s, q)
  {
    if s != [] {
      FilterSame(s[..|s| - 1], p, q);
      assert s[|s| - 1] in s;
    }
  }

  lemma {:induction false} RemoveIsFilter(s: seq<Block>, id: nat)
    requires DistinctIds(s)
    ensures RemoveFirst(s, WithId(id)) == Filter(s, NotPruned({id}))
  {
    if s != [] {
      FilterHead(s, NotPruned({id}));
      if s[0].id == id {
        forall i | 0 <= i < |s[1..]| ensures s[1..][i].id != id {
          assert s[1..][i] == s[i + 1];
        }
        FilterAll(s[1..], NotPruned({id}));
      } else {
        RemoveIsFilter(s[1..], id);
      }
    }
  }

  lemma {:induction false} FilterTwice<T>(s: seq<T>, p: T -> bool, q: T -> bool)
    ensures Filter(Filter(s, p), q) == Filter(Filter(s, q), p)
  {
    if s != [] {
      var init, x := s[..|s| - 1], s[|s| - 1];
      FilterTwice(init, p, q);
      assert s == init + [x];
      FilterLast(init, x, p);
      FilterLast(init, x, q);
      FilterLast(Filter(init, p), x, q);
      FilterLast(Filter(init, q), x, p);
      assert Filter(init, p) + [] == Filter(init, p) && Filter(init, q) + [] == Filter(init, q);
    }
  }

  // ---------------------------------------------------------------- the passes on distinct ids

  function InTree(tree: set<nat>): Block -> bool { (b: Block) => b.id in tree }

  lemma {:induction false} TreeIds(root: nat, blocks: seq<Block>, id: nat)
    requires id in Tree(root, blocks) && id != root
    ensures exists b :: b in blocks && b.id == id
  {
    var init, b := blocks[..|blocks| - 1], blocks[|blocks| - 1];
    assert blocks == init + [b];
    if id in Tree(root, init) {
      TreeIds(root, init, id);
      var b' :| b' in init && b'.id == id;
      assert b' in blocks;
    }
  }

  /** A block is kept exactly if its id ends up in the tree. */
  lemma {:induction false} KeptIsFilter(root: nat, blocks: seq<Block>)
    requires DistinctIds(blocks) && forall b :: b in blocks ==> b.id != root
    ensures Kept(root, blocks) == Filter(blocks, InTree(Tree(root, blocks)))
    ensures forall b :: b in blocks ==> (b.id in Dropped(root, blocks) <==> b.id !in Tree(root, blocks))
    ensures forall id :: id in Dropped(root, blocks) ==>
              id !in Tree(root, blocks) && exists b :: b in blocks && b.id == id
  {
    if blocks != [] {
      var init, b := blocks[..|blocks| - 1], blocks[|blocks| - 1];
      assert blocks == init + [b];
      assert b in blocks;
      KeptIsFilter(root, init);
      var before, after := Tree(root, init), Tree(root, blocks);
      assert b.id !in before by {
        if b.id in before { TreeIds(root, init, b.id); }
      }
      FilterSame(init, InTree(before), InTree(after));
      FilterLast(init, b, InTree(after));
    }
  }

  /** A second pass keeps everything. */
  lemma {:induction false} KeptAgain(root: nat, blocks: seq<Block>)
    ensures Tree(root, Kept(root, blocks)) == Tree(root, blocks)
    ensures Kept(root, Kept(root, blocks)) == Kept(root, blocks)
    ensures Dropped(root, Kept(root, blocks)) == {}
  {
    if blocks != [] {
      var init, b := blocks[..|blocks| - 1], blocks[|blocks| - 1];
      KeptAgain(root, init);
      var k := Kept(root, init);
      if b.parent in Tree(root, init) {
        assert (k + [b])[..|k|] == k;
      } else {
        assert k + [] == k;
      }
    }
  }

  // ---------------------------------------------------------------- sorting keeps the blocks

  lemma SortMembers(s: seq<Block>, b: Block)
    ensures b in Sort(s) <==> b in s
  {
    SortSorts(s);
    assert b in multiset(Sort(s)) <==> b in multiset(s);
  }

  lemma DistinctAppend(s: seq<Block>, b: Block)
    requires DistinctIds(s) && forall c :: c in s ==> c.id != b.id
    ensures DistinctIds(s + [b])
  {
  }

  lemma {:induction false} InsertDistinct(b: Block, s: seq<Block>)
    requires DistinctIds(s) && forall c :: c in s ==> c.id != b.id
    ensures DistinctIds(Insert(b, s)) && forall c :: c in Insert(b, s) <==> c in s || c == b
  {
    if s != [] {
      var init, last := s[..|s| - 1], s[|s| - 1];
      assert s == init + [last];
      if Before(b, last) {
        InsertDistinct(b, init);
        DistinctAppend(Insert(b, init), last);
      } else {
        DistinctAppend(s, b);
      }
    }
  }

  lemma {:induction false} SortDistinct(s: seq<Block>)
    requires DistinctIds(s)
    ensures DistinctIds(Sort(s))
  {
    if s != [] {
      var init, last := s[..|s| - 1], s[|s| - 1];
      SortDistinct(init);
      forall c | c in Sort(init) ensures c.id != last.id {
        SortMembers(init, c);
      }
      InsertDistinct(last, Sort(init));
    }
  }

  lemma {:induction false} FilterKeepsOrder(s: seq<Block>, keep: Block -> bool)
    requires Sorted(s)
    ensures Sorted(Filter(s, keep))
  {
    if s != [] {
      var init, last := s[..|s| - 1], s[|s| - 1];
      FilterKeepsOrder(init, keep);
      forall x | x in Filter(init, keep) ensures !Before(last, x) {
        FilterMember(init, keep, x);
        var k :| 0 <= k < |init| && init[k] == x;
        assert s[k] == x;
      }
      SortedAppend(Filter(init, keep), last);
    }
  }

  lemma {:induction false} FilterKeepsDistinct(s: seq<Block>, keep: Block -> bool)
    requires DistinctIds(s)
    ensures DistinctIds(Filter(s, keep))
  {
    if s != [] {
      var init, last := s[..|s| - 1], s[|s| - 1];
      FilterKeepsDistinct(init, keep);
      forall x | x in Filter(init, keep) ensures x.id != last.id {
        FilterMember(init, keep, x);
        var k :| 0 <= k < |init| && init[k] == x;
        assert s[k] == x;
      }
    }
  }

  /** The sorted blocks without the root. */
  lemma RestIs(db: Db, ledger: Ledger)
    requires DbOk(db, ledger)
    ensures var rest := Rest(db, ledger);
            && rest == Filter(Sort(Blocks(db, ledger)), NotPruned({ledger.Root()}))
            && Sorted(rest) && DistinctIds(rest)
            && forall b :: b in rest <==> b in Blocks(db, ledger) && b.id != ledger.Root()
  {
    var sorted := Sort(Blocks(db, ledger));
    SortSorts(Blocks(db, ledger));
    SortDistinct(Blocks(db, ledger));
    RemoveIsFilter(sorted, ledger.Root());
    FilterKeepsOrder(sorted, NotPruned({ledger.Root()}));
    FilterKeepsDistinct(sorted, NotPruned({ledger.Root()}));
    forall b ensures b in Rest(db, ledger) <==> b in Blocks(db, ledger) && b.id != ledger.Root() {
      FilterMember(sorted, NotPruned({ledger.Root()}), b);
      SortMembers(Blocks(db, ledger), b);
    }
  }

  // ---------------------------------------------------------------- what recovery keeps

  lemma BeforeTransitive(a: Block, b: Block, c: Block)
    requires Before(a, b) && (b == c || Before(b, c))
    ensures Before(a, c) && a != c
  {
  }

  /** Nothing on a path from the root is the root. */
  lemma {:induction false} PathLeavesRoot(blocks: seq<Block>, root: Block, path: seq<Block>, n: nat)
    requires DistinctIds(blocks) && ParentsBefore(blocks) && root in blocks && Path(blocks, root.id, path) && n < |path|
    ensures Before(root, path[n]) && path[n].id != root.id
  {
    if n > 0 {
      PathLeavesRoot(blocks, root, path, n - 1);
      assert path[n - 1] in blocks && path[n] in blocks && path[n].parent == path[n - 1].id;
      BeforeTransitive(root, path[n - 1], path[n]);
    } else {
      assert path[0] in blocks;
    }
  }

  lemma DescendsInRest(db: Db, ledger: Ledger, root: Block, b: Block)
    requires DbOk(db, ledger) && root in Blocks(db, ledger) && root.id == ledger.Root()
    ensures Descends(Rest(db, ledger), ledger.Root(), b) <==> Descends(Blocks(db, ledger), ledger.Root(), b)
  {
    var all, rest := Blocks(db, ledger), Rest(db, ledger);
    RestIs(db, ledger);
    if path :| Path(rest, ledger.Root(), path) && path[|path| - 1] == b {
      assert Path(all, ledger.Root(), path);
    }
    if path :| Path(all, ledger.Root(), path) && path[|path| - 1] == b {
      forall i | 0 <= i < |path| ensures path[i] in rest {
        PathLeavesRoot(all, root, path, i);
      }
      assert Path(rest, ledger.Root(), path);
    }
  }

  lemma RestParentsBefore(db: Db, ledger: Ledger)
    requires DbOk(db, ledger)
    ensures ParentsBefore(Rest(db, ledger))
  {
    RestIs(db, ledger);
    var all, rest := Blocks(db, ledger), Rest(db, ledger);
    forall i, j | 0 <= i < |rest| && 0 <= j < |rest| && rest[i].id == rest[j].parent ensures Before(rest[i], rest[j]) {
      assert rest[i] in all && rest[j] in all;
    }
  }

  lemma RootFound(db: Db, ledger: Ledger)
    requires Recover(db, ledger).Recovered?
    ensures var root := Recover(db, ledger).data.root; root in Blocks(db, ledger) && root.id == ledger.Root()
  {
    FirstIs(Sort(Blocks(db, ledger)), WithId(ledger.Root()));
    SortMembers(Blocks(db, ledger), Recover(db, ledger).data.root);
  }

  /** Recovery succeeds if and only if the committed block, a certificate for it and a certificate
      that commits it are there, and then finds them; the error tells what is missing first. */
  lemma RecoversIf(db: Db, ledger: Ledger)
    ensures var root, blocks, qcs := ledger.Root(), Blocks(db, ledger), Qcs(db, ledger);
            match Recover(db, ledger)
            case Recovered(d) =>
              && d.root in blocks && d.root.id == root
              && d.rootQc in qcs && d.rootQc.certified == root
              && d.orderedCert in qcs && d.orderedCert.commits == root
            case Failed(NoRoot) => forall b :: b in blocks ==> b.id != root
            case Failed(NoRootQc) =>
              (exists b :: b in blocks && b.id == root) && forall q :: q in qcs ==> q.certified != root
            case Failed(NoLedgerInfo) =>
              (exists q :: q in qcs && q.certified == root) && forall q :: q in qcs ==> q.commits != root
  {
    var root, sorted, qcs := ledger.Root(), Sort(Blocks(db, ledger)), Qcs(db, ledger);
    FirstIs(sorted, WithId(root));
    FirstIs(qcs, Certifying(root));
    FirstIs(qcs, Committing(root));
    forall b ensures b in sorted <==> b in Blocks(db, ledger) {
      SortMembers(Blocks(db, ledger), b);
    }
    if First(sorted, WithId(root)).Some? {
      assert First(sorted, WithId(root)).value in Blocks(db, ledger);
    }
    forall q | q in qcs ensures (First(qcs, Certifying(root)).None? ==> q.certified != root)
                             && (First(qcs, Committing(root)).None? ==> q.commits != root) {
      assert First(qcs, Certifying(root)).None? ==> !Certifying(root)(q);
      assert First(qcs, Committing(root)).None? ==> !Committing(root)(q);
    }
    forall b | b in sorted ensures First(sorted, WithId(root)).None? ==> b.id != root {
      assert First(sorted, WithId(root)).None? ==> !WithId(root)(b);
    }
  }

  /** After an epoch has ended, the virtual genesis block is always found. */
  lemma GenesisIsFound(db: Db, ledger: Ledger)
    requires ledger.genesis.Some?
    ensures Recover(db, ledger).Recovered?
  {
    RecoversIf(db, ledger);
    var g, q := ledger.genesis.value, Qc(ledger.Root(), ledger.Root());
    assert g in Blocks(db, ledger) && q in Qcs(db, ledger);
  }

  /** The blocks recovered are exactly those in the database that have the root as an ancestor,
      parents before children and in the order of their rounds. */
  lemma ExactSubtree(db: Db, ledger: Ledger, d: Data, b: Block)
    requires DbOk(db, ledger) && Recover(db, ledger) == Recovered(d)
    ensures b in d.blocks <==> Descends(Blocks(db, ledger), ledger.Root(), b)
    ensures Topological(ledger.Root(), d.blocks) && Sorted(d.blocks) && DistinctIds(d.blocks)
  {
    var rest := Rest(db, ledger);
    RootFound(db, ledger);
    RestIs(db, ledger);
    RestParentsBefore(db, ledger);
    KeptIsSubtree(ledger.Root(), rest, b);
    DescendsInRest(db, ledger, d.root, b);
    KeptIsTopological(ledger.Root(), rest);
    KeptIsFilter(ledger.Root(), rest);
    FilterKeepsOrder(rest, InTree(Tree(ledger.Root(), rest)));
    FilterKeepsDistinct(rest, InTree(Tree(ledger.Root(), rest)));
  }

  /** The tree holds the root and the ids of the blocks recovered. */
  predicate InData(d: Data, id: nat) {
    id == d.root.id || HasId(d.blocks, id)
  }

  lemma TreeIsData(db: Db, ledger: Ledger, d: Data, id: nat)
    requires DbOk(db, ledger) && Recover(db, ledger) == Recovered(d)
    ensures id in Tree(ledger.Root(), Rest(db, ledger)) <==> InData(d, id)
  {
    RootFound(db, ledger);
    TreeIsKeptIds(ledger.Root(), Rest(db, ledger), id);
  }

  /** The certificates recovered are exactly those that certify the root or a recovered block. */
  lemma ExactCertificates(db: Db, ledger: Ledger, d: Data, q: Qc)
    requires DbOk(db, ledger) && Recover(db, ledger) == Recovered(d)
    ensures q in d.qcs <==> q in Qcs(db, ledger) && InData(d, q.certified)
  {
    FilterMember(Qcs(db, ledger), Certifies(Tree(ledger.Root(), Rest(db, ledger))), q);
    TreeIsData(db, ledger, d, q.certified);
  }

  /** The prune list names what is in the database and not recovered, and nothing else: neither
      the root nor a recovered block. */
  lemma ExactPruneList(db: Db, ledger: Ledger, d: Data, id: nat)
    requires DbOk(db, ledger) && Recover(db, ledger) == Recovered(d)
    ensures id in d.prune <==>
            && !InData(d, id)
            && ((exists b :: b in Blocks(db, ledger) && b.id == id) ||
                exists q :: q in Qcs(db, ledger) && q.certified == id)
  {
    var root, rest := ledger.Root(), Rest(db, ledger);
    TreeIsData(db, ledger, d, id);
    RootFound(db, ledger);
    RestIs(db, ledger);
    KeptIsFilter(root, rest);
    if !InData(d, id) && exists b :: b in Blocks(db, ledger) && b.id == id {
      var b :| b in Blocks(db, ledger) && b.id == id;
      assert b in rest;
    }
  }

  /** The saved vote is recovered if and only if it is of the epoch of the root, and so is the saved
      timeout certificate: what is of a past epoch is dropped, and nothing else is. */
  lemma ExactVoteAndTimeout(db: Db, ledger: Ledger, d: Data, s: Saved)
    requires DbOk(db, ledger) && Recover(db, ledger) == Recovered(d)
    ensures d.vote == Some(s) <==> db.vote == Some(s) && s.epoch == d.root.epoch
    ensures d.tc == Some(s) <==> db.tc == Some(s) && s.epoch == d.root.epoch
    ensures d.root in Blocks(db, ledger) && d.root.id == ledger.Root()
  {
    RootFound(db, ledger);
  }

  // ---------------------------------------------------------------- recovering again

  lemma RootNotPruned(db: Db, ledger: Ledger, d: Data)
    requires DbOk(db, ledger) && Recover(db, ledger) == Recovered(d)
    ensures ledger.Root() !in d.prune
  {
    ExactPruneList(db, ledger, d, ledger.Root());
    RootFound(db, ledger);
  }

  /** Deleting and adding the virtual genesis block again commute. */
  lemma BlocksCleaned(db: Db, ledger: Ledger, d: Data)
    requires DbOk(db, ledger) && Recover(db, ledger) == Recovered(d)
    ensures Blocks(Cleaned(db, d), ledger) == Filter(Blocks(db, ledger), NotPruned(d.prune))
    ensures Qcs(Cleaned(db, d), ledger) == Filter(Qcs(db, ledger), QcNotPruned(d.prune))
  {
    RootNotPruned(db, ledger, d);
    if ledger.genesis.Some? {
      FilterLast(db.blocks, ledger.genesis.value, NotPruned(d.prune));
      FilterLast(db.qcs, Qc(ledger.Root(), ledger.Root()), QcNotPruned(d.prune));
    } else {
      assert db.blocks + [] == db.blocks && db.qcs + [] == db.qcs;
      assert Blocks(Cleaned(db, d), ledger) == Cleaned(db, d).blocks;
      assert Qcs(Cleaned(db, d), ledger) == Cleaned(db, d).qcs;
    }
  }

  lemma CleanedIsOk(db: Db, ledger: Ledger, d: Data)
    requires DbOk(db, ledger) && Recover(db, ledger) == Recovered(d)
    ensures DbOk(Cleaned(db, d), ledger)
  {
    BlocksCleaned(db, ledger, d);
    var all, left := Blocks(db, ledger), Blocks(Cleaned(db, d), ledger);
    FilterKeepsDistinct(all, NotPruned(d.prune));
    forall i, j | 0 <= i < |left| && 0 <= j < |left| && left[i].id == left[j].parent ensures Before(left[i], left[j]) {
      FilterMember(all, NotPruned(d.prune), left[i]);
      FilterMember(all, NotPruned(d.prune), left[j]);
    }
  }

  /** What is left, apart from the root, is what was recovered. */
  lemma RestCleaned(db: Db, ledger: Ledger, d: Data)
    requires DbOk(db, ledger) && Recover(db, ledger) == Recovered(d)
    ensures Rest(Cleaned(db, d), ledger) == d.blocks
  {
    var root, all, rest := ledger.Root(), Blocks(db, ledger), Rest(db, ledger);
    BlocksCleaned(db, ledger, d);
    CleanedIsOk(db, ledger, d);
    RestIs(Cleaned(db, d), ledger);
    SortFilter(all, NotPruned(d.prune));
    FilterTwice(Sort(all), NotPruned(d.prune), NotPruned({root}));
    RestIs(db, ledger);
    KeptIsFilter(root, rest);
    forall b | b in rest ensures NotPruned(d.prune)(b) == InTree(Tree(root, rest))(b) {
      ExactPruneList(db, ledger, d, b.id);
      TreeIsData(db, ledger, d, b.id);
    }
    FilterSame(rest, NotPruned(d.prune), InTree(Tree(root, rest)));
  }

  lemma RootCleaned(db: Db, ledger: Ledger, d: Data)
    requires DbOk(db, ledger) && Recover(db, ledger) == Recovered(d)
    ensures First(Sort(Blocks(Cleaned(db, d), ledger)), WithId(ledger.Root())) == Some(d.root)
  {
    BlocksCleaned(db, ledger, d);
    SortFilter(Blocks(db, ledger), NotPruned(d.prune));
    RootFound(db, ledger);
    RootNotPruned(db, ledger, d);
    FirstKept(Sort(Blocks(db, ledger)), NotPruned(d.prune), WithId(ledger.Root()));
  }

  lemma QcsCleaned(db: Db, ledger: Ledger, d: Data)
    requires DbOk(db, ledger) && Recover(db, ledger) == Recovered(d)
    ensures Qcs(Cleaned(db, d), ledger) == d.qcs
  {
    var tree, qcs := Tree(ledger.Root(), Rest(db, ledger)), Qcs(db, ledger);
    BlocksCleaned(db, ledger, d);
    forall q | q in qcs ensures QcNotPruned(d.prune)(q) == Certifies(tree)(q) {
      ExactPruneList(db, ledger, d, q.certified);
      TreeIsData(db, ledger, d, q.certified);
    }
    FilterSame(qcs, QcNotPruned(d.prune), Certifies(tree));
  }

  lemma RootQcCleaned(db: Db, ledger: Ledger, d: Data)
    requires DbOk(db, ledger) && Recover(db, ledger) == Recovered(d)
    ensures First(d.qcs, Certifying(ledger.Root())) == Some(d.rootQc)
  {
    var tree := Tree(ledger.Root(), Rest(db, ledger));
    FirstIs(Qcs(db, ledger), Certifying(ledger.Root()));
    TreeIsKeptIds(ledger.Root(), Rest(db, ledger), ledger.Root());
    FirstKept(Qcs(db, ledger), Certifies(tree), Certifying(ledger.Root()));
  }

  lemma {:induction false} FilterIdempotent<T>(s: seq<T>, keep: T -> bool)
    ensures Filter(Filter(s, keep), keep) == Filter(s, keep)
  {
    forall k | 0 <= k < |Filter(s, keep)| ensures keep(Filter(s, keep)[k]) {
      FilterMember(s, keep, Filter(s, keep)[k]);
    }
    FilterAll(Filter(s, keep), keep);
  }

  lemma NothingDropped(tree: set<nat>, qcs: seq<Qc>)
    ensures DroppedQcs(tree, Filter(qcs, Certifies(tree))) == {}
  {
    forall q | q in Filter(qcs, Certifies(tree)) ensures q.certified in tree {
      FilterMember(qcs, Certifies(tree), q);
    }
  }

  /** A second recovery succeeds if and only if a recovered certificate commits the root. It then
      recovers the same root, blocks, certificates, vote and timeout certificate, and prunes
      nothing; the certificate it commits the root with is the first one recovered. */
  lemma RestartIsIdempotent(db: Db, ledger: Ledger, d: Data)
    requires DbOk(db, ledger) && Recover(db, ledger) == Recovered(d)
    ensures Recover(Cleaned(db, d), ledger) ==
            match First(d.qcs, Committing(ledger.Root()))
            case Some(ordered) => Recovered(d.(prune := {}, orderedCert := ordered))
            case None => Failed(NoLedgerInfo)
    ensures First(d.qcs, Committing(ledger.Root())).Some? <==> exists q :: q in d.qcs && q.commits == ledger.Root()
  {
    var root, rest := ledger.Root(), Rest(db, ledger);
    RootCleaned(db, ledger, d);
    QcsCleaned(db, ledger, d);
    RootQcCleaned(db, ledger, d);
    RestCleaned(db, ledger, d);
    KeptAgain(root, rest);
    FilterIdempotent(Qcs(db, ledger), Certifies(Tree(root, rest)));
    NothingDropped(Tree(root, rest), Qcs(db, ledger));
    FirstIs(d.qcs, Committing(root));
  }

  /** What the writers of the database keep: a certificate that commits the root certifies the root,
      if that is the virtual genesis block, or a child of it, and is not stored without this child. */
  ghost predicate CommitsAreStored(db: Db, ledger: Ledger) {
    forall q :: q in Qcs(db, ledger) && q.commits == ledger.Root() ==>
      q.certified == ledger.Root() ||
      exists b :: b in Blocks(db, ledger) && b.id == q.certified && b.parent == ledger.Root()
  }

  lemma ChildDescends(blocks: seq<Block>, root: nat, b: Block)
    requires b in blocks && b.parent == root
    ensures Descends(blocks, root, b)
  {
    assert Path(blocks, root, [b]);
  }

  /** The certificate found for the root then certifies the root or a recovered block. */
  lemma OrderedIsRecovered(db: Db, ledger: Ledger, d: Data)
    requires DbOk(db, ledger) && Recover(db, ledger) == Recovered(d) && CommitsAreStored(db, ledger)
    ensures InData(d, d.orderedCert.certified)
  {
    var q := d.orderedCert;
    RootFound(db, ledger);
    FirstIs(Qcs(db, ledger), Committing(ledger.Root()));
    if q.certified != ledger.Root() {
      var b :| b in Blocks(db, ledger) && b.id == q.certified && b.parent == ledger.Root();
      ChildDescends(Blocks(db, ledger), ledger.Root(), b);
      ExactSubtree(db, ledger, d, b);
    }
  }

  /** With such a database a restart changes nothing at all. */
  lemma RestartChangesNothing(db: Db, ledger: Ledger, d: Data)
    requires DbOk(db, ledger) && Recover(db, ledger) == Recovered(d) && CommitsAreStored(db, ledger)
    ensures Recover(Cleaned(db, d), ledger) == Recovered(d.(prune := {}))
    ensures CommitsAreStored(Cleaned(db, d), ledger)
  {
    var tree := Tree(ledger.Root(), Rest(db, ledger));
    OrderedIsRecovered(db, ledger, d);
    TreeIsData(db, ledger, d, d.orderedCert.certified);
    FirstKept(Qcs(db, ledger), Certifies(tree), Committing(ledger.Root()));
    RestartIsIdempotent(db, ledger, d);
    CleanedStoresCommits(db, ledger, d);
  }

  /** The deletions spare these certificates and children. */
  lemma CleanedStoresCommits(db: Db, ledger: Ledger, d: Data)
    requires DbOk(db, ledger) && Recover(db, ledger) == Recovered(d) && CommitsAreStored(db, ledger)
    ensures CommitsAreStored(Cleaned(db, d), ledger)
  {
    var root := ledger.Root();
    BlocksCleaned(db, ledger, d);
    forall q | q in Qcs(Cleaned(db, d), ledger) && q.commits == root && q.certified != root
      ensures exists b :: b in Blocks(Cleaned(db, d), ledger) && b.id == q.certified && b.parent == root
    {
      FilterMember(Qcs(db, ledger), QcNotPruned(d.prune), q);
      var b :| b in Blocks(db, ledger) && b.id == q.certified && b.parent == root;
      FilterMember(Blocks(db, ledger), NotPruned(d.prune), b);
    }
  }

  /** That is needed: if a certificate that commits the root is stored without the block it
      certifies, it is pruned, nothing is left to commit the root with, and the next recovery
      fails. */
  lemma RestartCanFail() returns (db: Db, ledger: Ledger, d: Data)
    ensures DbOk(db, ledger) && Recover(db, ledger) == Recovered(d) && !CommitsAreStored(db, ledger)
    ensures Recover(Cleaned(db, d), ledger) == Failed(NoLedgerInfo)
  {
    var root := Block(1, 0, 1, 1);
    ledger := Ledger(1, None);
    db := Db([root], [Qc(1, 0), Qc(9, 1)], None, None);
    var blocks, qcs := Blocks(db, ledger), Qcs(db, ledger);
    assert blocks == [root] && qcs == db.qcs;
    SortLast([], root);
    assert [] + [root] == [root] && Sort(blocks) == [root];
    assert qcs[1..] == [Qc(9, 1)];
    assert qcs[1] in qcs;
    assert Rest(db, ledger) == [];
    d := Recover(db, ledger).data;
    FilterHead(qcs, Certifies({1}));
    FilterHead(qcs[1..], Certifies({1}));
    assert d.qcs == [Qc(1, 0)];
    RestartIsIdempotent(db, ledger, d);
  }
}
