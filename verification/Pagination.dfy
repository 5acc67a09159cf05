/** Listing the resources or modules of an account page by page. */
module Pagination {
  import opened Options
  import opened Projections
  import opened StateIterator

  /** What a key of the account stands for; `Malformed` keys make the listing fail. */
  datatype Kind = Resource | Code | Evm | Malformed

  type Kinds = nat -> Kind

  /** The iterator passes over keys of other kinds, but not over malformed ones. */
  function Listed(kinds: Kinds, wanted: Kind): Entry -> bool {
    (e: Entry) => kinds(e.key) == wanted || kinds(e.key) == Malformed
  }

  function Items(rows: seq<Row>, q: Query, kinds: Kinds, wanted: Kind, cursor: Option<nat>): seq<Entry> {
    Filter(From(rows, q, cursor), Listed(kinds, wanted))
  }

  predicate WellFormed(kinds: Kinds, items: seq<Entry>) {
    forall i :: 0 <= i < |items| ==> kinds(items[i].key) != Malformed
  }

  datatype Page = Page(entries: seq<Entry>, next: Option<nat>)

  /** A page of at most `limit` entries, and the key of the first entry of the next page. */
  function Paged(kinds: Kinds, items: seq<Entry>, limit: nat): Option<Page> {
    if |items| <= limit then
      if WellFormed(kinds, items) then Some(Page(items, None)) else None
    else if WellFormed(kinds, items[..limit + 1]) then Some(Page(items[..limit], Some(items[limit].key)))
    else None
  }

  /** A request fails if and only if a malformed key is among the entries of its page or is the first
      one after it. */
  lemma PageRefusedExactlyIf(kinds: Kinds, items: seq<Entry>, limit: nat)
    ensures Paged(kinds, items, limit).None? <==>
            exists i :: 0 <= i <= limit && i < |items| && kinds(items[i].key) == Malformed
  {
    if |items| > limit {
      assert forall i :: 0 <= i <= limit ==> items[..limit + 1][i] == items[i];
    }
  }

  /** The limit used for a request: never zero, and never above the maximum. */
  function DetermineLimit(requested: Option<nat>, default_: nat, max: nat): (r: Option<nat>)
    ensures r.None? <==> (if requested.Some? then requested.value else default_) == 0
    ensures r.Some? ==> r.value <= max && (max > 0 ==> r.value > 0)
    ensures r.Some? ==>
              var wanted := if requested.Some? then requested.value else default_;
              r.value <= wanted && (r.value == wanted || r.value == max)
  {
    var limit := if requested.Some? then requested.value else default_;
    if limit == 0 then None else if limit > max then Some(max) else Some(limit)
  }

  // ---------------------------------------------------------------- listings and cursors

  predicate IncreasingKeys(s: seq<Entry>) {
    forall i, j :: 0 <= i < j < |s| ==> s[i].key < s[j].key
  }

  /** The keys of a listing are those of visible rows from there on. */
  lemma {:induction false} ListedRow(rows: seq<Row>, q: Query, i: nat, e: Entry) returns (k: nat)
    requires e in Listing(rows, q, i)
    ensures i <= k < |rows| && Visible(rows, q, k) && rows[k].key == e.key
    decreases |rows| - i
  {
    if e in Listing(rows, q, i + 1) {
      k := ListedRow(rows, q, i + 1, e);
    } else {
      k := i;
    }
  }

  lemma IncreasingCons(e: Entry, rest: seq<Entry>)
    requires IncreasingKeys(rest) && forall r :: r in rest ==> e.key < r.key
    ensures IncreasingKeys([e] + rest)
  {
  }

  /** A listing is in key order. */
  lemma {:induction false} ListingIncreases(rows: seq<Row>, q: Query, i: nat)
    requires SortedRows(rows)
    ensures IncreasingKeys(Listing(rows, q, i))
    decreases |rows| - i
  {
    if i < |rows| {
      ListingIncreases(rows, q, i + 1);
      var rest := Listing(rows, q, i + 1);
      assert [] + rest == rest;
      if Visible(rows, q, i) {
        forall e | e in rest ensures rows[i].key < e.key {
          var k := ListedRow(rows, q, i + 1, e);
          assert Ordered(rows, i, k);
          if rows[k].key == rows[i].key { CurrentOnce(rows, q, i, k); }
        }
        IncreasingCons(Entry(rows[i].key, rows[i].value.value), rest);
      }
    }
  }

  lemma {:induction false} ListingSplits(rows: seq<Row>, q: Query, i: nat, j: nat) returns (head: seq<Entry>)
    requires SortedRows(rows) && i <= j <= |rows|
    ensures Listing(rows, q, i) == head + Listing(rows, q, j)
    ensures forall e :: e in head ==> exists k: nat :: i <= k < j && rows[k].key == e.key
    decreases j - i
  {
    if i == j {
      head := [];
    } else {
      var rest := ListingSplits(rows, q, i + 1, j);
      var own := if Visible(rows, q, i) then [Entry(rows[i].key, rows[i].value.value)] else [];
      head := own + rest;
      assert own + (rest + Listing(rows, q, j)) == head + Listing(rows, q, j);
    }
  }

  lemma KeysBeforeSeek(rows: seq<Row>, q: Query, key: nat) returns (head: seq<Entry>)
    requires SortedRows(rows)
    ensures var i := Seek(rows, key, MAX_VERSION); Listing(rows, q, 0) == head + Listing(rows, q, i)
    ensures forall k :: 0 <= k < |head| ==> head[k].key < key
  {
    var i := Seek(rows, key, MAX_VERSION);
    head := ListingSplits(rows, q, 0, i);
    forall k | 0 <= k < |head| ensures head[k].key < key {
      assert head[k] in head;
      var r: nat :| r < i && rows[r].key == head[k].key;
      assert !AtOrAfter(rows[r], key, MAX_VERSION);
    }
  }

  lemma KeysAfterSeek(rows: seq<Row>, q: Query, key: nat)
    requires SortedRows(rows)
    ensures var tail := Listing(rows, q, Seek(rows, key, MAX_VERSION));
            forall k :: 0 <= k < |tail| ==> tail[k].key >= key
  {
    var i := Seek(rows, key, MAX_VERSION);
    var tail := Listing(rows, q, i);
    forall k | 0 <= k < |tail| ensures tail[k].key >= key {
      var r := ListedRow(rows, q, i, tail[k]);
      assert i < r ==> Ordered(rows, i, r);
    }
  }

  lemma SeekInAccount(rows: seq<Row>, q: Query, key: nat)
    requires SortedRows(rows) && q.low <= key
    ensures var i := Seek(rows, key, MAX_VERSION); i < |rows| ==> rows[i].key >= q.low
  {
  }

  lemma EntryInAccount(rows: seq<Row>, q: Query, n: nat)
    requires SortedRows(rows) && n < |Listing(rows, q, 0)|
    ensures q.low <= Listing(rows, q, 0)[n].key
  {
    var k := ListedRow(rows, q, 0, Listing(rows, q, 0)[n]);
  }

  lemma ListingAtSeek(rows: seq<Row>, q: Query, n: nat)
    requires SortedRows(rows) && n < |Listing(rows, q, 0)|
    ensures var all := Listing(rows, q, 0); Listing(rows, q, Seek(rows, all[n].key, MAX_VERSION)) == all[n..]
  {
    var key := Listing(rows, q, 0)[n].key;
    ListingIncreases(rows, q, 0);
    var head := KeysBeforeSeek(rows, q, key);
    KeysAfterSeek(rows, q, key);
    SamePlace(head, Listing(rows, q, Seek(rows, key, MAX_VERSION)), n, key);
  }

  /** A cursor that is the key of an entry stands exactly before that entry. */
  lemma FromEntry(rows: seq<Row>, q: Query, n: nat)
    requires SortedRows(rows) && n < |Listing(rows, q, 0)|
    ensures From(rows, q, Some(Listing(rows, q, 0)[n].key)) == Listing(rows, q, 0)[n..]
  {
    EntryInAccount(rows, q, n);
    SeekInAccount(rows, q, Listing(rows, q, 0)[n].key);
    ListingAtSeek(rows, q, n);
  }

  lemma SamePlace(head: seq<Entry>, tail: seq<Entry>, n: nat, key: nat)
    requires n < |head + tail| && (head + tail)[n].key == key && IncreasingKeys(head + tail)
    requires forall k :: 0 <= k < |head| ==> head[k].key < key
    requires forall k :: 0 <= k < |tail| ==> tail[k].key >= key
    ensures n == |head| && (head + tail)[n..] == tail
  {
    assert tail != [] ==> (head + tail)[|head|] == tail[0];
  }

  // ---------------------------------------------------------------- following the cursor

  /** The items from a cursor on. */
  type Source = Option<nat> -> seq<Entry>

  function ItemsOf(rows: seq<Row>, q: Query, kinds: Kinds, wanted: Kind): Source {
    (cursor: Option<nat>) => Items(rows, q, kinds, wanted, cursor)
  }

  /** The pages a client gets that starts at `cursor` and follows the returned cursors to the end. */
  ghost predicate Followed(f: Source, kinds: Kinds, cursor: Option<nat>, limit: nat, pages: seq<seq<Entry>>)
    decreases pages
  {
    && pages != []
    && var page := Paged(kinds, f(cursor), limit);
       && page.Some? && page.value.entries == pages[0]
       && if page.value.next.None? then |pages| == 1 else Followed(f, kinds, page.value.next, limit, pages[1..])
  }

  /** `cursor` stands before the `m`-th item. */
  ghost predicate At(f: Source, cursor: Option<nat>, m: nat) {
    m <= |f(None)| && f(cursor) == f(None)[m..]
  }

  /** Asking from the key of an item gives the items from there on. */
  ghost predicate Coherent(f: Source) {
    forall m: nat :: m < |f(None)| ==> At(f, Some(f(None)[m].key), m)
  }

  /** A sequence cut into pieces of `limit`. */
  function Chunks(items: seq<Entry>, limit: nat): seq<seq<Entry>>
    requires limit > 0
  {
    if |items| <= limit then [items] else [items[..limit]] + Chunks(items[limit..], limit)
  }

  function Concat(pages: seq<seq<Entry>>): seq<Entry> {
    if pages == [] then [] else pages[0] + Concat(pages[1..])
  }

  lemma {:induction false} ChunksConcat(items: seq<Entry>, limit: nat)
    requires limit > 0
    ensures Concat(Chunks(items, limit)) == items
    decreases |items|
  {
    if |items| > limit {
      ChunksConcat(items[limit..], limit);
      assert items == items[..limit] + items[limit..];
      assert Chunks(items, limit)[1..] == Chunks(items[limit..], limit);
    } else {
      assert Chunks(items, limit)[1..] == [];
    }
  }

  /** The entries of the kind wanted that come with or after a position of the whole listing. */
  lemma {:induction false} FilterFrom<T>(s: seq<T>, keep: T -> bool, m: nat) returns (n: nat)
    requires m < |Filter(s, keep)|
    ensures n < |s| && s[n] == Filter(s, keep)[m] && Filter(s[n..], keep) == Filter(s, keep)[m..]
  {
    var init, last := s[..|s| - 1], s[|s| - 1];
    assert s == init + [last];
    if m < |Filter(init, keep)| {
      n := FilterFrom(init, keep, m);
      FilterLast(init[n..], last, keep);
      assert s[n..] == init[n..] + [last];
    } else {
      n := |s| - 1;
      assert s[n..] == [] + [last];
      FilterLast([], last, keep);
    }
  }

  lemma ItemsAreCoherent(rows: seq<Row>, q: Query, kinds: Kinds, wanted: Kind)
    requires SortedRows(rows)
    ensures Coherent(ItemsOf(rows, q, kinds, wanted))
  {
    var f := ItemsOf(rows, q, kinds, wanted);
    forall m: nat | m < |f(None)| ensures At(f, Some(f(None)[m].key), m) {
      var n := FilterFrom(Listing(rows, q, 0), Listed(kinds, wanted), m);
      FromEntry(rows, q, n);
    }
  }

  lemma FollowedCons(f: Source, kinds: Kinds, cursor: Option<nat>, limit: nat, page: Page, rest: seq<seq<Entry>>)
    requires Paged(kinds, f(cursor), limit) == Some(page) && page.next.Some?
    requires Followed(f, kinds, page.next, limit, rest)
    ensures Followed(f, kinds, cursor, limit, [page.entries] + rest)
  {
    assert ([page.entries] + rest)[1..] == rest;
  }

  /** The returned cursor stands before the first item that is not on the page. */
  lemma NextAt(f: Source, cursor: Option<nat>, limit: nat, m: nat)
    requires Coherent(f) && At(f, cursor, m) && limit < |f(cursor)|
    ensures var next := Some(f(cursor)[limit].key); At(f, next, m + limit) && f(next) == f(cursor)[limit..]
  {
    var all, items := f(None), f(cursor);
    assert items[limit] == all[m + limit] && items[limit..] == all[m + limit..];
    assert At(f, Some(all[m + limit].key), m + limit);
  }

  lemma SuffixWellFormed(kinds: Kinds, items: seq<Entry>, m: nat, n: nat)
    requires WellFormed(kinds, items) && m <= n <= |items|
    ensures WellFormed(kinds, items[m..n])
  {
  }

  /** If nothing is malformed, the pages are the next items cut into pieces. */
  lemma {:induction false} PagesAreChunks(f: Source, kinds: Kinds, cursor: Option<nat>, limit: nat, m: nat)
    requires Coherent(f) && limit > 0 && At(f, cursor, m) && WellFormed(kinds, f(cursor))
    ensures Followed(f, kinds, cursor, limit, Chunks(f(cursor), limit))
    decreases |f(cursor)|
  {
    var items := f(cursor);
    if |items| > limit {
      var key := items[limit].key;
      NextAt(f, cursor, limit, m);
      SuffixWellFormed(kinds, items, limit, |items|);
      SuffixWellFormed(kinds, items, 0, limit + 1);
      assert items[limit..|items|] == items[limit..] && items[0..limit + 1] == items[..limit + 1];
      PagesAreChunks(f, kinds, Some(key), limit, m + limit);
      FollowedCons(f, kinds, cursor, limit, Page(items[..limit], Some(key)), Chunks(items[limit..], limit));
    }
  }

  lemma {:induction false} FollowedOnce(
    f: Source, kinds: Kinds, cursor: Option<nat>, limit: nat, a: seq<seq<Entry>>, b: seq<seq<Entry>>)
    requires Followed(f, kinds, cursor, limit, a) && Followed(f, kinds, cursor, limit, b)
    ensures a == b
    decreases a
  {
    var page := Paged(kinds, f(cursor), limit).value;
    assert a == [a[0]] + a[1..] && b == [b[0]] + b[1..];
    if page.next.Some? {
      FollowedOnce(f, kinds, page.next, limit, a[1..], b[1..]);
    }
  }

  lemma WellFormedSplit(kinds: Kinds, items: seq<Entry>, limit: nat)
    requires limit < |items| && WellFormed(kinds, items[..limit + 1]) && WellFormed(kinds, items[limit..])
    ensures WellFormed(kinds, items)
  {
    forall i | 0 <= i < |items| ensures kinds(items[i].key) != Malformed {
      if i < limit {
        assert items[i] == items[..limit + 1][i];
      } else {
        assert items[i] == items[limit..][i - limit];
      }
    }
  }

  /** A finished run has seen every item, so none of them was malformed. */
  lemma {:induction false} FollowedIsWellFormed(
    f: Source, kinds: Kinds, cursor: Option<nat>, limit: nat, m: nat, pages: seq<seq<Entry>>)
    requires Coherent(f) && At(f, cursor, m) && Followed(f, kinds, cursor, limit, pages)
    ensures WellFormed(kinds, f(cursor))
    decreases pages
  {
    var items := f(cursor);
    if |items| > limit {
      NextAt(f, cursor, limit, m);
      FollowedIsWellFormed(f, kinds, Some(items[limit].key), limit, m + limit, pages[1..]);
      WellFormedSplit(kinds, items, limit);
    }
  }

  lemma FollowedFromStart(f: Source, kinds: Kinds, limit: nat, pages: seq<seq<Entry>>)
    requires Coherent(f) && limit > 0
    ensures Followed(f, kinds, None, limit, pages) <==> WellFormed(kinds, f(None)) && pages == Chunks(f(None), limit)
  {
    assert f(None)[0..] == f(None);
    assert At(f, None, 0);
    if Followed(f, kinds, None, limit, pages) {
      FollowedIsWellFormed(f, kinds, None, limit, 0, pages);
      PagesAreChunks(f, kinds, None, limit, 0);
      FollowedOnce(f, kinds, None, limit, pages, Chunks(f(None), limit));
    } else if WellFormed(kinds, f(None)) {
      PagesAreChunks(f, kinds, None, limit, 0);
    }
  }

  function OfKind(kinds: Kinds, wanted: Kind): Entry -> bool { (e: Entry) => kinds(e.key) == wanted }

  /** A malformed key anywhere in the account is met; without one, only the kind wanted is listed. */
  lemma {:induction false} ItemsAreOfKind(kinds: Kinds, wanted: Kind, s: seq<Entry>)
    ensures WellFormed(kinds, Filter(s, Listed(kinds, wanted))) <==> WellFormed(kinds, s)
    ensures WellFormed(kinds, s) ==> Filter(s, Listed(kinds, wanted)) == Filter(s, OfKind(kinds, wanted))
  {
    if s != [] {
      var init, last := s[..|s| - 1], s[|s| - 1];
      assert s == init + [last];
      ItemsAreOfKind(kinds, wanted, init);
      FilterLast(init, last, Listed(kinds, wanted));
      FilterLast(init, last, OfKind(kinds, wanted));
      assert Filter(init, Listed(kinds, wanted)) + [] == Filter(init, Listed(kinds, wanted));
      WellFormedLast(kinds, init, last);
      WellFormedLast(kinds, Filter(init, Listed(kinds, wanted)), last);
    }
  }

  lemma WellFormedLast(kinds: Kinds, s: seq<Entry>, e: Entry)
    ensures WellFormed(kinds, s + [e]) <==> WellFormed(kinds, s) && kinds(e.key) != Malformed
  {
    assert (s + [e])[|s|] == e && forall i :: 0 <= i < |s| ==> (s + [e])[i] == s[i];
  }

  /** Following the cursor from the start ends if and only if no key of the account is malformed. The
      pages are then its entries of the kind wanted cut into pieces of `limit`: together they hold
      each of these entries once, in key order. */
  lemma PagesPartition(rows: seq<Row>, q: Query, kinds: Kinds, wanted: Kind, limit: nat, pages: seq<seq<Entry>>)
    requires SortedRows(rows) && limit > 0
    ensures var all := Listing(rows, q, 0);
            var items := Filter(all, OfKind(kinds, wanted));
            && (Followed(ItemsOf(rows, q, kinds, wanted), kinds, None, limit, pages)
                <==> WellFormed(kinds, all) && pages == Chunks(items, limit))
            && Concat(Chunks(items, limit)) == items && IncreasingKeys(items)
  {
    var all := Listing(rows, q, 0);
    ItemsAreCoherent(rows, q, kinds, wanted);
    FollowedFromStart(ItemsOf(rows, q, kinds, wanted), kinds, limit, pages);
    ItemsAreOfKind(kinds, wanted, all);
    ChunksConcat(Filter(all, OfKind(kinds, wanted)), limit);
    ListingIncreases(rows, q, 0);
    FilterIncreasing(all, OfKind(kinds, wanted));
  }

  lemma {:induction false} FilterIncreasing(s: seq<Entry>, keep: Entry -> bool)
    requires IncreasingKeys(s)
    ensures IncreasingKeys(Filter(s, keep))
  {
    if s != [] {
      var init, last := s[..|s| - 1], s[|s| - 1];
      FilterIncreasing(init, keep);
      forall k | 0 <= k < |Filter(init, keep)| ensures Filter(init, keep)[k].key < last.key {
        FilterMember(init, keep, Filter(init, keep)[k]);
      }
    }
  }
}
