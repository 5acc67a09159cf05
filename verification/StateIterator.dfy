/** Reading an account at a past version: an iterator over versioned rows that jumps from key to
    key by seeking. */
module StateIterator {
  import opened Options

  const MAX_VERSION: nat := 0xFFFF_FFFF_FFFF_FFFF

  /** One write of a key; a deletion writes no value. */
  datatype Row = Row(key: nat, version: nat, value: Option<nat>)

  /** Rows are stored by key, the newest version of a key first. */
  predicate Ordered(rows: seq<Row>, i: nat, j: nat)
    requires i < |rows| && j < |rows|
  {
    rows[i].key < rows[j].key || (rows[i].key == rows[j].key && rows[i].version > rows[j].version)
  }

  predicate SortedRows(rows: seq<Row>) {
    && (forall i, j :: 0 <= i < j < |rows| ==> Ordered(rows, i, j))
    && (forall i :: 0 <= i < |rows| ==> rows[i].version <= MAX_VERSION)
  }

  predicate AtOrAfter(row: Row, key: nat, version: nat) {
    row.key > key || (row.key == key && row.version <= version)
  }

  /** The position of the first row that is not before `(key, version)`. */
  function Seek(rows: seq<Row>, key: nat, version: nat): (r: nat)
    ensures r <= |rows|
    ensures forall i :: 0 <= i < r ==> !AtOrAfter(rows[i], key, version)
    ensures r < |rows| ==> AtOrAfter(rows[r], key, version)
  {
    if rows == [] || AtOrAfter(rows[0], key, version) then 0 else 1 + Seek(rows[1..], key, version)
  }

  // ---------------------------------------------------------------- what there is to see

  /** The keys of one account are consecutive: those from `low` up to `high`. */
  datatype Query = Query(low: nat, high: nat, version: nat)

  /** The row holds what its key had at the version asked for: it is the newest one not after it. */
  predicate Current(rows: seq<Row>, q: Query, i: nat) {
    && i < |rows|
    && rows[i].version <= q.version
    && forall j :: 0 <= j < |rows| && rows[j].key == rows[i].key && rows[j].version <= q.version ==>
         rows[j].version <= rows[i].version
  }

  predicate Visible(rows: seq<Row>, q: Query, i: nat) {
    Current(rows, q, i) && rows[i].value.Some? && q.low <= rows[i].key < q.high
  }

  datatype Entry = Entry(key: nat, value: nat)

  /** The account at the version asked for, from the `i`-th row on, in key order. */
  function Listing(rows: seq<Row>, q: Query, i: nat): seq<Entry>
    decreases |rows| - i
  {
    if i >= |rows| then []
    else
      (if Visible(rows, q, i) then [Entry(rows[i].key, rows[i].value.value)] else []) + Listing(rows, q, i + 1)
  }

  lemma {:induction false} SkipInvisible(rows: seq<Row>, q: Query, i: nat, j: nat)
    requires i <= j && forall k :: i <= k < j && k < |rows| ==> !Visible(rows, q, k)
    ensures Listing(rows, q, i) == Listing(rows, q, j)
    decreases j - i
  {
    if i < j {
      SkipInvisible(rows, q, i + 1, j);
      if i < |rows| {
        assert [] + Listing(rows, q, i + 1) == Listing(rows, q, i + 1);
      } else {
        assert Listing(rows, q, j) == [];
      }
    }
  }

  /** A key has at most one current row. */
  lemma CurrentOnce(rows: seq<Row>, q: Query, i: nat, j: nat)
    requires SortedRows(rows) && Current(rows, q, i) && Current(rows, q, j) && rows[i].key == rows[j].key
    ensures i == j
  {
    assert rows[i].version == rows[j].version;
    assert i < j ==> Ordered(rows, i, j);
    assert j < i ==> Ordered(rows, j, i);
  }

  /** The first row of a key that is not too new is the current one. */
  lemma FirstIsCurrent(rows: seq<Row>, q: Query, i: nat)
    requires SortedRows(rows) && i < |rows| && rows[i].version <= q.version
    requires forall j :: 0 <= j < i && rows[j].key == rows[i].key ==> rows[j].version > q.version
    ensures Current(rows, q, i)
  {
    forall j | 0 <= j < |rows| && rows[j].key == rows[i].key && rows[j].version <= q.version
      ensures rows[j].version <= rows[i].version
    {
      assert j > i ==> Ordered(rows, i, j);
    }
  }

  // ---------------------------------------------------------------- where an iterator stands

  /** The position of the next row, and the key returned last. */
  datatype Cursor = Cursor(pos: nat, prevKey: Option<nat>)

  /** Where reading resumes: past a row of the key returned last. */
  function Resume(rows: seq<Row>, c: Cursor): nat {
    if c.pos < |rows| && c.prevKey == Some(rows[c.pos].key) then c.pos + 1 else c.pos
  }

  /** What is still to come; nothing if the cursor was placed before the account. */
  function Rest(rows: seq<Row>, q: Query, c: Cursor): seq<Entry> {
    var i := Resume(rows, c);
    if i < |rows| && rows[i].key < q.low then [] else Listing(rows, q, i)
  }

  /** No row from here on is of the key returned last, and of the key under the cursor only rows
      that are too new have been passed. */
  predicate Placed(rows: seq<Row>, q: Query, c: Cursor) {
    && SortedRows(rows) && c.pos <= |rows|
    && (c.prevKey.Some? ==> forall i :: Resume(rows, c) <= i < |rows| ==> rows[i].key > c.prevKey.value)
    && (c.pos < |rows| && c.prevKey != Some(rows[c.pos].key) ==>
          forall i :: 0 <= i < c.pos && rows[i].key == rows[c.pos].key ==> rows[i].version > q.version)
  }

  lemma SkipPrevious(rows: seq<Row>, q: Query, c: Cursor)
    requires Placed(rows, q, c) && c.pos < |rows| && c.prevKey == Some(rows[c.pos].key)
    ensures var c' := c.(pos := c.pos + 1); Placed(rows, q, c') && Rest(rows, q, c') == Rest(rows, q, c)
  {
    forall i | 0 <= i < c.pos + 1 < |rows| ensures rows[i].key < rows[c.pos + 1].key {
      assert i < c.pos ==> Ordered(rows, i, c.pos);
    }
  }

  lemma OutsideIsEnd(rows: seq<Row>, q: Query, c: Cursor)
    requires Placed(rows, q, c) && c.pos < |rows| && c.prevKey != Some(rows[c.pos].key)
    requires !(q.low <= rows[c.pos].key < q.high)
    ensures Rest(rows, q, c) == []
  {
    if rows[c.pos].key >= q.high {
      forall k | c.pos <= k < |rows| ensures !Visible(rows, q, k) {
        assert k > c.pos ==> Ordered(rows, c.pos, k);
      }
      SkipInvisible(rows, q, c.pos, |rows|);
    }
  }

  /** What lies between a row and the seek target of its key. */
  lemma SeekFrom(rows: seq<Row>, pos: nat, version: nat)
    requires SortedRows(rows) && pos < |rows| && version <= rows[pos].version
    ensures var next := Seek(rows, rows[pos].key, version);
            && pos <= next && (rows[pos].version > version ==> pos < next)
            && forall k :: pos <= k < next ==> rows[k].key == rows[pos].key && rows[k].version > version
  {
    var key, next := rows[pos].key, Seek(rows, rows[pos].key, version);
    forall k | 0 <= k < pos ensures !AtOrAfter(rows[k], key, version) {
      assert Ordered(rows, k, pos);
    }
    forall k | pos <= k < next ensures rows[k].key == key && rows[k].version > version {
      assert !AtOrAfter(rows[k], key, version);
      assert k > pos ==> Ordered(rows, pos, k);
    }
  }

  lemma SkipTooNew(rows: seq<Row>, q: Query, c: Cursor)
    requires Placed(rows, q, c) && c.pos < |rows| && c.prevKey != Some(rows[c.pos].key)
    requires q.low <= rows[c.pos].key && rows[c.pos].version > q.version
    ensures var c' := c.(pos := Seek(rows, rows[c.pos].key, q.version));
            c.pos < c'.pos && Placed(rows, q, c') && Rest(rows, q, c') == Rest(rows, q, c)
  {
    var key := rows[c.pos].key;
    var next := Seek(rows, key, q.version);
    SeekFrom(rows, c.pos, q.version);
    SkipInvisible(rows, q, c.pos, next);
    PassedTooNew(rows, key, q.version);
    forall i | next <= i < |rows| ensures rows[i].key >= key {
      assert Ordered(rows, c.pos, i);
    }
  }

  lemma PassedTooNew(rows: seq<Row>, key: nat, version: nat)
    ensures var next := Seek(rows, key, version);
            next < |rows| ==> forall i :: 0 <= i < next && rows[i].key == rows[next].key ==> rows[i].version > version
  {
    var next := Seek(rows, key, version);
    forall i | 0 <= i < next && next < |rows| && rows[i].key == rows[next].key ensures rows[i].version > version {
      assert !AtOrAfter(rows[i], key, version);
    }
  }

  lemma LaterKey(rows: seq<Row>, key: nat, next: nat, i: nat)
    requires SortedRows(rows) && next == Seek(rows, key, 0) && next <= i < |rows|
    ensures rows[i].key >= key && (rows[i].key == key ==> i == next)
  {
    assert AtOrAfter(rows[next], key, 0);
    assert i > next ==> Ordered(rows, next, i);
  }

  lemma AllLater(rows: seq<Row>, key: nat, next: nat)
    requires SortedRows(rows) && next == Seek(rows, key, 0)
    ensures forall i :: Resume(rows, Cursor(next, Some(key))) <= i < |rows| ==> rows[i].key > key
  {
    forall i | Resume(rows, Cursor(next, Some(key))) <= i < |rows| ensures rows[i].key > key {
      LaterKey(rows, key, next, i);
    }
  }

  /** Once a key has been dealt with, the cursor stands before the next key. */
  lemma NextKey(rows: seq<Row>, q: Query, pos: nat)
    requires SortedRows(rows) && pos < |rows| && Current(rows, q, pos) && q.low <= rows[pos].key
    ensures var c' := Cursor(Seek(rows, rows[pos].key, 0), Some(rows[pos].key));
            Placed(rows, q, c') && Rest(rows, q, c') == Listing(rows, q, pos + 1)
  {
    var key := rows[pos].key;
    var next := Seek(rows, key, 0);
    var resume := Resume(rows, Cursor(next, Some(key)));
    SeekFrom(rows, pos, 0);
    PassedTooNew(rows, key, 0);
    AllLater(rows, key, next);
    forall k | pos < k < resume && k < |rows| ensures !Visible(rows, q, k) {
      assert rows[k].key == key by { assert Ordered(rows, pos, k); }
      if Visible(rows, q, k) { CurrentOnce(rows, q, pos, k); }
    }
    SkipInvisible(rows, q, pos + 1, resume);
    forall i | 0 <= i < next && next < |rows| && key != rows[next].key ensures rows[i].key != rows[next].key {
      assert !AtOrAfter(rows[i], key, 0);
    }
  }

  /** The row under the cursor is current; after it, the rest of its key is skipped. */
  lemma TakeCurrent(rows: seq<Row>, q: Query, c: Cursor)
    requires Placed(rows, q, c) && c.pos < |rows| && c.prevKey != Some(rows[c.pos].key)
    requires q.low <= rows[c.pos].key < q.high && rows[c.pos].version <= q.version
    ensures var row, c' := rows[c.pos], Cursor(Seek(rows, rows[c.pos].key, 0), Some(rows[c.pos].key));
            && c.pos <= c'.pos && Placed(rows, q, c')
            && Rest(rows, q, c) == (if row.value.Some? then [Entry(row.key, row.value.value)] else [])
               + Rest(rows, q, c')
  {
    FirstIsCurrent(rows, q, c.pos);
    SeekFrom(rows, c.pos, 0);
    NextKey(rows, q, c.pos);
  }

  datatype Move = End | Skip(c: Cursor) | Yield(entry: Entry, c: Cursor)

  /** One round of the loop. */
  function MoveFrom(rows: seq<Row>, q: Query, c: Cursor): Move
    requires c.pos < |rows|
  {
    var row := rows[c.pos];
    if c.prevKey == Some(row.key) then Skip(c.(pos := c.pos + 1))
    else if !(q.low <= row.key < q.high) then End
    else if row.version > q.version then Skip(c.(pos := Seek(rows, row.key, q.version)))
    else
      var c' := Cursor(Seek(rows, row.key, 0), Some(row.key));
      if row.value.Some? then Yield(Entry(row.key, row.value.value), c') else Skip(c')
  }

  /** The termination measure of the loop. */
  function Left(rows: seq<Row>, c: Cursor): nat {
    if c.pos >= |rows| then 0
    else 2 * (|rows| - c.pos) + if c.prevKey == Some(rows[c.pos].key) then 0 else 1
  }

  lemma MoveIsRight(rows: seq<Row>, q: Query, c: Cursor)
    requires Placed(rows, q, c) && c.pos < |rows|
    ensures match MoveFrom(rows, q, c)
            case End => Rest(rows, q, c) == []
            case Skip(c') => Placed(rows, q, c') && Rest(rows, q, c') == Rest(rows, q, c) &&
              Left(rows, c') < Left(rows, c)
            case Yield(e, c') => Placed(rows, q, c') && Rest(rows, q, c) == [e] + Rest(rows, q, c')
  {
    var row := rows[c.pos];
    if c.prevKey == Some(row.key) {
      SkipPrevious(rows, q, c);
    } else if !(q.low <= row.key < q.high) {
      OutsideIsEnd(rows, q, c);
    } else if row.version > q.version {
      SkipTooNew(rows, q, c);
    } else {
      TakeCurrent(rows, q, c);
      var c' := Cursor(Seek(rows, row.key, 0), Some(row.key));
      assert [] + Rest(rows, q, c') == Rest(rows, q, c');
    }
  }

  // ---------------------------------------------------------------- the iterator

  class PrefixedStateValueIterator {
    const rows: seq<Row>
    const q: Query
    var pos: nat
    var prevKey: Option<nat>
    var isFinished: bool

    constructor (rows: seq<Row>, q: Query, firstKey: Option<nat>)
      requires SortedRows(rows)
      ensures this.rows == rows && this.q == q && Valid()
      ensures ToCome() == From(rows, q, firstKey)
    {
      this.rows, this.q := rows, q;
      pos := Seek(rows, if firstKey.Some? then firstKey.value else q.low, MAX_VERSION);
      prevKey, isFinished := None, false;
      new;
      if firstKey.None? {
        forall k | 0 <= k < pos && k < |rows| ensures !Visible(rows, q, k) {
          assert !AtOrAfter(rows[k], q.low, MAX_VERSION);
        }
        SkipInvisible(rows, q, 0, pos);
      }
    }

    ghost predicate Valid()
      reads this
    {
      Placed(rows, q, Cursor(pos, prevKey))
    }

    ghost function ToCome(): seq<Entry>
      reads this
    {
      if isFinished then [] else Rest(rows, q, Cursor(pos, prevKey))
    }

    /** One row is looked at. */
    method LookAtRow() returns (m: Move)
      requires pos < |rows|
      modifies this
      ensures m == MoveFrom(rows, q, old(Cursor(pos, prevKey)))
      ensures m.End? ==> isFinished
      ensures !m.End? ==> Cursor(pos, prevKey) == m.c && isFinished == old(isFinished)
    {
      var row := rows[pos];
      if prevKey == Some(row.key) {
        pos := pos + 1;
        return Skip(Cursor(pos, prevKey));
      }
      if !(q.low <= row.key < q.high) {
        isFinished := true;
        return End;
      }
      if row.version > q.version {
        pos := Seek(rows, row.key, q.version);
        return Skip(Cursor(pos, prevKey));
      }
      prevKey := Some(row.key);
      pos := Seek(rows, row.key, 0);
      return if row.value.Some? then Yield(Entry(row.key, row.value.value), Cursor(pos, prevKey))
        else Skip(Cursor(pos, prevKey));
    }

    /** The next entry, and nothing if and only if there is none left. */
    method Next() returns (r: Option<Entry>)
      requires Valid()
      modifies this
      ensures r.Some? ==> Valid() && old(ToCome()) == [r.value] + ToCome()
      ensures r.None? ==> old(ToCome()) == [] && ToCome() == []
    {
      if isFinished { return None; }
      while pos < |rows|
        invariant Valid() && !isFinished && ToCome() == old(ToCome())
        decreases Left(rows, Cursor(pos, prevKey))
      {
        MoveIsRight(rows, q, Cursor(pos, prevKey));
        var m := LookAtRow();
        match m
        case End => return None;
        case Yield(entry, _) => return Some(entry);
        case Skip(_) =>
      }
      return None;
    }
  }

  /** The account from a key on; all of it without a key, and nothing if the first row found
      belongs to another account. */
  function From(rows: seq<Row>, q: Query, firstKey: Option<nat>): seq<Entry> {
    if firstKey.None? then Listing(rows, q, 0)
    else
      var i := Seek(rows, firstKey.value, MAX_VERSION);
      if i < |rows| && rows[i].key < q.low then [] else Listing(rows, q, i)
  }
}
