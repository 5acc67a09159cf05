/** Transactions as the worker threads see them: programs that read single keys through a
    cache laid over a base view, and end by inserting one write set into the cache. */
module TransactionPrograms {
  import opened Options

  type Key = nat
  /** The bytes stored under a key; a deletion stores none. */
  type Bytes = Option<nat>
  type Cache = map<Key, Bytes>
  type BaseView = Key -> Bytes
  type Output = nat

  datatype Action = Read(key: Key) | Finish(writes: Cache, output: Output) | Abort

  /** What to do next, given the values read so far. */
  type Program = seq<Bytes> -> Action

  /** The latest value of a key: the cached write if there is one, else the base view. */
  function Lookup(base: BaseView, cache: Cache, key: Key): Bytes {
    if key in cache then cache[key] else base(key)
  }

  /** `seen` is what the program reads, one value after the other, if the cache stands still. */
  ghost predicate ReadsFrom(program: Program, base: BaseView, cache: Cache, seen: seq<Bytes>) {
    forall i :: 0 <= i < |seen| ==>
      program(seen[..i]).Read? && seen[i] == Lookup(base, cache, program(seen[..i]).key)
  }

  /** Running alone, the program reads `seen` and finishes with `writes` and `output`. */
  ghost predicate Executes(program: Program, base: BaseView, cache: Cache,
                           seen: seq<Bytes>, writes: Cache, output: Output)
  {
    ReadsFrom(program, base, cache, seen) && program(seen) == Finish(writes, output)
  }

  lemma {:induction false} ReadsAgree(
    program: Program, base: BaseView, cache: Cache, a: seq<Bytes>, b: seq<Bytes>, n: nat)
    requires ReadsFrom(program, base, cache, a) && ReadsFrom(program, base, cache, b)
    requires n <= |a| && n <= |b|
    ensures a[..n] == b[..n]
  {
    if n > 0 {
      ReadsAgree(program, base, cache, a, b, n - 1);
      assert a[..n] == a[..n - 1] + [a[n - 1]];
      assert b[..n] == b[..n - 1] + [b[n - 1]];
    }
  }

  lemma NoReadsAfterFinish(program: Program, base: BaseView, cache: Cache, r: seq<Bytes>, r': seq<Bytes>)
    requires ReadsFrom(program, base, cache, r) && program(r).Finish? && ReadsFrom(program, base, cache, r')
    ensures |r'| <= |r|
  {
    assert r[..|r|] == r;
    if |r'| > |r| {
      ReadsAgree(program, base, cache, r, r', |r|);
    }
  }

  /** A program has at most one outcome on a given cache. */
  lemma ExecutesDeterministic(
    program: Program, base: BaseView, cache: Cache,
    r: seq<Bytes>, w: Cache, o: Output, r': seq<Bytes>, w': Cache, o': Output)
    requires Executes(program, base, cache, r, w, o) && Executes(program, base, cache, r', w', o')
    ensures r == r' && w == w' && o == o'
  {
    NoReadsAfterFinish(program, base, cache, r, r');
    NoReadsAfterFinish(program, base, cache, r', r);
    ReadsAgree(program, base, cache, r, r', |r|);
    assert r[..|r|] == r && r'[..|r'|] == r';
  }

  datatype Result = Result(writes: Cache, output: Output)

  /** What the program does when nothing interferes, if it finishes at all. */
  ghost function Alone(program: Program, base: BaseView, cache: Cache): Option<Result> {
    if exists seen, w, o :: Executes(program, base, cache, seen, w, o)
    then var seen, w, o :| Executes(program, base, cache, seen, w, o); Some(Result(w, o))
    else None
  }

  lemma AloneIs(program: Program, base: BaseView, cache: Cache, seen: seq<Bytes>, w: Cache, o: Output)
    requires Executes(program, base, cache, seen, w, o)
    ensures Alone(program, base, cache) == Some(Result(w, o))
  {
    var seen', w', o' :| Executes(program, base, cache, seen', w', o')
                          && Alone(program, base, cache) == Some(Result(w', o'));
    ExecutesDeterministic(program, base, cache, seen, w, o, seen', w', o');
  }

  /** All keys the program can ever read or write are in `keys`. */
  ghost predicate Footprint(program: Program, keys: iset<Key>) {
    forall h: seq<Bytes> ::
      match program(h)
      case Read(key) => key in keys
      case Finish(writes, _) => forall k :: k in writes ==> k in keys
      case Abort => true
  }

  /** Writes elsewhere do not disturb what a program reads. */
  lemma ReadsSurvive(program: Program, base: BaseView, cache: Cache, seen: seq<Bytes>, writes: Cache, keys: iset<Key>)
    requires Footprint(program, keys)
    requires forall k :: k in writes ==> k !in keys
    ensures ReadsFrom(program, base, cache, seen) <==> ReadsFrom(program, base, cache + writes, seen)
  {
  }

  /** Nor what it does. */
  lemma AloneSurvives(program: Program, base: BaseView, cache: Cache, writes: Cache, keys: iset<Key>)
    requires Footprint(program, keys)
    requires forall k :: k in writes ==> k !in keys
    ensures Alone(program, base, cache + writes) == Alone(program, base, cache)
  {
    if seen, w, o :| Executes(program, base, cache, seen, w, o) {
      ReadsSurvive(program, base, cache, seen, writes, keys);
      AloneIs(program, base, cache, seen, w, o);
      AloneIs(program, base, cache + writes, seen, w, o);
    } else if seen, w, o :| Executes(program, base, cache + writes, seen, w, o) {
      ReadsSurvive(program, base, cache, seen, writes, keys);
      assert Executes(program, base, cache, seen, w, o);
    }
  }

  lemma AloneWrites(program: Program, base: BaseView, cache: Cache, keys: iset<Key>)
    requires Footprint(program, keys) && Alone(program, base, cache).Some?
    ensures forall k :: k in Alone(program, base, cache).value.writes ==> k in keys
  {
    var seen, w, o :| Executes(program, base, cache, seen, w, o)
                       && Alone(program, base, cache) == Some(Result(w, o));
    assert program(seen) == Finish(w, o);
  }
}
