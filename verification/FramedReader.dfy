/** The file of benchmark transactions: frames of a two-byte little-endian length, a body and a
    type byte, and the reader that also collects the nonces already used. */
module FramedReader {
  import opened Options
  import opened Dispatcher
  import DispatcherRuns

  type Byte = n: nat | n < 256

  /** The length in the file counts the body and the type byte. */
  datatype Frame = Frame(body: seq<Byte>, kind: Byte)

  predicate KnownKind(kind: Byte) { kind == 1 || kind == 3 || kind == 5 || kind == 7 }

  predicate WellFormed(f: Frame) { |f.body| + 1 < 65536 && KnownKind(f.kind) }

  function LowByte(n: nat): Byte { n % 256 }

  function HighByte(n: nat): Byte
    requires n < 65536
  {
    n / 256
  }

  function Length(low: nat, high: nat): nat { low + 256 * high }

  function Encode(f: Frame): seq<Byte>
    requires WellFormed(f)
  {
    [LowByte(|f.body| + 1), HighByte(|f.body| + 1)] + f.body + [f.kind]
  }

  function EncodeAll(frames: seq<Frame>): seq<Byte>
    requires forall f :: f in frames ==> WellFormed(f)
  {
    if frames == [] then [] else Encode(frames[0]) + EncodeAll(frames[1..])
  }

  // ---------------------------------------------------------------- reading

  /** The frame at a position; nothing where the reader panics: not enough bytes, a length of
      zero, or an unknown type. */
  function Cut(bytes: seq<Byte>, pos: nat): Option<Frame> {
    if pos + 1 >= |bytes| then None
    else
      var length := Length(bytes[pos], bytes[pos + 1]);
      if length == 0 || pos + 2 + length > |bytes| || !KnownKind(bytes[pos + 1 + length]) then None
      else Some(Frame(bytes[pos + 2..pos + 1 + length], bytes[pos + 1 + length]))
  }

  function Next(pos: nat, f: Frame): nat { pos + 3 + |f.body| }

  lemma LengthBytes(low: Byte, high: Byte)
    ensures Length(low, high) < 65536 && LowByte(Length(low, high)) == low && HighByte(Length(low, high)) == high
  {
  }

  lemma BytesLength(n: nat)
    requires n < 65536
    ensures Length(LowByte(n), HighByte(n)) == n
  {
  }

  lemma Window(bytes: seq<Byte>, pos: nat, length: nat)
    requires length > 0 && pos + 2 + length <= |bytes|
    ensures bytes[pos..pos + 2 + length]
         == [bytes[pos], bytes[pos + 1]] + bytes[pos + 2..pos + 1 + length] + [bytes[pos + 1 + length]]
  {
  }

  lemma CutFits(bytes: seq<Byte>, pos: nat)
    requires Cut(bytes, pos).Some?
    ensures var f := Cut(bytes, pos).value;
            WellFormed(f) && Next(pos, f) <= |bytes| && bytes[pos..Next(pos, f)] == Encode(f)
  {
    LengthBytes(bytes[pos], bytes[pos + 1]);
    Window(bytes, pos, Length(bytes[pos], bytes[pos + 1]));
  }

  /** The length comes first, its low byte before its high byte, and counts the body and the type byte,
      which comes last; four types are known. */
  lemma FrameLayout(bytes: seq<Byte>, pos: nat)
    ensures Cut(bytes, pos).Some? ==>
              var f := Cut(bytes, pos).value;
              && pos + 3 + |f.body| <= |bytes|
              && bytes[pos] as int + 256 * bytes[pos + 1] as int == |f.body| + 1
              && bytes[pos + 2..pos + 2 + |f.body|] == f.body && bytes[pos + 2 + |f.body|] == f.kind
              && f.kind in {1, 3, 5, 7}
    ensures Cut(bytes, pos).None? <==>
            || pos + 2 > |bytes|
            || var length := bytes[pos] as int + 256 * bytes[pos + 1] as int;
               length == 0 || pos + 2 + length > |bytes| || bytes[pos + 1 + length] !in {1, 3, 5, 7}
  {
  }

  function ReadAll(bytes: seq<Byte>, pos: nat): Option<seq<Frame>>
    decreases |bytes| - pos
  {
    if pos >= |bytes| then Some([])
    else match Cut(bytes, pos)
      case None => None
      case Some(f) =>
        match ReadAll(bytes, Next(pos, f))
        case None => None
        case Some(rest) => Some([f] + rest)
  }

  lemma EncodedParts(f: Frame)
    requires WellFormed(f)
    ensures var e, length := Encode(f), |f.body| + 1;
            && |e| == length + 2 && e[0] == LowByte(length) && e[1] == HighByte(length)
            && e[2..length + 1] == f.body && e[length + 1] == f.kind
  {
  }

  lemma CutEncoded(f: Frame, bytes: seq<Byte>, pos: nat)
    requires WellFormed(f) && pos + |Encode(f)| <= |bytes| && bytes[pos..pos + |Encode(f)|] == Encode(f)
    ensures Cut(bytes, pos) == Some(f) && Next(pos, f) == pos + |Encode(f)|
  {
    var e, length := Encode(f), |f.body| + 1;
    EncodedParts(f);
    BytesLength(length);
    Slices(bytes, pos, e);
    assert e[2..length + 1] == bytes[pos + 2..pos + 1 + length];
  }

  lemma Slices(bytes: seq<Byte>, pos: nat, e: seq<Byte>)
    requires pos + |e| <= |bytes| && bytes[pos..pos + |e|] == e
    ensures forall k :: 0 <= k < |e| ==> e[k] == bytes[pos + k]
  {
    forall k | 0 <= k < |e| ensures e[k] == bytes[pos + k] {
      assert bytes[pos..pos + |e|][k] == bytes[pos + k];
    }
  }

  lemma Split(bytes: seq<Byte>, pos: nat, head: seq<Byte>, tail: seq<Byte>)
    requires pos <= |bytes| && bytes[pos..] == head + tail
    ensures pos + |head| <= |bytes| && bytes[pos..pos + |head|] == head && bytes[pos + |head|..] == tail
  {
    assert bytes[pos..pos + |head|] == bytes[pos..][..|head|];
    assert bytes[pos + |head|..] == bytes[pos..][|head|..];
  }

  /** Reading a file of well-formed frames ends exactly at its end and recovers them in order. */
  lemma {:induction false} ReadEncoded(frames: seq<Frame>, bytes: seq<Byte>, pos: nat)
    requires forall f :: f in frames ==> WellFormed(f)
    requires pos <= |bytes| && bytes[pos..] == EncodeAll(frames)
    ensures ReadAll(bytes, pos) == Some(frames)
    decreases frames
  {
    if frames != [] {
      var f, rest := frames[0], frames[1..];
      var e, tail := Encode(f), EncodeAll(rest);
      Split(bytes, pos, e, tail);
      CutEncoded(f, bytes, pos);
      ReadEncoded(rest, bytes, pos + |e|);
      assert frames == [f] + rest;
    }
  }

  /** Any file that can be read is the encoding of what was read. */
  lemma {:induction false} ReadIsEncoded(bytes: seq<Byte>, pos: nat)
    requires ReadAll(bytes, pos).Some? && pos <= |bytes|
    ensures forall f :: f in ReadAll(bytes, pos).value ==> WellFormed(f)
    ensures EncodeAll(ReadAll(bytes, pos).value) == bytes[pos..]
    decreases |bytes| - pos
  {
    if pos < |bytes| {
      var f := Cut(bytes, pos).value;
      CutFits(bytes, pos);
      ReadIsEncoded(bytes, Next(pos, f));
      var rest := ReadAll(bytes, Next(pos, f)).value;
      assert ([f] + rest)[1..] == rest;
      assert bytes[pos..] == bytes[pos..Next(pos, f)] + bytes[Next(pos, f)..];
    }
  }

  // ---------------------------------------------------------------- nonces

  /** What decoding a body yields; the encodings themselves are not modelled. */
  datatype Decoded = Decoded(sender: nat, sequence: U64)

  type Decoder = Frame -> Decoded

  predicate SameSpace(f: Frame, g: Frame) { (f.kind == 1 || f.kind == 3) == (g.kind == 1 || g.kind == 3) }

  /** No transaction of its virtual machine has had sequence number zero up to frame `i`: the
      accounts of these transactions were in use before the file starts. */
  predicate IsSetup(frames: seq<Frame>, decode: Decoder, i: nat)
    requires i < |frames|
  {
    forall j :: 0 <= j <= i && SameSpace(frames[j], frames[i]) ==> decode(frames[j]).sequence != 0
  }

  /** `i` is the first such transaction of its sender. */
  predicate FirstSetup(frames: seq<Frame>, decode: Decoder, i: nat)
    requires i < |frames|
  {
    && IsSetup(frames, decode, i)
    && forall j :: 0 <= j < i && decode(frames[j]).sender == decode(frames[i]).sender ==> !IsSetup(frames, decode, j)
  }

  /** A sender is recorded if and only if it has such a transaction, with the predecessor of the
      sequence number of the first one. */
  ghost predicate NoncesOf(frames: seq<Frame>, decode: Decoder, nonces: map<nat, U64>) {
    && (forall i :: 0 <= i < |frames| && FirstSetup(frames, decode, i) ==>
          decode(frames[i]).sender in nonces && nonces[decode(frames[i]).sender] == decode(frames[i]).sequence - 1)
    && (forall s :: s in nonces ==>
          exists i: nat :: i < |frames| && FirstSetup(frames, decode, i) && decode(frames[i]).sender == s)
  }

  /** Handed to the dispatcher, the map makes it expect each of these accounts to go on with the
      sequence number of its first transaction, and every other account to start from zero. */
  lemma DispatcherExpects(frames: seq<Frame>, decode: Decoder, nonces: map<nat, U64>, i: nat, sender: nat)
    requires NoncesOf(frames, decode, nonces)
    ensures i < |frames| && FirstSetup(frames, decode, i) ==>
              DispatcherRuns.NextNonce(nonces, decode(frames[i]).sender) == decode(frames[i]).sequence
    ensures (forall j: nat :: j < |frames| && FirstSetup(frames, decode, j) ==> decode(frames[j]).sender != sender) ==>
              DispatcherRuns.NextNonce(nonces, sender) == 0
  {
  }

  predicate ZeroSeen(frames: seq<Frame>, decode: Decoder, f: Frame) {
    exists j :: 0 <= j < |frames| && SameSpace(frames[j], f) && decode(frames[j]).sequence == 0
  }

  lemma SetupBefore(frames: seq<Frame>, f: Frame, decode: Decoder, i: nat)
    requires i < |frames|
    ensures IsSetup(frames + [f], decode, i) <==> IsSetup(frames, decode, i)
    ensures FirstSetup(frames + [f], decode, i) <==> FirstSetup(frames, decode, i)
  {
    var g := frames + [f];
    assert forall j :: 0 <= j < |frames| ==> g[j] == frames[j];
    assert forall j: nat :: j <= i ==> (IsSetup(g, decode, j) <==> IsSetup(frames, decode, j));
  }

  lemma SetupLast(frames: seq<Frame>, f: Frame, decode: Decoder)
    ensures IsSetup(frames + [f], decode, |frames|) <==> decode(f).sequence != 0 && !ZeroSeen(frames, decode, f)
  {
    var g := frames + [f];
    assert forall j :: 0 <= j < |frames| ==> g[j] == frames[j];
    assert g[|frames|] == f;
    if ZeroSeen(frames, decode, f) {
      var j :| 0 <= j < |frames| && SameSpace(frames[j], f) && decode(frames[j]).sequence == 0;
      assert SameSpace(g[j], g[|frames|]);
    }
  }

  /** A sender with a set-up transaction has a first one. */
  lemma FirstExists(frames: seq<Frame>, decode: Decoder, j: nat) returns (i: nat)
    requires j < |frames| && IsSetup(frames, decode, j)
    ensures i <= j && FirstSetup(frames, decode, i) && decode(frames[i]).sender == decode(frames[j]).sender
  {
    i := j;
    if k :| 0 <= k < j && decode(frames[k]).sender == decode(frames[j]).sender && IsSetup(frames, decode, k) {
      i := FirstExists(frames, decode, k);
    }
  }

  /** The map after one more transaction. */
  function Noted(nonces: map<nat, U64>, d: Decoded, zeroSeen: bool): map<nat, U64> {
    if d.sequence == 0 || zeroSeen || d.sender in nonces then nonces else nonces[d.sender := d.sequence - 1]
  }

  /** The last transaction is its sender's first set-up one if the sender is new. */
  lemma LastIsFirst(frames: seq<Frame>, f: Frame, decode: Decoder, nonces: map<nat, U64>)
    requires NoncesOf(frames, decode, nonces)
    ensures FirstSetup(frames + [f], decode, |frames|) <==>
            decode(f).sequence != 0 && !ZeroSeen(frames, decode, f) && decode(f).sender !in nonces
  {
    var g, s := frames + [f], decode(f).sender;
    SetupLast(frames, f, decode);
    assert g[|frames|] == f;
    if s in nonces {
      var i: nat :| i < |frames| && FirstSetup(frames, decode, i) && decode(frames[i]).sender == s;
      SetupBefore(frames, f, decode, i);
      assert g[i] == frames[i];
    }
    if j :| 0 <= j < |frames| && decode(g[j]).sender == s && IsSetup(g, decode, j) {
      assert g[j] == frames[j];
      SetupBefore(frames, f, decode, j);
      var i := FirstExists(frames, decode, j);
    }
  }

  lemma NotedIsRight(frames: seq<Frame>, f: Frame, decode: Decoder, nonces: map<nat, U64>)
    requires NoncesOf(frames, decode, nonces)
    ensures NoncesOf(frames + [f], decode, Noted(nonces, decode(f), ZeroSeen(frames, decode, f)))
  {
    var g, nonces' := frames + [f], Noted(nonces, decode(f), ZeroSeen(frames, decode, f));
    LastIsFirst(frames, f, decode, nonces);
    forall i | 0 <= i < |g| && FirstSetup(g, decode, i)
      ensures decode(g[i]).sender in nonces' && nonces'[decode(g[i]).sender] == decode(g[i]).sequence - 1
    {
      if i < |frames| {
        assert g[i] == frames[i];
        SetupBefore(frames, f, decode, i);
      }
    }
    forall s | s in nonces' ensures exists i: nat :: i < |g| && FirstSetup(g, decode, i) && decode(g[i]).sender == s {
      if s in nonces {
        var i: nat :| i < |frames| && FirstSetup(frames, decode, i) && decode(frames[i]).sender == s;
        SetupBefore(frames, f, decode, i);
        assert g[i] == frames[i];
      } else {
        assert g[|frames|] == f && FirstSetup(g, decode, |frames|);
      }
    }
  }

  /** What the reader keeps: the nonces, and whether a machine has started from zero. */
  datatype Notes = Notes(nonces: map<nat, U64>, noSetupAptos: bool, noSetupEthereum: bool)

  ghost predicate Consistent(frames: seq<Frame>, decode: Decoder, n: Notes) {
    && NoncesOf(frames, decode, n.nonces)
    && n.noSetupAptos == ZeroSeen(frames, decode, Frame([], 1))
    && n.noSetupEthereum == ZeroSeen(frames, decode, Frame([], 5))
  }

  function NotesWith(n: Notes, kind: Byte, d: Decoded): Notes {
    if kind == 1 || kind == 3 then
      if d.sequence == 0 then n.(noSetupAptos := true) else n.(nonces := Noted(n.nonces, d, n.noSetupAptos))
    else
      if d.sequence == 0 then n.(noSetupEthereum := true) else n.(nonces := Noted(n.nonces, d, n.noSetupEthereum))
  }

  lemma NotesAreRight(frames: seq<Frame>, f: Frame, decode: Decoder, n: Notes)
    requires Consistent(frames, decode, n)
    ensures Consistent(frames + [f], decode, NotesWith(n, f.kind, decode(f)))
  {
    NotedIsRight(frames, f, decode, n.nonces);
    ZeroStep(frames, f, decode, Frame([], 1));
    ZeroStep(frames, f, decode, Frame([], 5));
    SpaceOf(frames, f, decode);
  }

  // ---------------------------------------------------------------- the reader

  class TransactionReader {
    const bytes: seq<Byte>
    const decode: Decoder
    var bytesRead: nat
    var nonces: map<nat, U64>
    var noSetupEthereum: bool
    var noSetupAptos: bool
    ghost var frames: seq<Frame>

    constructor (bytes: seq<Byte>, decode: Decoder)
      ensures this.bytes == bytes && this.decode == decode && Valid() && bytesRead == 0 && frames == []
    {
      this.bytes, this.decode := bytes, decode;
      bytesRead, nonces, noSetupEthereum, noSetupAptos, frames := 0, map[], false, false, [];
    }

    /** `frames` is what has been read, and the map and the flags are those of `frames`. */
    ghost predicate Valid()
      reads this
    {
      bytesRead <= |bytes| && Consistent(frames, decode, Notes(nonces, noSetupAptos, noSetupEthereum))
    }

    /** Keeps the map and the flags up to date with one more transaction. */
    method Note(frame: Frame)
      requires Valid()
      modifies this`nonces, this`noSetupAptos, this`noSetupEthereum, this`frames
      ensures Valid() && frames == old(frames) + [frame]
    {
      NotesAreRight(frames, frame, decode, Notes(nonces, noSetupAptos, noSetupEthereum));
      if frame.kind == 1 || frame.kind == 3 {
        noSetupAptos := NoteIn(noSetupAptos, decode(frame));
      } else {
        noSetupEthereum := NoteIn(noSetupEthereum, decode(frame));
      }
      frames := frames + [frame];
    }

    method NoteIn(zeroSeen: bool, d: Decoded) returns (zero: bool)
      modifies this`nonces
      ensures zero == (zeroSeen || d.sequence == 0) && nonces == Noted(old(nonces), d, zeroSeen)
    {
      if d.sequence == 0 { return true; }
      if !zeroSeen && d.sender !in nonces {
        nonces := nonces[d.sender := d.sequence - 1];
      }
      return zeroSeen;
    }

    /** The next transaction, or nothing if the reader panics. */
    method ReadTx() returns (f: Option<Frame>)
      requires Valid() && bytesRead < |bytes|
      modifies this
      ensures f == Cut(bytes, old(bytesRead))
      ensures f.Some? ==> Valid() && bytesRead == Next(old(bytesRead), f.value) && frames == old(frames) + [f.value]
    {
      if bytesRead + 1 >= |bytes| { return None; }
      var length := Length(bytes[bytesRead], bytes[bytesRead + 1]);
      if length == 0 || bytesRead + 2 + length > |bytes| { return None; }
      var body := bytes[bytesRead + 2..bytesRead + 1 + length];
      var kind := bytes[bytesRead + 1 + length];
      if !KnownKind(kind) { return None; }
      var frame := Frame(body, kind);
      CutFits(bytes, bytesRead);
      Note(frame);
      bytesRead := bytesRead + 2 + length;
      return Some(frame);
    }

    /** The variant that looks at neither nonces nor flags cuts the same frame. */
    method ReadTxOnly() returns (f: Option<Frame>)
      requires bytesRead < |bytes|
      modifies this`bytesRead
      ensures f == Cut(bytes, old(bytesRead))
      ensures f.Some? ==> bytesRead == Next(old(bytesRead), f.value) <= |bytes|
    {
      if bytesRead + 1 >= |bytes| { return None; }
      var length := Length(bytes[bytesRead], bytes[bytesRead + 1]);
      bytesRead := bytesRead + 2;
      if length == 0 || bytesRead + length > |bytes| { return None; }
      var body := bytes[bytesRead..bytesRead + (length - 1)];
      bytesRead := bytesRead + (length - 1);
      var kind := bytes[bytesRead];
      bytesRead := bytesRead + 1;
      return if KnownKind(kind) then Some(Frame(body, kind)) else None;
    }

    /** The whole file, or nothing if the reader panics somewhere. */
    method ReadFile() returns (r: Option<seq<Frame>>)
      requires Valid() && bytesRead == 0 && frames == []
      modifies this
      ensures r == ReadAll(bytes, 0)
      ensures r.Some? ==> bytesRead == |bytes| && NoncesOf(r.value, decode, nonces)
    {
      var read := [];
      ReadNone(ReadAll(bytes, 0));
      while bytesRead < |bytes|
        invariant Valid() && read == frames
        invariant Ahead(read, ReadAll(bytes, bytesRead)) == ReadAll(bytes, 0)
        decreases |bytes| - bytesRead
      {
        ReadOne(read, bytes, bytesRead);
        var f := ReadTx();
        if f.None? { return None; }
        read := read + [f.value];
      }
      assert read + [] == read;
      return Some(read);
    }
  }

  function Ahead(read: seq<Frame>, rest: Option<seq<Frame>>): Option<seq<Frame>> {
    if rest.None? then None else Some(read + rest.value)
  }

  lemma ReadNone(rest: Option<seq<Frame>>)
    ensures Ahead([], rest) == rest
  {
    assert rest.Some? ==> [] + rest.value == rest.value;
  }

  lemma ReadOne(read: seq<Frame>, bytes: seq<Byte>, pos: nat)
    requires pos < |bytes|
    ensures Ahead(read, ReadAll(bytes, pos)) ==
            if Cut(bytes, pos).None? then None
            else Ahead(read + [Cut(bytes, pos).value], ReadAll(bytes, Next(pos, Cut(bytes, pos).value)))
  {
    if Cut(bytes, pos).Some? {
      var f := Cut(bytes, pos).value;
      var rest := ReadAll(bytes, Next(pos, f));
      if rest.Some? {
        assert read + ([f] + rest.value) == (read + [f]) + rest.value;
      }
    }
  }

  lemma SpaceOf(frames: seq<Frame>, f: Frame, decode: Decoder)
    ensures ZeroSeen(frames, decode, f)
            == ZeroSeen(frames, decode, Frame([], if f.kind == 1 || f.kind == 3 then 1 else 5))
  {
  }

  lemma ZeroStep(frames: seq<Frame>, f: Frame, decode: Decoder, g: Frame)
    ensures ZeroSeen(frames + [f], decode, g) <==>
            ZeroSeen(frames, decode, g) || (SameSpace(f, g) && decode(f).sequence == 0)
  {
    assert (frames + [f])[|frames|] == f;
    if ZeroSeen(frames, decode, g) {
      var j :| 0 <= j < |frames| && SameSpace(frames[j], g) && decode(frames[j]).sequence == 0;
      assert (frames + [f])[j] == frames[j];
    }
  }
}
