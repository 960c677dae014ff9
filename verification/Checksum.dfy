/** The streaming checksum of `src/checksum.rs`: extended piece by piece, finalized once. */
module Checksum {
  import opened Basics
  import opened Words
  import CyclicCode
  import BlockHash
  import Crc32c
  import Murmur32

  /** The digest a context computes, with its parameters. */
  datatype ChecksumType = Invalid | Crc(poly: Word) | Murmur(stages: BlockHash.Stages)

  const CRC32 := Crc(Crc32c.POLY)
  const MURMUR32 := Murmur(Murmur32.MURMUR)

  datatype Error = AlreadyFinished | InvalidType

  datatype Outcome = Accepted | Refused(error: Error)

  datatype Context = Context(kind: ChecksumType, finished: bool, value: Word, length: nat,
                             bodyBytes: nat, tail: seq<Byte>, chunks: nat)

  datatype ChecksumResult = ChecksumResult(kind: ChecksumType, value: Word, bytes: nat, chunks: nat)

  /** `finalize` panics on a tail of a block or more; every reachable context is short. */
  predicate Short(c: Context) {
    |c.tail| < 4
  }

  function New(kind: ChecksumType): Context {
    Context(kind, false, ZERO, 0, 0, [], 0)
  }

  /** The two guards of `extend`, in its order. */
  function Admission(c: Context): Outcome {
    if c.finished then Refused(AlreadyFinished)
    else if c.kind == Invalid then Refused(InvalidType)
    else Accepted
  }

  /** The value-carrying half of `extend`, past its guards. */
  function Absorbed(c: Context, data: seq<Byte>): Context {
    var combined := c.tail + data;
    var b := BlockHash.BodyLen(|combined|);
    var d := match c.kind
             case Invalid => c
             case Crc(p) => c.(value := CyclicCode.Extended(p, c.value, data))
             case Murmur(s) =>
               c.(value := BlockHash.Body(s, c.value, combined[..b]),
                  bodyBytes := SaturatingAdd(c.bodyBytes, b),
                  tail := combined[b..]);
    d.(length := SaturatingAdd(c.length, |data|), chunks := SaturatingAdd(c.chunks, 1))
  }

  function Extended(c: Context, data: seq<Byte>): Context {
    if Admission(c) != Accepted || data == [] then c else Absorbed(c, data)
  }

  function Finalized(c: Context): Context
    requires Short(c)
  {
    if !c.finished && c.kind.Murmur?
    then c.(value := BlockHash.Finalize(c.kind.stages, c.value, c.tail, SaturatingAdd(c.bodyBytes, |c.tail|)),
            tail := [], finished := true)
    else c.(finished := true)
  }

  function ResultOf(c: Context): ChecksumResult {
    ChecksumResult(c.kind, c.value, c.length, c.chunks)
  }

  /** The one-shot functions, by type. */
  function Digest(kind: ChecksumType, data: seq<Byte>): Word {
    match kind
    case Invalid => ZERO
    case Crc(p) => CyclicCode.Extended(p, ZERO, data)
    case Murmur(s) => BlockHash.OneShot(s, data, ZERO)
  }

  // ---------------------------------------------------------------------------
  // What a context stands for
  // ---------------------------------------------------------------------------

  /** An unfinished context that has been fed exactly `fed`. */
  predicate Holds(c: Context, fed: seq<Byte>) {
    && !c.finished && c.length == |fed|
    && match c.kind
       case Invalid => fed == [] && c.value == ZERO && c.tail == [] && c.bodyBytes == 0
       case Crc(p) => c.value == CyclicCode.Extended(p, ZERO, fed) && c.tail == [] && c.bodyBytes == 0
       case Murmur(s) =>
         && |c.tail| < 4 && c.bodyBytes % 4 == 0 && c.bodyBytes + |c.tail| == |fed|
         && c.tail == fed[c.bodyBytes..]
         && c.value == BlockHash.Body(s, ZERO, fed[..c.bodyBytes])
  }

  lemma NewHolds(kind: ChecksumType)
    ensures Holds(New(kind), [])
  {
    NotNot(ZERO);
  }

  lemma CrcAbsorbs(c: Context, fed: seq<Byte>, data: seq<Byte>)
    requires Holds(c, fed) && c.kind.Crc? && |fed + data| <= U64_MAX
    ensures Holds(Absorbed(c, data), fed + data)
  {
    CyclicCode.ExtendConcat(c.kind.poly, ZERO, fed, data);
  }

  lemma WholeBlocks(m: nat, n: nat)
    requires m % 4 == 0 && n % 4 == 0
    ensures (m + n) % 4 == 0
  {
  }

  lemma MurmurAbsorbs(c: Context, fed: seq<Byte>, data: seq<Byte>)
    requires Holds(c, fed) && c.kind.Murmur? && |fed + data| <= U64_MAX
    ensures Holds(Absorbed(c, data), fed + data)
  {
    var n, combined := c.bodyBytes, c.tail + data;
    var b := BlockHash.BodyLen(|combined|);
    BlockHash.BlocksContinue(c.kind.stages, ZERO, fed, n, data);
    assert SaturatingAdd(n, b) == n + b;
    WholeBlocks(n, b);
    assert Absorbed(c, data).value == BlockHash.Body(c.kind.stages, ZERO, (fed + data)[..n + b]);
  }

  lemma ExtendedHolds(c: Context, fed: seq<Byte>, data: seq<Byte>)
    requires Holds(c, fed) && c.kind != Invalid && |fed + data| <= U64_MAX
    ensures Holds(Extended(c, data), fed + data) && Extended(c, data).kind == c.kind
  {
    if data == [] {
      assert fed + data == fed;
    } else {
      if c.kind.Crc? { CrcAbsorbs(c, fed, data); } else { MurmurAbsorbs(c, fed, data); }
    }
  }

  lemma FinalizedValue(c: Context, fed: seq<Byte>)
    requires Holds(c, fed) && |fed| <= U64_MAX
    ensures Short(c) && Finalized(c).value == Digest(c.kind, fed)
  {
    if c.kind.Murmur? {
      var s, n := c.kind.stages, c.bodyBytes;
      assert SaturatingAdd(n, |c.tail|) == |fed|;
      assert Finalized(c).value == BlockHash.Finalize(s, c.value, c.tail, |fed|);
      BlockHash.OneShotSplit(s, fed, ZERO, n);
      assert Digest(c.kind, fed) == BlockHash.OneShot(s, fed, ZERO);
    }
  }

  lemma FinalizedDigest(c: Context, fed: seq<Byte>)
    requires Holds(c, fed) && |fed| <= U64_MAX
    ensures Short(c)
    ensures ResultOf(Finalized(c)) == ChecksumResult(c.kind, Digest(c.kind, fed), |fed|, c.chunks)
  {
    FinalizedValue(c, fed);
  }

  // ---------------------------------------------------------------------------
  // Every way of cutting the input
  // ---------------------------------------------------------------------------

  function Flatten(pieces: seq<seq<Byte>>): seq<Byte> {
    if pieces == [] then [] else pieces[0] + Flatten(pieces[1..])
  }

  function ExtendedAll(c: Context, pieces: seq<seq<Byte>>): Context
    decreases |pieces|
  {
    if pieces == [] then c else ExtendedAll(Extended(c, pieces[0]), pieces[1..])
  }

  lemma {:induction false} ExtendedAllHolds(c: Context, fed: seq<Byte>, pieces: seq<seq<Byte>>)
    requires Holds(c, fed) && c.kind != Invalid && |fed + Flatten(pieces)| <= U64_MAX
    ensures Holds(ExtendedAll(c, pieces), fed + Flatten(pieces))
    ensures ExtendedAll(c, pieces).kind == c.kind
    decreases |pieces|
  {
    if pieces == [] {
      assert fed + Flatten(pieces) == fed;
    } else {
      assert fed + Flatten(pieces) == (fed + pieces[0]) + Flatten(pieces[1..]);
      ExtendedHolds(c, fed, pieces[0]);
      ExtendedAllHolds(Extended(c, pieces[0]), fed + pieces[0], pieces[1..]);
    }
  }

  /** However the input is cut, empty pieces included, the streamed digest is the one-shot
      digest of the whole and the byte count is its length. */
  lemma CutsDoNotMatter(kind: ChecksumType, pieces: seq<seq<Byte>>)
    requires kind != Invalid && |Flatten(pieces)| <= U64_MAX
    ensures var c := ExtendedAll(New(kind), pieces);
            && Short(c)
            && ResultOf(Finalized(c)).value == Digest(kind, Flatten(pieces))
            && ResultOf(Finalized(c)).bytes == |Flatten(pieces)|
  {
    NewHolds(kind);
    assert [] + Flatten(pieces) == Flatten(pieces);
    ExtendedAllHolds(New(kind), [], pieces);
    FinalizedDigest(ExtendedAll(New(kind), pieces), Flatten(pieces));
  }

  /** For the two types the repository names, that is `matrixraft_crc32c` and
      `matrixraft_murmur32` of the whole. */
  lemma StreamedIsOneShot(pieces: seq<seq<Byte>>)
    requires |Flatten(pieces)| <= U64_MAX
    ensures var c := ExtendedAll(New(CRC32), pieces);
            Short(c) && ResultOf(Finalized(c)).value == Crc32c.OneShot(Flatten(pieces))
    ensures var c := ExtendedAll(New(MURMUR32), pieces);
            Short(c) && ResultOf(Finalized(c)).value == Murmur32.OneShotMurmur(Flatten(pieces))
  {
    CutsDoNotMatter(CRC32, pieces);
    CutsDoNotMatter(MURMUR32, pieces);
  }

  /** How many of the pieces are not empty. */
  function NonEmpty(pieces: seq<seq<Byte>>): nat {
    if pieces == [] then 0 else (if pieces[0] == [] then 0 else 1) + NonEmpty(pieces[1..])
  }

  lemma OneChunk(c: Context, data: seq<Byte>)
    ensures var d := Extended(c, data);
            && d.finished == c.finished && d.kind == c.kind
            && d.chunks == if c.finished || c.kind == Invalid || data == [] then c.chunks else SaturatingAdd(c.chunks, 1)
  {
  }

  /** Chunks are the pieces that were not empty, up to saturation. */
  lemma {:induction false} ChunksCounted(c: Context, pieces: seq<seq<Byte>>)
    requires c.chunks <= U64_MAX && !c.finished && c.kind != Invalid
    ensures ExtendedAll(c, pieces).chunks == Min(c.chunks + NonEmpty(pieces), U64_MAX)
    decreases |pieces|
  {
    if pieces != [] {
      OneChunk(c, pieces[0]);
      ChunksCounted(Extended(c, pieces[0]), pieces[1..]);
    }
  }

  /** A context of an invalid type refuses every piece, empty ones included, and stays as it is. */
  lemma InvalidIsClosed(data: seq<Byte>)
    ensures Admission(New(Invalid)) == Refused(InvalidType) && Extended(New(Invalid), data) == New(Invalid)
  {
  }

  /** Once finished, a context is closed: finalizing again returns the same result and
      every extend is refused with no change. */
  lemma FinishedIsClosed(c: Context, data: seq<Byte>)
    requires Short(c)
    ensures var f := Finalized(c);
            && Short(f) && Finalized(f) == f
            && Admission(f) == Refused(AlreadyFinished) && Extended(f, data) == f
  {
  }

  // ---------------------------------------------------------------------------
  // The context the code updates in place
  // ---------------------------------------------------------------------------

  class ChecksumContext {
    const kind: ChecksumType
    var finished: bool
    var value: Word
    var length: nat
    var bodyBytes: nat
    var tail: seq<Byte>
    var chunks: nat

    ghost function View(): Context
      reads this
    {
      Context(kind, finished, value, length, bodyBytes, tail, chunks)
    }

    ghost predicate Valid()
      reads this
    {
      Short(View())
    }

    constructor (kind: ChecksumType)
      ensures Valid() && View() == New(kind)
    {
      this.kind := kind;
      finished, value, length, bodyBytes, tail, chunks := false, ZERO, 0, 0, [], 0;
    }

    /** Refused once finished or for an invalid type; otherwise takes the whole piece. */
    method Extend(data: seq<Byte>) returns (r: Outcome)
      requires Valid()
      modifies this
      ensures Valid() && View() == Extended(old(View()), data)
      ensures r == Admission(old(View()))
    {
      if finished {
        return Refused(AlreadyFinished);
      }
      if kind == Invalid {
        return Refused(InvalidType);
      }
      if data == [] {
        return Accepted;
      }
      match kind {
        case Crc(p) =>
          value := CyclicCode.Extend(p, value, data);
        case Murmur(s) =>
          ExtendMurmur32(s, data);
      }
      length := SaturatingAdd(length, |data|);
      chunks := SaturatingAdd(chunks, 1);
      return Accepted;
    }

    method ExtendMurmur32(s: BlockHash.Stages, data: seq<Byte>)
      modifies this`value, this`bodyBytes, this`tail
      ensures var combined := old(tail) + data;
              var b := BlockHash.BodyLen(|combined|);
              && value == BlockHash.Body(s, old(value), combined[..b])
              && bodyBytes == SaturatingAdd(old(bodyBytes), b)
              && tail == combined[b..]
    {
      var combined := tail + data;
      var bodyLen := |combined| / 4 * 4;
      value := BlockHash.MixBody(s, value, combined[..bodyLen]);
      bodyBytes := SaturatingAdd(bodyBytes, bodyLen);
      tail := combined[bodyLen..];
    }

    method Finalize() returns (r: ChecksumResult)
      requires Valid()
      modifies this
      ensures Valid() && View() == Finalized(old(View()))
      ensures r == ResultOf(View())
    {
      if !finished && kind.Murmur? {
        value := BlockHash.Finalize(kind.stages, value, tail, SaturatingAdd(bodyBytes, |tail|));
        tail := [];
      }
      finished := true;
      r := ChecksumResult(kind, value, length, chunks);
    }
  }
}
