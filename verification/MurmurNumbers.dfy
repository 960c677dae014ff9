/** MurmurHash3_x86_32 in plain arithmetic: bytes and words are numbers, and nothing is shared with
    the bit-vector form but the constants of the published algorithm. The two are equal on every
    input, and on "hello" both give the published value. */
module MurmurNumbers {
  import opened Words
  import opened WordNumbers
  import opened BlockHash
  import opened Murmur32

  // ---------------------------------------------------------------------------
  // The algorithm as published
  // ---------------------------------------------------------------------------

  function Rotated15(x: nat): nat {
    (x * 0x8000) % M32 + x / 0x2_0000
  }

  function Rotated13(x: nat): nat {
    (x * 0x2000) % M32 + x / 0x8_0000
  }

  function Times(x: nat, c: nat): nat {
    (x * c) % M32
  }

  function Scrambled(k: nat): nat {
    Times(Rotated15(Times(k, 0xcc9e_2d51)), 0x1b87_3593)
  }

  function TimesPlus(x: nat, c: nat, d: nat): nat {
    (x * c + d) % M32
  }

  function Stirred(h: nat): nat {
    TimesPlus(Rotated13(h), 5, 0xe654_6b64)
  }

  function Folded16(h: nat): nat {
    XorNumber(h, h / 0x1_0000)
  }

  function Folded13(h: nat): nat {
    XorNumber(h, h / 0x2000)
  }

  function Avalanched(h: nat): nat {
    Folded16(Times(Folded13(Times(Folded16(h), 0x85eb_ca6b)), 0xc2b2_ae35))
  }

  function LittleEndian(bytes: seq<nat>): nat {
    if bytes == [] then 0 else bytes[0] + 256 * LittleEndian(bytes[1..])
  }

  type Stage = nat -> nat

  /** Four bytes at a time, then the rest, then the length. */
  function HashedBy(scramble: Stage, stir: Stage, avalanche: Stage, h: nat, bytes: seq<nat>, length: nat): nat
    decreases |bytes|
  {
    if |bytes| >= 4
    then HashedBy(scramble, stir, avalanche, stir(XorNumber(h, scramble(LittleEndian(bytes[..4])))), bytes[4..], length)
    else avalanche(XorNumber(XorNumber(h, scramble(LittleEndian(bytes))), length % M32))
  }

  function Hashed(seed: nat, bytes: seq<nat>): nat {
    HashedBy(Scrambled, Stirred, Avalanched, seed, bytes, |bytes|)
  }

  // ---------------------------------------------------------------------------
  // The stages are the published ones
  // ---------------------------------------------------------------------------

  lemma {:induction false} RunSplit(op: Op, ops: seq<Op>, x: Word)
    ensures Run([op] + ops, x) == Run(ops, Do(op, x))
  {
    assert ([op] + ops)[1..] == ops;
  }

  lemma TimesNumber(x: Word, c: nat, inverse: nat)
    ensures ToNat(Do(MulAddBy(c, 0, inverse), x)) == Times(ToNat(x), c)
  {
    MulAddNumber(x, c, 0);
  }

  lemma Folds(x: Word)
    ensures ToNat(Do(XorShift(16), x)) == Folded16(ToNat(x))
    ensures ToNat(Do(XorShift(13), x)) == Folded13(ToNat(x))
  {
    ShiftsDivide(x);
    XorIsNumber(x, ShiftRight(x, 16));
    XorIsNumber(x, ShiftRight(x, 13));
  }

  lemma Turns(x: Word)
    ensures ToNat(Do(Rotate(15), x)) == Rotated15(ToNat(x))
    ensures ToNat(Do(Rotate(13), x)) == Rotated13(ToNat(x))
  {
    RotateBy15(x);
    RotateBy13(x);
  }

  /** A product, a turn and a product, whatever the constants. */
  lemma ScrambleShape(k: Word, c: nat, i: nat, d: nat, j: nat)
    ensures ToNat(Run([MulAddBy(c, 0, i), Rotate(15), MulAddBy(d, 0, j)], k))
            == Times(Rotated15(Times(ToNat(k), c)), d)
  {
    var a, b, e := MulAddBy(c, 0, i), Rotate(15), MulAddBy(d, 0, j);
    assert [a, b, e] == [a] + ([b] + ([e] + []));
    RunSplit(a, [b] + ([e] + []), k);
    RunSplit(b, [e] + [], Do(a, k));
    RunSplit(e, [], Do(b, Do(a, k)));
    TimesNumber(k, c, i);
    Turns(Do(a, k));
    TimesNumber(Do(b, Do(a, k)), d, j);
  }

  lemma ScrambleIsPublished(k: Word)
    ensures ToNat(Run(MURMUR.scramble, k)) == Scrambled(ToNat(k))
  {
    ScrambleShape(k, 0xcc9e_2d51, 0xdee1_3bb1, 0x1b87_3593, 0x56ed_309b);
  }

  lemma TimesPlusNumber(x: Word, c: nat, d: nat, inverse: nat)
    ensures ToNat(Do(MulAddBy(c, d, inverse), x)) == TimesPlus(ToNat(x), c, d)
  {
    MulAddNumber(x, c, d);
  }

  lemma StirShape(h: Word, c: nat, d: nat, i: nat)
    ensures ToNat(Run([Rotate(13), MulAddBy(c, d, i)], h)) == TimesPlus(Rotated13(ToNat(h)), c, d)
  {
    var a, b := Rotate(13), MulAddBy(c, d, i);
    assert [a, b] == [a] + ([b] + []);
    RunSplit(a, [b] + [], h);
    RunSplit(b, [], Do(a, h));
    Turns(h);
    TimesPlusNumber(Do(a, h), c, d, i);
  }

  lemma StirIsPublished(h: Word)
    ensures ToNat(Run(MURMUR.stir, h)) == Stirred(ToNat(h))
  {
    StirShape(h, 5, 0xe654_6b64, 0xcccc_cccd);
  }

  lemma AvalancheShape(h: Word, c: nat, i: nat, d: nat, j: nat)
    ensures ToNat(Run([XorShift(16), MulAddBy(c, 0, i), XorShift(13), MulAddBy(d, 0, j), XorShift(16)], h))
            == Folded16(Times(Folded13(Times(Folded16(ToNat(h)), c)), d))
  {
    var f, a, g, b := XorShift(16), MulAddBy(c, 0, i), XorShift(13), MulAddBy(d, 0, j);
    assert [f, a, g, b, f] == [f] + ([a] + ([g] + ([b] + ([f] + []))));
    var h1 := Do(f, h);
    var h2 := Do(a, h1);
    var h3 := Do(g, h2);
    var h4 := Do(b, h3);
    RunSplit(f, [a] + ([g] + ([b] + ([f] + []))), h);
    RunSplit(a, [g] + ([b] + ([f] + [])), h1);
    RunSplit(g, [b] + ([f] + []), h2);
    RunSplit(b, [f] + [], h3);
    RunSplit(f, [], h4);
    Folds(h);
    TimesNumber(h1, c, i);
    Folds(h2);
    TimesNumber(h3, d, j);
    Folds(h4);
  }

  lemma AvalancheIsPublished(h: Word)
    ensures ToNat(Run(MURMUR.avalanche, h)) == Avalanched(ToNat(h))
  {
    AvalancheShape(h, 0x85eb_ca6b, 0xa5cb_9243, 0xc2b2_ae35, 0x7ed1_b41d);
  }

  // ---------------------------------------------------------------------------
  // Equal on every input
  // ---------------------------------------------------------------------------

  function Numbers(data: seq<Byte>): (r: seq<nat>)
    ensures |r| == |data| && forall i :: 0 <= i < |r| ==> r[i] == ToNat(data[i])
  {
    seq(|data|, i requires 0 <= i < |data| => ToNat(data[i]))
  }

  lemma {:induction false} BytesNumber(data: seq<Byte>)
    ensures ToNat(CyclicCode.MessageBits(data)) == LittleEndian(Numbers(data))
  {
    if data != [] {
      BytesNumber(data[1..]);
      assert Numbers(data)[1..] == Numbers(data[1..]);
      ToNatConcat(data[0], CyclicCode.MessageBits(data[1..]));
      Powers();
    }
  }

  /** The stages of a block hash are these functions on numbers. */
  ghost predicate Matches(s: Stages, scramble: Stage, stir: Stage, avalanche: Stage) {
    && Sound(s)
    && (forall x: Word :: ToNat(Run(s.scramble, x)) == scramble(ToNat(x)))
    && (forall x: Word :: ToNat(Run(s.stir, x)) == stir(ToNat(x)))
    && (forall x: Word :: ToNat(Run(s.avalanche, x)) == avalanche(ToNat(x)))
  }

  lemma MixMatches(s: Stages, scramble: Stage, stir: Stage, avalanche: Stage, h: Word, bytes: seq<Byte>)
    requires Matches(s, scramble, stir, avalanche) && |bytes| == 4
    ensures ToNat(MixBlock(s, h, Block(bytes))) == stir(XorNumber(ToNat(h), scramble(LittleEndian(Numbers(bytes)))))
  {
    BytesNumber(bytes);
    XorIsNumber(h, Run(s.scramble, Block(bytes)));
  }

  lemma EndMatches(s: Stages, scramble: Stage, stir: Stage, avalanche: Stage, h: Word, tail: seq<Byte>, length: nat)
    requires Matches(s, scramble, stir, avalanche) && |tail| < 4
    ensures ToNat(Finalize(s, h, tail, length))
            == avalanche(XorNumber(XorNumber(ToNat(h), scramble(LittleEndian(Numbers(tail)))), length % M32))
  {
    var k := Run(s.scramble, TailWord(tail));
    GuardIsIdle(s, h, tail, length);
    BytesNumber(tail);
    WidenIsNumber(CyclicCode.MessageBits(tail));
    XorIsNumber(h, k);
    OfNatMod(length);
    XorIsNumber(Xor(h, k), OfNat(length));
  }

  lemma BlockFirst(s: Stages, h: Word, data: seq<Byte>)
    requires |data| >= 4
    ensures var b, rest := BodyLen(|data|), data[4..];
            && b >= 4 && BodyLen(|rest|) == b - 4 && data[b..] == rest[b - 4..]
            && Body(s, h, data[..b]) == Body(s, MixBlock(s, h, Block(data[..4])), rest[..b - 4])
  {
    var b, rest := BodyLen(|data|), data[4..];
    assert data[..b][..4] == data[..4] && data[..b][4..] == rest[..b - 4];
  }

  /** From any state: the blocks, then the tail and the length. */
  lemma {:induction false} HashMatches(s: Stages, scramble: Stage, stir: Stage, avalanche: Stage,
                                       h: Word, data: seq<Byte>, length: nat)
    requires Matches(s, scramble, stir, avalanche)
    ensures var b := BodyLen(|data|);
            ToNat(Finalize(s, Body(s, h, data[..b]), data[b..], length))
            == HashedBy(scramble, stir, avalanche, ToNat(h), Numbers(data), length)
    decreases |data|
  {
    if |data| < 4 {
      assert BodyLen(|data|) == 0 && data[..0] == [] && data[0..] == data;
      EndMatches(s, scramble, stir, avalanche, h, data, length);
    } else {
      BlockFirst(s, h, data);
      assert Numbers(data)[..4] == Numbers(data[..4]) && Numbers(data)[4..] == Numbers(data[4..]);
      MixMatches(s, scramble, stir, avalanche, h, data[..4]);
      HashMatches(s, scramble, stir, avalanche, MixBlock(s, h, Block(data[..4])), data[4..], length);
    }
  }

  lemma MurmurMatches()
    ensures Matches(MURMUR, Scrambled, Stirred, Avalanched)
  {
    MurmurSound();
    forall x: Word ensures ToNat(Run(MURMUR.scramble, x)) == Scrambled(ToNat(x)) { ScrambleIsPublished(x); }
    forall x: Word ensures ToNat(Run(MURMUR.stir, x)) == Stirred(ToNat(x)) { StirIsPublished(x); }
    forall x: Word ensures ToNat(Run(MURMUR.avalanche, x)) == Avalanched(ToNat(x)) { AvalancheIsPublished(x); }
  }

  /** The hash of every message under every seed is the published algorithm's. */
  lemma MurmurIsPublished(data: seq<Byte>, seed: Word)
    ensures ToNat(OneShot(MURMUR, data, seed)) == Hashed(ToNat(seed), Numbers(data))
  {
    MurmurMatches();
    HashMatches(MURMUR, Scrambled, Stirred, Avalanched, seed, data, |data|);
  }
}
