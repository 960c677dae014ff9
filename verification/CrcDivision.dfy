/** CRC32C as section 12.1 of RFC 3720 defines it: the remainder of long division by the generator
    0x1edc6f41, highest power first, in plain arithmetic. The reflected register is its mirror image
    on every input. */
module CrcDivision {
  import opened Words
  import opened WordNumbers
  import opened CyclicCode
  import Crc32c

  /** One step of the division: the next message bit joins at the top, and what leaves there decides
      whether the generator is taken off. */
  function Divided(r: nat, bit: bool): nat {
    var shifted := (2 * r) % M32;
    if (r >= 0x8000_0000) != bit then XorNumber(shifted, 0x1edc_6f41) else shifted
  }

  function Remainder(r: nat, bits: seq<bool>): nat
    decreases |bits|
  {
    if bits == [] then r else Remainder(Divided(r, bits[0]), bits[1..])
  }

  /** A word with its bits the other way round. */
  function Mirror(x: Word): (r: Word)
    ensures forall i :: 0 <= i < 32 ==> r[i] == x[31 - i]
  {
    seq(32, i requires 0 <= i < 32 => x[31 - i])
  }

  // ---------------------------------------------------------------------------
  // The register is the mirror image of the division
  // ---------------------------------------------------------------------------

  /** Shifted left by one, and the generator taken off if a bit left. */
  function LeftStep(g: Word, r: Word, bit: bool): Word {
    Xor([false] + r[..31], if r[31] != bit then g else ZERO)
  }

  lemma MirrorShift(x: Word, bit: bool)
    ensures Mirror(ShiftRight(Xor(x, OfBit(bit)), 1)) == [false] + Mirror(x)[..31]
    ensures Xor(x, OfBit(bit))[0] == (Mirror(x)[31] != bit)
  {
    var fed := Xor(x, OfBit(bit));
    assert fed[0] == (x[0] != bit) && forall i :: 1 <= i < 32 ==> fed[i] == x[i];
  }

  lemma MirrorXor(x: Word, y: Word)
    ensures Mirror(Xor(x, y)) == Xor(Mirror(x), Mirror(y))
  {
  }

  lemma MirrorStep(p: Word, x: Word, bit: bool)
    ensures Mirror(Feed(p, x, bit)) == LeftStep(Mirror(p), Mirror(x), bit)
  {
    MirrorShift(x, bit);
    var fed := Xor(x, OfBit(bit));
    MirrorXor(ShiftRight(fed, 1), if fed[0] then p else ZERO);
    assert Mirror(ZERO) == ZERO;
  }

  lemma DoubledNumber(r: Word)
    ensures ToNat([false] + r[..31]) == (2 * ToNat(r)) % M32
    ensures r[31] <==> ToNat(r) >= 0x8000_0000
  {
    HalfWord();
    Split(r, 31);
    assert ([false] + r[..31])[1..] == r[..31];
    assert r[31..] == [r[31]] && [r[31]][1..] == [];
  }

  lemma HalfWord()
    ensures Pow2(31) == 0x8000_0000
  {
    WordRange();
  }

  lemma LeftStepNumber(g: Word, r: Word, bit: bool)
    requires ToNat(g) == 0x1edc_6f41
    ensures ToNat(LeftStep(g, r, bit)) == Divided(ToNat(r), bit)
  {
    var left: Word := [false] + r[..31];
    DoubledNumber(r);
    XorIsNumber(left, g);
    XorZero(left);
  }

  lemma {:induction false} FeedDivides(p: Word, x: Word, bits: seq<bool>)
    requires ToNat(Mirror(p)) == 0x1edc_6f41
    ensures ToNat(Mirror(FeedBits(p, x, bits))) == Remainder(ToNat(Mirror(x)), bits)
    decreases |bits|
  {
    if bits != [] {
      MirrorStep(p, x, bits[0]);
      LeftStepNumber(Mirror(p), Mirror(x), bits[0]);
      FeedDivides(p, Feed(p, x, bits[0]), bits[1..]);
    }
  }

  // ---------------------------------------------------------------------------
  // The polynomial is the generator, mirrored
  // ---------------------------------------------------------------------------

  /** The low `n` binary digits of `v`, lowest first, written behind those of `acc`. */
  function Reflected(v: nat, n: nat, acc: nat): nat
    decreases n
  {
    if n == 0 then acc else Reflected(v / 2, n - 1, 2 * acc + v % 2)
  }

  function Onto(bits: seq<bool>, tail: seq<bool>): seq<bool>
    decreases |bits|
  {
    if bits == [] then tail else Onto(bits[1..], [bits[0]] + tail)
  }

  lemma {:induction false} OntoNumber(v: nat, n: nat, tail: seq<bool>)
    ensures ToNat(Onto(LowBits(v, n), tail)) == Reflected(v, n, ToNat(tail))
    decreases n
  {
    if n > 0 {
      var bits := LowBits(v, n);
      assert bits[1..] == LowBits(v / 2, n - 1);
      assert ([bits[0]] + tail)[1..] == tail;
      OntoNumber(v / 2, n - 1, [bits[0]] + tail);
    }
  }

  lemma {:induction false} OntoAt(bits: seq<bool>, tail: seq<bool>)
    ensures |Onto(bits, tail)| == |bits| + |tail|
    ensures forall i :: 0 <= i < |bits| ==> Onto(bits, tail)[i] == bits[|bits| - 1 - i]
    ensures forall i :: 0 <= i < |tail| ==> Onto(bits, tail)[|bits| + i] == tail[i]
    decreases |bits|
  {
    if bits != [] {
      var longer := [bits[0]] + tail;
      OntoAt(bits[1..], longer);
      var r := Onto(bits[1..], longer);
      assert r[|bits| - 1] == longer[0];
      forall i | 0 <= i < |tail| ensures r[|bits| + i] == tail[i] {
        assert r[|bits| - 1 + (i + 1)] == longer[i + 1];
      }
    }
  }

  lemma MirrorIsOnto(x: Word)
    ensures Mirror(x) == Onto(x, [])
  {
    OntoAt(x, []);
  }

  lemma MirrorNumber(v: nat)
    ensures ToNat(Mirror(OfNat(v))) == Reflected(v, |ZERO|, 0)
  {
    OntoNumber(v, |ZERO|, []);
    MirrorIsOnto(OfNat(v));
  }

  // Eight digits at a time.

  lemma Reflected1(n: nat)
    ensures Reflected(0x82f6_3b78, n + 32, 0) == Reflected(0x82_f63b, n + 24, 0x1e)
  {
    assert Reflected(0x82f6_3b78, n + 32, 0) == Reflected(0x20bd_8ede, n + 30, 0);
    assert Reflected(0x20bd_8ede, n + 30, 0) == Reflected(0x82f_63b7, n + 28, 1);
    assert Reflected(0x82f_63b7, n + 28, 1) == Reflected(0x20b_d8ed, n + 26, 7);
  }

  lemma Reflected2(n: nat)
    ensures Reflected(0x82_f63b, n + 24, 0x1e) == Reflected(0x82f6, n + 16, 0x1edc)
  {
    assert Reflected(0x82_f63b, n + 24, 0x1e) == Reflected(0x20_bd8e, n + 22, 0x7b);
    assert Reflected(0x20_bd8e, n + 22, 0x7b) == Reflected(0x8_2f63, n + 20, 0x1ed);
    assert Reflected(0x8_2f63, n + 20, 0x1ed) == Reflected(0x2_0bd8, n + 18, 0x7b7);
  }

  lemma Reflected3(n: nat)
    ensures Reflected(0x82f6, n + 16, 0x1edc) == Reflected(0x82, n + 8, 0x1e_dc6f)
  {
    assert Reflected(0x82f6, n + 16, 0x1edc) == Reflected(0x20bd, n + 14, 0x7b71);
    assert Reflected(0x20bd, n + 14, 0x7b71) == Reflected(0x82f, n + 12, 0x1_edc6);
    assert Reflected(0x82f, n + 12, 0x1_edc6) == Reflected(0x20b, n + 10, 0x7_b71b);
  }

  lemma Reflected4(n: nat)
    ensures Reflected(0x82, n + 8, 0x1e_dc6f) == Reflected(0, n, 0x1edc_6f41)
  {
    assert Reflected(0x82, n + 8, 0x1e_dc6f) == Reflected(0x20, n + 6, 0x7b_71bd);
    assert Reflected(0x20, n + 6, 0x7b_71bd) == Reflected(8, n + 4, 0x1ed_c6f4);
    assert Reflected(8, n + 4, 0x1ed_c6f4) == Reflected(2, n + 2, 0x7b7_1bd0);
  }

  lemma GeneratorReflected(n: nat)
    requires n == 0
    ensures Reflected(0x82f6_3b78, n + 32, 0) == 0x1edc_6f41
  {
    Reflected1(n);
    Reflected2(n);
    Reflected3(n);
    Reflected4(n);
  }

  lemma AllDigits(v: nat, r: nat, n: nat)
    requires |ZERO| == n + 32 && Reflected(v, n + 32, 0) == r
    ensures ToNat(Mirror(OfNat(v))) == r
  {
    MirrorNumber(v);
  }

  /** 0x82f63b78 is the generator 0x1edc6f41 with its bits the other way round. */
  lemma PolyIsGenerator()
    ensures ToNat(Mirror(Crc32c.POLY)) == 0x1edc_6f41
  {
    var n: nat := |ZERO| - 32;
    GeneratorReflected(n);
    AllDigits(0x82f6_3b78, 0x1edc_6f41, n);
  }

  // ---------------------------------------------------------------------------
  // The checksum
  // ---------------------------------------------------------------------------

  /** Inverted and mirrored, every checksum is the remainder of the message's bits, each byte lowest
      bit first, divided from where it was extended, inverted and mirrored in turn. */
  lemma ChecksumIsRemainder(crc: Word, data: seq<Byte>)
    ensures ToNat(Mirror(Not(Crc32c.Extended(crc, data)))) == Remainder(ToNat(Mirror(Not(crc))), MessageBits(data))
  {
    PolyIsGenerator();
    FeedDivides(Crc32c.POLY, Not(crc), MessageBits(data));
    ExtendedIsBitSerial(Crc32c.POLY, crc, data);
  }

  lemma ZeroNumber()
    ensures ToNat(ZERO) == 0
  {
    PaddedNumber([], |ZERO|);
    assert ZERO == [] + Zeros(|ZERO|);
  }

  lemma AllOnes(x: Word)
    requires x == Not(ZERO)
    ensures Mirror(x) == x && ToNat(x) == 0xffff_ffff
  {
    ZeroNumber();
    NotIsNumber(ZERO);
  }

  /** From the start the division begins with all ones. */
  lemma OneShotIsRemainder(data: seq<Byte>)
    ensures ToNat(Mirror(Not(Crc32c.OneShot(data)))) == Remainder(0xffff_ffff, MessageBits(data))
  {
    ChecksumIsRemainder(ZERO, data);
    AllOnes(Not(ZERO));
  }
}
