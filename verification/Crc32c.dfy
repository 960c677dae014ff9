/** A reflected cyclic redundancy check over 32 bits, and the one `src/checksum.rs`
    uses: one byte at a time, eight shifts a byte, inverted on the way in and out.

    The byte loop is related to a register fed one message bit at a time. That form
    carries the guarantees a cyclic code is chosen for. A polynomial with a constant
    term (the top bit, reflected) detects every burst of at most 32 bits, and none detects
    every burst of 33. One with an odd number of low-order terms detects every odd number
    of flipped bits. */
module CyclicCode {
  import opened Words

  // ---------------------------------------------------------------------------
  // What the code computes
  // ---------------------------------------------------------------------------

  /** One pass of the inner loop. The mask is all ones exactly when the low bit is set. */
  function BitStep(p: Word, x: Word): Word {
    Xor(ShiftRight(x, 1), if x[0] then p else ZERO)
  }

  function BitSteps(p: Word, x: Word, n: nat): Word
    decreases n
  {
    if n == 0 then x else BitSteps(p, BitStep(p, x), n - 1)
  }

  function ByteStep(p: Word, x: Word, b: Byte): Word {
    BitSteps(p, Xor(x, Widen(b)), |b|)
  }

  /** The register after `data`, before the final inversion. */
  function Register(p: Word, x: Word, data: seq<Byte>): Word
    decreases |data|
  {
    if data == [] then x else Register(p, ByteStep(p, x, data[0]), data[1..])
  }

  function Extended(p: Word, crc: Word, data: seq<Byte>): Word {
    Not(Register(p, Not(crc), data))
  }

  /** The inner loop. */
  method Shift(p: Word, x: Word, n: nat) returns (value: Word)
    ensures value == BitSteps(p, x, n)
  {
    value := x;
    for k := 0 to n
      invariant BitSteps(p, value, n - k) == BitSteps(p, x, n)
    {
      value := BitStep(p, value);
    }
  }

  method Extend(p: Word, crc: Word, data: seq<Byte>) returns (r: Word)
    ensures r == Extended(p, crc, data)
  {
    var value := Not(crc);
    for i := 0 to |data|
      invariant Register(p, value, data[i..]) == Register(p, Not(crc), data)
    {
      assert data[i..][0] == data[i] && data[i..][1..] == data[i + 1..];
      value := Shift(p, Xor(value, Widen(data[i])), 8);
    }
    r := Not(value);
  }

  // ---------------------------------------------------------------------------
  // Cutting the input
  // ---------------------------------------------------------------------------

  lemma {:induction false} RegisterConcat(p: Word, x: Word, a: seq<Byte>, b: seq<Byte>)
    ensures Register(p, x, a + b) == Register(p, Register(p, x, a), b)
    decreases |a|
  {
    if a == [] {
      assert a + b == b;
    } else {
      assert (a + b)[0] == a[0] && (a + b)[1..] == a[1..] + b;
      RegisterConcat(p, ByteStep(p, x, a[0]), a[1..], b);
    }
  }

  /** Extending piece by piece is extending by the whole. */
  lemma ExtendConcat(p: Word, crc: Word, a: seq<Byte>, b: seq<Byte>)
    ensures Extended(p, crc, a + b) == Extended(p, Extended(p, crc, a), b)
  {
    RegisterConcat(p, Not(crc), a, b);
    NotNot(Register(p, Not(crc), a));
  }

  // ---------------------------------------------------------------------------
  // One step is a bijection, and linear above the low bit
  // ---------------------------------------------------------------------------

  lemma StepInjective(p: Word, x: Word, y: Word)
    requires p[31]
    requires BitStep(p, x) == BitStep(p, y)
    ensures x == y
  {
    assert BitStep(p, x)[31] == x[0] && BitStep(p, y)[31] == y[0];
    XorCancel(ShiftRight(x, 1), if x[0] then p else ZERO);
    XorCancel(ShiftRight(y, 1), if x[0] then p else ZERO);
    assert x == [x[0]] + ShiftRight(x, 1)[..31];
    assert y == [y[0]] + ShiftRight(y, 1)[..31];
  }

  lemma {:induction false} StepsInjective(p: Word, x: Word, y: Word, n: nat)
    requires p[31]
    requires BitSteps(p, x, n) == BitSteps(p, y, n)
    ensures x == y
    decreases n
  {
    if n > 0 {
      StepsInjective(p, BitStep(p, x), BitStep(p, y), n - 1);
      StepInjective(p, x, y);
    }
  }

  /** The part of a pending word above its low bit only shifts. */
  lemma PeelBit(p: Word, x: Word, y: Word)
    ensures BitStep(p, Xor(x, y)) == Xor(Feed(p, x, y[0]), ShiftRight(y, 1))
  {
    assert ShiftRight(Xor(x, y), 1) == Xor(ShiftRight(x, 1), ShiftRight(y, 1));
    assert ShiftRight(Xor(x, OfBit(y[0])), 1) == ShiftRight(x, 1);
  }

  // ---------------------------------------------------------------------------
  // The same register, fed one message bit at a time
  // ---------------------------------------------------------------------------

  function OfBit(bit: bool): Word {
    Widen([bit])
  }

  function Feed(p: Word, x: Word, bit: bool): Word {
    BitStep(p, Xor(x, OfBit(bit)))
  }

  function FeedBits(p: Word, x: Word, bits: seq<bool>): Word
    decreases |bits|
  {
    if bits == [] then x else FeedBits(p, Feed(p, x, bits[0]), bits[1..])
  }

  /** Low bit first, the order the register takes them in. */
  function MessageBits(data: seq<Byte>): (bits: seq<bool>)
    ensures |bits| == 8 * |data|
  {
    if data == [] then [] else data[0] + MessageBits(data[1..])
  }

  lemma {:induction false} FeedConcat(p: Word, x: Word, a: seq<bool>, b: seq<bool>)
    ensures FeedBits(p, x, a + b) == FeedBits(p, FeedBits(p, x, a), b)
    decreases |a|
  {
    if a == [] {
      assert a + b == b;
    } else {
      assert (a + b)[0] == a[0] && (a + b)[1..] == a[1..] + b;
      FeedConcat(p, Feed(p, x, a[0]), a[1..], b);
    }
  }

  /** A block of up to 32 bits combined at once and stepped is that block fed bit by bit. */
  lemma {:induction false} StepsAreFeeds(p: Word, x: Word, bits: seq<bool>)
    requires |bits| <= 32
    ensures BitSteps(p, Xor(x, Widen(bits)), |bits|) == FeedBits(p, x, bits)
    decreases |bits|
  {
    if bits == [] {
      assert Widen(bits) == ZERO;
      XorZero(x);
    } else {
      var rest, next := bits[1..], Feed(p, x, bits[0]);
      PeelBit(p, x, Widen(bits));
      assert ShiftRight(Widen(bits), 1) == Widen(rest);
      assert BitStep(p, Xor(x, Widen(bits))) == Xor(next, Widen(rest));
      StepsAreFeeds(p, next, rest);
    }
  }

  /** The byte-at-a-time loop is the bit-serial register. */
  lemma {:induction false} RegisterIsBitSerial(p: Word, x: Word, data: seq<Byte>)
    ensures Register(p, x, data) == FeedBits(p, x, MessageBits(data))
    decreases |data|
  {
    if data != [] {
      StepsAreFeeds(p, x, data[0]);
      FeedConcat(p, x, data[0], MessageBits(data[1..]));
      RegisterIsBitSerial(p, ByteStep(p, x, data[0]), data[1..]);
    }
  }

  /** From one starting register, two different windows of at most 32 bits end apart. */
  lemma WindowInjective(p: Word, x: Word, a: seq<bool>, b: seq<bool>)
    requires p[31]
    requires |a| == |b| <= 32
    requires FeedBits(p, x, a) == FeedBits(p, x, b)
    ensures a == b
  {
    StepsAreFeeds(p, x, a);
    StepsAreFeeds(p, x, b);
    StepsInjective(p, Xor(x, Widen(a)), Xor(x, Widen(b)), |a|);
    XorInjective(x, Widen(a), Widen(b));
    assert a == Widen(a)[..|a|] && b == Widen(b)[..|b|];
  }

  lemma {:induction false} FeedInjective(p: Word, x: Word, y: Word, bits: seq<bool>)
    requires p[31]
    requires FeedBits(p, x, bits) == FeedBits(p, y, bits)
    ensures x == y
    decreases |bits|
  {
    if bits != [] {
      FeedInjective(p, Feed(p, x, bits[0]), Feed(p, y, bits[0]), bits[1..]);
      StepInjective(p, Xor(x, OfBit(bits[0])), Xor(y, OfBit(bits[0])));
      XorCancel(x, OfBit(bits[0]));
      XorCancel(y, OfBit(bits[0]));
    }
  }

  // ---------------------------------------------------------------------------
  // Bursts
  // ---------------------------------------------------------------------------

  lemma {:induction false} MessageBitsInjective(a: seq<Byte>, b: seq<Byte>)
    requires MessageBits(a) == MessageBits(b)
    ensures a == b
  {
    if a != [] {
      assert a[0] == MessageBits(a)[..8] == MessageBits(b)[..8] == b[0];
      assert MessageBits(a[1..]) == MessageBits(a)[8..] == MessageBits(b)[8..] == MessageBits(b[1..]);
      MessageBitsInjective(a[1..], b[1..]);
      assert a == [a[0]] + a[1..] && b == [b[0]] + b[1..];
    }
  }

  /** The two sequences are equal outside `[at, at + width)`. */
  predicate SameOutside<T(==)>(a: seq<T>, b: seq<T>, at: nat, width: nat) {
    |a| == |b| && forall k :: 0 <= k < |a| && !(at <= k < at + width) ==> a[k] == b[k]
  }

  lemma FeedAround(p: Word, x: Word, head: seq<bool>, window: seq<bool>, tail: seq<bool>)
    ensures FeedBits(p, x, head + (window + tail)) == FeedBits(p, FeedBits(p, FeedBits(p, x, head), window), tail)
  {
    FeedConcat(p, x, head, window + tail);
    FeedConcat(p, FeedBits(p, x, head), window, tail);
  }

  lemma CutAround(a: seq<bool>, b: seq<bool>, at: nat)
    returns (head: seq<bool>, wa: seq<bool>, wb: seq<bool>, tail: seq<bool>)
    requires SameOutside(a, b, at, 32) && at <= |a|
    ensures a == head + (wa + tail) && b == head + (wb + tail) && |wa| == |wb| <= 32
  {
    var end := if at + 32 <= |a| then at + 32 else |a|;
    head, wa, wb, tail := a[..at], a[at..end], b[at..end], a[end..];
    assert b[..at] == head && b[end..] == tail;
  }

  lemma WindowDetected(p: Word, x: Word, a: seq<bool>, b: seq<bool>, at: nat)
    requires p[31]
    requires SameOutside(a, b, at, 32) && at <= |a|
    requires FeedBits(p, x, a) == FeedBits(p, x, b)
    ensures a == b
  {
    var head, wa, wb, tail := CutAround(a, b, at);
    FeedAround(p, x, head, wa, tail);
    FeedAround(p, x, head, wb, tail);
    var y := FeedBits(p, x, head);
    FeedInjective(p, FeedBits(p, y, wa), FeedBits(p, y, wb), tail);
    WindowInjective(p, y, wa, wb);
  }

  lemma ExtendedIsBitSerial(p: Word, crc: Word, data: seq<Byte>)
    ensures FeedBits(p, Not(crc), MessageBits(data)) == Not(Extended(p, crc, data))
  {
    RegisterIsBitSerial(p, Not(crc), data);
    NotNot(Register(p, Not(crc), data));
  }

  /** Every burst of at most 32 bits is detected, wherever it starts, whatever the
      checksum was extended from. */
  lemma BurstDetected(p: Word, crc: Word, a: seq<Byte>, b: seq<Byte>, at: nat)
    requires p[31]
    requires SameOutside(MessageBits(a), MessageBits(b), at, 32)
    requires a != b
    ensures Extended(p, crc, a) != Extended(p, crc, b)
  {
    if Extended(p, crc, a) == Extended(p, crc, b) {
      ExtendedIsBitSerial(p, crc, a);
      ExtendedIsBitSerial(p, crc, b);
      if at <= 8 * |a| {
        WindowDetected(p, Not(crc), MessageBits(a), MessageBits(b), at);
      }
      MessageBitsInjective(a, b);
    }
  }

  lemma {:induction false} BitOfByte(data: seq<Byte>, k: nat)
    requires k < 8 * |data|
    ensures MessageBits(data)[k] == data[k / 8][k % 8]
  {
    if k >= 8 {
      BitOfByte(data[1..], k - 8);
      assert (k - 8) / 8 == k / 8 - 1 && (k - 8) % 8 == k % 8;
    }
  }

  /** Every change confined to four consecutive bytes is detected. */
  lemma FourBytesDetected(p: Word, crc: Word, a: seq<Byte>, b: seq<Byte>, at: nat)
    requires p[31]
    requires SameOutside(a, b, at, 4)
    requires a != b
    ensures Extended(p, crc, a) != Extended(p, crc, b)
  {
    forall k | 0 <= k < 8 * |a| && !(8 * at <= k < 8 * at + 32)
      ensures MessageBits(a)[k] == MessageBits(b)[k]
    {
      BitOfByte(a, k);
      BitOfByte(b, k);
    }
    BurstDetected(p, crc, a, b, 8 * at);
  }

  // ---------------------------------------------------------------------------
  // 32 is the limit
  // ---------------------------------------------------------------------------

  /** The `n` bytes whose bits these are. */
  function OfBits(bits: seq<bool>, n: nat): (data: seq<Byte>)
    requires |bits| == 8 * n
    ensures MessageBits(data) == bits
    decreases n
  {
    if n == 0 then [] else [bits[..8]] + OfBits(bits[8..], n - 1)
  }

  lemma WordIsFed(p: Word, x: Word, w: Word)
    ensures FeedBits(p, x, w) == BitSteps(p, Xor(x, w), |w|)
  {
    StepsAreFeeds(p, x, w);
    assert Widen(w) == w;
  }

  /** From any two registers, whatever word one takes in, some word brings the other level. */
  lemma WordsCollide(p: Word, y: Word, z: Word, w: Word) returns (v: Word)
    ensures FeedBits(p, y, w) == FeedBits(p, z, v)
  {
    v := Xor(Xor(y, w), z);
    WordIsFed(p, y, w);
    WordIsFed(p, z, v);
    XorMeets(Xor(y, w), z);
  }

  /** A wrong bit can be made up for by the 32 bits after it. */
  lemma WindowCollision(p: Word, x: Word, bit: bool, w: Word) returns (v: Word)
    ensures FeedBits(p, x, [!bit] + v) == FeedBits(p, x, [bit] + w)
  {
    v := WordsCollide(p, Feed(p, x, bit), Feed(p, x, !bit), w);
    assert ([bit] + w)[1..] == w && ([!bit] + v)[1..] == v;
  }

  lemma SameAround(head: seq<bool>, w: seq<bool>, v: seq<bool>, tail: seq<bool>)
    requires |v| == |w|
    ensures SameOutside(head + (w + tail), head + (v + tail), |head|, |w|)
    ensures w != v ==> head + (w + tail) != head + (v + tail)
  {
    var a, b := head + (w + tail), head + (v + tail);
    assert w == a[|head|..|head| + |w|] && v == b[|head|..|head| + |w|];
  }

  lemma SameRegister(p: Word, crc: Word, a: seq<Byte>, b: seq<Byte>)
    requires FeedBits(p, Not(crc), MessageBits(a)) == FeedBits(p, Not(crc), MessageBits(b))
    ensures Extended(p, crc, a) == Extended(p, crc, b)
  {
    RegisterIsBitSerial(p, Not(crc), a);
    RegisterIsBitSerial(p, Not(crc), b);
  }

  lemma BitsCollide(p: Word, x: Word, head: seq<bool>, bit: bool, w: Word, tail: seq<bool>) returns (v: Word)
    ensures FeedBits(p, x, head + (([bit] + w) + tail)) == FeedBits(p, x, head + (([!bit] + v) + tail))
    ensures SameOutside(head + (([bit] + w) + tail), head + (([!bit] + v) + tail), |head|, 33)
    ensures head + (([bit] + w) + tail) != head + (([!bit] + v) + tail)
  {
    v := WindowCollision(p, FeedBits(p, x, head), bit, w);
    FeedAround(p, x, head, [bit] + w, tail);
    FeedAround(p, x, head, [!bit] + v, tail);
    assert ([bit] + w)[0] != ([!bit] + v)[0];
    SameAround(head, [bit] + w, [!bit] + v, tail);
  }

  lemma CutAt(bits: seq<bool>, at: nat) returns (head: seq<bool>, w: Word, tail: seq<bool>)
    requires at + 33 <= |bits|
    ensures |head| == at && bits == head + (([bits[at]] + w) + tail)
  {
    head, w, tail := bits[..at], bits[at + 1..at + 33], bits[at + 33..];
  }

  lemma OtherSetting(p: Word, x: Word, bits: seq<bool>, at: nat) returns (other: seq<bool>)
    requires at + 33 <= |bits|
    ensures other != bits && SameOutside(bits, other, at, 33) && FeedBits(p, x, bits) == FeedBits(p, x, other)
  {
    var head, w, tail := CutAt(bits, at);
    var v := BitsCollide(p, x, head, bits[at], w, tail);
    other := head + (([!bits[at]] + v) + tail);
  }

  /** Wherever 33 bits lie in a message, some other setting of them goes undetected. */
  lemma WiderBurstMissed(p: Word, crc: Word, a: seq<Byte>, at: nat) returns (b: seq<Byte>)
    requires at + 33 <= 8 * |a|
    ensures b != a && SameOutside(MessageBits(a), MessageBits(b), at, 33)
    ensures Extended(p, crc, a) == Extended(p, crc, b)
  {
    var other := OtherSetting(p, Not(crc), MessageBits(a), at);
    b := OfBits(other, |a|);
    SameRegister(p, crc, a, b);
  }

  // ---------------------------------------------------------------------------
  // Parity
  // ---------------------------------------------------------------------------

  /** Whether an odd number of the bits is set. */
  predicate Odd(bits: seq<bool>) {
    bits != [] && bits[0] != Odd(bits[1..])
  }

  /** In how many places two bit strings differ. */
  function Flips(a: seq<bool>, b: seq<bool>): nat
    requires |a| == |b|
  {
    if a == [] then 0 else (if a[0] != b[0] then 1 else 0) + Flips(a[1..], b[1..])
  }

  lemma {:induction false} FlipsAreParity(a: seq<bool>, b: seq<bool>)
    requires |a| == |b|
    ensures Flips(a, b) % 2 == 1 <==> Odd(a) != Odd(b)
  {
    if a != [] {
      FlipsAreParity(a[1..], b[1..]);
    }
  }

  lemma {:induction false} OddConcat(a: seq<bool>, b: seq<bool>)
    ensures Odd(a + b) == (Odd(a) != Odd(b))
  {
    if a == [] {
      assert a + b == b;
    } else {
      assert (a + b)[1..] == a[1..] + b;
      OddConcat(a[1..], b);
    }
  }

  /** Bits that combine place by place combine in parity. */
  lemma {:induction false} OddOfXor(x: seq<bool>, y: seq<bool>, z: seq<bool>)
    requires |x| == |y| == |z|
    requires forall i :: 0 <= i < |z| ==> z[i] == (x[i] != y[i])
    ensures Odd(z) == (Odd(x) != Odd(y))
  {
    if z != [] {
      OddOfXor(x[1..], y[1..], z[1..]);
    }
  }

  lemma {:induction false} OddZeros(n: nat)
    ensures !Odd(Zeros(n))
  {
    if n > 0 {
      assert Zeros(n)[1..] == Zeros(n - 1);
      OddZeros(n - 1);
    }
  }

  /** A step keeps the register's parity: the polynomial has an odd number of terms
      to make up for the bit shifted out. */
  lemma StepKeepsParity(p: Word, x: Word)
    requires Odd(p)
    ensures Odd(BitStep(p, x)) == Odd(x)
  {
    var sh := ShiftRight(x, 1);
    OddConcat(x[1..], Zeros(1));
    OddZeros(1);
    OddZeros(32);
    OddOfXor(sh, if x[0] then p else ZERO, BitStep(p, x));
  }

  lemma {:induction false} FeedParity(p: Word, x: Word, bits: seq<bool>)
    requires Odd(p)
    ensures Odd(FeedBits(p, x, bits)) == (Odd(x) != Odd(bits))
    decreases |bits|
  {
    if bits != [] {
      var bit := OfBit(bits[0]);
      OddConcat([bits[0]], Zeros(31));
      OddZeros(31);
      OddOfXor(x, bit, Xor(x, bit));
      StepKeepsParity(p, Xor(x, bit));
      FeedParity(p, Feed(p, x, bits[0]), bits[1..]);
    }
  }

  lemma {:induction false} OddComplement(x: seq<bool>, y: seq<bool>)
    requires |x| == |y| && |x| % 2 == 0
    requires forall i :: 0 <= i < |x| ==> y[i] == !x[i]
    ensures Odd(x) == Odd(y)
  {
    if x != [] {
      OddComplement(x[2..], y[2..]);
      assert x[1..][1..] == x[2..] && y[1..][1..] == y[2..];
    }
  }

  /** The checksum's parity is the starting value's, flipped once per set message bit. */
  lemma ChecksumParity(p: Word, crc: Word, data: seq<Byte>)
    requires Odd(p)
    ensures Odd(Extended(p, crc, data)) == (Odd(crc) != Odd(MessageBits(data)))
  {
    FeedParity(p, Not(crc), MessageBits(data));
    ExtendedIsBitSerial(p, crc, data);
    OddComplement(crc, Not(crc));
    OddComplement(Extended(p, crc, data), Not(Extended(p, crc, data)));
  }

  /** Every change that flips an odd number of bits is detected, however they are spread. */
  lemma OddFlipsDetected(p: Word, crc: Word, a: seq<Byte>, b: seq<Byte>)
    requires Odd(p)
    requires |a| == |b|
    requires Flips(MessageBits(a), MessageBits(b)) % 2 == 1
    ensures Extended(p, crc, a) != Extended(p, crc, b)
  {
    FlipsAreParity(MessageBits(a), MessageBits(b));
    ChecksumParity(p, crc, a);
    ChecksumParity(p, crc, b);
  }
}

/** CRC32C: the reflected Castagnoli polynomial 0x82f63b78. */
module Crc32c {
  import opened Words
  import CyclicCode

  const POLY: Word := OfNat(0x82f6_3b78)

  /** `crc32c_extend`. */
  function Extended(crc: Word, data: seq<Byte>): Word {
    CyclicCode.Extended(POLY, crc, data)
  }

  /** `matrixraft_crc32c`. */
  function OneShot(data: seq<Byte>): Word {
    Extended(ZERO, data)
  }

  method Extend(crc: Word, data: seq<Byte>) returns (r: Word)
    ensures r == Extended(crc, data)
  {
    r := CyclicCode.Extend(POLY, crc, data);
  }

  lemma ExtendConcat(crc: Word, a: seq<Byte>, b: seq<Byte>)
    ensures Extended(crc, a + b) == Extended(Extended(crc, a), b)
  {
    CyclicCode.ExtendConcat(POLY, crc, a, b);
  }

  /** Every change confined to 32 consecutive bits changes the checksum. */
  lemma BurstDetected(crc: Word, a: seq<Byte>, b: seq<Byte>, at: nat)
    requires CyclicCode.SameOutside(CyclicCode.MessageBits(a), CyclicCode.MessageBits(b), at, 32)
    requires a != b
    ensures Extended(crc, a) != Extended(crc, b)
  {
    PolyShape();
    CyclicCode.BurstDetected(POLY, crc, a, b, at);
  }

  /** Every change confined to four consecutive bytes changes the checksum. */
  lemma FourBytesDetected(crc: Word, a: seq<Byte>, b: seq<Byte>, at: nat)
    requires CyclicCode.SameOutside(a, b, at, 4)
    requires a != b
    ensures Extended(crc, a) != Extended(crc, b)
  {
    PolyShape();
    CyclicCode.FourBytesDetected(POLY, crc, a, b, at);
  }

  /** Every change that flips an odd number of bits changes the checksum. */
  lemma OddFlipsDetected(crc: Word, a: seq<Byte>, b: seq<Byte>)
    requires |a| == |b|
    requires CyclicCode.Flips(CyclicCode.MessageBits(a), CyclicCode.MessageBits(b)) % 2 == 1
    ensures Extended(crc, a) != Extended(crc, b)
  {
    PolyShape();
    CyclicCode.OddFlipsDetected(POLY, crc, a, b);
  }

  // The shape of the polynomial, read off its number.

  predicate BitAt(v: nat, i: nat)
    decreases i
  {
    if i == 0 then v % 2 == 1 else BitAt(v / 2, i - 1)
  }

  predicate OddNumber(v: nat, n: nat)
    decreases n
  {
    n > 0 && (v % 2 == 1) != OddNumber(v / 2, n - 1)
  }

  lemma {:induction false} LowBitsAt(v: nat, n: nat, i: nat)
    requires i < n
    ensures LowBits(v, n)[i] == BitAt(v, i)
    decreases i
  {
    if i > 0 {
      LowBitsAt(v / 2, n - 1, i - 1);
    }
  }

  lemma {:induction false} LowBitsOdd(v: nat, n: nat)
    ensures CyclicCode.Odd(LowBits(v, n)) == OddNumber(v, n)
    decreases n
  {
    if n > 0 {
      LowBitsOdd(v / 2, n - 1);
      assert LowBits(v, n)[1..] == LowBits(v / 2, n - 1);
    }
  }

  /** The two facts about the polynomial that the guarantees need. */
  lemma PolyShape()
    ensures POLY[31] && CyclicCode.Odd(POLY)
  {
    ShapeOfNumber(0x82f6_3b78);
    PolyNumbers();
  }

  lemma ShapeOfNumber(v: nat)
    ensures OfNat(v)[31] == BitAt(v, 31)
    ensures CyclicCode.Odd(OfNat(v)) == OddNumber(v, 32)
  {
    LowBitsAt(v, |ZERO|, 31);
    LowBitsOdd(v, |ZERO|);
  }

  lemma PolyNumbers()
    ensures BitAt(0x82f6_3b78, 31)
    ensures OddNumber(0x82f6_3b78, 32)
  {
    assert BitAt(0x82, 7) && BitAt(0x82f6, 15) && BitAt(0x82f6_3b, 23);
    assert !OddNumber(0x82, 8) && !OddNumber(0x82f6, 16) && OddNumber(0x82f6_3b, 24);
  }
}
