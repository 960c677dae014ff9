/** Bytes and 32-bit words as bit vectors, lowest bit first.

    A `u8` is eight booleans and a `u32` thirty-two, so exclusive or, shifts,
    rotations and little-endian assembly are operations on sequences. Products and
    sums go through the number a word stands for and wrap at 2^32. */
module Words {

  type Byte = b: seq<bool> | |b| == 8 witness seq(8, _ => false)
  type Word = w: seq<bool> | |w| == 32 witness seq(32, _ => false)

  const M32: nat := 0x1_0000_0000

  function Zeros(n: nat): (z: seq<bool>)
    ensures |z| == n && forall i :: 0 <= i < n ==> !z[i]
  {
    seq(n, _ => false)
  }

  const ZERO: Word := Zeros(32)

  function Not(x: Word): (r: Word)
    ensures forall i :: 0 <= i < 32 ==> r[i] == !x[i]
  {
    seq(32, i requires 0 <= i < 32 => !x[i])
  }

  function Xor(x: Word, y: Word): (r: Word)
    ensures forall i :: 0 <= i < 32 ==> r[i] == (x[i] != y[i])
  {
    seq(32, i requires 0 <= i < 32 => x[i] != y[i])
  }

  /** `x >> n`. */
  function ShiftRight(x: Word, n: nat): Word
    requires n <= 32
  {
    x[n..] + Zeros(n)
  }

  /** `x.rotate_left(n)`: bit `i` goes to bit `i + n`. */
  function RotateLeft(x: Word, n: nat): Word
    requires n <= 32
  {
    x[32 - n..] + x[..32 - n]
  }

  /** Bits padded with zeros above. */
  function Widen(bits: seq<bool>): Word
    requires |bits| <= 32
  {
    bits + Zeros(32 - |bits|)
  }

  function ToNat(bits: seq<bool>): nat {
    if bits == [] then 0 else (if bits[0] then 1 else 0) + 2 * ToNat(bits[1..])
  }

  /** The low `n` bits of a number. */
  function LowBits(v: nat, n: nat): (bits: seq<bool>)
    ensures |bits| == n
    decreases n
  {
    if n == 0 then [] else [v % 2 == 1] + LowBits(v / 2, n - 1)
  }

  /** `v as u32`. */
  function OfNat(v: nat): Word {
    LowBits(v, |ZERO|)
  }

  /** `x.wrapping_mul(c).wrapping_add(d)`. */
  function MulAdd(x: Word, c: nat, d: nat): Word {
    OfNat((ToNat(x) * c + d) % M32)
  }

  // ---------------------------------------------------------------------------
  // Words and numbers
  // ---------------------------------------------------------------------------

  function Pow2(n: nat): (p: nat)
    ensures p > 0
  {
    if n == 0 then 1 else 2 * Pow2(n - 1)
  }

  lemma {:induction false} ToNatBound(bits: seq<bool>)
    ensures ToNat(bits) < Pow2(|bits|)
  {
    if bits != [] {
      ToNatBound(bits[1..]);
    }
  }

  lemma {:induction false} LowBitsOfNumber(bits: seq<bool>)
    ensures LowBits(ToNat(bits), |bits|) == bits
  {
    if bits != [] {
      LowBitsOfNumber(bits[1..]);
      assert ToNat(bits) / 2 == ToNat(bits[1..]);
      assert bits == [bits[0]] + bits[1..];
    }
  }

  lemma {:induction false} NumberOfLowBits(v: nat, n: nat)
    requires v < Pow2(n)
    ensures ToNat(LowBits(v, n)) == v
    decreases n
  {
    if n > 0 {
      NumberOfLowBits(v / 2, n - 1);
      assert LowBits(v, n)[1..] == LowBits(v / 2, n - 1);
    }
  }

  lemma WordRange()
    ensures Pow2(32) == M32
  {
    assert Pow2(8) == 0x100;
    assert Pow2(16) == 0x1_0000;
    assert Pow2(24) == 0x100_0000;
  }

  lemma WordRoundTrip(x: Word)
    ensures ToNat(x) < M32 && OfNat(ToNat(x)) == x
  {
    WordRange();
    ToNatBound(x);
    LowBitsOfNumber(x);
  }

  lemma NumberRoundTrip(v: nat)
    requires v < M32
    ensures ToNat(OfNat(v)) == v
  {
    WordRange();
    NumberOfLowBits(v, |ZERO|);
  }

  lemma MulAddNumber(x: Word, c: nat, d: nat)
    ensures ToNat(MulAdd(x, c, d)) == (ToNat(x) * c + d) % M32
  {
    NumberRoundTrip((ToNat(x) * c + d) % M32);
  }

  /** Multiplying by an odd constant can be undone: `e` is its inverse mod 2^32. */
  lemma MulAddInjective(x: Word, y: Word, c: nat, d: nat, e: nat)
    requires (c * e) % M32 == 1
    requires MulAdd(x, c, d) == MulAdd(y, c, d)
    ensures x == y
  {
    MulAddNumber(x, c, d);
    MulAddNumber(y, c, d);
    WordRoundTrip(x);
    WordRoundTrip(y);
    UndoProduct(ToNat(x), ToNat(y), c, d, e);
  }

  lemma UndoProduct(a: nat, b: nat, c: nat, d: nat, e: nat)
    requires a < M32 && b < M32 && (c * e) % M32 == 1
    requires (a * c + d) % M32 == (b * c + d) % M32
    ensures a == b
  {
    var q := (a * c + d) / M32 - (b * c + d) / M32;
    var k := (c * e) / M32;
    assert (a - b) * c == q * M32;
    assert c * e == k * M32 + 1;
    calc {
      a - b;
      (a - b) * (c * e - k * M32);
      ((a - b) * c) * e - (a - b) * k * M32;
      q * M32 * e - (a - b) * k * M32;
      { assert q * M32 * e == q * e * M32; }
      (q * e - (a - b) * k) * M32;
    }
    var t := q * e - (a - b) * k;
    assert a - b == t * M32;
    assert a - b < M32 && b - a < M32;
  }

  // ---------------------------------------------------------------------------
  // Words as vectors
  // ---------------------------------------------------------------------------

  lemma NotNot(x: Word)
    ensures Not(Not(x)) == x
  {}

  lemma XorCancel(x: Word, y: Word)
    ensures Xor(Xor(x, y), y) == x
    ensures Xor(Xor(y, x), y) == x
  {}

  lemma XorInjective(v: Word, x: Word, y: Word)
    requires Xor(v, x) == Xor(v, y)
    ensures x == y
  {
    XorCancel(x, v);
    XorCancel(y, v);
  }

  lemma XorMeets(x: Word, y: Word)
    ensures Xor(y, Xor(x, y)) == x
  {}

  lemma XorZero(x: Word)
    ensures Xor(x, ZERO) == x
  {}

  lemma RotateInjective(x: Word, y: Word, n: nat)
    requires n <= 32 && RotateLeft(x, n) == RotateLeft(y, n)
    ensures x == y
  {
    assert x == RotateLeft(x, n)[n..] + RotateLeft(x, n)[..n];
    assert y == RotateLeft(y, n)[n..] + RotateLeft(y, n)[..n];
  }

  /** `h ^ (h >> n)` keeps the top `n` bits, and each lower bit follows from one `n` above. */
  lemma {:induction false} XorShiftInjective(x: Word, y: Word, n: nat)
    requires 0 < n <= 32
    requires Xor(x, ShiftRight(x, n)) == Xor(y, ShiftRight(y, n))
    ensures x == y
  {
    forall i | 0 <= i < 32 ensures x[i] == y[i] {
      XorShiftBit(x, y, n, i);
    }
  }

  lemma {:induction false} XorShiftBit(x: Word, y: Word, n: nat, i: nat)
    requires 0 < n <= 32 && i < 32
    requires Xor(x, ShiftRight(x, n)) == Xor(y, ShiftRight(y, n))
    ensures x[i] == y[i]
    decreases 32 - i
  {
    assert Xor(x, ShiftRight(x, n))[i] == Xor(y, ShiftRight(y, n))[i];
    if i + n < 32 {
      XorShiftBit(x, y, n, i + n);
      assert ShiftRight(x, n)[i] == x[i + n] && ShiftRight(y, n)[i] == y[i + n];
    } else {
      assert !ShiftRight(x, n)[i] && !ShiftRight(y, n)[i];
    }
  }
}
