/** Words as numbers: what the bit-vector operations are in arithmetic modulo 2^32. */
module WordNumbers {
  import opened Words

  /** Exclusive or of the low `n` binary digits. */
  function XorDigits(a: nat, b: nat, n: nat): nat
    decreases n
  {
    if n == 0 then 0 else (a % 2 + b % 2) % 2 + 2 * XorDigits(a / 2, b / 2, n - 1)
  }

  /** Exclusive or of two numbers below 2^32. */
  function XorNumber(a: nat, b: nat): nat {
    XorDigits(a, b, |ZERO|)
  }

  lemma DoubledProduct(p: nat, x: nat)
    ensures (2 * p) * x == 2 * (p * x)
  {
  }

  lemma {:induction false} ToNatConcat(a: seq<bool>, b: seq<bool>)
    ensures ToNat(a + b) == ToNat(a) + Pow2(|a|) * ToNat(b)
  {
    if a == [] {
      assert a + b == b;
    } else {
      assert (a + b)[0] == a[0] && (a + b)[1..] == a[1..] + b;
      ToNatConcat(a[1..], b);
      DoubledProduct(Pow2(|a| - 1), ToNat(b));
    }
  }

  lemma {:induction false} PaddedNumber(bits: seq<bool>, n: nat)
    ensures ToNat(bits + Zeros(n)) == ToNat(bits)
    decreases |bits|, n
  {
    var padded := bits + Zeros(n);
    if bits != [] {
      assert padded[0] == bits[0] && padded[1..] == bits[1..] + Zeros(n);
      PaddedNumber(bits[1..], n);
    } else if n > 0 {
      assert padded[1..] == bits + Zeros(n - 1);
      PaddedNumber(bits, n - 1);
    } else {
      assert padded == bits;
    }
  }

  lemma WidenIsNumber(bits: seq<bool>)
    requires |bits| <= 32
    ensures ToNat(Widen(bits)) == ToNat(bits)
  {
    var n := 32 - |bits|;
    PaddedNumber(bits, n);
    assert Widen(bits) == bits + Zeros(n);
  }

  predicate Xored(x: seq<bool>, y: seq<bool>, z: seq<bool>) {
    |x| == |y| == |z| && forall i :: 0 <= i < |z| ==> z[i] == (x[i] != y[i])
  }

  lemma {:induction false} BitsXor(x: seq<bool>, y: seq<bool>, z: seq<bool>)
    requires Xored(x, y, z)
    ensures ToNat(z) == XorDigits(ToNat(x), ToNat(y), |z|)
  {
    if z != [] {
      BitsXor(x[1..], y[1..], z[1..]);
      assert ToNat(x) / 2 == ToNat(x[1..]) && ToNat(y) / 2 == ToNat(y[1..]);
    }
  }

  lemma XorIsNumber(x: Word, y: Word)
    ensures ToNat(Xor(x, y)) == XorNumber(ToNat(x), ToNat(y))
  {
    BitsXor(x, y, Xor(x, y));
  }

  /** A word's number is that of its low bits and, above them, that of its high bits. */
  lemma Split(x: Word, n: nat)
    requires n <= 32
    ensures ToNat(x) == ToNat(x[..n]) + Pow2(n) * ToNat(x[n..])
    ensures ToNat(x[..n]) < Pow2(n) && ToNat(x[n..]) < Pow2(32 - n)
  {
    assert x == x[..n] + x[n..];
    ToNatConcat(x[..n], x[n..]);
    ToNatBound(x[..n]);
    ToNatBound(x[n..]);
  }

  lemma ShiftDrops(x: Word, n: nat)
    requires n <= 32
    ensures ToNat(ShiftRight(x, n)) == ToNat(x[n..])
  {
    PaddedNumber(x[n..], n);
  }

  lemma RotateSwaps(x: Word, n: nat)
    requires n <= 32
    ensures ToNat(RotateLeft(x, n)) == ToNat(x[32 - n..]) + Pow2(n) * ToNat(x[..32 - n])
  {
    ToNatConcat(x[32 - n..], x[..32 - n]);
  }

  lemma Powers()
    ensures Pow2(8) == 0x100 && Pow2(13) == 0x2000 && Pow2(15) == 0x8000 && Pow2(16) == 0x1_0000
    ensures Pow2(17) == 0x2_0000 && Pow2(19) == 0x8_0000
  {
    assert Pow2(8) == 0x100;
  }

  /** Shifting right by 13 and by 16 is division. */
  lemma ShiftsDivide(x: Word)
    ensures ToNat(ShiftRight(x, 13)) == ToNat(x) / 0x2000
    ensures ToNat(ShiftRight(x, 16)) == ToNat(x) / 0x1_0000
  {
    Powers();
    Split(x, 13);
    Split(x, 16);
    ShiftDrops(x, 13);
    ShiftDrops(x, 16);
  }

  lemma Turned13(low: nat, high: nat)
    requires low < 0x8_0000 && high < 0x2000
    ensures ((low + 0x8_0000 * high) * 0x2000) % M32 == 0x2000 * low
    ensures (low + 0x8_0000 * high) / 0x8_0000 == high
  {
    assert (low + 0x8_0000 * high) * 0x2000 == 0x2000 * low + M32 * high;
  }

  lemma Turned15(low: nat, high: nat)
    requires low < 0x2_0000 && high < 0x8000
    ensures ((low + 0x2_0000 * high) * 0x8000) % M32 == 0x8000 * low
    ensures (low + 0x2_0000 * high) / 0x2_0000 == high
  {
    assert (low + 0x2_0000 * high) * 0x8000 == 0x8000 * low + M32 * high;
  }

  /** Rotating left by 13 is multiplication modulo 2^32, with what is carried out added back. */
  lemma RotateBy13(x: Word)
    ensures ToNat(RotateLeft(x, 13)) == (ToNat(x) * 0x2000) % M32 + ToNat(x) / 0x8_0000
  {
    var low, high := ToNat(x[..19]), ToNat(x[19..]);
    Powers();
    Split(x, 19);
    RotateSwaps(x, 13);
    assert ToNat(x) == low + 0x8_0000 * high;
    assert ToNat(RotateLeft(x, 13)) == high + 0x2000 * low;
    Turned13(low, high);
  }

  lemma RotateBy15(x: Word)
    ensures ToNat(RotateLeft(x, 15)) == (ToNat(x) * 0x8000) % M32 + ToNat(x) / 0x2_0000
  {
    var low, high := ToNat(x[..17]), ToNat(x[17..]);
    Powers();
    Split(x, 17);
    RotateSwaps(x, 15);
    assert ToNat(x) == low + 0x2_0000 * high;
    assert ToNat(RotateLeft(x, 15)) == high + 0x8000 * low;
    Turned15(low, high);
  }

  /** What is left above `n` binary digits. */
  function Above(v: nat, n: nat): nat
    decreases n
  {
    if n == 0 then v else Above(v / 2, n - 1)
  }

  /** A number is its low digits, and the rest of it above them. */
  lemma {:induction false} LowDigits(v: nat, n: nat)
    ensures v == ToNat(LowBits(v, n)) + Pow2(n) * Above(v, n)
    decreases n
  {
    if n > 0 {
      var h := Above(v / 2, n - 1);
      LowDigits(v / 2, n - 1);
      assert LowBits(v, n)[1..] == LowBits(v / 2, n - 1);
      DoubledProduct(Pow2(n - 1), h);
    }
  }

  lemma OfNatMod(v: nat)
    ensures ToNat(OfNat(v)) == v % M32
  {
    LowDigits(v, |ZERO|);
    ToNatBound(OfNat(v));
    WordRange();
  }

  lemma NotIsNumber(x: Word)
    ensures ToNat(Not(x)) == M32 - 1 - ToNat(x)
  {
    BitsNot(x, Not(x));
    WordRange();
  }

  lemma {:induction false} BitsNot(x: seq<bool>, y: seq<bool>)
    requires |x| == |y| && forall i :: 0 <= i < |x| ==> y[i] == !x[i]
    ensures ToNat(y) == Pow2(|x|) - 1 - ToNat(x)
  {
    if x != [] {
      BitsNot(x[1..], y[1..]);
    }
  }
}
