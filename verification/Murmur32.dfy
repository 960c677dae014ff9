/** Block hashing in the style of MurmurHash3_x86_32, for any three stages: blocks are
    scrambled, combined into the hash and stirred in order, then a tail of up to three
    bytes, the length and a final avalanche. A stage is a list of word operations.

    When every operation can be undone, a change inside one aligned block or the tail always
    changes the hash, and cutting the input between blocks never does. */
module BlockHash {
  import opened Words
  import CyclicCode

  /** One word operation. A product carries the inverse of its multiplier mod 2^32. */
  datatype Op =
    | MulAddBy(c: nat, d: nat, inverse: nat)
    | Rotate(turn: nat)
    | XorShift(width: nat)

  datatype Stages = Stages(scramble: seq<Op>, stir: seq<Op>, avalanche: seq<Op>)

  function Do(op: Op, x: Word): Word {
    match op
    case MulAddBy(c, d, _) => MulAdd(x, c, d)
    case Rotate(turn) => if turn <= 32 then RotateLeft(x, turn) else x
    case XorShift(width) => if width <= 32 then Xor(x, ShiftRight(x, width)) else x
  }

  function Run(ops: seq<Op>, x: Word): Word
    decreases |ops|
  {
    if ops == [] then x else Run(ops[1..], Do(ops[0], x))
  }

  predicate Undoable(op: Op) {
    match op
    case MulAddBy(c, _, inverse) => (c * inverse) % M32 == 1
    case Rotate(turn) => turn <= 32
    case XorShift(width) => 0 < width <= 32
  }

  predicate AllUndoable(ops: seq<Op>) {
    forall i :: 0 <= i < |ops| ==> Undoable(ops[i])
  }

  predicate FixesZero(op: Op) {
    match op
    case MulAddBy(_, d, _) => d == 0
    case Rotate(_) => true
    case XorShift(_) => true
  }

  predicate Sound(s: Stages) {
    && AllUndoable(s.scramble) && AllUndoable(s.stir) && AllUndoable(s.avalanche)
    && forall i :: 0 <= i < |s.scramble| ==> FixesZero(s.scramble[i])
  }

  lemma DoInjective(op: Op, x: Word, y: Word)
    requires Undoable(op) && Do(op, x) == Do(op, y)
    ensures x == y
  {
    match op
    case MulAddBy(c, d, inverse) => MulAddInjective(x, y, c, d, inverse);
    case Rotate(turn) => RotateInjective(x, y, turn);
    case XorShift(width) => XorShiftInjective(x, y, width);
  }

  lemma {:induction false} RunInjective(ops: seq<Op>, x: Word, y: Word)
    requires AllUndoable(ops) && Run(ops, x) == Run(ops, y)
    ensures x == y
    decreases |ops|
  {
    if ops != [] {
      RunInjective(ops[1..], Do(ops[0], x), Do(ops[0], y));
      DoInjective(ops[0], x, y);
    }
  }

  lemma {:induction false} ZerosAreZero(n: nat)
    ensures ToNat(Zeros(n)) == 0 && LowBits(0, n) == Zeros(n)
  {
    if n > 0 {
      ZerosAreZero(n - 1);
      assert Zeros(n)[1..] == Zeros(n - 1);
    }
  }

  lemma DoZero(op: Op)
    requires FixesZero(op)
    ensures Do(op, ZERO) == ZERO
  {
    match op
    case MulAddBy(c, d, _) =>
      ZerosAreZero(|ZERO|);
      assert 0 * c == 0;
    case Rotate(turn) =>
    case XorShift(width) =>
  }

  lemma {:induction false} RunZero(ops: seq<Op>)
    requires forall i :: 0 <= i < |ops| ==> FixesZero(ops[i])
    ensures Run(ops, ZERO) == ZERO
  {
    if ops != [] {
      DoZero(ops[0]);
      RunZero(ops[1..]);
    }
  }

  // ---------------------------------------------------------------------------
  // What the code computes
  // ---------------------------------------------------------------------------

  function MixBlock(s: Stages, h: Word, k: Word): Word {
    Run(s.stir, Xor(h, Run(s.scramble, k)))
  }

  /** `u32::from_le_bytes`. */
  function Block(bytes: seq<Byte>): Word
    requires |bytes| == 4
  {
    CyclicCode.MessageBits(bytes)
  }

  /** The whole blocks of `data`, mixed in order. */
  function Body(s: Stages, h: Word, data: seq<Byte>): Word
    decreases |data|
  {
    if |data| < 4 then h else Body(s, MixBlock(s, h, Block(data[..4])), data[4..])
  }

  function BodyLen(n: nat): (b: nat)
    ensures b <= n < b + 4 && b % 4 == 0
  {
    n / 4 * 4
  }

  /** The tail bytes, little end first. */
  function TailWord(tail: seq<Byte>): Word
    requires |tail| < 4
  {
    Widen(CyclicCode.MessageBits(tail))
  }

  /** `murmur3_x86_32_finalize`: the tail is mixed in only when it is not zero, and the
      length is cut to its low 32 bits. */
  function Finalize(s: Stages, h: Word, tail: seq<Byte>, len: nat): Word
    requires |tail| < 4
  {
    var k1 := TailWord(tail);
    var h1 := if k1 != ZERO then Xor(h, Run(s.scramble, k1)) else h;
    Run(s.avalanche, Xor(h1, OfNat(len)))
  }

  /** `murmur3_x86_32`. */
  function OneShot(s: Stages, data: seq<Byte>, seed: Word): Word {
    var b := BodyLen(|data|);
    Finalize(s, Body(s, seed, data[..b]), data[b..], |data|)
  }

  /** The block loop both the one-shot function and the streaming context run. */
  method MixBody(s: Stages, h: Word, data: seq<Byte>) returns (hash: Word)
    requires |data| % 4 == 0
    ensures hash == Body(s, h, data)
  {
    hash := h;
    var i := 0;
    while i < |data|
      invariant i <= |data| && i % 4 == 0
      invariant Body(s, hash, data[i..]) == Body(s, h, data)
    {
      assert data[i..][..4] == data[i..i + 4] && data[i..][4..] == data[i + 4..];
      hash := MixBlock(s, hash, Block(data[i..i + 4]));
      i := i + 4;
    }
  }

  method Hash(s: Stages, data: seq<Byte>, seed: Word) returns (hash: Word)
    ensures hash == OneShot(s, data, seed)
  {
    var bodyLen := |data| / 4 * 4;
    hash := MixBody(s, seed, data[..bodyLen]);
    hash := Finalize(s, hash, data[bodyLen..], |data|);
  }

  // ---------------------------------------------------------------------------
  // Cutting the body
  // ---------------------------------------------------------------------------

  lemma {:induction false} BodyConcat(s: Stages, h: Word, a: seq<Byte>, b: seq<Byte>)
    requires |a| % 4 == 0
    ensures Body(s, h, a + b) == Body(s, Body(s, h, a), b)
    decreases |a|
  {
    if a == [] {
      assert a + b == b;
    } else {
      assert (a + b)[..4] == a[..4] && (a + b)[4..] == a[4..] + b;
      BodyConcat(s, MixBlock(s, h, Block(a[..4])), a[4..], b);
    }
  }

  /** The length of the body is the only multiple of four that leaves a short tail. */
  lemma OneShotSplit(s: Stages, data: seq<Byte>, seed: Word, n: nat)
    requires n <= |data| < n + 4 && n % 4 == 0
    ensures OneShot(s, data, seed) == Finalize(s, Body(s, seed, data[..n]), data[n..], |data|)
  {
    assert n == BodyLen(|data|);
  }

  /** The blocks of a carried tail and a new piece are the next blocks of the whole. */
  lemma BlocksContinue(s: Stages, h: Word, fed: seq<Byte>, n: nat, data: seq<Byte>)
    requires n <= |fed| < n + 4 && n % 4 == 0
    ensures var combined := fed[n..] + data;
            var b := BodyLen(|combined|);
            && n + b <= |fed + data| && combined[b..] == (fed + data)[n + b..]
            && Body(s, Body(s, h, fed[..n]), combined[..b]) == Body(s, h, (fed + data)[..n + b])
  {
    var combined := fed[n..] + data;
    var b := BodyLen(|combined|);
    assert (fed + data)[..n + b] == fed[..n] + combined[..b];
    assert (fed + data)[n + b..] == combined[b..];
    BodyConcat(s, h, fed[..n], combined[..b]);
  }

  /** The published algorithm mixes the tail unconditionally; the guard changes nothing. */
  lemma GuardIsIdle(s: Stages, h: Word, tail: seq<Byte>, len: nat)
    requires Sound(s) && |tail| < 4
    ensures Finalize(s, h, tail, len) 
            == Run(s.avalanche, Xor(Xor(h, Run(s.scramble, TailWord(tail))), OfNat(len)))
  {
    RunZero(s.scramble);
    XorZero(h);
  }

  // ---------------------------------------------------------------------------
  // Detected changes
  // ---------------------------------------------------------------------------

  lemma MixInjectiveInBlock(s: Stages, h: Word, k: Word, l: Word)
    requires Sound(s) && MixBlock(s, h, k) == MixBlock(s, h, l)
    ensures k == l
  {
    RunInjective(s.stir, Xor(h, Run(s.scramble, k)), Xor(h, Run(s.scramble, l)));
    XorInjective(h, Run(s.scramble, k), Run(s.scramble, l));
    RunInjective(s.scramble, k, l);
  }

  lemma MixInjectiveInHash(s: Stages, h: Word, g: Word, k: Word)
    requires Sound(s) && MixBlock(s, h, k) == MixBlock(s, g, k)
    ensures h == g
  {
    RunInjective(s.stir, Xor(h, Run(s.scramble, k)), Xor(g, Run(s.scramble, k)));
    XorCancel(h, Run(s.scramble, k));
    XorCancel(g, Run(s.scramble, k));
  }

  lemma {:induction false} BodyInjective(s: Stages, h: Word, g: Word, data: seq<Byte>)
    requires Sound(s) && Body(s, h, data) == Body(s, g, data)
    ensures h == g
    decreases |data|
  {
    if |data| >= 4 {
      var k := Block(data[..4]);
      BodyInjective(s, MixBlock(s, h, k), MixBlock(s, g, k), data[4..]);
      MixInjectiveInHash(s, h, g, k);
    }
  }

  lemma FinalizeInjectiveInHash(s: Stages, h: Word, g: Word, tail: seq<Byte>, len: nat)
    requires Sound(s) && |tail| < 4 && Finalize(s, h, tail, len) == Finalize(s, g, tail, len)
    ensures h == g
  {
    var k, l := Run(s.scramble, TailWord(tail)), OfNat(len);
    GuardIsIdle(s, h, tail, len);
    GuardIsIdle(s, g, tail, len);
    RunInjective(s.avalanche, Xor(Xor(h, k), l), Xor(Xor(g, k), l));
    XorCancel(Xor(h, k), l);
    XorCancel(Xor(g, k), l);
    XorCancel(h, k);
    XorCancel(g, k);
  }

  lemma TailWordInjective(t: seq<Byte>, u: seq<Byte>)
    requires |t| == |u| < 4 && TailWord(t) == TailWord(u)
    ensures t == u
  {
    var bt, bu := CyclicCode.MessageBits(t), CyclicCode.MessageBits(u);
    assert bt == TailWord(t)[..|bt|] && bu == TailWord(u)[..|bu|];
    CyclicCode.MessageBitsInjective(t, u);
  }

  lemma FinalizeInjectiveInTail(s: Stages, h: Word, t: seq<Byte>, u: seq<Byte>, len: nat)
    requires Sound(s) && |t| == |u| < 4 && Finalize(s, h, t, len) == Finalize(s, h, u, len)
    ensures t == u
  {
    var k, l, m := Run(s.scramble, TailWord(t)), Run(s.scramble, TailWord(u)), OfNat(len);
    GuardIsIdle(s, h, t, len);
    GuardIsIdle(s, h, u, len);
    RunInjective(s.avalanche, Xor(Xor(h, k), m), Xor(Xor(h, l), m));
    XorCancel(Xor(h, k), m);
    XorCancel(Xor(h, l), m);
    XorInjective(h, k, l);
    RunInjective(s.scramble, TailWord(t), TailWord(u));
    TailWordInjective(t, u);
  }

  lemma BodyAround(s: Stages, h: Word, head: seq<Byte>, block: seq<Byte>, tail: seq<Byte>)
    requires |head| % 4 == 0 && |block| == 4
    ensures Body(s, h, head + (block + tail)) == Body(s, MixBlock(s, Body(s, h, head), Block(block)), tail)
  {
    BodyConcat(s, h, head, block + tail);
    assert (block + tail)[..4] == block && (block + tail)[4..] == tail;
  }

  lemma CutAround(a: seq<Byte>, b: seq<Byte>, at: nat)
    returns (head: seq<Byte>, wa: seq<Byte>, wb: seq<Byte>, tail: seq<Byte>)
    requires CyclicCode.SameOutside(a, b, at, 4) && at % 4 == 0 && at + 4 <= |a|
    ensures a == head + (wa + tail) && b == head + (wb + tail)
    ensures |head| == at && |wa| == |wb| == 4
  {
    head, wa, wb, tail := a[..at], a[at..at + 4], b[at..at + 4], a[at + 4..];
    assert b[..at] == head && b[at + 4..] == tail;
  }

  lemma BlockChangeDetected(s: Stages, h: Word, a: seq<Byte>, b: seq<Byte>, at: nat)
    requires Sound(s)
    requires CyclicCode.SameOutside(a, b, at, 4) && at % 4 == 0 && at + 4 <= |a|
    requires Body(s, h, a) == Body(s, h, b)
    ensures a == b
  {
    var head, wa, wb, tail := CutAround(a, b, at);
    BodyAround(s, h, head, wa, tail);
    BodyAround(s, h, head, wb, tail);
    var g := Body(s, h, head);
    BodyInjective(s, MixBlock(s, g, Block(wa)), MixBlock(s, g, Block(wb)), tail);
    MixInjectiveInBlock(s, g, Block(wa), Block(wb));
    CyclicCode.MessageBitsInjective(wa, wb);
  }

  /** Two equal-length messages that differ only inside one aligned four-byte block, or
      only in the tail, have different hashes under every seed. */
  lemma AlignedChangeDetected(s: Stages, seed: Word, a: seq<Byte>, b: seq<Byte>, at: nat)
    requires Sound(s) && at % 4 == 0
    requires CyclicCode.SameOutside(a, b, at, 4)
    requires a != b
    ensures OneShot(s, a, seed) != OneShot(s, b, seed)
  {
    if OneShot(s, a, seed) == OneShot(s, b, seed) {
      var n := BodyLen(|a|);
      var a0, a1, b0, b1 := CutTail(a, b, at, n);
      if at + 4 <= n {
        FinalizeInjectiveInHash(s, Body(s, seed, a0), Body(s, seed, b0), a1, |a|);
        BlockChangeDetected(s, seed, a0, b0, at);
      } else {
        FinalizeInjectiveInTail(s, Body(s, seed, a0), a1, b1, |a|);
      }
    }
  }

  /** A window that ends by `n` leaves what follows alone, one that starts there what precedes. */
  lemma CutTail(a: seq<Byte>, b: seq<Byte>, at: nat, n: nat)
    returns (a0: seq<Byte>, a1: seq<Byte>, b0: seq<Byte>, b1: seq<Byte>)
    requires CyclicCode.SameOutside(a, b, at, 4) && n <= |a| && n % 4 == 0 && at % 4 == 0
    ensures a0 == a[..n] && a1 == a[n..] && b0 == b[..n] && b1 == b[n..]
    ensures a == a0 + a1 && b == b0 + b1
    ensures CyclicCode.SameOutside(a0, b0, at, 4)
    ensures at + 4 <= n ==> a1 == b1
    ensures at + 4 > n ==> a0 == b0
  {
    a0, a1, b0, b1 := a[..n], a[n..], b[..n], b[n..];
    if at + 4 <= n {
      assert forall k :: n <= k < |a| ==> a[k] == b[k];
    } else {
      assert at >= n;
      assert forall k :: 0 <= k < n ==> a[k] == b[k];
    }
  }
}

/** The three stages of MurmurHash3_x86_32. */
module Murmur32 {
  import opened Words
  import opened BlockHash

  const MURMUR := Stages(
    [MulAddBy(0xcc9e_2d51, 0, 0xdee1_3bb1), Rotate(15), MulAddBy(0x1b87_3593, 0, 0x56ed_309b)],
    [Rotate(13), MulAddBy(5, 0xe654_6b64, 0xcccc_cccd)],
    [XorShift(16), MulAddBy(0x85eb_ca6b, 0, 0xa5cb_9243),
     XorShift(13), MulAddBy(0xc2b2_ae35, 0, 0x7ed1_b41d), XorShift(16)])

  /** `matrixraft_murmur32`: seed zero. */
  function OneShotMurmur(data: seq<Byte>): Word {
    OneShot(MURMUR, data, ZERO)
  }

  /** The multipliers are odd, the shifts in range. */
  lemma MurmurSound()
    ensures Sound(MURMUR)
  {
  }

  /** A change inside one aligned block, or in the tail, always changes the hash. */
  lemma MurmurChangeDetected(seed: Word, a: seq<Byte>, b: seq<Byte>, at: nat)
    requires at % 4 == 0
    requires CyclicCode.SameOutside(a, b, at, 4)
    requires a != b
    ensures OneShot(MURMUR, a, seed) != OneShot(MURMUR, b, seed)
  {
    MurmurSound();
    AlignedChangeDetected(MURMUR, seed, a, b, at);
  }

  /** The guarded tail step is the published unguarded one. */
  lemma MurmurGuardIsIdle(h: Word, tail: seq<Byte>, len: nat)
    requires |tail| < 4
    ensures Finalize(MURMUR, h, tail, len)
            == Run(MURMUR.avalanche, Xor(Xor(h, Run(MURMUR.scramble, TailWord(tail))), OfNat(len)))
  {
    MurmurSound();
    GuardIsIdle(MURMUR, h, tail, len);
  }
}
