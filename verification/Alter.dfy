/** The alteration of a buffer (`src/actions/alter.c`): batch by batch, a random
    number of random bits is flipped. */
module Alter {
  type Byte = bv8

  /** The rule argument, in millionths, for which doubling stays a positive C `int`. */
  type Proportion = p: int | 0 < p < 0x4000_0000 witness 1

  /** What the random source answers, draw after draw. A run takes finitely many
      draws, so every run is one of a finite sequence; past its end a draw is 0. */
  type Random = seq<nat>

  function Draw(rand: Random, k: nat): nat {
    if k < |rand| then rand[k] else 0
  }

  const BATCH: nat := 1024

  function Wrap32(x: int): (r: nat) {
    x % 0x1_0000_0000
  }

  function BatchSize(length: nat): (batch: nat)
    ensures batch <= length && (0 < length ==> 0 < batch)
  {
    if length > BATCH then BATCH else length
  }

  /** How many bits a batch flips: a 32-bit product of the drawn number, the batch size and 8. */
  function FlipCount(p: Proportion, draw: int, batch: int): nat {
    Wrap32(Wrap32((draw % (2 * p)) * batch) * 8) / 1_000_000
  }

  /** `1 << bit`. */
  function Mask(bit: nat): Byte
    requires bit < 8
  {
    if bit == 0 then 1 else if bit == 1 then 2 else if bit == 2 then 4 else if bit == 3 then 8
    else if bit == 4 then 16 else if bit == 5 then 32 else if bit == 6 then 64 else 128
  }

  /** The expression of the source that toggles the bits of a mask. */
  function Toggle(b: Byte, mask: Byte): Byte {
    (b & !mask) | ((b & mask) ^ mask)
  }

  /** Flips one bit of a buffer, the bits being numbered from its start. */
  function FlipBit(bytes: seq<Byte>, at: nat): (r: seq<Byte>)
    requires at / 8 < |bytes|
    ensures |r| == |bytes|
  {
    bytes[at / 8 := Toggle(bytes[at / 8], Mask(at % 8))]
  }

  predicate Inside(flips: seq<nat>, length: nat) {
    forall i :: 0 <= i < |flips| ==> flips[i] < 8 * length
  }

  function FlipAll(bytes: seq<Byte>, flips: seq<nat>): (r: seq<Byte>)
    requires Inside(flips, |bytes|)
    ensures |r| == |bytes|
    decreases flips
  {
    if flips == [] then bytes else FlipAll(FlipBit(bytes, flips[0]), flips[1..])
  }

  /** The bit of a batch that a draw designates. */
  function DrawnBit(rand: Random, k: nat, batch: nat): (sub: nat)
    requires 0 < batch
    ensures sub < 8 * batch
  {
    Draw(rand, k) % (8 * batch)
  }

  function FlipAt(off: nat, rand: Random, k: nat, batch: nat): (at: nat)
    requires 0 < batch
    ensures 8 * off <= at < 8 * (off + batch)
  {
    8 * off + DrawnBit(rand, k, batch)
  }

  /** The `n` bits flipped in the batch that starts at byte `off`. */
  function BatchFlips(off: nat, batch: nat, n: nat, rand: Random, k: nat): (r: seq<nat>)
    requires 0 < batch
    ensures |r| == n
    ensures forall i :: 0 <= i < n ==> 8 * off <= r[i] < 8 * (off + batch)
  {
    var flips := seq<nat>(n, i requires 0 <= i < n => FlipAt(off, rand, k + i, batch));
    assert forall i :: 0 <= i < n ==> flips[i] == FlipAt(off, rand, k + i, batch);
    flips
  }

  /** All the bits flipped in the `length` bytes from `off`, with the draws from `k` on. */
  function Plan(off: nat, length: nat, p: Proportion, rand: Random, k: nat): (r: seq<nat>)
    ensures forall i :: 0 <= i < |r| ==> 8 * off <= r[i] < 8 * (off + length)
    decreases length
  {
    if length == 0 then []
    else
      var batch := BatchSize(length);
      var n := FlipCount(p, Draw(rand, k), batch);
      BatchFlips(off, batch, n, rand, k + 1) + Plan(off + batch, length - batch, p, rand, k + 1 + n)
  }

  /** The position in the random stream after the alteration. */
  function NextDraw(length: nat, p: Proportion, rand: Random, k: nat): nat
    decreases length
  {
    if length == 0 then k
    else
      var batch := BatchSize(length);
      NextDraw(length - batch, p, rand, k + 1 + FlipCount(p, Draw(rand, k), batch))
  }

  function Altered(bytes: seq<Byte>, length: nat, p: Proportion, rand: Random, k: nat): (r: seq<Byte>)
    requires length <= |bytes|
    ensures |r| == |bytes|
  {
    FlipAll(bytes, Plan(0, length, p, rand, k))
  }

  lemma {:induction false} FlipAllAppend(bytes: seq<Byte>, f: seq<nat>, g: seq<nat>)
    requires Inside(f, |bytes|) && Inside(g, |bytes|)
    ensures Inside(f + g, |bytes|)
    ensures FlipAll(bytes, f + g) == FlipAll(FlipAll(bytes, f), g)
    decreases f
  {
    if f == [] {
      assert f + g == g;
    } else {
      assert (f + g)[0] == f[0] && (f + g)[1..] == f[1..] + g;
      FlipAllAppend(FlipBit(bytes, f[0]), f[1..], g);
    }
  }

  lemma PlanUnfolds(off: nat, length: nat, p: Proportion, rand: Random, k: nat)
    requires 0 < length
    ensures var batch := BatchSize(length);
            var n := FlipCount(p, Draw(rand, k), batch);
            && Plan(off, length, p, rand, k) == BatchFlips(off, batch, n, rand, k + 1) + Plan(off + batch, length - batch, p, rand, k + 1 + n)
            && NextDraw(length, p, rand, k) == NextDraw(length - batch, p, rand, k + 1 + n)
  {
    hide FlipCount, DrawnBit;
  }

  lemma PlanEnds(bytes: seq<Byte>, off: nat, p: Proportion, rand: Random, k: nat)
    ensures FlipAll(bytes, Plan(off, 0, p, rand, k)) == bytes && NextDraw(0, p, rand, k) == k
  {
  }

  method FlipOne(buf: array<Byte>, off: nat, sub: nat)
    requires 8 * off + sub < 8 * buf.Length
    modifies buf
    ensures buf[..] == FlipBit(old(buf[..]), 8 * off + sub)
  {
    var oct := sub / 8;
    var bit := Mask(sub - 8 * oct);
    assert (8 * off + sub) / 8 == off + oct && (8 * off + sub) % 8 == sub - 8 * oct;
    buf[off + oct] := Toggle(buf[off + oct], bit);
  }

  /** The inner loop: `n` flips within one batch. */
  method FlipInPlace(buf: array<Byte>, off: nat, batch: nat, n: nat, rand: Random, k0: nat)
    requires 0 < batch && off + batch <= buf.Length
    modifies buf
    ensures buf[..] == FlipAll(old(buf[..]), BatchFlips(off, batch, n, rand, k0))
  {
    hide DrawnBit, FlipBit;
    ghost var flips := BatchFlips(off, batch, n, rand, k0);
    for i := 0 to n
      invariant FlipAll(buf[..], flips[i..]) == FlipAll(old(buf[..]), flips)
    {
      var sub := DrawnBit(rand, k0 + i, batch);
      assert flips[i..][0] == FlipAt(off, rand, k0 + i, batch) && flips[i..][1..] == flips[i + 1..];
      FlipOne(buf, off, sub);
    }
  }

  /** The alteration in place. Returns the position reached in the random stream. */
  method AlterInPlace(buf: array<Byte>, length: nat, p: Proportion, rand: Random, k0: nat) returns (k: nat)
    requires length <= buf.Length
    modifies buf
    ensures buf[..] == Altered(old(buf[..]), length, p, rand, k0)
    ensures k == NextDraw(length, p, rand, k0)
  {
    hide FlipCount, DrawnBit, BatchFlips, FlipAll, Plan, NextDraw, BatchSize;
    var left, off := length, 0;
    k := k0;
    while left > 0
      invariant 0 <= left <= length && off + left == length
      invariant FlipAll(buf[..], Plan(off, left, p, rand, k)) == Altered(old(buf[..]), length, p, rand, k0)
      invariant NextDraw(left, p, rand, k) == NextDraw(length, p, rand, k0)
    {
      var batch := BatchSize(left);
      var n := FlipCount(p, Draw(rand, k), batch);
      PlanUnfolds(off, left, p, rand, k);
      FlipAllAppend(buf[..], BatchFlips(off, batch, n, rand, k + 1), Plan(off + batch, left - batch, p, rand, k + 1 + n));
      FlipInPlace(buf, off, batch, n, rand, k + 1);
      k := k + 1 + n;
      off := off + batch;
      left := left - batch;
    }
    PlanEnds(buf[..], off, p, rand, k);
  }

  // ----- no product wraps -----

  /** The product of a drawn number, a batch size and 8, before it is cut to 32 bits. */
  function Product(p: Proportion, draw: nat, batch: nat): nat {
    (draw % (2 * p)) * batch * 8
  }

  /** No 32-bit product of any batch wraps, whatever is drawn, exactly for proportions up to 262144. */
  lemma NoWrapIff(p: Proportion)
    ensures (forall draw: nat, batch: nat :: batch <= BATCH ==> Product(p, draw, batch) < 0x1_0000_0000)
            <==> p <= 262144
  {
    if p <= 262144 {
      forall draw: nat, batch: nat | batch <= BATCH
        ensures Product(p, draw, batch) < 0x1_0000_0000
      {
        ProductBound(draw % (2 * p), 2 * p - 1, batch, BATCH);
      }
    } else {
      LargestDraw(p);
      assert Product(p, 2 * p - 1, BATCH) >= 0x1_0000_0000;
    }
  }

  lemma LargestDraw(p: Proportion)
    ensures Product(p, 2 * p - 1, BATCH) == (2 * p - 1) * 8192
  {
    assert (2 * p - 1) % (2 * p) == 2 * p - 1;
  }

  lemma ProductBound(x: nat, y: nat, a: nat, b: nat)
    requires x <= y && a <= b
    ensures x * a <= y * b
  {
    assert x * a <= y * a <= y * b;
  }

  /** Reduction to 32 bits, where it happens, makes a product smaller. */
  lemma WrappedProduct(q: nat)
    ensures Wrap32(Wrap32(q) * 8) / 1_000_000 * 1_000_000 <= 8 * q
  {
    WrapShrinks(q);
    WrapShrinks(Wrap32(q) * 8);
  }

  lemma WrapShrinks(x: nat)
    ensures Wrap32(x) <= x
  {
  }

  /** Whether or not a product wraps, a batch flips at most 16 bits per million and byte. */
  lemma FlipCountBound(p: Proportion, draw: nat, batch: nat)
    ensures FlipCount(p, draw, batch) * 1_000_000 <= 16 * (p * batch)
  {
    hide Wrap32;
    var v := draw % (2 * p);
    ProductBound(v, 2 * p, batch, batch);
    DoubleProduct(p, batch);
    WrappedProduct(v * batch);
  }

  lemma DoubleProduct(p: nat, batch: nat)
    ensures (2 * p) * batch == 2 * (p * batch)
  {
  }

  lemma {:induction false} PlanBound(off: nat, length: nat, p: Proportion, rand: Random, k: nat)
    ensures |Plan(off, length, p, rand, k)| * 1_000_000 <= 16 * (p * length)
    decreases length
  {
    hide FlipCount, DrawnBit;
    if length > 0 {
      var batch := BatchSize(length);
      var n := FlipCount(p, Draw(rand, k), batch);
      FlipCountBound(p, Draw(rand, k), batch);
      PlanBound(off + batch, length - batch, p, rand, k + 1 + n);
      Distribute(p, batch, length - batch);
    }
  }

  lemma Distribute(a: nat, x: nat, y: nat)
    ensures a * x + a * y == a * (x + y)
  {
  }

  // ----- Hamming distance -----

  function BitOf(x: Byte, bit: nat): nat
    requires bit < 8
  {
    if x & Mask(bit) == 0 then 0 else 1
  }

  /** The number of the first `n` bits of a byte that are set. */
  function BitsBelow(x: Byte, n: nat): nat
    requires n <= 8
  {
    if n == 0 then 0 else BitsBelow(x, n - 1) + BitOf(x, n - 1)
  }

  function BitCount(x: Byte): nat {
    BitsBelow(x, 8)
  }

  /** The number of bits in which two bytes differ. */
  function ByteDistance(a: Byte, b: Byte): nat {
    BitCount(a ^ b)
  }

  /** The number of bits in which two buffers differ. */
  function Hamming(a: seq<Byte>, b: seq<Byte>): nat
    requires |a| == |b|
  {
    if a == [] then 0 else ByteDistance(a[0], b[0]) + Hamming(a[1..], b[1..])
  }

  lemma ToggleIsXor(a: Byte, b: Byte, mask: Byte)
    ensures a ^ Toggle(b, mask) == (a ^ b) ^ mask
  {
  }

  lemma MaskedXor(x: Byte, mask: Byte, other: Byte)
    ensures mask & other == 0 ==> (x ^ mask) & other == x & other
    ensures (x ^ mask) & mask == 0 <==> x & mask == mask
  {
  }

  lemma MasksAreDisjoint(bit: nat, other: nat)
    requires bit < 8 && other < 8 && bit != other
    ensures Mask(bit) & Mask(other) == 0
  {
  }

  lemma OtherBitStays(x: Byte, bit: nat, other: nat)
    requires bit < 8 && other < 8 && bit != other
    ensures BitOf(x ^ Mask(bit), other) == BitOf(x, other)
  {
    MasksAreDisjoint(bit, other);
    MaskedXor(x, Mask(bit), Mask(other));
    hide Mask;
  }

  lemma OwnBitFlips(x: Byte, bit: nat)
    requires bit < 8
    ensures BitOf(x ^ Mask(bit), bit) == 1 - BitOf(x, bit)
  {
    MaskedXor(x, Mask(bit), Mask(bit));
    SingleBit(x, bit);
    hide Mask;
  }

  lemma SingleBit(x: Byte, bit: nat)
    requires bit < 8
    ensures x & Mask(bit) == 0 || x & Mask(bit) == Mask(bit)
    ensures Mask(bit) != 0
  {
  }

  lemma {:induction false} BitsBelowXor(x: Byte, bit: nat, n: nat)
    requires bit < 8 && n <= 8
    ensures BitsBelow(x ^ Mask(bit), n) == BitsBelow(x, n) + if bit < n then 1 - 2 * BitOf(x, bit) else 0
  {
    hide Mask, BitOf;
    if n > 0 {
      BitsBelowXor(x, bit, n - 1);
      if bit == n - 1 {
        OwnBitFlips(x, bit);
      } else {
        OtherBitStays(x, bit, n - 1);
      }
    }
  }

  lemma BitCountXor(x: Byte, bit: nat)
    requires bit < 8
    ensures BitCount(x ^ Mask(bit)) == BitCount(x) + 1 || BitCount(x ^ Mask(bit)) + 1 == BitCount(x)
  {
    hide Mask, BitsBelow;
    BitsBelowXor(x, bit, 8);
  }

  /** Toggling one bit moves a byte by exactly one, towards or away from any other byte. */
  lemma ToggleMovesByOne(a: Byte, b: Byte, bit: nat)
    requires bit < 8
    ensures ByteDistance(a, Toggle(b, Mask(bit))) == ByteDistance(a, b) + 1
         || ByteDistance(a, Toggle(b, Mask(bit))) + 1 == ByteDistance(a, b)
  {
    ToggleIsXor(a, b, Mask(bit));
    BitCountXor(a ^ b, bit);
  }

  lemma {:induction false} HammingUpdate(a: seq<Byte>, b: seq<Byte>, i: nat, x: Byte)
    requires |a| == |b| && i < |a|
    ensures Hamming(a, b[i := x]) + ByteDistance(a[i], b[i]) == Hamming(a, b) + ByteDistance(a[i], x)
  {
    if i == 0 {
      assert b[i := x][1..] == b[1..];
    } else {
      assert b[i := x][1..] == b[1..][i - 1 := x];
      HammingUpdate(a[1..], b[1..], i - 1, x);
    }
  }

  lemma {:induction false} HammingSelf(a: seq<Byte>)
    ensures Hamming(a, a) == 0
  {
    if a != [] {
      NoBits(a[0]);
      HammingSelf(a[1..]);
    }
  }

  lemma NoBits(x: Byte)
    ensures ByteDistance(x, x) == 0
  {
    assert x ^ x == 0;
    NoBitsBelow(8);
  }

  lemma {:induction false} NoBitsBelow(n: nat)
    requires n <= 8
    ensures BitsBelow(0, n) == 0
  {
    if n > 0 {
      NoBitsBelow(n - 1);
      assert (0 as Byte) & Mask(n - 1) == 0;
    }
  }

  /** Flipping `flips` moves a buffer by at most as many bits, and by as many modulo two. */
  lemma {:induction false} FlipAllMoves(a: seq<Byte>, b: seq<Byte>, flips: seq<nat>)
    requires |a| == |b| && Inside(flips, |b|)
    ensures Hamming(a, FlipAll(b, flips)) <= Hamming(a, b) + |flips|
    ensures Hamming(a, FlipAll(b, flips)) % 2 == (Hamming(a, b) + |flips|) % 2
    decreases flips
  {
    if flips != [] {
      var i := flips[0] / 8;
      var x := Toggle(b[i], Mask(flips[0] % 8));
      ToggleMovesByOne(a[i], b[i], flips[0] % 8);
      HammingUpdate(a, b, i, x);
      FlipAllMoves(a, FlipBit(b, flips[0]), flips[1..]);
    }
  }

  lemma {:induction false} FlipAllStaysInside(b: seq<Byte>, flips: seq<nat>, length: nat)
    requires length <= |b| && Inside(flips, length)
    ensures FlipAll(b, flips)[length..] == b[length..]
    decreases flips
  {
    if flips != [] {
      FlipAllStaysInside(FlipBit(b, flips[0]), flips[1..], length);
      assert FlipBit(b, flips[0])[length..] == b[length..];
    }
  }

  /** Altering a buffer changes only its first `length` bytes, in at most
      `16 * p * length / 1000000` bits, and in as many bits as flips modulo two. */
  lemma AlterationIsBounded(bytes: seq<Byte>, length: nat, p: Proportion, rand: Random, k: nat)
    requires length <= |bytes|
    ensures var r := Altered(bytes, length, p, rand, k);
            && r[length..] == bytes[length..]
            && Hamming(bytes, r) * 1_000_000 <= 16 * (p * length)
            && Hamming(bytes, r) % 2 == |Plan(0, length, p, rand, k)| % 2
  {
    hide Plan, FlipAll, Hamming;
    var flips := Plan(0, length, p, rand, k);
    HammingSelf(bytes);
    FlipAllMoves(bytes, bytes, flips);
    FlipAllStaysInside(bytes, flips, length);
    PlanBound(0, length, p, rand, k);
  }

  // ----- which bits are flipped -----

  /** The number of a batch's flips before it is rounded down: so many millionths of its bits, in 32 bits. */
  lemma FlipCountIs(p: Proportion, draw: nat, batch: nat)
    ensures FlipCount(p, draw, batch) == Product(p, draw, batch) % 0x1_0000_0000 / 1_000_000
    ensures p <= 262144 && batch <= BATCH ==>
              FlipCount(p, draw, batch) * 1_000_000 <= (draw % (2 * p)) * batch * 8 < (FlipCount(p, draw, batch) + 1) * 1_000_000
  {
    var x := (draw % (2 * p)) * batch;
    WrapTwice(x);
    if p <= 262144 && batch <= BATCH {
      ProductBound(draw % (2 * p), 2 * p - 1, batch, BATCH);
      WrapNot(x * 8);
    }
  }

  lemma WrapTwice(x: nat)
    ensures Wrap32(Wrap32(x) * 8) == Wrap32(x * 8)
  {
    var q := x / 0x1_0000_0000;
    assert x == q * 0x1_0000_0000 + Wrap32(x);
    assert x * 8 == (q * 8) * 0x1_0000_0000 + Wrap32(x) * 8;
    WrapAdds(q * 8, Wrap32(x) * 8);
  }

  lemma {:induction false} WrapAdds(q: nat, y: nat)
    ensures Wrap32(q * 0x1_0000_0000 + y) == Wrap32(y)
  {
    if q > 0 {
      WrapAdds(q - 1, y);
      WrapOnce((q - 1) * 0x1_0000_0000 + y);
    }
  }

  lemma WrapOnce(x: nat)
    ensures Wrap32(0x1_0000_0000 + x) == Wrap32(x)
  {
  }

  lemma WrapNot(x: nat)
    requires x < 0x1_0000_0000
    ensures Wrap32(x) == x
  {
  }

  function Batches(length: nat): nat {
    (length + BATCH - 1) / BATCH
  }

  /** The size of batch `j`: a batch has 1024 bytes, but for the last. */
  function SizeOf(length: nat, j: nat): (size: nat)
    requires j < Batches(length)
    ensures 0 < size <= BATCH
  {
    if length - BATCH * j > BATCH then BATCH else length - BATCH * j
  }

  /** The draw that decides how many bits batch `j` flips: each batch takes one draw for that, and one for each flip. */
  function FirstDraw(length: nat, p: Proportion, rand: Random, k: nat, j: nat): (d: nat)
    requires j <= Batches(length)
    ensures k + j <= d
  {
    if j == 0 then k
    else
      var d := FirstDraw(length, p, rand, k, j - 1);
      d + 1 + FlipCount(p, Draw(rand, d), SizeOf(length, j - 1))
  }

  lemma OneBatchLess(length: nat)
    requires 0 < length
    ensures Batches(length - BatchSize(length)) + 1 == Batches(length)
    ensures forall j: nat {:trigger SizeOf(length, j)} :: 0 < j < Batches(length) ==>
              SizeOf(length, j) == SizeOf(length - BatchSize(length), j - 1)
    ensures SizeOf(length, 0) == BatchSize(length)
  {
  }

  lemma {:induction false} FirstDrawShifts(length: nat, p: Proportion, rand: Random, k: nat, j: nat)
    requires 0 < length && j < Batches(length)
    ensures Batches(length - BatchSize(length)) == Batches(length) - 1
    ensures FirstDraw(length, p, rand, k, j + 1)
            == FirstDraw(length - BatchSize(length), p, rand, k + 1 + FlipCount(p, Draw(rand, k), BatchSize(length)), j)
  {
    hide FlipCount, SizeOf, Batches, BatchSize;
    OneBatchLess(length);
    if j > 0 {
      FirstDrawShifts(length, p, rand, k, j - 1);
    } else {
      assert FirstDraw(length, p, rand, k, 0) == k;
    }
  }

  lemma NoBatches()
    ensures Batches(0) == 0
  {
  }

  /** The alteration goes from batch to batch. Flip `i` of batch `j` is at the bit of the batch that the
      next draw designates, and nothing else is flipped. */
  lemma {:induction false} PlanIs(off: nat, length: nat, p: Proportion, rand: Random, k: nat, j: nat, i: nat)
    requires j < Batches(length) && i < FlipCount(p, Draw(rand, FirstDraw(length, p, rand, k, j)), SizeOf(length, j))
    ensures var first := FirstDraw(length, p, rand, k, j);
            var plan := Plan(off, length, p, rand, k);
            && first - k - j + i < |plan|
            && plan[first - k - j + i] == 8 * off + 8 * BATCH * j + Draw(rand, first + 1 + i) % (8 * SizeOf(length, j))
    decreases length
  {
    hide FlipCount, SizeOf, Batches, BatchSize, FirstDraw, NextDraw;
    if length == 0 {
      NoBatches();
    } else {
      OneBatchLess(length);
      PlanUnfolds(off, length, p, rand, k);
      var batch := BatchSize(length);
      var n := FlipCount(p, Draw(rand, k), batch);
      FirstDrawIsStart(length, p, rand, k);
      if j > 0 {
        FirstDrawShifts(length, p, rand, k, j - 1);
        BatchIsWhole(length, j);
        PlanIs(off + batch, length - batch, p, rand, k + 1 + n, j - 1, i);
      } else {
        BatchFlipIs(off, batch, n, rand, k + 1, i);
      }
    }
  }

  lemma FirstDrawIsStart(length: nat, p: Proportion, rand: Random, k: nat)
    ensures FirstDraw(length, p, rand, k, 0) == k
  {
  }

  lemma BatchIsWhole(length: nat, j: nat)
    requires 0 < j < Batches(length)
    ensures BatchSize(length) == BATCH
  {
  }

  lemma BatchFlipIs(off: nat, batch: nat, n: nat, rand: Random, k: nat, i: nat)
    requires 0 < batch && i < n
    ensures BatchFlips(off, batch, n, rand, k)[i] == 8 * off + Draw(rand, k + i) % (8 * batch)
  {
    hide Draw;
    var flips := seq<nat>(n, i requires 0 <= i < n => FlipAt(off, rand, k + i, batch));
    assert BatchFlips(off, batch, n, rand, k) == flips;
    assert flips[i] == FlipAt(off, rand, k + i, batch);
  }

  /** All draws but one for each batch are flips. */
  lemma {:induction false} PlanCount(off: nat, length: nat, p: Proportion, rand: Random, k: nat)
    ensures |Plan(off, length, p, rand, k)| == NextDraw(length, p, rand, k) - k - Batches(length)
    ensures NextDraw(length, p, rand, k) == FirstDraw(length, p, rand, k, Batches(length))
    decreases length
  {
    hide FlipCount, SizeOf, Batches, BatchSize, FirstDraw;
    if length == 0 {
      NoBatches();
      FirstDrawIsStart(0, p, rand, k);
    } else {
      OneBatchLess(length);
      PlanUnfolds(off, length, p, rand, k);
      var batch := BatchSize(length);
      var n := FlipCount(p, Draw(rand, k), batch);
      FirstDrawShifts(length, p, rand, k, Batches(length) - 1);
      PlanCount(off + batch, length - batch, p, rand, k + 1 + n);
    }
  }

  function BitAt(bytes: seq<Byte>, at: nat): nat
    requires at < 8 * |bytes|
  {
    BitOf(bytes[at / 8], at % 8)
  }

  function Times(flips: seq<nat>, at: nat): nat {
    if flips == [] then 0 else (if flips[0] == at then 1 else 0) + Times(flips[1..], at)
  }

  lemma ToggleBit(b: Byte, bit: nat, other: nat)
    requires bit < 8 && other < 8
    ensures BitOf(Toggle(b, Mask(bit)), other) == if bit == other then 1 - BitOf(b, other) else BitOf(b, other)
  {
    assert Toggle(b, Mask(bit)) == b ^ Mask(bit) by {
      ToggleIsXor(0, b, Mask(bit));
      assert (0 as Byte) ^ b == b;
      assert (0 as Byte) ^ Toggle(b, Mask(bit)) == Toggle(b, Mask(bit));
    }
    if bit == other {
      OwnBitFlips(b, bit);
    } else {
      OtherBitStays(b, bit, other);
    }
    hide BitOf, Toggle, Mask;
  }

  lemma FlipBitAt(bytes: seq<Byte>, flip: nat, at: nat)
    requires flip < 8 * |bytes| && at < 8 * |bytes|
    ensures BitAt(FlipBit(bytes, flip), at) == if flip == at then 1 - BitAt(bytes, at) else BitAt(bytes, at)
  {
    hide Toggle, Mask, BitOf;
    if flip / 8 == at / 8 {
      ToggleBit(bytes[at / 8], flip % 8, at % 8);
    }
  }

  /** A bit of the buffer is inverted exactly if it is flipped an odd number of times. */
  lemma {:induction false} FlippedBits(bytes: seq<Byte>, flips: seq<nat>, at: nat)
    requires Inside(flips, |bytes|) && at < 8 * |bytes|
    ensures BitAt(FlipAll(bytes, flips), at) == (BitAt(bytes, at) + Times(flips, at)) % 2
    decreases flips
  {
    hide FlipBit, BitOf;
    BitIsBit(bytes, at);
    if flips != [] {
      FlipBitAt(bytes, flips[0], at);
      FlippedBits(FlipBit(bytes, flips[0]), flips[1..], at);
    }
  }

  lemma BitIsBit(bytes: seq<Byte>, at: nat)
    requires at < 8 * |bytes|
    ensures BitAt(bytes, at) == 0 || BitAt(bytes, at) == 1
  {
  }

  /** So the altered buffer is known bit by bit. */
  lemma AlteredBits(bytes: seq<Byte>, length: nat, p: Proportion, rand: Random, k: nat, at: nat)
    requires length <= |bytes| && at < 8 * |bytes|
    ensures BitAt(Altered(bytes, length, p, rand, k), at)
            == (BitAt(bytes, at) + Times(Plan(0, length, p, rand, k), at)) % 2
  {
    hide Plan;
    FlippedBits(bytes, Plan(0, length, p, rand, k), at);
  }
}
