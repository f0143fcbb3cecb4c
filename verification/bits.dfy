/** Powers of two, bit extraction and the bit-reversal permutation of indices.
    Bitwise operations on a single-bit mask are written arithmetically:
    for a mask that is a power of two, `j & mask != 0` is `(j / mask) % 2 == 1`. */
module Bits {

  function Pow2(k: nat): (r: nat)
    ensures r >= 1
  {
    if k == 0 then 1 else 2 * Pow2(k - 1)
  }

  /** n is 1, 2, 4, 8, ... (zero is not a power of two). */
  predicate IsPow2(n: nat)
    decreases n
  {
    n == 1 || (n >= 2 && n % 2 == 0 && IsPow2(n / 2))
  }

  /** The exponent of a power of two. */
  function Log2(n: nat): (k: nat)
    requires IsPow2(n)
    ensures Pow2(k) == n
    decreases n
  {
    if n == 1 then 0 else 1 + Log2(n / 2)
  }

  /** A length the transforms accept: a power of two, or an empty buffer. */
  predicate PowerOfTwoOrEmpty(n: nat)
  {
    n == 0 || IsPow2(n)
  }

  /** The number of index bits of such a length (0 for the empty buffer). */
  function Width(n: nat): (k: nat)
    requires PowerOfTwoOrEmpty(n)
    ensures n > 0 ==> Pow2(k) == n
  {
    if n == 0 then 0 else Log2(n)
  }

  lemma {:induction false} Pow2IsPow2(k: nat)
    ensures IsPow2(Pow2(k))
    ensures Log2(Pow2(k)) == k
  {
    if k > 0 {
      Pow2IsPow2(k - 1);
      assert Pow2(k) / 2 == Pow2(k - 1);
    }
  }

  /** The first mask of the carry loop, n >> 1, is a power of two or zero. */
  lemma HalfPow2(k: nat)
    ensures Pow2(k) / 2 == 0 || IsPow2(Pow2(k) / 2)
  {
    if k > 0 {
      assert Pow2(k) / 2 == Pow2(k - 1);
      Pow2IsPow2(k - 1);
    }
  }

  lemma DoublePow2(x: nat)
    requires IsPow2(x)
    ensures IsPow2(2 * x)
  {
    assert (2 * x) / 2 == x;
  }

  /** Of two distinct powers of two the larger is at least twice the smaller. */
  lemma {:induction false} PowerBelow(a: nat, b: nat)
    requires IsPow2(a) && IsPow2(b) && a < b
    ensures 2 * a <= b
    decreases a
  {
    if a > 1 {
      assert a == 2 * (a / 2) && b == 2 * (b / 2);
      PowerBelow(a / 2, b / 2);
    }
  }

  /** The quotient and remainder of q * m + r by m, for 0 <= r < m. */
  lemma DivMulAdd(q: int, m: int, r: int)
    requires m > 0 && 0 <= r < m
    ensures (q * m + r) / m == q
    ensures (q * m + r) % m == r
  {
    var x := q * m + r;
    var d := x / m;
    assert (q - d) * m == x % m - r;
    MulBetween(q - d, m);
  }

  /** The only multiple of m strictly between -m and m is 0. */
  lemma MulBetween(c: int, m: int)
    requires m > 0
    ensures -m < c * m < m ==> c == 0
  {
    if c > 0 {
      assert c * m >= 1 * m;
    } else if c < 0 {
      assert c * m <= -1 * m;
    }
  }

  /** Bit b of i (bit 0 is the least significant). */
  function Bit(i: nat, b: nat): (r: nat)
    ensures r < 2
  {
    if b == 0 then i % 2 else Bit(i / 2, b - 1)
  }

  /** Adding a multiple of 2^e, with b < e, leaves bit b unchanged. */
  lemma {:induction false} BitAboveUnchanged(t: nat, y: nat, e: nat, b: nat)
    requires b < e
    ensures Bit(t * Pow2(e) + y, b) == Bit(y, b)
  {
    var h := t * Pow2(e - 1);
    assert t * Pow2(e) == 2 * h;
    if b > 0 {
      assert (2 * h + y) / 2 == h + y / 2;
      BitAboveUnchanged(t, y / 2, e - 1, b - 1);
    }
  }

  /** Bit e of t * 2^e + y is t, when t is a bit and y < 2^e. */
  lemma {:induction false} BitAtTop(t: nat, y: nat, e: nat)
    requires t < 2 && y < Pow2(e)
    ensures Bit(t * Pow2(e) + y, e) == t
  {
    if e > 0 {
      var h := t * Pow2(e - 1);
      assert t * Pow2(e) == 2 * h;
      assert (2 * h + y) / 2 == h + y / 2;
      BitAtTop(t, y / 2, e - 1);
    }
  }

  /** Two numbers below 2^k that agree on the k low bits are equal. */
  lemma {:induction false} BitsDetermine(x: nat, y: nat, k: nat)
    requires x < Pow2(k) && y < Pow2(k)
    requires forall b: nat :: b < k ==> Bit(x, b) == Bit(y, b)
    ensures x == y
  {
    if k == 0 {
    } else {
      assert Bit(x, 0) == Bit(y, 0);
      forall b: nat | b < k - 1
        ensures Bit(x / 2, b) == Bit(y / 2, b)
      {
        assert Bit(x, b + 1) == Bit(y, b + 1);
      }
      BitsDetermine(x / 2, y / 2, k - 1);
    }
  }

  /** Reverses the k low bits of i: its lowest bit becomes bit k-1 of the result. */
  function BitRev(i: nat, k: nat): (r: nat)
    ensures r < Pow2(k)
  {
    if k == 0 then 0 else (i % 2) * Pow2(k - 1) + BitRev(i / 2, k - 1)
  }

  /** BitRev really is bit reversal: bit b of the result is bit k-1-b of the input. */
  lemma {:induction false} BitRevReversesBits(i: nat, k: nat, b: nat)
    requires b < k
    ensures Bit(BitRev(i, k), b) == Bit(i, k - 1 - b)
  {
    var rest := BitRev(i / 2, k - 1);
    var top := i % 2;
    assert BitRev(i, k) == top * Pow2(k - 1) + rest;
    if b == k - 1 {
      BitAtTop(top, rest, k - 1);
      assert Bit(i, 0) == top;
    } else {
      BitAboveUnchanged(top, rest, k - 1, b);
      BitRevReversesBits(i / 2, k - 1, b);
      assert Bit(i, k - 1 - b) == Bit(i / 2, k - 2 - b);
    }
  }

  /** Reversing twice gives back every index below 2^k. */
  lemma BitRevInvolution(i: nat, k: nat)
    requires i < Pow2(k)
    ensures BitRev(BitRev(i, k), k) == i
  {
    forall b: nat | b < k
      ensures Bit(BitRev(BitRev(i, k), k), b) == Bit(i, b)
    {
      BitRevReversesBits(BitRev(i, k), k, b);
      BitRevReversesBits(i, k, k - 1 - b);
    }
    BitsDetermine(BitRev(BitRev(i, k), k), i, k);
  }

  /** The index after i in a cyclic count of n: i + 1, or 0 after the last. */
  function Next(i: nat, n: nat): (r: nat)
  {
    if i + 1 < n then i + 1 else 0
  }

  /** `j & mask != 0`, for a mask that is a power of two or zero. */
  predicate HasBit(j: nat, mask: nat)
  {
    mask > 0 && (j / mask) % 2 == 1
  }

  /** A number with the mask bit set is at least the mask. */
  lemma HasBitAtLeast(j: nat, mask: nat)
    ensures HasBit(j, mask) ==> j >= mask
  {
    if HasBit(j, mask) {
      DivMulAdd(j / mask, mask, j % mask);
      assert j == (j / mask) * mask + j % mask;
      assert (j / mask) * mask >= 1 * mask;
    }
  }

  /** One step of the reversed counter used by the in-place bit reversal:
      set bits are cleared from `mask` downwards, then the first clear one is
      set (`j &= !mask; mask >>= 1` while the bit is set, then `j |= mask`). */
  function RevInc(j: nat, mask: nat): (r: nat)
    decreases mask
  {
    if HasBit(j, mask) then
      HasBitAtLeast(j, mask);
      RevInc(j - mask, mask / 2)
    else if mask == 0 then j
    else j + mask
  }

  lemma {:induction false} BitRevZero(k: nat)
    ensures BitRev(0, k) == 0
  {
    if k > 0 {
      BitRevZero(k - 1);
    }
  }

  /** The top bit of a k-bit reversal is the lowest bit of the input. */
  lemma BitRevTop(i: nat, k: nat)
    requires k > 0
    ensures HasBit(BitRev(i, k), Pow2(k - 1)) <==> i % 2 == 1
    ensures BitRev(i, k) == (i % 2) * Pow2(k - 1) + BitRev(i / 2, k - 1)
  {
    DivMulAdd(i % 2, Pow2(k - 1), BitRev(i / 2, k - 1));
  }

  /** Reversed increment: the carry step turns the reversal of i into the
      reversal of i + 1 (wrapping to 0 after the last index). */
  lemma {:induction false} RevIncStep(i: nat, k: nat)
    requires i < Pow2(k)
    ensures RevInc(BitRev(i, k), Pow2(k) / 2) == BitRev(Next(i, Pow2(k)), k)
  {
    if k == 0 {
      assert Pow2(0) / 2 == 0;
    } else if i % 2 == 0 {
      RevIncEven(i, k);
    } else {
      RevIncStep(i / 2, k - 1);
      RevIncOdd(i, k);
    }
  }

  /** An even index: the top bit is clear and the step just sets it. */
  lemma RevIncEven(i: nat, k: nat)
    requires k > 0 && i < Pow2(k) && i % 2 == 0
    ensures RevInc(BitRev(i, k), Pow2(k) / 2) == BitRev(Next(i, Pow2(k)), k)
  {
    RevIncSetsTop(i, k);
    assert Pow2(k) == 2 * Pow2(k - 1);
    assert i + 1 < Pow2(k);
  }

  lemma RevIncSetsTop(i: nat, k: nat)
    requires k > 0 && i % 2 == 0
    ensures RevInc(BitRev(i, k), Pow2(k) / 2) == BitRev(i + 1, k)
  {
    var m := Pow2(k - 1);
    assert Pow2(k) / 2 == m;
    BitRevTop(i, k);
    assert RevInc(BitRev(i, k), m) == BitRev(i / 2, k - 1) + m;
    BitRevTop(i + 1, k);
    assert (i + 1) / 2 == i / 2;
  }

  /** An odd index: the top bit is cleared and the carry moves to i / 2. */
  lemma RevIncOdd(i: nat, k: nat)
    requires k > 0 && i < Pow2(k) && i % 2 == 1
    requires RevInc(BitRev(i / 2, k - 1), Pow2(k - 1) / 2)
          == BitRev(Next(i / 2, Pow2(k - 1)), k - 1)
    ensures RevInc(BitRev(i, k), Pow2(k) / 2) == BitRev(Next(i, Pow2(k)), k)
  {
    RevIncClearsTop(i, k);
    NextOdd(i, k);
    BitRevEven(Next(i, Pow2(k)), k);
  }

  /** For odd i, halving the successor of i is taking the successor of i / 2. */
  lemma NextOdd(i: nat, k: nat)
    requires k > 0 && i < Pow2(k) && i % 2 == 1
    ensures Next(i, Pow2(k)) % 2 == 0
    ensures Next(i, Pow2(k)) / 2 == Next(i / 2, Pow2(k - 1))
  {
    assert Pow2(k) == 2 * Pow2(k - 1);
  }

  /** An even index contributes no top bit to its reversal. */
  lemma BitRevEven(x: nat, k: nat)
    requires k > 0 && x % 2 == 0
    ensures BitRev(x, k) == BitRev(x / 2, k - 1)
  {
  }

  lemma RevIncClearsTop(i: nat, k: nat)
    requires k > 0 && i % 2 == 1
    ensures RevInc(BitRev(i, k), Pow2(k) / 2) == RevInc(BitRev(i / 2, k - 1), Pow2(k - 1) / 2)
  {
    var m := Pow2(k - 1);
    assert Pow2(k) / 2 == m;
    BitRevTop(i, k);
  }

  /** The mask at which the carry step stops; 0 exactly when every bit was set. */
  function CarryStop(j: nat, mask: nat): (r: nat)
    decreases mask
  {
    if HasBit(j, mask) then
      HasBitAtLeast(j, mask);
      CarryStop(j - mask, mask / 2)
    else mask
  }

  /** Before the last index the carry never runs off the bottom. */
  lemma {:induction false} CarryStopsBeforeLast(i: nat, k: nat)
    requires i + 1 < Pow2(k)
    ensures CarryStop(BitRev(i, k), Pow2(k) / 2) > 0
  {
    assert k > 0;
    var m := Pow2(k - 1);
    assert Pow2(k) / 2 == m;
    BitRevTop(i, k);
    var r := BitRev(i, k);
    if i % 2 == 1 {
      assert r - m == BitRev(i / 2, k - 1);
      assert i / 2 + 1 < m;
      CarryStopsBeforeLast(i / 2, k - 1);
      assert CarryStop(r, m) == CarryStop(r - m, m / 2);
    } else {
      assert !HasBit(r, m);
    }
  }
}
