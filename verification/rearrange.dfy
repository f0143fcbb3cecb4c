/** The in-place bit-reversal permutation of src/complex.rs (`rearrange`). */
module BitReversal {
  import opened Bits

  /** Reference definition: position p receives the element at the bit
      reversal of p. */
  function BitReversed<T>(data: seq<T>): (r: seq<T>)
    requires PowerOfTwoOrEmpty(|data|)
    ensures |r| == |data|
  {
    var k := Width(|data|);
    seq(|data|, p requires 0 <= p < |data| => data[BitRev(p, k)])
  }

  /** The element that starts at index i ends at the bit reversal of i. */
  lemma BitReversedMoves<T>(data: seq<T>)
    requires PowerOfTwoOrEmpty(|data|)
    ensures |BitReversed(data)| == |data|
    ensures forall i :: 0 <= i < |data| ==>
      BitRev(i, Width(|data|)) < |data| &&
      BitReversed(data)[BitRev(i, Width(|data|))] == data[i]
  {
    var k := Width(|data|);
    forall i | 0 <= i < |data|
      ensures BitReversed(data)[BitRev(i, k)] == data[i]
    {
      BitRevInvolution(i, k);
    }
  }

  /** Bit reversal is an involution: rearranging twice restores the data. */
  lemma BitReversedTwice<T>(data: seq<T>)
    requires PowerOfTwoOrEmpty(|data|)
    ensures BitReversed(BitReversed(data)) == data
  {
    var k := Width(|data|);
    forall p | 0 <= p < |data|
      ensures BitReversed(BitReversed(data))[p] == data[p]
    {
      BitRevInvolution(p, k);
    }
  }

  /** Swapping positions i and j keeps the multiset of elements. */
  lemma SwapPermutes<T>(s: seq<T>, i: nat, j: nat)
    requires i < |s| && j < |s|
    ensures multiset(s[i := s[j]][j := s[i]]) == multiset(s)
  {
    if i != j {
      var t := s[i := s[j]];
      assert multiset(t) == multiset(s) - multiset{s[i]} + multiset{s[j]};
      assert multiset(t[j := s[i]]) == multiset(t) - multiset{t[j]} + multiset{s[i]};
    }
  }

  /** The mask-carry step: from the bit reversal of i it computes the bit
      reversal of i + 1, wrapping to 0 after the last index. */
  method NextReversed(j: nat, n: nat, ghost i: nat, ghost k: nat) returns (next: nat)
    requires n == Pow2(k) && i < n && j == BitRev(i, k)
    ensures next < n
    ensures next == BitRev(Next(i, n), k)
    ensures i + 1 < n ==> next == BitRev(i + 1, k)
  {
    HalfPow2(k);
    next := j;
    var mask: nat := n / 2;
    while HasBit(next, mask)
      invariant mask == 0 || IsPow2(mask)
      invariant RevInc(next, mask) == RevInc(j, n / 2)
      decreases mask
    {
      HasBitAtLeast(next, mask);
      next := next - mask;   // j &= !mask
      mask := mask / 2;      // mask >>= 1
    }
    if mask > 0 {
      next := next + mask;   // j |= mask
    }
    assert next == RevInc(j, n / 2);
    RevIncStep(i, k);
  }

  /** After positions 0 .. i-1 have been visited, every position that is
      below i, or whose reversal is below i, already holds its final element;
      every other position still holds its original one. */
  ghost predicate Visited<T>(data: seq<T>, r: seq<T>, i: nat, k: nat)
    requires |data| == Pow2(k)
  {
    |r| == |data| &&
    forall p :: 0 <= p < |data| ==>
      r[p] == if p < i || BitRev(p, k) < i then data[BitRev(p, k)] else data[p]
  }

  /** Visiting position i: the pair (i, j) is swapped when j is ahead of i. */
  lemma VisitStep<T>(data: seq<T>, r: seq<T>, i: nat, j: nat, k: nat)
    requires |data| == Pow2(k) && i < |data| && j == BitRev(i, k)
    requires Visited(data, r, i, k)
    ensures j < |r|
    ensures Visited(data, if j > i then r[i := r[j]][j := r[i]] else r, i + 1, k)
  {
    BitRevInvolution(i, k);
    forall p | 0 <= p < |data| && BitRev(p, k) == i
      ensures p == j
    {
      BitRevInvolution(p, k);
    }
  }

  /** The running index j walks through the bit reversals of 0, 1, 2, ...:
      after each position it is advanced by the mask-carry step, and the pair
      (i, j) is swapped once, when j > i. */
  method Rearrange<T>(data: seq<T>) returns (r: seq<T>)
    requires PowerOfTwoOrEmpty(|data|)
    ensures r == BitReversed(data)
    ensures multiset(r) == multiset(data)
  {
    var n := |data|;
    if n == 0 {
      return data;
    }
    ghost var k := Width(n);
    r := data;
    var j: nat := 0;
    var i := 0;
    BitRevZero(k);
    while i < n
      invariant i <= n
      invariant i < n ==> j == BitRev(i, k)
      invariant multiset(r) == multiset(data)
      invariant Visited(data, r, i, k)
    {
      VisitStep(data, r, i, j, k);
      if j > i {
        SwapPermutes(r, i, j);
        r := r[i := r[j]][j := r[i]];
      }
      j := NextReversed(j, n, i, k);
      i := i + 1;
    }
  }
}
