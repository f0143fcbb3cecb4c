/** `unpack` of src/real.rs: the packed spectrum of a real signal of n points
    (n / 2 + 1 distinct bins, the real-valued first and last folded into the
    first two slots) expanded into all n complex bins, the upper half rebuilt
    by conjugate symmetry. */
module Unpacking {
  import opened Bits
  import opened Numbers
  import opened Faults

  /** The layout `unpack` produces from the packed data: bin 0 is data[0],
      bin n / 2 is data[1] (both real), bin i below n / 2 is the pair
      (data[2i], data[2i + 1]), and bin i above n / 2 is the conjugate of
      bin n - i. */
  ghost predicate Unpacked(data: seq<real>, bins: seq<Complex>)
  {
    var n := |data|;
    && n >= 2 && n % 2 == 0 && |bins| == n
    && bins[0] == Complex(data[0], 0.0)
    && bins[n / 2] == Complex(data[1], 0.0)
    && (forall i :: 1 <= i < n / 2 ==> bins[i] == Complex(data[2 * i], data[2 * i + 1]))
    && (forall i :: n / 2 < i < n ==> bins[i] == Complex(data[2 * (n - i)], -data[2 * (n - i) + 1]))
  }

  /** A spectrum with conjugate symmetry, bins[n - i] == conj(bins[i]), and a
      real first bin: the spectrum of a real signal. */
  ghost predicate Hermitian(bins: seq<Complex>)
  {
    && |bins| >= 2 && |bins| % 2 == 0
    && IsReal(bins[0])
    && forall i :: 0 < i < |bins| ==> bins[|bins| - i] == Conj(bins[i])
  }

  /** The packed layout of a spectrum, the inverse of `unpack`: slot 0 the
      first bin, slot 1 the (real) bin n / 2, slots 2i and 2i + 1 bin i. */
  function Pack(bins: seq<Complex>): (data: seq<real>)
    requires |bins| >= 2 && |bins| % 2 == 0
    ensures |data| == |bins|
  {
    var n := |bins|;
    seq(n, p requires 0 <= p < n =>
      if p == 0 then bins[0].re
      else if p == 1 then bins[n / 2].re
      else if p % 2 == 0 then bins[p / 2].re
      else bins[p / 2].im)
  }

  /** `unpack`: a length that is not a power of two is rejected; for n == 1
      the read of data[1] is past the end; otherwise the bins follow the
      layout above. */
  method Unpack(data: seq<real>) returns (r: Result<seq<Complex>>)
    ensures r.Success? <==> IsPow2(|data|) && |data| >= 2
    ensures r == Failure(NotPowerOfTwo) <==> !IsPow2(|data|)
    ensures r == Failure(IndexOutOfBounds) <==> |data| == 1
    ensures r.Success? ==> Unpacked(data, r.value)
  {
    var n := |data|;
    if !IsPow2(n) {
      return Failure(NotPowerOfTwo);
    }
    if n < 2 {
      return Failure(IndexOutOfBounds);
    }
    var bins := seq(n, _ => Zero);
    bins := bins[0 := Complex(data[0], 0.0)];
    var i := 1;
    while i < n / 2
      invariant 1 <= i <= n / 2 && |bins| == n
      invariant bins[0] == Complex(data[0], 0.0)
      invariant forall p :: 1 <= p < i ==> bins[p] == Complex(data[2 * p], data[2 * p + 1])
    {
      bins := bins[i := Complex(data[2 * i], data[2 * i + 1])];
      i := i + 1;
    }
    bins := bins[n / 2 := Complex(data[1], 0.0)];
    i := n / 2 + 1;
    while i < n
      invariant n / 2 + 1 <= i <= n && |bins| == n
      invariant bins[0] == Complex(data[0], 0.0)
      invariant bins[n / 2] == Complex(data[1], 0.0)
      invariant forall p :: 1 <= p < n / 2 ==> bins[p] == Complex(data[2 * p], data[2 * p + 1])
      invariant forall p :: n / 2 < p < i ==> bins[p] == Complex(data[2 * (n - p)], -data[2 * (n - p) + 1])
    {
      var j := n - i;
      bins := bins[i := Complex(data[2 * j], -data[2 * j + 1])];
      i := i + 1;
    }
    r := Success(bins);
  }

  /** The unpacked bins have conjugate symmetry, and bins 0 and n / 2 are real. */
  lemma UnpackedHermitian(data: seq<real>, bins: seq<Complex>)
    requires Unpacked(data, bins)
    ensures Hermitian(bins) && IsReal(bins[|bins| / 2])
  {
    var n := |bins|;
    forall i | 0 < i < n
      ensures bins[n - i] == Conj(bins[i])
    {
      if i < n / 2 {
        assert n / 2 < n - i;
      } else if i > n / 2 {
        assert n - (n - i) == i;
      }
    }
  }

  /** Packing the unpacked bins gives back the packed data. */
  lemma PackUnpacked(data: seq<real>, bins: seq<Complex>)
    requires Unpacked(data, bins)
    ensures Pack(bins) == data
  {
    var n := |data|;
    forall p | 0 <= p < n
      ensures Pack(bins)[p] == data[p]
    {
      if p >= 2 {
        var i := p / 2;
        assert 1 <= i < n / 2;
        assert bins[i] == Complex(data[2 * i], data[2 * i + 1]);
      }
    }
  }

  /** Unpacking the packed form of a real-signal spectrum gives the spectrum
      back: for a Hermitian spectrum, Pack and `unpack` are inverse. */
  lemma HermitianUnpacks(bins: seq<Complex>)
    requires Hermitian(bins)
    ensures Unpacked(Pack(bins), bins)
  {
    var n := |bins|;
    var data := Pack(bins);
    assert bins[n / 2] == Conj(bins[n - n / 2]);
    forall i | 1 <= i < n / 2
      ensures bins[i] == Complex(data[2 * i], data[2 * i + 1])
    {
      assert (2 * i + 1) / 2 == i;
    }
    forall i | n / 2 < i < n
      ensures bins[i] == Complex(data[2 * (n - i)], -data[2 * (n - i) + 1])
    {
      var j := n - i;
      assert (2 * j + 1) / 2 == j;
      assert bins[n - j] == Conj(bins[j]);
    }
  }

  /** The layout determines the bins: `unpack` has a single possible result. */
  lemma UnpackedUnique(data: seq<real>, a: seq<Complex>, b: seq<Complex>)
    requires Unpacked(data, a) && Unpacked(data, b)
    ensures a == b
  {
    var n := |data|;
    forall p | 0 <= p < n
      ensures a[p] == b[p]
    {
    }
  }

  /** unpack([1, 2, 3, 4]) == [(1, 0), (3, 4), (2, 0), (3, -4)]. */
  lemma UnpackFour(bins: seq<Complex>)
    requires Unpacked([1.0, 2.0, 3.0, 4.0], bins)
    ensures bins == [Complex(1.0, 0.0), Complex(3.0, 4.0), Complex(2.0, 0.0), Complex(3.0, -4.0)]
  {
    var expected := [Complex(1.0, 0.0), Complex(3.0, 4.0), Complex(2.0, 0.0), Complex(3.0, -4.0)];
    assert bins[1] == expected[1];
    assert bins[3] == expected[3];
  }

  /** The fixture of the crate's own test, derived from `unpack` itself. */
  method UnpackFourFixture() returns (r: Result<seq<Complex>>)
    ensures r == Success([Complex(1.0, 0.0), Complex(3.0, 4.0), Complex(2.0, 0.0), Complex(3.0, -4.0)])
  {
    var data := [1.0, 2.0, 3.0, 4.0];
    assert IsPow2(|data|) by {
      assert IsPow2(2);
    }
    r := Unpack(data);
    UnpackFour(r.value);
  }

  /** unpack([1, ..., 8]) == [(1, 0), (3, 4), (5, 6), (7, 8), (2, 0), (7, -8), (5, -6), (3, -4)]. */
  lemma UnpackEight(bins: seq<Complex>)
    requires Unpacked([1.0, 2.0, 3.0, 4.0, 5.0, 6.0, 7.0, 8.0], bins)
    ensures bins == [Complex(1.0, 0.0), Complex(3.0, 4.0), Complex(5.0, 6.0), Complex(7.0, 8.0),
                     Complex(2.0, 0.0), Complex(7.0, -8.0), Complex(5.0, -6.0), Complex(3.0, -4.0)]
  {
    var expected := [Complex(1.0, 0.0), Complex(3.0, 4.0), Complex(5.0, 6.0), Complex(7.0, 8.0),
                     Complex(2.0, 0.0), Complex(7.0, -8.0), Complex(5.0, -6.0), Complex(3.0, -4.0)];
    assert bins[1] == expected[1] && bins[2] == expected[2] && bins[3] == expected[3];
    assert bins[5] == expected[5] && bins[6] == expected[6] && bins[7] == expected[7];
  }

  method UnpackEightFixture() returns (r: Result<seq<Complex>>)
    ensures r == Success([Complex(1.0, 0.0), Complex(3.0, 4.0), Complex(5.0, 6.0), Complex(7.0, 8.0),
                          Complex(2.0, 0.0), Complex(7.0, -8.0), Complex(5.0, -6.0), Complex(3.0, -4.0)])
  {
    var data := [1.0, 2.0, 3.0, 4.0, 5.0, 6.0, 7.0, 8.0];
    assert IsPow2(|data|) by {
      assert IsPow2(2) && IsPow2(4);
    }
    r := Unpack(data);
    UnpackEight(r.value);
  }
}
