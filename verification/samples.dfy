/** Arrays of reals read as arrays of complex samples, as the real-data
    routines do when they reinterpret their buffer: real 2k is the real part
    and real 2k + 1 the imaginary part of sample k. */
module Samples {
  import opened Numbers

  /** The reinterpretation of n reals as n / 2 complex samples: sample k is
      (data[2k], data[2k + 1]); an odd last real is not part of the view. */
  function AsComplex(data: seq<real>): (c: seq<Complex>)
    ensures |c| == |data| / 2
  {
    seq(|data| / 2, k requires 0 <= k < |data| / 2 => Complex(data[2 * k], data[2 * k + 1]))
  }

  /** The reals underlying complex samples: 2k holds the real and 2k + 1 the
      imaginary part of sample k. */
  function AsReal(c: seq<Complex>): (data: seq<real>)
    ensures |data| == 2 * |c|
  {
    seq(2 * |c|, p requires 0 <= p < 2 * |c| => if p % 2 == 0 then c[p / 2].re else c[p / 2].im)
  }

  /** Viewing an even number of reals as complex samples and back loses nothing. */
  lemma RealsRoundTrip(data: seq<real>)
    requires |data| % 2 == 0
    ensures AsReal(AsComplex(data)) == data
  {
    var c := AsComplex(data);
    forall p | 0 <= p < |data|
      ensures AsReal(c)[p] == data[p]
    {
      var k := p / 2;
      assert c[k] == Complex(data[2 * k], data[2 * k + 1]);
    }
  }

  lemma SamplesRoundTrip(c: seq<Complex>)
    ensures AsComplex(AsReal(c)) == c
  {
    var data := AsReal(c);
    forall k | 0 <= k < |c|
      ensures AsComplex(data)[k] == c[k]
    {
      assert (2 * k + 1) / 2 == k && (2 * k) / 2 == k;
    }
  }

  /** A trailing odd real does not change the view. */
  lemma SamplesWithTail(c: seq<Complex>, tail: seq<real>)
    requires |tail| <= 1
    ensures AsComplex(AsReal(c) + tail) == c
  {
    var data := AsReal(c) + tail;
    forall k | 0 <= k < |c|
      ensures AsComplex(data)[k] == c[k]
    {
      assert (2 * k + 1) / 2 == k && (2 * k) / 2 == k;
    }
  }
}
