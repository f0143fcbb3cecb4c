/** The forward transform of real data in src/real.rs: n reals viewed as
    n / 2 complex samples, a complex transform of that view, and the compose
    step that untangles the two interleaved real signals, pairing bin i with
    bin h - i. The complex transform and the factor recurrence are inputs. */
module RealForward {
  import opened Bits
  import opened Numbers
  import opened Faults
  import opened Samples

  /** The two halves of the compose step for bins i and j = h - i:
      part1 = (x_i + conj x_j) / 2 and part2 = -(x_i - conj x_j) / 2. */
  function Part1(a: Complex, b: Complex): (r: Complex)
  {
    Scale(Add(a, Conj(b)), 0.5)
  }

  function Part2(a: Complex, b: Complex): (r: Complex)
  {
    Neg(Scale(Sub(a, Conj(b)), 0.5))
  }

  /** The bins the compose step writes at i and at h - i, with factor f. */
  function LowerBin(a: Complex, b: Complex, f: Complex): (r: Complex)
  {
    Add(Part1(a, b), Mul(f, Part2(a, b)))
  }

  function UpperBin(a: Complex, b: Complex, f: Complex): (r: Complex)
  {
    Conj(Sub(Part1(a, b), Mul(f, Part2(a, b))))
  }

  /** Bin 0 packs the first and the middle real bins: (re + im, re - im). */
  function PackEnds(z: Complex): (r: Complex)
  {
    Complex(z.re + z.im, z.re - z.im)
  }

  /** What the corrected compose step makes of the transformed view c with
      factors w: every bin computed from the values of c before the step,
      bin 0 packing the first and last bins, the middle bin conjugated. */
  ghost predicate Composed(c: seq<Complex>, w: seq<Complex>, out: seq<Complex>)
    requires |c| >= 1 && |w| >= |c| / 2
  {
    var h := |c|;
    && |out| == h
    && out[0] == PackEnds(c[0])
    && (forall i :: 1 <= i < h / 2 ==>
          out[i] == LowerBin(c[i], c[h - i], w[i]) && out[h - i] == UpperBin(c[i], c[h - i], w[i]))
    && (h >= 2 ==> out[h / 2] == Conj(c[h / 2]))
  }

  /** The final `data[n / 2] = data[n / 2].conj()` as written. */
  function ConjMiddleAsWritten(s: seq<Complex>): (r: seq<Complex>)
    requires |s| >= 1
    ensures |r| == |s|
  {
    s[|s| / 2 := Conj(s[|s| / 2])]
  }

  /** The same step restricted to a view with a middle bin (h >= 2); for
      h == 1 the middle index is 0, the slot of the packed first and last bins. */
  function ConjMiddle(s: seq<Complex>): (r: seq<Complex>)
    requires |s| >= 1
    ensures |r| == |s|
  {
    if |s| >= 2 then ConjMiddleAsWritten(s) else s
  }

  /** For two reals x0, x1 (h == 1) the step as written conjugates the packed
      slot: the last bin x0 - x1 comes out as x1 - x0. */
  lemma NyquistNegatedAsWritten(x0: real, x1: real)
    requires x0 != x1
    ensures ConjMiddleAsWritten([PackEnds(Complex(x0, x1))])[0].im == x1 - x0
    ensures ConjMiddleAsWritten([PackEnds(Complex(x0, x1))])[0].im != x0 - x1
  {
  }

  /** The corrected step leaves the packed slot alone for every length and
      conjugates the middle bin whenever there is one. */
  lemma ConjMiddleKeepsEnds(s: seq<Complex>)
    requires |s| >= 1
    ensures ConjMiddle(s)[0] == s[0]
    ensures |s| >= 2 ==> ConjMiddle(s)[|s| / 2] == Conj(s[|s| / 2])
    ensures forall p :: 0 <= p < |s| && p != |s| / 2 ==> ConjMiddle(s)[p] == s[p]
  {
  }

  /** What the compose step as written makes of c: the same bins for h >= 2;
      for h == 1 the final conjugation lands on the packed slot 0. */
  ghost predicate ComposedAsWritten(c: seq<Complex>, w: seq<Complex>, out: seq<Complex>)
    requires |c| >= 1 && |w| >= |c| / 2
  {
    if |c| >= 2 then Composed(c, w, out) else out == [Conj(PackEnds(c[0]))]
  }

  /** The loop part of the compose step (src/real.rs:35-49), in place on the
      view: bin 0, then the pairs (i, h - i) for 1 <= i < h / 2. The middle
      bin is not yet touched. */
  method ComposeLoop(c: seq<Complex>, w: seq<Complex>) returns (out: seq<Complex>)
    requires |c| >= 1 && |w| >= |c| / 2
    ensures |out| == |c| && out[0] == PackEnds(c[0])
    ensures forall p :: 1 <= p < |c| / 2 ==>
      out[p] == LowerBin(c[p], c[|c| - p], w[p]) && out[|c| - p] == UpperBin(c[p], c[|c| - p], w[p])
    ensures |c| >= 2 ==> out[|c| / 2] == c[|c| / 2]
  {
    var h := |c|;
    out := c[0 := PackEnds(c[0])];
    var i := 1;
    while i < h / 2
      invariant 1 <= i && (i == 1 || i <= h / 2) && |out| == h
      invariant out[0] == PackEnds(c[0])
      invariant PairsDone(c, w, out, i) && Untouched(c, out, i)
    {
      out := ComposePair(c, w, out, i);
      i := i + 1;
    }
  }

  /** The compose step as written (src/real.rs:35-50): the loop, then
      `data[n / 2] = data[n / 2].conj()` for every h. */
  method Compose(c: seq<Complex>, w: seq<Complex>) returns (out: seq<Complex>)
    requires |c| >= 1 && |w| >= |c| / 2
    ensures ComposedAsWritten(c, w, out)
  {
    out := ComposeLoop(c, w);
    out := ConjMiddleAsWritten(out);
  }

  /** The corrected compose step: the loop, then the conjugation of the
      middle bin only when there is one. */
  method ComposeCorrected(c: seq<Complex>, w: seq<Complex>) returns (out: seq<Complex>)
    requires |c| >= 1 && |w| >= |c| / 2
    ensures Composed(c, w, out)
  {
    out := ComposeLoop(c, w);
    out := ConjMiddle(out);
  }

  /** The two agree whenever the view has a middle bin of its own. */
  lemma ComposeVersionsAgree(c: seq<Complex>, w: seq<Complex>, out: seq<Complex>)
    requires |c| >= 2 && |w| >= |c| / 2
    ensures ComposedAsWritten(c, w, out) <==> Composed(c, w, out)
  {
  }

  /** The compose step determines its output: for h == 1 or an even h, bin 0,
      the pairs (i, h - i) and the middle bin reach every index. */
  lemma {:induction false} ComposedUnique(c: seq<Complex>, w: seq<Complex>, a: seq<Complex>, b: seq<Complex>)
    requires |c| >= 1 && |w| >= |c| / 2 && (|c| == 1 || |c| % 2 == 0)
    requires Composed(c, w, a) && Composed(c, w, b)
    ensures a == b
  {
    var h := |c|;
    forall p | 0 <= p < h
      ensures a[p] == b[p]
    {
      if p == 0 || p == h / 2 {
      } else if p < h / 2 {
        assert a[p] == LowerBin(c[p], c[h - p], w[p]);
      } else {
        var i := h - p;
        assert 1 <= i < h / 2;
        assert a[h - i] == UpperBin(c[i], c[h - i], w[i]);
      }
    }
  }

  /** For even h >= 2 the step as written and the corrected step return the
      same bins. */
  lemma ComposeVersionsSame(c: seq<Complex>, w: seq<Complex>, a: seq<Complex>, b: seq<Complex>)
    requires |c| >= 2 && |c| % 2 == 0 && |w| >= |c| / 2
    requires ComposedAsWritten(c, w, a) && Composed(c, w, b)
    ensures a == b
  {
    ComposeVersionsAgree(c, w, a);
    ComposedUnique(c, w, a, b);
  }

  /** The pairs below i hold their composed bins. */
  ghost predicate PairsDone(c: seq<Complex>, w: seq<Complex>, out: seq<Complex>, i: nat)
    requires |out| == |c| && |w| >= |c| / 2
  {
    var h := |c|;
    forall p :: 1 <= p < i && p < h / 2 ==>
      out[p] == LowerBin(c[p], c[h - p], w[p]) && out[h - p] == UpperBin(c[p], c[h - p], w[p])
  }

  /** The bins from i to h - i still hold the transformed view. */
  ghost predicate Untouched(c: seq<Complex>, out: seq<Complex>, i: nat)
    requires |out| == |c|
  {
    forall p :: i <= p <= |c| - i && p < |c| ==> out[p] == c[p]
  }

  /** One pass of the compose loop: the pair (i, h - i), both read before
      either is written. */
  method ComposePair(c: seq<Complex>, w: seq<Complex>, out0: seq<Complex>, i: nat) returns (out: seq<Complex>)
    requires |w| >= |c| / 2 && 1 <= i < |c| / 2 && |out0| == |c|
    requires PairsDone(c, w, out0, i) && Untouched(c, out0, i)
    ensures |out| == |c| && out[0] == out0[0]
    ensures PairsDone(c, w, out, i + 1) && Untouched(c, out, i + 1)
  {
    var j := |c| - i;
    var lower := LowerBin(out0[i], out0[j], w[i]);
    var upper := UpperBin(out0[i], out0[j], w[i]);
    out := out0[i := lower][j := upper];
  }

  /** `forward` as written: a length that is not a power of two is rejected
      by the power-of-two check; for a single real the view is empty and the
      write of bin 0 is past its end; otherwise the result is the reals of
      the view after the compose step as written, applied to the transformed
      samples. */
  method Forward(data: seq<real>, fft: seq<Complex> -> seq<Complex>, w: seq<Complex>)
    returns (r: Result<seq<real>>)
    requires forall x :: |fft(x)| == |x|
    requires |w| >= |data| / 4
    ensures r.Success? <==> IsPow2(|data|) && |data| >= 2
    ensures r == Failure(NotPowerOfTwo) <==> !IsPow2(|data|)
    ensures r == Failure(IndexOutOfBounds) <==> |data| == 1
    ensures r.Success? ==>
      && |r.value| == |data|
      && ComposedAsWritten(fft(AsComplex(data)), w, AsComplex(r.value))
  {
    var n := |data|;
    if !IsPow2(n) {
      return Failure(NotPowerOfTwo);
    }
    var h := n / 2;
    if h == 0 {
      return Failure(IndexOutOfBounds);
    }
    var spectrum := fft(AsComplex(data));
    var out := Compose(spectrum, w);
    SamplesRoundTrip(out);
    r := Success(AsReal(out));
  }

  /** `forward` with the corrected compose step: the same checks, and the
      composed view with the packed slot left alone for every length. */
  method ForwardCorrected(data: seq<real>, fft: seq<Complex> -> seq<Complex>, w: seq<Complex>)
    returns (r: Result<seq<real>>)
    requires forall x :: |fft(x)| == |x|
    requires |w| >= |data| / 4
    ensures r.Success? <==> IsPow2(|data|) && |data| >= 2
    ensures r == Failure(NotPowerOfTwo) <==> !IsPow2(|data|)
    ensures r == Failure(IndexOutOfBounds) <==> |data| == 1
    ensures r.Success? ==>
      && |r.value| == |data|
      && Composed(fft(AsComplex(data)), w, AsComplex(r.value))
  {
    var n := |data|;
    if !IsPow2(n) {
      return Failure(NotPowerOfTwo);
    }
    var h := n / 2;
    if h == 0 {
      return Failure(IndexOutOfBounds);
    }
    var spectrum := fft(AsComplex(data));
    var out := ComposeCorrected(spectrum, w);
    SamplesRoundTrip(out);
    r := Success(AsReal(out));
  }

  /** With the corrected step, slot 0 of the reals is the first bin re + im
      and slot 1 the last bin re - im of the transformed sample 0, for every
      length, as the documentation of `forward` promises. */
  lemma ComposedEnds(c: seq<Complex>, w: seq<Complex>, out: seq<Complex>)
    requires |c| >= 1 && |w| >= |c| / 2 && Composed(c, w, out)
    ensures AsReal(out)[0] == c[0].re + c[0].im
    ensures AsReal(out)[1] == c[0].re - c[0].im
  {
  }

  /** As written, slot 1 holds the last bin for h >= 2 but its negation
      im - re for h == 1. */
  lemma ComposedEndsAsWritten(c: seq<Complex>, w: seq<Complex>, out: seq<Complex>)
    requires |c| >= 1 && |w| >= |c| / 2 && ComposedAsWritten(c, w, out)
    ensures AsReal(out)[0] == c[0].re + c[0].im
    ensures AsReal(out)[1] == if |c| == 1 then c[0].im - c[0].re else c[0].re - c[0].im
  {
  }

  /** `forward([1.0, 0.0])` with the identity as the complex transform: the
      first bin is 1 and the last bin is 1 - 0 = 1, but the code as written
      leaves -1 in slot 1. */
  method ForwardTwoAsWritten() returns (r: Result<seq<real>>)
    ensures r == Success([1.0, -1.0])
  {
    var data := [1.0, 0.0];
    assert IsPow2(|data|);
    r := Forward(data, x => x, []);
    var c := AsComplex(data);
    assert c == [Complex(1.0, 0.0)];
    var v := r.value;
    assert AsComplex(v) == [Complex(1.0, -1.0)];
    assert v[0] == AsComplex(v)[0].re && v[1] == AsComplex(v)[0].im;
    assert v == [1.0, -1.0];
  }

  /** The indices the compose step writes, in order, from i on: the pairs
      (i, h - i) below h / 2. */
  function PairIndices(i: nat, h: nat): (r: seq<nat>)
    decreases h - i
  {
    if 2 * i >= h then [] else [i, h - i] + PairIndices(i + 1, h)
  }

  /** The order in which the statements of `forward` write the view: bin 0
      (src/real.rs:35), the pairs i and h - i of the loop (src/real.rs:40-48),
      then the middle bin (src/real.rs:50). It mirrors the shape of those
      statements; ComposeLoop and Compose are the statements themselves. */
  function VisitOrder(h: nat): (r: seq<nat>)
  {
    [0] + PairIndices(1, h) + [h / 2]
  }

  /** How often p occurs in s. */
  function Count(s: seq<nat>, p: nat): (r: nat)
  {
    if s == [] then 0 else (if s[0] == p then 1 else 0) + Count(s[1..], p)
  }

  lemma {:induction false} CountConcat(a: seq<nat>, b: seq<nat>, p: nat)
    ensures Count(a + b, p) == Count(a, p) + Count(b, p)
    decreases |a|
  {
    if a != [] {
      assert (a + b)[0] == a[0] && (a + b)[1..] == a[1..] + b;
      CountConcat(a[1..], b, p);
    } else {
      assert a + b == b;
    }
  }

  /** From i on, the pairs hit the positions i .. h/2 - 1 with their first
      index and h - i down to h - h/2 + 1 with their second, once each. */
  lemma {:induction false} CountPairs(i: nat, h: nat, p: nat)
    requires i >= 1 && h % 2 == 0
    ensures Count(PairIndices(i, h), p) ==
      (if i <= p && 2 * p < h then 1 else 0) + (if h < 2 * p && p <= h - i then 1 else 0)
    decreases h - i
  {
    if 2 * i < h {
      var rest := PairIndices(i + 1, h);
      assert PairIndices(i, h) == [i] + ([h - i] + rest);
      CountConcat([i], [h - i] + rest, p);
      CountConcat([h - i], rest, p);
      CountPairs(i + 1, h, p);
    }
  }

  /** For h >= 2 (h even) the compose step writes every bin below h exactly
      once, and no other index: so each write reads values the loop has not
      yet overwritten. */
  lemma VisitOrderOnce(h: nat, p: nat)
    requires h >= 2 && h % 2 == 0
    ensures p < h ==> Count(VisitOrder(h), p) == 1
    ensures p >= h ==> Count(VisitOrder(h), p) == 0
  {
    CountConcat([0] + PairIndices(1, h), [h / 2], p);
    CountConcat([0], PairIndices(1, h), p);
    CountPairs(1, h, p);
  }

  /** For h == 1 the first and the last write both land on bin 0. */
  lemma VisitOrderSingle()
    ensures Count(VisitOrder(1), 0) == 2
  {
    assert VisitOrder(1) == [0, 0];
  }
}
