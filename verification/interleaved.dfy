/** The in-place transform of src/lib.rs, in the style of Numerical Recipes
    (the `Nr` prefix of the members below stands for Numerical Recipes):
    n complex samples stored as 2n interleaved reals (one trailing odd real is
    carried along untouched), 1-based odd indices for the real parts, a
    bit-reversal loop on those indices, the butterfly stages with a doubling
    span `mmax`, and the division by n for the inverse direction. The
    trigonometric recurrence that produces the butterfly factors is not part
    of this model: the factors are an input, one per (stage, offset) pair in
    the order the loops consume them. */
module Interleaved {
  import opened Bits
  import opened Numbers
  import opened Faults
  import opened Samples
  import opened BitReversal
  import opened Butterflies
  import ComplexTransform

  /** The direction of the transform. */
  datatype Direction = Forward | Inverse

  /** The carry loop of the bit reversal on the 1-based odd index j: while
      j lies above m (m >= 2), subtract m and halve m; then add m. */
  function NrCarry(j: nat, m: nat): (r: nat)
    decreases m
  {
    if m >= 2 && j > m then NrCarry(j - m, m / 2) else j + m
  }

  /** On j = 2r + 1 with r < m, the carry loop is the reversed increment of r
      with mask m / 2 (`j > m` tests the mask bit of r), as long as the
      carry does not run off the bottom. */
  lemma {:induction false} NrCarryRevInc(r: nat, m: nat)
    requires IsPow2(m) && r < m && CarryStop(r, m / 2) > 0
    ensures NrCarry(2 * r + 1, m) == 2 * RevInc(r, m / 2) + 1
    decreases m
  {
    var h := m / 2;
    assert h > 0;
    assert m == 2 * h;
    if r >= h {
      DivMulAdd(1, h, r - h);
      assert HasBit(r, h);
      assert RevInc(r, h) == RevInc(r - h, h / 2) && CarryStop(r, h) == CarryStop(r - h, h / 2);
      assert NrCarry(2 * r + 1, m) == NrCarry(2 * (r - h) + 1, h);
      NrCarryRevInc(r - h, h);
    } else {
      DivMulAdd(0, h, r);
      assert !HasBit(r, h);
      assert RevInc(r, h) == r + h;
    }
  }

  /** The carry loop takes j, the odd index of sample BitRev(c), to the odd
      index of sample BitRev(c + 1). */
  lemma NrCarryStep(j: nat, n: nat, c: nat, k: nat)
    requires n == Pow2(k) && c + 1 < n && j == 2 * BitRev(c, k) + 1
    ensures NrCarry(j, n) == 2 * BitRev(c + 1, k) + 1 && BitRev(c + 1, k) < n
  {
    Pow2IsPow2(k);
    CarryStopsBeforeLast(c, k);
    NrCarryRevInc(BitRev(c, k), Pow2(k));
    RevIncStep(c, k);
  }

  /** The carry loop of src/lib.rs:29-34 as written. */
  method NrCarryLoop(j: nat, n: nat) returns (next: nat)
    ensures next == NrCarry(j, n)
  {
    var m := n;
    next := j;
    while m >= 2 && next > m
      invariant NrCarry(next, m) == NrCarry(j, n)
      decreases m
    {
      next := next - m;
      m := m / 2;
    }
    next := next + m;
  }

  /** The update of j after visiting sample c: for every sample but the last
      the new j is at most nn - 1 and is the odd 1-based index of the real
      part of sample BitRev(c + 1). */
  method NrAdvance(j: nat, n: nat, ghost c: nat, ghost k: nat) returns (next: nat)
    requires n == Pow2(k) && c < n && j == 2 * BitRev(c, k) + 1
    ensures c + 1 < n ==> next == 2 * BitRev(c + 1, k) + 1
    ensures c + 1 < n ==> next <= 2 * n - 1
  {
    next := NrCarryLoop(j, n);
    if c + 1 < n {
      NrCarryStep(j, n, c, k);
    }
  }

  /** `slice::swap`. */
  function Swap(s: seq<real>, a: nat, b: nat): (r: seq<real>)
    requires a < |s| && b < |s|
    ensures |r| == |s|
  {
    s[a := s[b]][b := s[a]]
  }

  /** The two swaps of reals at d's and c's 1-based indices 2d + 1 and 2c + 1
      (first the real parts at 2d, 2c, then the imaginary parts) exchange
      samples c and d of the view and nothing else. */
  lemma SwapSamples(r: seq<real>, c: nat, d: nat)
    requires c < d < |r| / 2
    ensures AsComplex(Swap(Swap(r, 2 * d, 2 * c), 2 * d + 1, 2 * c + 1))
         == AsComplex(r)[c := AsComplex(r)[d]][d := AsComplex(r)[c]]
    ensures forall p :: 2 * (|r| / 2) <= p < |r| ==>
      Swap(Swap(r, 2 * d, 2 * c), 2 * d + 1, 2 * c + 1)[p] == r[p]
  {
    var s := Swap(Swap(r, 2 * d, 2 * c), 2 * d + 1, 2 * c + 1);
    var v := AsComplex(r);
    forall q | 0 <= q < |r| / 2
      ensures AsComplex(s)[q] == v[c := v[d]][d := v[c]][q]
    {
    }
  }

  /** The bit-reversal loop (src/lib.rs:23-35): i runs over the odd 1-based
      indices 1, 3, ..., nn - 1, j over the odd indices of the reversed
      samples; samples i and j are swapped once, when j > i. On the sample
      view it is the bit-reversal permutation; a trailing odd real stays. */
  method NrRearrange(data: seq<real>) returns (r: seq<real>)
    requires PowerOfTwoOrEmpty(|data| / 2)
    ensures |r| == |data|
    ensures AsComplex(r) == BitReversed(AsComplex(data))
    ensures forall p :: 2 * (|data| / 2) <= p < |data| ==> r[p] == data[p]
  {
    var n := |data| / 2;
    var nn := 2 * n;
    r := data;
    if n == 0 {
      return;
    }
    ghost var k := Log2(n);
    BitRevZero(k);
    var j: nat := 1;
    var i := 1;
    ghost var c := 0;
    while i < nn
      invariant i == 2 * c + 1 && c <= n && |r| == |data|
      invariant c < n ==> j == 2 * BitRev(c, k) + 1
      invariant Visited(AsComplex(data), AsComplex(r), c, k)
      invariant forall p :: nn <= p < |data| ==> r[p] == data[p]
    {
      r, j := NrVisit(data, r, i, j, n, c, k);
      i := i + 2;
      c := c + 1;
    }
    forall p | 0 <= p < n
      ensures AsComplex(r)[p] == BitReversed(AsComplex(data))[p]
    {
    }
  }

  /** One pass of the bit-reversal loop at i = 2c + 1: the swap when j > i,
      then the carry step of j. */
  method NrVisit(ghost data: seq<real>, r0: seq<real>, i: nat, j: nat, n: nat, ghost c: nat, ghost k: nat)
    returns (r: seq<real>, next: nat)
    requires n == Pow2(k) && |data| / 2 == n && |r0| == |data|
    requires i == 2 * c + 1 && c < n && j == 2 * BitRev(c, k) + 1
    requires Visited(AsComplex(data), AsComplex(r0), c, k)
    requires forall p :: 2 * n <= p < |data| ==> r0[p] == data[p]
    ensures |r| == |data|
    ensures c + 1 < n ==> next == 2 * BitRev(c + 1, k) + 1
    ensures Visited(AsComplex(data), AsComplex(r), c + 1, k)
    ensures forall p :: 2 * n <= p < |data| ==> r[p] == data[p]
  {
    NrSwapStep(data, r0, c, k);
    ghost var d := BitRev(c, k);
    r := r0;
    if j > i {
      r := Swap(r, j - 1, i - 1);
      r := Swap(r, j, i);
      assert d > c && j - 1 == 2 * d && i - 1 == 2 * c;
    } else {
      assert d <= c;
    }
    assert r == SwapPair(r0, c, d);
    next := NrAdvance(j, n, c, k);
  }

  /** The swap of samples c and d = BitRev(c) when d > c, in reals. */
  function SwapPair(r: seq<real>, c: nat, d: nat): (s: seq<real>)
    requires c < |r| / 2 && d < |r| / 2
    ensures |s| == |r|
  {
    if d > c then Swap(Swap(r, 2 * d, 2 * c), 2 * d + 1, 2 * c + 1) else r
  }

  /** Visiting sample c in reals is visiting it in the sample view; the
      reals past the view are not touched. */
  lemma NrSwapStep(data: seq<real>, r: seq<real>, c: nat, k: nat)
    requires |data| / 2 == Pow2(k) && |r| == |data| && c < |data| / 2
    requires Visited(AsComplex(data), AsComplex(r), c, k)
    ensures Visited(AsComplex(data), AsComplex(SwapPair(r, c, BitRev(c, k))), c + 1, k)
    ensures forall p :: 2 * (|r| / 2) <= p < |r| ==> SwapPair(r, c, BitRev(c, k))[p] == r[p]
  {
    var d := BitRev(c, k);
    if d > c {
      NrSwapAhead(data, r, c, d, k);
      assert SwapPair(r, c, d) == Swap(Swap(r, 2 * d, 2 * c), 2 * d + 1, 2 * c + 1);
    } else {
      NrSwapBehind(data, r, c, d, k);
      assert SwapPair(r, c, d) == r;
    }
  }

  /** When d lies ahead, the two swaps of reals exchange samples c and d, as
      the sample-view step does. */
  lemma NrSwapAhead(data: seq<real>, r: seq<real>, c: nat, d: nat, k: nat)
    requires |data| / 2 == Pow2(k) && |r| == |data| && c < d == BitRev(c, k)
    requires Visited(AsComplex(data), AsComplex(r), c, k)
    ensures Visited(AsComplex(data), AsComplex(Swap(Swap(r, 2 * d, 2 * c), 2 * d + 1, 2 * c + 1)), c + 1, k)
    ensures forall p :: 2 * (|r| / 2) <= p < |r| ==> Swap(Swap(r, 2 * d, 2 * c), 2 * d + 1, 2 * c + 1)[p] == r[p]
  {
    VisitStep(AsComplex(data), AsComplex(r), c, d, k);
    SwapSamples(r, c, d);
  }

  /** When d does not lie ahead, nothing moves. */
  lemma NrSwapBehind(data: seq<real>, r: seq<real>, c: nat, d: nat, k: nat)
    requires |data| / 2 == Pow2(k) && |r| == |data| && c < |r| / 2 && d == BitRev(c, k) <= c
    requires Visited(AsComplex(data), AsComplex(r), c, k)
    ensures Visited(AsComplex(data), AsComplex(r), c + 1, k)
  {
    VisitStep(AsComplex(data), AsComplex(r), c, d, k);
  }

  /** The reals past the view, an odd last one, are as they were. */
  ghost predicate TailKept(d: seq<real>, out: seq<real>)
  {
    |out| == |d| && forall p :: 2 * (|d| / 2) <= p < |d| ==> out[p] == d[p]
  }

  /** The reals of a butterfly of samples a < b with factor w: sample b
      becomes x - w y and sample a becomes x + w y, for x, y the old samples a
      and b, the real part at the even index and the imaginary part at the
      odd one. */
  function ButterflyReals(r: seq<real>, w: Complex, a: nat, b: nat): (s: seq<real>)
    requires a < b < |r| / 2
    ensures |s| == |r|
  {
    var x := Complex(r[2 * a], r[2 * a + 1]);
    var p := Mul(w, Complex(r[2 * b], r[2 * b + 1]));
    r[2 * b := x.re - p.re][2 * b + 1 := x.im - p.im][2 * a := x.re + p.re][2 * a + 1 := x.im + p.im]
  }

  /** On the view, those four reals are the complex butterfly of samples a
      and b; nothing past the view changes. */
  lemma ButterflyRealsSamples(r: seq<real>, w: Complex, a: nat, b: nat)
    requires a < b < |r| / 2
    ensures AsComplex(ButterflyReals(r, w, a, b))
         == AsComplex(r)[b := Sub(AsComplex(r)[a], Mul(w, AsComplex(r)[b]))]
                        [a := Add(AsComplex(r)[a], Mul(w, AsComplex(r)[b]))]
    ensures TailKept(r, ButterflyReals(r, w, a, b))
  {
    var s := ButterflyReals(r, w, a, b);
    var v := AsComplex(r);
    forall q | 0 <= q < |r| / 2
      ensures AsComplex(s)[q] == v[b := Sub(v[a], Mul(w, v[b]))][a := Add(v[a], Mul(w, v[b]))][q]
    {
    }
  }

  /** The body of the innermost loop (src/lib.rs:48-54) at the 1-based odd
      indices i = 2a + 1 and j = i + mmax = 2b + 1: the product (tempr, tempi)
      of the factor w and sample b is computed first, then subtracted from
      sample a into sample b and added into sample a. */
  method NrButterfly(r0: seq<real>, w: Complex, i: nat, j: nat, ghost a: nat, ghost b: nat)
    returns (r: seq<real>)
    requires i == 2 * a + 1 && j == 2 * b + 1 && a < b < |r0| / 2
    ensures AsComplex(r)
         == AsComplex(r0)[b := Sub(AsComplex(r0)[a], Mul(w, AsComplex(r0)[b]))]
                         [a := Add(AsComplex(r0)[a], Mul(w, AsComplex(r0)[b]))]
    ensures TailKept(r0, r)
  {
    var tempr := w.re * r0[j - 1] - w.im * r0[j];
    var tempi := w.re * r0[j] + w.im * r0[j - 1];
    assert i - 1 == 2 * a && j - 1 == 2 * b;
    assert Complex(tempr, tempi) == Mul(w, Complex(r0[2 * b], r0[2 * b + 1]));
    r := r0[j - 1 := r0[i - 1] - tempr];
    r := r[j := r[i] - tempi];
    r := r[i - 1 := r[i - 1] + tempr];
    r := r[i := r[i] + tempi];
    assert r == ButterflyReals(r0, w, a, b);
    ButterflyRealsSamples(r0, w, a, b);
  }

  /** The innermost loop (src/lib.rs:47-55) for the odd offset m = 2g + 1 of
      the stage of span mmax = 2 step: i runs over m, m + istep, ... while
      i < nn + 1. An odd i is below nn + 1 exactly when its sample (i - 1) / 2
      is below n, so the inclusive bound adds no butterfly; the pass at i is
      the butterfly of samples c and c + step with factor k, and the loop as a
      whole runs the column of offset g. */
  method NrColumn(d: seq<real>, factors: seq<Complex>, mmax: nat, m: nat, k: nat, ghost step: nat, ghost g: nat)
    returns (out: seq<real>)
    requires step > 0 && MultipleOf(|AsComplex(d)|, 2 * step) && g < step && k < |factors|
    requires mmax == 2 * step && m == 2 * g + 1
    ensures AsComplex(out) == Run(AsComplex(d), factors, Column(|AsComplex(d)|, step, g, k))
    ensures TailKept(d, out)
  {
    var nn := 2 * (|d| / 2);
    var istep := 2 * mmax;
    ghost var v := AsComplex(d);
    ghost var done: seq<Butterfly> := [];
    ghost var c := g;
    out := d;
    var i := m;
    while i < nn + 1
      invariant i == 2 * c + 1 && TailKept(d, out)
      invariant ColumnState(v, factors, step, g, k, c, done, AsComplex(out))
      decreases nn + 1 - i
    {
      out, done := NrColumnVisit(v, factors, step, g, k, c, done, d, out, i, mmax);
      i := i + istep;
      c := c + 2 * step;
    }
    ColumnEnd(v, factors, step, g, k, c, done, AsComplex(out));
  }

  /** One pass of the innermost loop keeps the column's state. */
  method NrColumnVisit(ghost v: seq<Complex>, factors: seq<Complex>, ghost step: nat, ghost g: nat, k: nat,
                       ghost c: nat, ghost done0: seq<Butterfly>, ghost d: seq<real>, out0: seq<real>,
                       i: nat, mmax: nat)
    returns (out: seq<real>, ghost done: seq<Butterfly>)
    requires step > 0 && MultipleOf(|v|, 2 * step) && g < step && k < |factors|
    requires mmax == 2 * step && i == 2 * c + 1 && c < |v| && |d| / 2 == |v| && TailKept(d, out0)
    requires ColumnState(v, factors, step, g, k, c, done0, AsComplex(out0))
    ensures TailKept(d, out)
    ensures ColumnState(v, factors, step, g, k, c + 2 * step, done, AsComplex(out))
  {
    PartnerInRange(v, factors, step, g, k, c, done0, AsComplex(out0));
    var j := i + mmax;
    out := NrButterfly(out0, factors[k], i, j, c, c + step);
    done := done0 + [Butterfly(c, c + step, k)];
    ColumnStep(v, factors, step, g, k, c, c + step, c + 2 * step, done0, done,
               AsComplex(out0), AsComplex(out));
  }

  /** The middle loop (src/lib.rs:46-59): the odd offsets m = 1, 3, ...,
      mmax - 1, one factor each, read in order from index step - 1, where the
      narrower stages left off. */
  method NrStagePass(d: seq<real>, factors: seq<Complex>, mmax: nat, k0: nat, ghost step: nat)
    returns (out: seq<real>, k: nat)
    requires step > 0 && MultipleOf(|AsComplex(d)|, 2 * step) && mmax == 2 * step
    requires k0 == step - 1 && 2 * step - 1 <= |factors|
    ensures k == 2 * step - 1
    ensures OffsetsDone(d, factors, step, step, out)
  {
    out := d;
    k := k0;
    ghost var g := 0;
    var m := 1;
    OffsetsStart(d, factors, step);
    while m < mmax
      invariant m == 2 * g + 1 && g <= step && k == step - 1 + g
      invariant OffsetsDone(d, factors, step, g, out)
    {
      out := NrOffsetPass(d, factors, mmax, m, k, step, g, out);
      k := k + 1;
      m := m + 2;
      g := g + 1;
    }
  }

  /** The offsets below g of the stage of width step are done on the view,
      and the reals past it are untouched. */
  ghost predicate OffsetsDone(d: seq<real>, factors: seq<Complex>, step: nat, g: nat, out: seq<real>)
    requires step > 0 && MultipleOf(|AsComplex(d)|, 2 * step) && g <= step
  {
    && TailKept(d, out)
    && AsComplex(out) == Run(AsComplex(d), factors, StagePrefix(|AsComplex(d)|, step, g))
  }

  lemma OffsetsStart(d: seq<real>, factors: seq<Complex>, step: nat)
    requires step > 0 && MultipleOf(|AsComplex(d)|, 2 * step)
    ensures OffsetsDone(d, factors, step, 0, d)
  {
    StagePrefixStart(AsComplex(d), factors, step);
  }

  /** One turn of the middle loop: the column of offset g after the offsets
      before it. */
  method NrOffsetPass(d: seq<real>, factors: seq<Complex>, mmax: nat, m: nat, k: nat,
                      ghost step: nat, ghost g: nat, out0: seq<real>)
    returns (out: seq<real>)
    requires step > 0 && MultipleOf(|AsComplex(d)|, 2 * step) && g < step && k < |factors|
    requires mmax == 2 * step && m == 2 * g + 1 && k == step - 1 + g
    requires OffsetsDone(d, factors, step, g, out0)
    ensures OffsetsDone(d, factors, step, g + 1, out)
  {
    out := NrColumn(out0, factors, mmax, m, k, step, g);
    StagePrefixRun(AsComplex(d), factors, step, g, k, AsComplex(out0), AsComplex(out));
  }

  /** The butterfly stages (src/lib.rs:37-61): the span mmax doubles from 2
      while nn > mmax, the stage of span mmax = 2 step being the stage of
      width step on the view. On the view the loops run the complex schedule
      of `calculate`, reading factor k = step - 1 + g at offset m = 2g + 1;
      the stage loop turns NrStages times, log2 n for n >= 1. */
  method NrButterflies(data: seq<real>, factors: seq<Complex>) returns (out: seq<real>, ghost passes: nat)
    requires PowerOfTwoOrEmpty(|data| / 2) && |factors| >= |data| / 2 - 1
    ensures AsComplex(out) == Run(AsComplex(data), factors, Schedule(|data| / 2))
    ensures TailKept(data, out)
    ensures passes == NrStages(2 * (|data| / 2), 2)
    ensures |data| / 2 > 0 ==> passes == Log2(|data| / 2)
  {
    var n := |data| / 2;
    var nn := 2 * n;
    out := data;
    var mmax := 2;
    ghost var step := 1;
    var k := 0;
    passes := 0;
    while nn > mmax
      invariant mmax == 2 * step && k == step - 1 && TailKept(data, out)
      invariant n > 0 ==> IsPow2(step) && step <= n
      invariant n > 0 ==> AsComplex(out) == Run(AsComplex(data), factors, StagesBelow(|AsComplex(data)|, step))
      invariant passes + NrStages(nn, mmax) == NrStages(nn, 2)
      decreases nn - mmax
    {
      var istep := 2 * mmax;
      out, k := NrNextStage(data, factors, mmax, step, out, k);
      mmax := istep;
      step := 2 * step;
      passes := passes + 1;
    }
    if n > 0 {
      ScheduleWhole(AsComplex(data), factors, step, AsComplex(out));
      NrStageCount(n);
    }
  }

  /** One turn of the stage loop: the stage of span mmax after the narrower
      ones. */
  method NrNextStage(data: seq<real>, factors: seq<Complex>, mmax: nat, ghost step: nat, out0: seq<real>, k0: nat)
    returns (out: seq<real>, k: nat)
    requires IsPow2(|AsComplex(data)|) && IsPow2(step) && step < |AsComplex(data)|
    requires |factors| >= |AsComplex(data)| - 1 && mmax == 2 * step && k0 == step - 1
    requires TailKept(data, out0)
    requires AsComplex(out0) == Run(AsComplex(data), factors, StagesBelow(|AsComplex(data)|, step))
    ensures 2 * step <= |AsComplex(data)| && IsPow2(2 * step) && k == 2 * step - 1
    ensures AsComplex(out) == Run(AsComplex(data), factors, StagesBelow(|AsComplex(data)|, 2 * step))
    ensures TailKept(data, out)
  {
    PowerMultiple(step, |AsComplex(data)|);
    DoubleStep(step, |AsComplex(data)|);
    out, k := NrStagePass(out0, factors, mmax, k0, step);
    StagesBelowRun(AsComplex(data), factors, step, AsComplex(out0), AsComplex(out));
  }

  /** The number of passes of `while nn > mmax` with mmax doubling from 2. */
  function NrStages(nn: nat, mmax: nat): (r: nat)
    requires mmax >= 2
    decreases nn - mmax
  {
    if nn > mmax then 1 + NrStages(nn, 2 * mmax) else 0
  }

  /** From span 2s, the stage loop runs log2 n - log2 s more times. */
  lemma {:induction false} NrStagesFrom(n: nat, s: nat)
    requires IsPow2(n) && IsPow2(s) && s <= n
    ensures NrStages(2 * n, 2 * s) == Log2(n) - Log2(s)
    decreases n - s
  {
    if s < n {
      PowerBelow(s, n);
      DoublePow2(s);
      assert Log2(2 * s) == 1 + Log2(s);
      NrStagesFrom(n, 2 * s);
    }
  }

  /** For n a power of two the stage loop runs exactly log2 n times. */
  lemma NrStageCount(n: nat)
    requires IsPow2(n)
    ensures NrStages(2 * n, 2) == Log2(n)
  {
    NrStagesFrom(n, 1);
  }

  /** The final loop of the inverse (src/lib.rs:63-68): the reals below 2n
      multiplied by 1 / n; a trailing odd real is not scaled. */
  method ScaleReals(data: seq<real>) returns (out: seq<real>)
    ensures |out| == |data|
    ensures forall p :: 0 <= p < 2 * (|data| / 2) ==> out[p] == data[p] * (1.0 / ((|data| / 2) as real))
    ensures forall p :: 2 * (|data| / 2) <= p < |data| ==> out[p] == data[p]
  {
    var n := |data| / 2;
    out := data;
    if n == 0 {
      return;
    }
    var scale := 1.0 / (n as real);
    var i := 0;
    while i < 2 * n
      invariant i <= 2 * n && |out| == |data|
      invariant forall p :: 0 <= p < i ==> out[p] == data[p] * scale
      invariant forall p :: i <= p < |data| ==> out[p] == data[p]
    {
      out := out[i := out[i] * scale];
      i := i + 1;
    }
  }

  /** Scaling the reals below 2n is scaling each sample of the view. */
  lemma ScaleRealsSamples(data: seq<real>, out: seq<real>)
    requires |out| == |data| >= 2
    requires forall p :: 0 <= p < 2 * (|data| / 2) ==> out[p] == data[p] * (1.0 / ((|data| / 2) as real))
    ensures forall c :: 0 <= c < |data| / 2 ==>
      AsComplex(out)[c] == Scale(AsComplex(data)[c], 1.0 / ((|data| / 2) as real))
  {
    var n := |data| / 2;
    forall c | 0 <= c < n
      ensures AsComplex(out)[c] == Scale(AsComplex(data)[c], 1.0 / (n as real))
    {
      assert out[2 * c] == data[2 * c] * (1.0 / (n as real));
      assert out[2 * c + 1] == data[2 * c + 1] * (1.0 / (n as real));
    }
  }

  /** For n not a power of two (n >= 1) the butterfly loops overrun at the
      latest in the widest stage: if no earlier span overruns, the widest span
      mmax < nn reaches an odd offset m < mmax that is at most nn, and
      the partner index j = m + mmax is 2n + 1, past the end of a buffer of
      2n or 2n + 1 reals. */
  lemma NrWidestStageOverruns(n: nat) returns (mmax: nat, m: nat)
    requires n >= 1 && !IsPow2(n)
    ensures IsPow2(mmax) && 2 <= mmax < 2 * n
    ensures m % 2 == 1 && m < mmax && m <= 2 * n
    ensures m + mmax == 2 * n + 1
  {
    var step := ComplexTransform.WidestStageOverruns(n);
    DoublePow2(step);
    mmax := 2 * step;
    m := 2 * (n - step) + 1;
  }

  /** `transform`: a sample count n = len / 2 that is neither 0 nor a power
      of two makes the butterfly loops index past the end
      (NrWidestStageOverruns); otherwise the sample view ends as the
      butterfly schedule run on the bit-reversed samples, divided by n for
      the inverse, and a trailing odd real is left as it was. */
  method NrTransform(data: seq<real>, direction: Direction, factors: seq<Complex>)
    returns (r: Result<seq<real>>)
    requires |factors| >= |data| / 2 - 1
    ensures r == Failure(IndexOutOfBounds) <==> !PowerOfTwoOrEmpty(|data| / 2)
    ensures r.Failure? ==> r.fault == IndexOutOfBounds
    ensures r.Success? ==>
      var n := |data| / 2;
      var y := Run(BitReversed(AsComplex(data)), factors, Schedule(n));
      && |r.value| == |data|
      && (direction == Forward ==> AsComplex(r.value) == y)
      && (direction == Inverse ==>
            forall c :: 0 <= c < n ==> AsComplex(r.value)[c] == Scale(y[c], 1.0 / (n as real)))
      && (forall p :: 2 * n <= p < |data| ==> r.value[p] == data[p])
  {
    var n := |data| / 2;
    if !PowerOfTwoOrEmpty(n) {
      return Failure(IndexOutOfBounds);
    }
    var arranged := NrRearrange(data);
    var out, passes := NrButterflies(arranged, factors);
    if direction == Inverse {
      var scaled := ScaleReals(out);
      if n > 0 {
        ScaleRealsSamples(out, scaled);
      }
      out := scaled;
    }
    r := Success(out);
  }
}
