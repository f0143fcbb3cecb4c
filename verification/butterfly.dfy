/** The radix-2 butterfly network of src/complex.rs (`calculate`): the order in
    which index pairs are combined and plan factors consumed. */
module Butterflies {
  import opened Bits
  import opened Numbers

  /** One butterfly: positions i and j = i + step, and the index k of the
      plan factor it multiplies position j by. */
  datatype Butterfly = Butterfly(i: nat, j: nat, k: nat)

  /** The butterfly reads two distinct positions of a buffer of n samples
      and an entry of a factor table of m entries. */
  predicate InBounds(b: Butterfly, n: nat, m: int)
  {
    b.i < b.j < n && b.k < m
  }

  /** Every butterfly of s stays in bounds. */
  predicate Fits(s: seq<Butterfly>, n: nat, m: int)
  {
    forall t :: 0 <= t < |s| ==> InBounds(s[t], n, m)
  }

  /** n is a multiple of w. */
  predicate MultipleOf(n: nat, w: nat)
    requires w > 0
    decreases n
  {
    n == 0 || (n >= w && MultipleOf(n - w, w))
  }

  /** i lies in the lower half of its group of width 2 * step. */
  predicate LowerHalf(i: nat, step: nat)
    requires step > 0
    decreases i
  {
    i < step || (i >= 2 * step && LowerHalf(i - 2 * step, step))
  }

  lemma {:induction false} MultipleAdd(x: nat, y: nat, w: nat)
    requires w > 0 && MultipleOf(x, w) && MultipleOf(y, w)
    ensures MultipleOf(x + y, w)
    decreases x
  {
    if x > 0 {
      MultipleAdd(x - w, y, w);
      assert x + y - w == (x - w) + y;
    }
  }

  /** A larger power of two is a multiple of twice a smaller one. */
  lemma {:induction false} PowerMultiple(a: nat, b: nat)
    requires IsPow2(a) && IsPow2(b) && a < b
    ensures MultipleOf(b, 2 * a)
    decreases b
  {
    PowerBelow(a, b);
    if 2 * a < b {
      var h := HalfAbove(a, b);
      PowerMultiple(a, h);
      MultipleAdd(h, h, 2 * a);
    }
  }

  /** Half of a power of two b > 2a is a power of two above a. */
  lemma HalfAbove(a: nat, b: nat) returns (h: nat)
    requires IsPow2(a) && IsPow2(b) && 2 * a < b
    ensures h == b / 2 && h + h == b && IsPow2(h) && a < h
  {
    h := b / 2;
  }

  /** i < n in the lower half of its group, n a multiple of the group width:
      then the partner i + step is below n too. */
  lemma {:induction false} PartnerBelow(i: nat, n: nat, step: nat)
    requires step > 0 && MultipleOf(n, 2 * step)
    requires i < n && LowerHalf(i, step)
    ensures i + step < n
    decreases i
  {
    if i >= step {
      PartnerBelow(i - 2 * step, n - 2 * step, step);
    }
  }

  /** The butterflies of one offset within a stage: positions i, i + 2 step,
      i + 4 step, ... below n, all with factor f (the innermost `while i < n`). */
  function Column(n: nat, step: nat, i: nat, f: nat): (r: seq<Butterfly>)
    requires step > 0 && MultipleOf(n, 2 * step) && LowerHalf(i, step)
    decreases n - i
  {
    if i >= n then []
    else
      [Butterfly(i, i + step, f)] + Column(n, step, i + 2 * step, f)
  }

  /** The offsets 0, 1, ..., g - 1 of one stage in order; offset c uses the
      factor step - 1 + c, after the step - 1 factors of the earlier stages. */
  function StagePrefix(n: nat, step: nat, g: nat): (r: seq<Butterfly>)
    requires step > 0 && MultipleOf(n, 2 * step) && g <= step
    decreases g
  {
    if g == 0 then []
    else
      StagePrefix(n, step, g - 1) + Column(n, step, g - 1, step - 1 + (g - 1))
  }

  /** One whole stage of width step. */
  function Stage(n: nat, step: nat): (r: seq<Butterfly>)
    requires IsPow2(n) && IsPow2(step) && step < n
  {
    PowerMultiple(step, n);
    StagePrefix(n, step, step)
  }

  /** The stages of width 1, 2, 4, ... below step, in order. */
  function StagesBelow(n: nat, step: nat): (r: seq<Butterfly>)
    requires IsPow2(n) && IsPow2(step) && step <= n
    decreases step
  {
    if step == 1 then []
    else
      StagesBelow(n, step / 2) + Stage(n, step / 2)
  }

  /** The whole schedule of `calculate` for n samples. */
  function Schedule(n: nat): (r: seq<Butterfly>)
    requires PowerOfTwoOrEmpty(n)
  {
    if n == 0 then [] else StagesBelow(n, n)
  }

  lemma FitsConcat(a: seq<Butterfly>, b: seq<Butterfly>, n: nat, m: int)
    requires Fits(a, n, m) && Fits(b, n, m)
    ensures Fits(a + b, n, m)
  {
    forall t | 0 <= t < |a + b|
      ensures InBounds((a + b)[t], n, m)
    {
      if t < |a| {
        assert (a + b)[t] == a[t];
      } else {
        assert (a + b)[t] == b[t - |a|];
      }
    }
  }

  /** Every butterfly of a column pairs a position of the lower half with its
      partner step above it, below n, and uses the column's factor. */
  lemma {:induction false} ColumnShape(n: nat, step: nat, i: nat, f: nat)
    requires step > 0 && MultipleOf(n, 2 * step) && LowerHalf(i, step)
    ensures forall t :: 0 <= t < |Column(n, step, i, f)| ==>
      var b := Column(n, step, i, f)[t];
      i <= b.i && b.j == b.i + step && b.j < n && b.k == f
    decreases n - i
  {
    if i < n {
      PartnerBelow(i, n, step);
      ColumnShape(n, step, i + 2 * step, f);
    }
  }

  /** The first g offsets of a stage use the factors step - 1 .. step - 2 + g. */
  lemma {:induction false} StagePrefixShape(n: nat, step: nat, g: nat)
    requires step > 0 && MultipleOf(n, 2 * step) && g <= step
    ensures forall t :: 0 <= t < |StagePrefix(n, step, g)| ==>
      var b := StagePrefix(n, step, g)[t];
      b.j == b.i + step && b.j < n && step - 1 <= b.k < step - 1 + g
    decreases g
  {
    if g > 0 {
      StagePrefixShape(n, step, g - 1);
      ColumnShape(n, step, g - 1, step - 1 + (g - 1));
      var a: seq<Butterfly> := StagePrefix(n, step, g - 1);
      var c: seq<Butterfly> := Column(n, step, g - 1, step - 1 + (g - 1));
      forall t | 0 <= t < |a + c|
        ensures (a + c)[t].j == (a + c)[t].i + step && (a + c)[t].j < n
        ensures step - 1 <= (a + c)[t].k < step - 1 + g
      {
        if t < |a| {
          assert (a + c)[t] == a[t];
        } else {
          assert (a + c)[t] == c[t - |a|];
        }
      }
    }
  }

  /** Every butterfly of the stage of width step is in bounds for a plan of
      size n, and reads one of the factors step - 1 .. 2 step - 2. */
  lemma StageFits(n: nat, step: nat)
    requires IsPow2(n) && IsPow2(step) && step < n
    ensures Fits(Stage(n, step), n, n - 1)
    ensures forall t :: 0 <= t < |Stage(n, step)| ==> step - 1 <= Stage(n, step)[t].k < 2 * step - 1
  {
    PowerMultiple(step, n);
    PowerBelow(step, n);
    StagePrefixShape(n, step, step);
  }

  lemma {:induction false} StagesBelowFits(n: nat, step: nat)
    requires IsPow2(n) && IsPow2(step) && step <= n
    ensures Fits(StagesBelow(n, step), n, n - 1)
    decreases step
  {
    if step > 1 {
      assert IsPow2(step / 2);
      StagesBelowFits(n, step / 2);
      StageFits(n, step / 2);
      FitsConcat(StagesBelow(n, step / 2), Stage(n, step / 2), n, n - 1);
    }
  }

  /** Every butterfly of the schedule pairs two distinct positions of the
      buffer and reads an existing plan factor. */
  lemma ScheduleFits(n: nat)
    requires PowerOfTwoOrEmpty(n)
    ensures Fits(Schedule(n), n, n - 1)
  {
    if n > 0 {
      StagesBelowFits(n, n);
    }
  }

  /** One butterfly on the buffer: position j receives d[i] - w d[j] and
      position i receives d[i] + w d[j], with w the factor. A butterfly out of
      bounds leaves the buffer alone; the schedule never contains one. */
  function Apply(d: seq<Complex>, factors: seq<Complex>, b: Butterfly): (r: seq<Complex>)
    ensures |r| == |d|
  {
    if InBounds(b, |d|, |factors|) then
      var product := Mul(factors[b.k], d[b.j]);
      d[b.j := Sub(d[b.i], product)][b.i := Add(d[b.i], product)]
    else d
  }

  /** The buffer after the butterflies of s, applied in order. */
  function Run(d: seq<Complex>, factors: seq<Complex>, s: seq<Butterfly>): (r: seq<Complex>)
    ensures |r| == |d|
    decreases |s|
  {
    if s == [] then d
    else Apply(Run(d, factors, s[..|s| - 1]), factors, s[|s| - 1])
  }

  lemma RunAppend(d: seq<Complex>, factors: seq<Complex>, s: seq<Butterfly>, b: Butterfly)
    ensures Run(d, factors, s + [b]) == Apply(Run(d, factors, s), factors, b)
  {
    assert (s + [b])[..|s|] == s;
  }

  /** Running a + b is running a, then b. */
  lemma {:induction false} RunConcat(d: seq<Complex>, factors: seq<Complex>, a: seq<Butterfly>, b: seq<Butterfly>)
    ensures Run(d, factors, a + b) == Run(Run(d, factors, a), factors, b)
    decreases |b|
  {
    if b == [] {
      assert a + b == a;
    } else {
      var last := b[|b| - 1];
      var init := b[..|b| - 1];
      assert b == init + [last];
      assert a + b == (a + init) + [last];
      RunAppend(d, factors, a + init, last);
      RunConcat(d, factors, a, init);
      RunAppend(Run(d, factors, a), factors, init, last);
    }
  }

  /** The innermost loop: the groups of one offset g, all with factor k. */
  method ColumnPass(d: seq<Complex>, factors: seq<Complex>, step: nat, g: nat, k: nat)
    returns (out: seq<Complex>)
    requires step > 0 && MultipleOf(|d|, 2 * step) && g < step && k < |factors|
    ensures out == Run(d, factors, Column(|d|, step, g, k))
  {
    var n := |d|;
    var jump := 2 * step;
    ghost var done: seq<Butterfly> := [];
    out := d;
    var i := g;
    while i < n
      invariant ColumnState(d, factors, step, g, k, i, done, out)
      decreases n - i
    {
      ghost var i0, done0, out0 := i, done, out;
      PartnerInRange(d, factors, step, g, k, i, done, out);
      var j := i + step;
      var product := Mul(factors[k], out[j]);
      out := out[j := Sub(out[i], product)][i := Add(out[i], product)];
      done := done + [Butterfly(i, j, k)];
      i := i + jump;
      ColumnStep(d, factors, step, g, k, i0, j, i, done0, done, out0, out);
    }
    ColumnEnd(d, factors, step, g, k, i, done, out);
  }

  ghost predicate ColumnState(d: seq<Complex>, factors: seq<Complex>, step: nat, g: nat, k: nat,
                              i: nat, done: seq<Butterfly>, out: seq<Complex>)
    requires step > 0 && MultipleOf(|d|, 2 * step) && g < step
  {
    && LowerHalf(i, step)
    && done + Column(|d|, step, i, k) == Column(|d|, step, g, k)
    && out == Run(d, factors, done)
  }

  lemma PartnerInRange(d: seq<Complex>, factors: seq<Complex>, step: nat, g: nat, k: nat,
                       i: nat, done: seq<Butterfly>, out: seq<Complex>)
    requires step > 0 && MultipleOf(|d|, 2 * step) && g < step
    requires i < |d| && ColumnState(d, factors, step, g, k, i, done, out)
    ensures i + step < |d| == |out|
  {
    PartnerBelow(i, |d|, step);
  }

  /** One butterfly of the innermost loop keeps the loop's state. */
  lemma ColumnStep(d: seq<Complex>, factors: seq<Complex>, step: nat, g: nat, k: nat,
                   i0: nat, j: nat, i: nat, done0: seq<Butterfly>, done: seq<Butterfly>,
                   out0: seq<Complex>, out: seq<Complex>)
    requires step > 0 && MultipleOf(|d|, 2 * step) && g < step && k < |factors|
    requires i0 < |d| && ColumnState(d, factors, step, g, k, i0, done0, out0)
    requires j == i0 + step && i == i0 + 2 * step && j < |out0|
    requires done == done0 + [Butterfly(i0, j, k)]
    requires out == out0[j := Sub(out0[i0], Mul(factors[k], out0[j]))]
                        [i0 := Add(out0[i0], Mul(factors[k], out0[j]))]
    ensures ColumnState(d, factors, step, g, k, i, done, out)
  {
    var b := Butterfly(i0, j, k);
    ColumnAdvance(|d|, step, g, k, i0, done0);
    RunAppend(d, factors, done0, b);
  }

  lemma ColumnAdvance(n: nat, step: nat, g: nat, k: nat, i: nat, done: seq<Butterfly>)
    requires step > 0 && MultipleOf(n, 2 * step) && g < step
    requires i < n && LowerHalf(i, step)
    requires done + Column(n, step, i, k) == Column(n, step, g, k)
    ensures LowerHalf(i + 2 * step, step)
    ensures done + [Butterfly(i, i + step, k)] + Column(n, step, i + 2 * step, k) == Column(n, step, g, k)
  {
    assert Column(n, step, i, k) == [Butterfly(i, i + step, k)] + Column(n, step, i + 2 * step, k);
  }

  lemma ColumnEnd(d: seq<Complex>, factors: seq<Complex>, step: nat, g: nat, k: nat,
                  i: nat, done: seq<Butterfly>, out: seq<Complex>)
    requires step > 0 && MultipleOf(|d|, 2 * step) && g < step && k < |factors|
    requires i >= |d| && ColumnState(d, factors, step, g, k, i, done, out)
    ensures out == Run(d, factors, Column(|d|, step, g, k))
  {
    assert Column(|d|, step, i, k) == [];
    assert done == Column(|d|, step, g, k);
  }

  /** The middle loop: one stage, one factor per offset, read in order from
      index step - 1, where the previous stages left the counter. */
  method StagePass(d: seq<Complex>, factors: seq<Complex>, step: nat, k0: nat)
    returns (out: seq<Complex>, k: nat)
    requires step > 0 && MultipleOf(|d|, 2 * step)
    requires k0 == step - 1 && 2 * step - 1 <= |factors|
    ensures k == 2 * step - 1
    ensures out == Run(d, factors, StagePrefix(|d|, step, step))
  {
    out := d;
    k := k0;
    var g := 0;
    StagePrefixStart(d, factors, step);
    while g < step
      invariant g <= step && k == step - 1 + g
      invariant out == Run(d, factors, StagePrefix(|d|, step, g))
    {
      out := OffsetPass(d, factors, step, g, out);
      k := k + 1;
      g := g + 1;
    }
  }

  lemma StagePrefixStart(d: seq<Complex>, factors: seq<Complex>, step: nat)
    requires step > 0 && MultipleOf(|d|, 2 * step)
    ensures d == Run(d, factors, StagePrefix(|d|, step, 0))
  {
  }

  /** One turn of the middle loop: the groups of offset g, with factor
      step - 1 + g, appended to the offsets before it. */
  method OffsetPass(d: seq<Complex>, factors: seq<Complex>, step: nat, g: nat, out0: seq<Complex>)
    returns (out: seq<Complex>)
    requires step > 0 && MultipleOf(|d|, 2 * step) && g < step && step - 1 + g < |factors|
    requires out0 == Run(d, factors, StagePrefix(|d|, step, g))
    ensures out == Run(d, factors, StagePrefix(|d|, step, g + 1))
  {
    var k := step - 1 + g;
    out := ColumnPass(out0, factors, step, g, k);
    StagePrefixRun(d, factors, step, g, k, out0, out);
  }

  /** Running the first g + 1 offsets is running the first g, then offset g. */
  lemma StagePrefixRun(d: seq<Complex>, factors: seq<Complex>, step: nat, g: nat, k: nat,
                       out0: seq<Complex>, out: seq<Complex>)
    requires step > 0 && MultipleOf(|d|, 2 * step) && g < step && k == step - 1 + g
    requires out0 == Run(d, factors, StagePrefix(|d|, step, g))
    requires out == Run(out0, factors, Column(|out0|, step, g, k))
    ensures out == Run(d, factors, StagePrefix(|d|, step, g + 1))
  {
    assert |out0| == |d|;
    var before := StagePrefix(|d|, step, g);
    var column := Column(|d|, step, g, k);
    StagePrefixNextWith(|d|, step, g, k);
    RunConcat(d, factors, before, column);
  }

  lemma StagePrefixNextWith(n: nat, step: nat, g: nat, k: nat)
    requires step > 0 && MultipleOf(n, 2 * step) && g < step && k == step - 1 + g
    ensures StagePrefix(n, step, g + 1) == StagePrefix(n, step, g) + Column(n, step, g, k)
  {
    StagePrefixNext(n, step, g);
  }

  lemma StagePrefixNext(n: nat, step: nat, g: nat)
    requires step > 0 && MultipleOf(n, 2 * step) && g < step
    ensures StagePrefix(n, step, g + 1) == StagePrefix(n, step, g) + Column(n, step, g, step - 1 + g)
  {
  }

  /** The butterfly loops of `calculate`: stages of doubling width, within a
      stage one factor per offset, within an offset every group. The counter
      k ends at n - 1: exactly the n - 1 factors of a plan of size n are read. */
  method Calculate(data: seq<Complex>, factors: seq<Complex>) returns (out: seq<Complex>, k: nat)
    requires PowerOfTwoOrEmpty(|data|) && |factors| >= |data| - 1
    ensures |out| == |data|
    ensures k == if |data| == 0 then 0 else |data| - 1
    ensures out == Run(data, factors, Schedule(|data|))
  {
    var n := |data|;
    out := data;
    k := 0;
    if n == 0 {
      return;
    }
    var step: nat := 1;
    while step < n
      invariant IsPow2(step) && step <= n && k == step - 1
      invariant out == Run(data, factors, StagesBelow(n, step))
      decreases n - step
    {
      out, k := NextStage(data, factors, step, out, k);
      step := 2 * step;
    }
    ScheduleWhole(data, factors, step, out);
  }

  /** One turn of the outer loop: the stage of width step, after the
      narrower ones. */
  method NextStage(d: seq<Complex>, factors: seq<Complex>, step: nat, out0: seq<Complex>, k0: nat)
    returns (out: seq<Complex>, k: nat)
    requires IsPow2(|d|) && IsPow2(step) && step < |d| && |factors| >= |d| - 1
    requires k0 == step - 1
    requires out0 == Run(d, factors, StagesBelow(|d|, step))
    ensures 2 * step <= |d| && IsPow2(2 * step) && k == 2 * step - 1
    ensures out == Run(d, factors, StagesBelow(|d|, 2 * step))
  {
    PowerMultiple(step, |d|);
    DoubleStep(step, |d|);
    out, k := StagePass(out0, factors, step, k0);
    StagesBelowRun(d, factors, step, out0, out);
  }

  /** Running the stages below 2 step is running those below step, then
      the stage of width step. */
  lemma StagesBelowRun(d: seq<Complex>, factors: seq<Complex>, step: nat,
                       out0: seq<Complex>, out: seq<Complex>)
    requires IsPow2(|d|) && IsPow2(step) && step < |d| && MultipleOf(|d|, 2 * step)
    requires out0 == Run(d, factors, StagesBelow(|d|, step))
    requires out == Run(out0, factors, StagePrefix(|out0|, step, step))
    ensures 2 * step <= |d| && IsPow2(2 * step)
    ensures out == Run(d, factors, StagesBelow(|d|, 2 * step))
  {
    StagesBelowNext(|d|, step);
    RunConcat(d, factors, StagesBelow(|d|, step), Stage(|d|, step));
  }

  lemma StagesBelowNext(n: nat, step: nat)
    requires IsPow2(n) && IsPow2(step) && step < n
    ensures 2 * step <= n && IsPow2(2 * step)
    ensures StagesBelow(n, 2 * step) == StagesBelow(n, step) + Stage(n, step)
  {
    DoubleStep(step, n);
  }

  lemma ScheduleWhole(d: seq<Complex>, factors: seq<Complex>, step: nat, out: seq<Complex>)
    requires IsPow2(|d|) && IsPow2(step) && step == |d|
    requires out == Run(d, factors, StagesBelow(|d|, step))
    ensures out == Run(d, factors, Schedule(|d|))
  {
  }

  /** The width doubles within n and stays a power of two. */
  lemma DoubleStep(step: nat, n: nat)
    requires IsPow2(n) && IsPow2(step) && step < n
    ensures 2 * step <= n && IsPow2(2 * step) && (2 * step) / 2 == step
  {
    PowerBelow(step, n);
    DoublePow2(step);
  }
}
