/** The complex transform of src/complex.rs: the length guard against the
    plan, the bit-reversal permutation, the butterfly network and, for the
    inverse operation only, the final scaling by 1 / n. */
module ComplexTransform {
  import opened Bits
  import opened Numbers
  import opened Faults
  import opened BitReversal
  import opened Butterflies

  /** The direction of a plan. Backward is the unnormalised inverse; Inverse
      also divides by the length. */
  datatype Operation = Forward | Backward | Inverse

  /** A plan: the size it was built for, its operation and its factor table.
      How the factors are computed (trigonometry) is not part of this model. */
  datatype Plan = Plan(n: nat, operation: Operation, factors: seq<Complex>)

  /** What plan construction guarantees: a power-of-two size with one factor
      per butterfly merge position, n - 1 in all. */
  predicate ValidPlan(plan: Plan)
  {
    IsPow2(plan.n) && |plan.factors| == plan.n - 1
  }

  /** `scale`: every one of the n samples multiplied by 1 / n, once. */
  method ScaleAll(data: seq<Complex>) returns (out: seq<Complex>)
    ensures |out| == |data|
    ensures forall i :: 0 <= i < |data| ==> out[i] == Scale(data[i], 1.0 / (|data| as real))
  {
    out := data;
    var n := |data|;
    if n == 0 {
      return;
    }
    var factor := 1.0 / (n as real);
    var i := 0;
    while i < n
      invariant i <= n && |out| == n
      invariant forall p :: 0 <= p < i ==> out[p] == Scale(data[p], factor)
      invariant forall p :: i <= p < n ==> out[p] == data[p]
    {
      out := out[i := Scale(out[i], factor)];
      i := i + 1;
    }
  }

  /** Scaling by 1 / n is undone by scaling by n: each sample was divided by
      n exactly once. */
  lemma ScaleAllUndone(data: seq<Complex>, out: seq<Complex>)
    requires |out| == |data| > 0
    requires forall i :: 0 <= i < |data| ==> out[i] == Scale(data[i], 1.0 / (|data| as real))
    ensures forall i :: 0 <= i < |data| ==> Scale(out[i], |data| as real) == data[i]
  {
    var m := |data| as real;
    forall i | 0 <= i < |data|
      ensures Scale(out[i], m) == data[i]
    {
      ScaleBack(data[i].re, m);
      ScaleBack(data[i].im, m);
    }
  }

  lemma ScaleBack(x: real, m: real)
    requires m != 0.0
    ensures x * (1.0 / m) * m == x
  {
  }

  /** The largest power of two not above n. */
  lemma {:induction false} PowerAtMost(n: nat) returns (s: nat)
    requires n >= 1
    ensures IsPow2(s) && s <= n < 2 * s
    decreases n
  {
    if n == 1 {
      s := 1;
    } else {
      var h := PowerAtMost(n / 2);
      DoublePow2(h);
      s := 2 * h;
    }
  }

  /** For a length that is not a power of two, the butterfly loops overrun at
      the latest in the widest stage: if no earlier stage overruns, that stage
      (step the largest power of two below n) reaches offset n - step < step,
      and that butterfly's partner n - step + step = n is past the end of the
      slice, so `calculate` panics. An earlier stage may panic first (odd n
      already fails at step 1). */
  lemma WidestStageOverruns(n: nat) returns (step: nat)
    requires n >= 1 && !IsPow2(n)
    ensures IsPow2(step) && step < n && n - step < step
  {
    step := PowerAtMost(n);
  }

  /** `transform`: a buffer longer than the plan panics; one whose length is
      not a power of two overruns in the butterfly loops (WidestStageOverruns);
      otherwise the result is the butterfly network run on the bit-reversed
      buffer, divided by n for the Inverse operation only. */
  method Transform(data: seq<Complex>, plan: Plan) returns (r: Result<seq<Complex>>)
    requires ValidPlan(plan)
    ensures r.Success? <==> |data| <= plan.n && PowerOfTwoOrEmpty(|data|)
    ensures r == Failure(LengthExceedsPlan) <==> |data| > plan.n
    ensures r == Failure(IndexOutOfBounds) <==> |data| <= plan.n && !PowerOfTwoOrEmpty(|data|)
    ensures r.Success? ==>
      var y := Run(BitReversed(data), plan.factors, Schedule(|data|));
      && |r.value| == |data|
      && (plan.operation == Inverse ==>
            forall i :: 0 <= i < |data| ==> r.value[i] == Scale(y[i], 1.0 / (|data| as real)))
      && (plan.operation != Inverse ==> r.value == y)
  {
    var n := |data|;
    if n > plan.n {
      return Failure(LengthExceedsPlan);
    }
    if !PowerOfTwoOrEmpty(n) {
      return Failure(IndexOutOfBounds);
    }
    var arranged := Rearrange(data);
    var out, k := Calculate(arranged, plan.factors);
    if plan.operation == Inverse {
      out := ScaleAll(out);
    }
    r := Success(out);
  }
}
