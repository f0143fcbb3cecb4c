/** What the butterfly schedule of src/complex.rs covers: within a stage every
    position of the buffer is touched by exactly one butterfly, the schedule
    reads every plan factor, and it is made of log2 n stages of widths
    1, 2, ..., n / 2. */
module Partition {
  import opened Bits
  import opened Butterflies

  /** The position of i within its group of width w (i mod w, written as a
      recursion so that the divisor may be a variable). */
  function Offset(i: nat, w: nat): (r: nat)
    requires w > 0
    decreases i
  {
    if i < w then i else Offset(i - w, w)
  }

  lemma {:induction false} OffsetBelow(i: nat, w: nat)
    requires w > 0
    ensures Offset(i, w) < w && Offset(i, w) <= i
    decreases i
  {
    if i >= w {
      OffsetBelow(i - w, w);
    }
  }

  lemma OffsetShift(i: nat, w: nat)
    requires w > 0
    ensures Offset(i + w, w) == Offset(i, w)
  {
    assert i + w - w == i;
  }

  /** Two positions of the same offset less than a group apart are equal. */
  lemma {:induction false} OffsetGap(i: nat, x: nat, w: nat)
    requires w > 0 && i <= x < i + w && Offset(x, w) == Offset(i, w)
    ensures x == i
    decreases i
  {
    if i >= w {
      OffsetGap(i - w, x - w, w);
    } else if x >= w {
      OffsetBelow(x - w, w);
    }
  }

  /** The lower half of a group of width 2 step is the offsets below step. */
  lemma {:induction false} LowerHalfOffset(i: nat, step: nat)
    requires step > 0
    ensures LowerHalf(i, step) <==> Offset(i, 2 * step) < step
    decreases i
  {
    if i >= 2 * step {
      LowerHalfOffset(i - 2 * step, step);
    }
  }

  /** A position of the lower half and its partner step above it. */
  lemma {:induction false} OffsetPartner(x: nat, step: nat)
    requires step > 0 && Offset(x, 2 * step) < step
    ensures Offset(x + step, 2 * step) == Offset(x, 2 * step) + step
    decreases x
  {
    if x >= 2 * step {
      OffsetPartner(x - 2 * step, step);
      assert x + step - 2 * step == x - 2 * step + step;
    }
  }

  /** Below an upper-half position q lies q - step in the lower half. */
  lemma {:induction false} UpperFromUpper(q: nat, step: nat)
    requires step > 0 && Offset(q, 2 * step) >= step
    ensures q >= step && Offset(q - step, 2 * step) == Offset(q, 2 * step) - step
    decreases q
  {
    OffsetBelow(q, 2 * step);
    if q >= 2 * step {
      UpperFromUpper(q - 2 * step, step);
      assert q - step - 2 * step == q - 2 * step - step;
      OffsetShift(q - 2 * step - step, 2 * step);
    }
  }

  /** The butterflies of the column starting at i: one for every position at
      or after i with i's offset, paired with the position step above. */
  lemma {:induction false} ColumnMembers(n: nat, step: nat, i: nat, f: nat, b: Butterfly)
    requires step > 0 && MultipleOf(n, 2 * step) && LowerHalf(i, step)
    ensures b in Column(n, step, i, f) <==>
      i <= b.i < n && Offset(b.i, 2 * step) == Offset(i, 2 * step) && b.j == b.i + step && b.k == f
    decreases n - i
  {
    if i < n {
      ColumnMembers(n, step, i + 2 * step, f, b);
      OffsetShift(i, 2 * step);
      if i < b.i < i + 2 * step {
        if Offset(b.i, 2 * step) == Offset(i, 2 * step) {
          OffsetGap(i, b.i, 2 * step);
        }
      }
    }
  }

  lemma PrefixSplit(n: nat, step: nat, g: nat, b: Butterfly)
    requires step > 0 && MultipleOf(n, 2 * step) && 0 < g <= step
    ensures b in StagePrefix(n, step, g) <==>
      b in StagePrefix(n, step, g - 1) || b in Column(n, step, g - 1, step - 1 + (g - 1))
  {
  }

  /** The column of offset g < step: the positions of offset g below n. */
  lemma OffsetColumnMembers(n: nat, step: nat, g: nat, f: nat, b: Butterfly)
    requires step > 0 && MultipleOf(n, 2 * step) && g < step
    ensures b in Column(n, step, g, f) <==>
      b.i < n && Offset(b.i, 2 * step) == g && b.j == b.i + step && b.k == f
  {
    ColumnMembers(n, step, g, f, b);
    OffsetBelow(b.i, 2 * step);
  }

  /** The first g offsets of a stage: the lower-half positions of offset
      below g, each with its factor step - 1 + offset. */
  lemma StagePrefixMembers(n: nat, step: nat, g: nat, b: Butterfly)
    requires step > 0 && MultipleOf(n, 2 * step) && g <= step
    ensures b in StagePrefix(n, step, g) <==>
      b.i < n && Offset(b.i, 2 * step) < g && b.j == b.i + step && b.k == step - 1 + Offset(b.i, 2 * step)
  {
    if b in StagePrefix(n, step, g) {
      PrefixMemberShape(n, step, g, b);
    }
    if b.i < n && Offset(b.i, 2 * step) < g && b.j == b.i + step && b.k == step - 1 + Offset(b.i, 2 * step) {
      PrefixMemberIn(n, step, g, b);
    }
  }

  lemma {:induction false} PrefixMemberShape(n: nat, step: nat, g: nat, b: Butterfly)
    requires step > 0 && MultipleOf(n, 2 * step) && g <= step
    requires b in StagePrefix(n, step, g)
    ensures b.i < n && Offset(b.i, 2 * step) < g && b.j == b.i + step && b.k == step - 1 + Offset(b.i, 2 * step)
    decreases g
  {
    PrefixSplit(n, step, g, b);
    if b in StagePrefix(n, step, g - 1) {
      PrefixMemberShape(n, step, g - 1, b);
    } else {
      OffsetColumnMembers(n, step, g - 1, step - 1 + (g - 1), b);
    }
  }

  lemma {:induction false} PrefixMemberIn(n: nat, step: nat, g: nat, b: Butterfly)
    requires step > 0 && MultipleOf(n, 2 * step) && g <= step
    requires b.i < n && Offset(b.i, 2 * step) < g && b.j == b.i + step && b.k == step - 1 + Offset(b.i, 2 * step)
    ensures b in StagePrefix(n, step, g)
    decreases g
  {
    if Offset(b.i, 2 * step) < g - 1 {
      PrefixFromEarlier(n, step, g, b);
      PrefixMemberIn(n, step, g - 1, b);
    } else {
      PrefixFromColumn(n, step, g, b);
    }
  }

  lemma PrefixFromEarlier(n: nat, step: nat, g: nat, b: Butterfly)
    requires step > 0 && MultipleOf(n, 2 * step) && 0 < g <= step
    ensures b in StagePrefix(n, step, g - 1) ==> b in StagePrefix(n, step, g)
  {
    PrefixSplit(n, step, g, b);
  }

  lemma PrefixFromColumn(n: nat, step: nat, g: nat, b: Butterfly)
    requires step > 0 && MultipleOf(n, 2 * step) && 0 < g <= step
    requires b.i < n && Offset(b.i, 2 * step) == g - 1 && b.j == b.i + step && b.k == step - 1 + (g - 1)
    ensures b in StagePrefix(n, step, g)
  {
    OffsetColumnMembers(n, step, g - 1, step - 1 + (g - 1), b);
    PrefixSplit(n, step, g, b);
  }

  /** The butterflies of the stage of width step: exactly one per lower-half
      position below n, reading the factor step - 1 + its offset. */
  lemma StageMembers(n: nat, step: nat, b: Butterfly)
    requires IsPow2(n) && IsPow2(step) && step < n
    ensures b in Stage(n, step) <==>
      b.i < n && LowerHalf(b.i, step) && b.j == b.i + step && b.k == step - 1 + Offset(b.i, 2 * step)
  {
    PowerMultiple(step, n);
    StagePrefixMembers(n, step, step, b);
    LowerHalfOffset(b.i, step);
  }

  /** No two butterflies of s start at the same position. */
  predicate DistinctStarts(s: seq<Butterfly>)
  {
    forall t1, t2 :: 0 <= t1 < t2 < |s| ==> s[t1].i != s[t2].i
  }

  lemma DistinctConcat(a: seq<Butterfly>, c: seq<Butterfly>)
    requires DistinctStarts(a) && DistinctStarts(c)
    requires forall t1, t2 :: 0 <= t1 < |a| && 0 <= t2 < |c| ==> a[t1].i != c[t2].i
    ensures DistinctStarts(a + c)
  {
    forall t1, t2 | 0 <= t1 < t2 < |a + c|
      ensures (a + c)[t1].i != (a + c)[t2].i
    {
      if t2 < |a| {
        assert (a + c)[t1] == a[t1] && (a + c)[t2] == a[t2];
      } else if t1 >= |a| {
        assert (a + c)[t1] == c[t1 - |a|] && (a + c)[t2] == c[t2 - |a|];
      } else {
        assert (a + c)[t1] == a[t1] && (a + c)[t2] == c[t2 - |a|];
      }
    }
  }

  lemma {:induction false} ColumnDistinct(n: nat, step: nat, i: nat, f: nat)
    requires step > 0 && MultipleOf(n, 2 * step) && LowerHalf(i, step)
    ensures DistinctStarts(Column(n, step, i, f))
    decreases n - i
  {
    if i < n {
      ColumnDistinct(n, step, i + 2 * step, f);
      var rest := Column(n, step, i + 2 * step, f);
      forall t | 0 <= t < |rest|
        ensures rest[t].i != i
      {
        ColumnMembers(n, step, i + 2 * step, f, rest[t]);
      }
      DistinctConcat([Butterfly(i, i + step, f)], rest);
    }
  }

  lemma {:induction false} StagePrefixDistinct(n: nat, step: nat, g: nat)
    requires step > 0 && MultipleOf(n, 2 * step) && g <= step
    ensures DistinctStarts(StagePrefix(n, step, g))
    decreases g
  {
    if g > 0 {
      var a: seq<Butterfly> := StagePrefix(n, step, g - 1);
      var c: seq<Butterfly> := Column(n, step, g - 1, step - 1 + (g - 1));
      StagePrefixDistinct(n, step, g - 1);
      ColumnDistinct(n, step, g - 1, step - 1 + (g - 1));
      PrefixOffsets(n, step, g - 1);
      ColumnOffsets(n, step, g - 1, step - 1 + (g - 1));
      DistinctByOffset(a, c, 2 * step, g - 1);
    }
  }

  /** Butterflies starting at offsets below g, then ones starting at offset g:
      no start is repeated across the two. */
  lemma DistinctByOffset(a: seq<Butterfly>, c: seq<Butterfly>, w: nat, g: nat)
    requires w > 0 && DistinctStarts(a) && DistinctStarts(c)
    requires forall t :: 0 <= t < |a| ==> Offset(a[t].i, w) < g
    requires forall t :: 0 <= t < |c| ==> Offset(c[t].i, w) == g
    ensures DistinctStarts(a + c)
  {
    DistinctConcat(a, c);
  }

  /** The first g offsets start at positions of offset below g. */
  lemma PrefixOffsets(n: nat, step: nat, g: nat)
    requires step > 0 && MultipleOf(n, 2 * step) && g <= step
    ensures forall t :: 0 <= t < |StagePrefix(n, step, g)| ==> Offset(StagePrefix(n, step, g)[t].i, 2 * step) < g
  {
    var s := StagePrefix(n, step, g);
    forall t | 0 <= t < |s|
      ensures Offset(s[t].i, 2 * step) < g
    {
      StagePrefixMembers(n, step, g, s[t]);
    }
  }

  /** The column of offset g starts at positions of offset g. */
  lemma ColumnOffsets(n: nat, step: nat, g: nat, f: nat)
    requires step > 0 && MultipleOf(n, 2 * step) && g < step
    ensures forall t :: 0 <= t < |Column(n, step, g, f)| ==> Offset(Column(n, step, g, f)[t].i, 2 * step) == g
  {
    var s := Column(n, step, g, f);
    forall t | 0 <= t < |s|
      ensures Offset(s[t].i, 2 * step) == g
    {
      ColumnMembers(n, step, g, f, s[t]);
    }
  }

  /** The butterfly b reads or writes position p. */
  predicate Touches(b: Butterfly, p: nat)
  {
    b.i == p || b.j == p
  }

  /** Within one stage every position p below n is touched by exactly one
      butterfly: the stage partitions the buffer into pairs. */
  lemma StagePartition(n: nat, step: nat, p: nat)
    requires IsPow2(n) && IsPow2(step) && step < n && p < n
    ensures exists t :: 0 <= t < |Stage(n, step)| && Touches(Stage(n, step)[t], p)
    ensures forall t1, t2 ::
              && 0 <= t1 < |Stage(n, step)| && 0 <= t2 < |Stage(n, step)|
              && Touches(Stage(n, step)[t1], p) && Touches(Stage(n, step)[t2], p)
              ==> t1 == t2
  {
    var s := Stage(n, step);
    PowerMultiple(step, n);
    StagePrefixDistinct(n, step, step);
    var b := PairOf(n, step, p);
    StageMembers(n, step, b);
    var t :| 0 <= t < |s| && s[t] == b;
    assert Touches(s[t], p);
    forall t1, t2 | 0 <= t1 < |s| && 0 <= t2 < |s| && Touches(s[t1], p) && Touches(s[t2], p)
      ensures t1 == t2
    {
      StageMembers(n, step, s[t1]);
      StageMembers(n, step, s[t2]);
      SameStart(step, s[t1], s[t2], p);
    }
  }

  /** The stage's butterfly that touches p. */
  lemma PairOf(n: nat, step: nat, p: nat) returns (b: Butterfly)
    requires IsPow2(n) && IsPow2(step) && step < n && p < n
    ensures Touches(b, p) && b.i < n && LowerHalf(b.i, step) && b.j == b.i + step
    ensures b.k == step - 1 + Offset(b.i, 2 * step)
  {
    PowerMultiple(step, n);
    OffsetBelow(p, 2 * step);
    var q: nat := p;
    if Offset(p, 2 * step) >= step {
      UpperFromUpper(p, step);
      q := p - step;
    }
    LowerHalfOffset(q, step);
    b := Butterfly(q, q + step, step - 1 + Offset(q, 2 * step));
  }

  /** Two butterflies of a stage touching the same position start at the
      same position. */
  lemma SameStart(step: nat, x: Butterfly, y: Butterfly, p: nat)
    requires step > 0 && LowerHalf(x.i, step) && LowerHalf(y.i, step)
    requires x.j == x.i + step && y.j == y.i + step
    requires Touches(x, p) && Touches(y, p)
    ensures x.i == y.i
  {
    LowerHalfOffset(x.i, step);
    LowerHalfOffset(y.i, step);
    OffsetPartner(x.i, step);
    OffsetPartner(y.i, step);
  }

  /** Every factor index below step - 1 is read by some butterfly of the
      stages narrower than step. */
  lemma {:induction false} StagesBelowReads(n: nat, step: nat, f: nat)
    requires IsPow2(n) && IsPow2(step) && step <= n && f + 1 < step
    ensures exists t :: 0 <= t < |StagesBelow(n, step)| && StagesBelow(n, step)[t].k == f
    decreases step
  {
    var h := step / 2;
    assert IsPow2(h) && h < n;
    var a := StagesBelow(n, h);
    var c := Stage(n, h);
    assert StagesBelow(n, step) == a + c;
    if f + 1 < h {
      StagesBelowReads(n, h, f);
      var t :| 0 <= t < |a| && a[t].k == f;
      assert (a + c)[t] == a[t];
    } else {
      var g := f + 1 - h;
      PowerBelow(h, n);
      OffsetBelow(g, 2 * h);
      var b := Butterfly(g, g + h, f);
      StageMembers(n, h, b);
      assert LowerHalf(g, h);
      var t :| 0 <= t < |c| && c[t] == b;
      assert (a + c)[|a| + t] == c[t];
    }
  }

  /** The schedule reads every factor of the plan: each index below n - 1
      (with ScheduleFits, exactly the indices below n - 1). */
  lemma ScheduleReadsEveryFactor(n: nat, f: nat)
    requires PowerOfTwoOrEmpty(n) && f + 1 < n
    ensures exists t :: 0 <= t < |Schedule(n)| && Schedule(n)[t].k == f
  {
    assert Schedule(n) == StagesBelow(n, n);
    StagesBelowReads(n, n, f);
  }

  /** The first c stages, of widths 1, 2, ..., 2^(c-1). */
  function Stages(n: nat, c: nat): (r: seq<Butterfly>)
    requires IsPow2(n) && Pow2(c) <= n
  {
    if c == 0 then []
    else
      Pow2IsPow2(c - 1);
      Stages(n, c - 1) + Stage(n, Pow2(c - 1))
  }

  lemma {:induction false} StagesBelowPow(n: nat, c: nat)
    requires IsPow2(n) && Pow2(c) <= n
    ensures IsPow2(Pow2(c))
    ensures StagesBelow(n, Pow2(c)) == Stages(n, c)
  {
    Pow2IsPow2(c);
    if c > 0 {
      assert Pow2(c) / 2 == Pow2(c - 1);
      StagesBelowPow(n, c - 1);
    }
  }

  /** The schedule is log2 n stages, of widths 1, 2, ..., n / 2, in order:
      the outer loop of `calculate` runs log2 n times. */
  lemma ScheduleStages(n: nat)
    requires IsPow2(n)
    ensures Schedule(n) == Stages(n, Log2(n))
  {
    StagesBelowPow(n, Log2(n));
  }
}
