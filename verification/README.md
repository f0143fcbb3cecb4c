# dft: the index structure of an in-place radix-2 FFT, in Dafny

This project models the core of the `dft` crate, a Rust library that computes
the discrete Fourier transform of power-of-two-length buffers in place. It
covers three source files:

- `src/complex.rs`: the complex transform driven by a `Plan`. It has four parts:
  - the `n <= plan.n` guard;
  - `rearrange`, the bit-reversal permutation with its mask-carry counter;
  - `calculate`, the butterfly network that consumes the plan's factors in a fixed order;
  - `scale`, which runs for the `Inverse` operation only.
- `src/real.rs`:
  - `unpack`, which expands the packed spectrum of a real signal into all n complex bins by conjugate symmetry;
  - the forward transform of real data, which views the 2h reals as h complex samples and then runs the compose step that pairs bin i with bin h - i.
- `src/lib.rs`: the older interleaved transform in the style of Numerical Recipes. It stores samples as 2n reals, addresses them with 1-based odd indices, runs the same bit reversal and butterfly stages, and divides by n for the inverse.

Values are exact: a complex number is a pair of Dafny `real`s (`Numbers`).
The butterfly arithmetic is an exact add, subtract and multiply. The twiddle
factors are inputs, so the trigonometry that computes them is not part of the
model. A Rust panic (a failed `assert!`, an index past the end, a rejected
length) is a `Failure` of a `Result` (`Faults`).

Modules, one per concern:

| module | file | what it holds |
|---|---|---|
| `Bits` | bits.dfy | powers of two, bits, `BitRev`, the reversed-increment carry |
| `Numbers`, `Faults` | numbers.dfy, faults.dfy | complex numbers; panics as `Result` |
| `BitReversal` | rearrange.dfy | `rearrange` and its reference `BitReversed` |
| `Butterflies` | butterfly.dfy | the schedule of `calculate` as a sequence of butterflies; the loops |
| `Partition` | partition.dfy | membership, disjointness, factor coverage and stage count of the schedule |
| `ComplexTransform` | transform.dfy | `transform` of complex.rs and `scale` |
| `Unpacking` | unpack.dfy | `unpack` and its inverse, the packed layout |
| `Samples` | samples.dfy | the reals-as-complex-samples view |
| `RealForward` | realforward.dfy | `forward` of real.rs: the view, the compose step, the visit order |
| `Interleaved` | interleaved.dfy | `transform` of lib.rs |

Where the code may surprise a reader, the model follows the code:

- The complex `transform` accepts any buffer no longer than the plan (`n <= plan.n`), not only one of exactly the plan's size.
- A buffer that is not a power of two is not rejected up front. It overruns an index in the butterfly loops, at the latest in the widest stage (`ComplexTransform.WidestStageOverruns`); odd lengths already fail in the first stage.
- The empty buffer passes through unchanged.
- The compose step of the real forward transform computes `part2 = -(x_i - conj x_j) / 2` and writes `part1 + factor * part2`. The factor recurrence starts at `i`, so the sign of the rotation lives in the factor.
- For two reals (h = 1) the final conjugation of the compose step lands on slot 0, so the last bin comes out negated, against the documentation of `forward`. `RealForward.Compose` and `RealForward.Forward` do what the code does; `RealForward.ComposeCorrected` and `RealForward.ForwardCorrected` are the intended versions (see Findings).

## Model

| member | source | states |
|---|---|---|
| BitReversal.NextReversed | src/complex.rs:55-60 | The mask-carry step turns j = bitrev(i) into bitrev(i + 1), wrapping to 0 after the last index. So j stays below n on every iteration. |
| BitReversal.VisitStep | src/complex.rs:51-54 | Visiting i swaps the pair (i, bitrev(i)) only when j > i. After that, every position below i + 1, or whose reversal is below i + 1, holds its final element and all others are untouched. |
| BitReversal.Rearrange | src/complex.rs:49-62 | The result is the bit-reversed permutation: position p receives the element at bitrev(p). It is also a permutation of the input (same multiset). |
| BitReversal.BitReversedMoves | src/complex.rs:49-62 | The element that starts at index i ends at bitrev(i, log2 n), inside the buffer. |
| BitReversal.BitReversedTwice | src/complex.rs:49-62 | Rearranging twice restores the buffer: bit reversal is an involution. |
| Bits.BitRevInvolution | src/complex.rs:49-62 | Reversing the k low bits of an index below 2^k twice gives the index back. |
| Bits.RevIncStep | src/complex.rs:55-60 | The carry loop (clear set bits from the top mask down, then set the first clear one) maps bitrev(i) to bitrev(i + 1 mod n). |
| Bits.CarryStopsBeforeLast | src/complex.rs:55-60 | Before the last index the carry stops at a non-zero mask, so the final or-assignment of the mask sets a bit. |
| Butterflies.ScheduleFits | src/complex.rs:32-41 | Every butterfly of the schedule has i < i + step < n. Its factor index is below n - 1. |
| Butterflies.StageFits | src/complex.rs:34-43 | One stage of width step stays in bounds and reads only the factor indices step - 1 .. 2 step - 2. |
| Butterflies.PartnerBelow | src/complex.rs:35-36 | A start i below n in the lower half of its group of 2 step has its partner i + step below n, when n is a multiple of 2 step. |
| Butterflies.ColumnPass | src/complex.rs:35-41 | The innermost `while i < n` applies, in order, the butterflies at offset g, g + 2 step, ..., all with the factor k. |
| Butterflies.StagePass | src/complex.rs:33-43 | One pass of the outer loop applies the whole stage, and k moves from step - 1 to 2 step - 1. |
| Butterflies.Calculate | src/complex.rs:29-46 | `calculate` applies exactly the butterflies of the schedule, in order. k ends at n - 1, so exactly n - 1 factors are consumed. |
| Butterflies.RunConcat | src/complex.rs:32-45 | Running two butterfly sequences back to back is running their concatenation: the loops compose. |
| Partition.StageMembers | src/complex.rs:34-41 | A butterfly belongs to the stage of width step iff its start is below n and in the lower half of its group, its partner is start + step, and its factor is step - 1 plus the start's offset in the group. |
| Partition.StagePrefixDistinct | src/complex.rs:34-41 | No two butterflies of a stage start at the same position. |
| Partition.StagePartition | src/complex.rs:34-41 | Within one stage every position below n is touched by exactly one butterfly. The stage's pairs are disjoint and cover the buffer. |
| Partition.ScheduleReadsEveryFactor | src/complex.rs:37-42 | Every factor index below n - 1 is read by some butterfly. With ScheduleFits, the factors read are exactly 0 .. n - 2. |
| Partition.ScheduleStages | src/complex.rs:31-45 | The schedule is log2 n stages of widths 1, 2, ..., n / 2, in order. |
| ComplexTransform.ScaleAll | src/complex.rs:65-70 | Every one of the n samples is multiplied by 1 / n. |
| ComplexTransform.ScaleAllUndone | src/complex.rs:65-70 | Multiplying the scaled samples by n gives the input back: each sample was scaled exactly once. |
| ComplexTransform.WidestStageOverruns | src/complex.rs:32-38 | For a length n that is not a power of two, the widest stage, if no earlier stage overruns, has an offset n - step < step whose partner is n, past the end. |
| ComplexTransform.Transform | src/complex.rs:10-18 | It succeeds exactly when the buffer is no longer than the plan and its length is 0 or a power of two. A longer buffer fails the assertion; one that is not a power of two overruns. On success the result is the schedule run on the bit-reversed buffer, divided by n for `Inverse` only. |
| Unpacking.Unpack | src/real.rs:54-72 | Bin 0 is (data[0], 0), bin n / 2 is (data[1], 0), bin i below n / 2 is (data[2i], data[2i + 1]), and bin i above n / 2 is conj of bin n - i. The length is n. It succeeds exactly for a power of two n >= 2; any other length is rejected, and n = 1 reads past the end. |
| Unpacking.UnpackedHermitian | src/real.rs:61-69 | The unpacked bins satisfy bins[n - i] == conj(bins[i]), and bins 0 and n / 2 are real. |
| Unpacking.PackUnpacked | src/real.rs:54-72 | Packing the unpacked bins returns the packed input: `unpack` loses nothing. |
| Unpacking.HermitianUnpacks | src/real.rs:54-72 | Every Hermitian spectrum is the unpacking of its packed form, so `unpack` is onto the spectra of real signals. |
| Unpacking.UnpackedUnique | src/real.rs:54-72 | The layout determines the bins uniquely. |
| Unpacking.UnpackFour | src/real.rs:80-83 | unpack([1, 2, 3, 4]) = [(1, 0), (3, 4), (2, 0), (3, -4)]. |
| Unpacking.UnpackEight | src/real.rs:85-89 | unpack([1..8]) = [(1, 0), (3, 4), (5, 6), (7, 8), (2, 0), (7, -8), (5, -6), (3, -4)]. |
| Unpacking.UnpackFourFixture | src/real.rs:80-83 | Calling `unpack` on [1, 2, 3, 4] returns the test's expected bins. |
| Unpacking.UnpackEightFixture | src/real.rs:85-89 | Calling `unpack` on [1, ..., 8] returns the test's expected bins. |
| Samples.RealsRoundTrip | src/real.rs:21-25 | Viewing an even number of reals as complex samples (real 2k, 2k + 1 as sample k) and back is the identity. |
| Samples.SamplesRoundTrip | src/real.rs:21-25 | Viewing complex samples as reals and back is the identity. |
| Samples.SamplesWithTail | src/lib.rs:15-16 | A trailing odd real is outside the sample view. |
| RealForward.ComposePair | src/real.rs:40-49 | One pass of the pairing loop writes bins i and h - i from the values both had before the pass, and leaves bins i + 1 .. h - i - 1 untouched. |
| RealForward.ComposeLoop | src/real.rs:35-49 | Bin 0 becomes (re + im, re - im) of the transformed sample 0. Each pair (i, h - i) with 1 <= i < h / 2 is computed from untouched inputs, and the middle bin is still the input's. |
| RealForward.Compose | src/real.rs:35-50 | As written: for h >= 2, bin 0 packs (re + im, re - im), each pair is composed and the middle bin h / 2 is conjugated; for h = 1 the single bin is the conjugate of the packed pair. |
| RealForward.ComposeCorrected | src/real.rs:35-50 | The intended step: bin 0 packs (re + im, re - im) for every h, and the middle bin is conjugated only when h >= 2. |
| RealForward.ComposeVersionsAgree | src/real.rs:50 | For h >= 2 the step as written and the corrected step describe the same bins. |
| RealForward.ComposedUnique | src/real.rs:35-50 | For h = 1 or an even h, the compose step determines every bin of its output, so two outputs that both satisfy it are equal. |
| RealForward.ComposeVersionsSame | src/real.rs:35-50 | For even h >= 2 the step as written and the corrected step return the same sequence. |
| RealForward.ComposedEnds | src/real.rs:5-10 | With the corrected step, slot 0 of the output reals is the first bin re + im and slot 1 the last bin re - im, as the documentation promises. |
| RealForward.ComposedEndsAsWritten | src/real.rs:35-50 | As written, slot 1 holds re - im for h >= 2 but im - re for h = 1. |
| RealForward.CountPairs | src/real.rs:40-41 | The pairs (i, h - i) from a given i on hit each position below h / 2 from i on, and each position above h / 2 down to h - i, once. |
| RealForward.VisitOrderOnce | src/real.rs:35-50 | For h >= 2, bin 0, the pairs and the middle bin touch each index below h exactly once, and nothing else. |
| RealForward.VisitOrderSingle | src/real.rs:35-50 | For h = 1, the first write and the final conjugation both land on bin 0. |
| RealForward.NyquistNegatedAsWritten | src/real.rs:50 | For two reals x0 != x1, the final conjugation as written turns the packed Nyquist value x0 - x1 into x1 - x0. |
| RealForward.ConjMiddleKeepsEnds | src/real.rs:50 | The corrected step never changes slot 0. It conjugates the middle bin whenever h >= 2 and changes nothing else. |
| RealForward.Forward | src/real.rs:17-51 | It succeeds exactly for a power-of-two length of at least 2. Any other length is rejected, and a single real writes past the view. On success the result has the input's length, and its view is the input's transformed view after the compose step as written. |
| RealForward.ForwardCorrected | src/real.rs:17-51 | The same checks, with the corrected compose step applied to the transformed view. |
| RealForward.ForwardTwoAsWritten | src/real.rs:17-51 | `forward([1.0, 0.0])`, with the identity as the complex transform, returns [1.0, -1.0] as written; the last bin is 1. |
| Interleaved.NrCarryRevInc | src/lib.rs:29-34 | On j = 2r + 1, the loop `while m >= 2 && j > m { j -= m; m >>= 1 } j += m` is the reversed increment of r, doubled plus one, whenever the carry stops at a non-zero mask, that is, for every index except the last. |
| Interleaved.NrCarryStep | src/lib.rs:29-34 | The carry loop takes the odd index of sample bitrev(c) to the odd index of sample bitrev(c + 1), for every sample but the last. |
| Interleaved.NrAdvance | src/lib.rs:29-34 | After visiting sample c < n - 1, j is 2 bitrev(c + 1) + 1: odd and at most nn - 1. |
| Interleaved.SwapSamples | src/lib.rs:25-28 | The two swaps (j - 1, i - 1) and (j, i) exchange whole samples c and d of the view, and nothing past the view. |
| Interleaved.NrSwapStep | src/lib.rs:25-28 | Visiting sample c in reals is the visiting step of the sample view. |
| Interleaved.NrVisit | src/lib.rs:24-35 | One pass of the bit-reversal loop keeps the visit invariant on the sample view and advances j to the next reversed odd index. |
| Interleaved.NrRearrange | src/lib.rs:23-35 | The sample view of the result is the bit-reversed permutation of the input's view. A trailing odd real is untouched. |
| Interleaved.ButterflyRealsSamples | src/lib.rs:48-54 | The four real writes of one butterfly are, on the sample view, the complex butterfly of samples a and b: b gets x_a - w x_b and a gets x_a + w x_b. |
| Interleaved.NrButterfly | src/lib.rs:48-54 | The loop body at 1-based i = 2a + 1, j = 2b + 1 (tempr, tempi, then the four updates) is that complex butterfly, and it leaves the reals past the view alone. |
| Interleaved.NrColumn | src/lib.rs:47-55 | The loop `for i in (m..nn + 1).step_by(istep)` with j = i + mmax runs, on the view, the column of offset g = (m - 1) / 2 of the stage of width mmax / 2: the inclusive bound adds no butterfly. |
| Interleaved.NrStagePass | src/lib.rs:46-59 | The loop over the odd offsets m < mmax runs the whole stage of width mmax / 2, one factor per offset, moving the factor counter from step - 1 to 2 step - 1. |
| Interleaved.NrNextStage | src/lib.rs:38-60 | One pass of `while nn > mmax` extends the stages run so far by the stage of width mmax / 2. |
| Interleaved.NrButterflies | src/lib.rs:37-61 | The sample view of the result is the butterfly schedule of `calculate` run on the input's view. A trailing odd real is untouched. The stage loop turns NrStages(nn, 2) times, log2 n for n >= 1. |
| Interleaved.NrStagesFrom | src/lib.rs:37-61 | From span 2s the stage loop runs log2 n - log2 s more times. |
| Interleaved.NrStageCount | src/lib.rs:37-61 | With mmax doubling from 2 while nn > mmax, the stage loop runs exactly log2 n times. |
| Interleaved.ScaleReals | src/lib.rs:63-68 | Each real below 2n is multiplied by 1 / n, and a trailing odd real is untouched. |
| Interleaved.ScaleRealsSamples | src/lib.rs:63-68 | Scaling the reals below 2n scales each sample of the view by 1 / n. |
| Interleaved.NrWidestStageOverruns | src/lib.rs:37-49 | For n not a power of two, the widest span mmax < nn, if no earlier span overruns, reaches an odd offset m that gives j = m + mmax = 2n + 1, past the end of the buffer. |
| Interleaved.NrTransform | src/lib.rs:12-69 | n = len / 2 neither 0 nor a power of two overruns. Otherwise the view is the schedule run on the bit-reversed view, divided by n for `Inverse` only, and a trailing odd real is untouched. |

## Left out

- Floating point. Values are exact reals, so rounding, the `1/n` reciprocal in floating point and the numeric tolerances of the crate's tests are not modelled.
- The twiddle factors.
  - The plan's factors (complex.rs), the `multiplier`/`factor` half-angle recurrence of real.rs:29-33, 43 and the `wr`/`wi` recurrence of lib.rs:40-44, 56-58 need trigonometry.
  - They are inputs: a factor sequence in the order the loops consume them.
  - The sign `isign` of lib.rs:18-21 only enters that recurrence (lib.rs:40), so in the model the direction only selects the final scaling.
- `Plan` construction is not part of this model. `ComplexTransform.ValidPlan` assumes a power-of-two size with n - 1 factors.
- The `Transform` impl for `Vec` (src/complex.rs:21-26) forwards to the slice impl and is not modelled separately.
- `power_of_two!` is not part of this model. It is taken to reject every length that is not 1, 2, 4, ...; in particular 0 is rejected, in `RealForward.Forward` and `Unpacking.Unpack`.
- The `unsafe` reinterpretation of reals as complex samples is the explicit index mapping of `Samples`, not aliasing.
- The call to `::complex::forward` in real.rs is a function parameter of `RealForward.Forward`: an unconstrained length-preserving function. Its body is not among the modelled files.
- `Interleaved.NrTransform` and `ComplexTransform.Transform`:
  - A length that is not a power of two is reported as one failure. The model does not say which access panics first; it proves that the widest stage overruns if nothing earlier does.
- benches/lib.rs and tests/lib.rs. The unpack tests of real.rs are `Unpacking.UnpackFour` and `Unpacking.UnpackEight`.

## Findings

| source | as written | input that shows it | evidently intended | confidence | as-written member | corrected member |
|---|---|---|---|---|---|---|
| src/real.rs:50 | `data[n / 2] = data[n / 2].conj()` runs for every h = len / 2. For h = 1 the middle index is 0, the slot holding the packed (DC, Nyquist) pair, so the Nyquist value is negated. | `forward` on [1.0, 0.0]: the view is [(1, 0)], bin 0 becomes (1, 1), and the conjugation makes it (1, -1). The Nyquist bin of [1, 0] is 1 - 0 = 1. | Conjugate the middle bin only when there is one (h >= 2), leaving the packed slot alone | medium; not executed | RealForward.ForwardTwoAsWritten | RealForward.ComposeCorrected |
