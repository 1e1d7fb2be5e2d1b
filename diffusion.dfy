/**
 * The diffusion stages of reverb-example-code.h: a DiffusionStep delays
 * every channel by its own short random amount, mixes the channels with
 * a Hadamard matrix and flips the polarity of some of them; a Diffuser
 * runs several steps one after the other.
 *
 * rand() is not modelled: configure takes the draws it would have made,
 * `unitRands[c]` for `rand()/RAND_MAX` and `coins[c]` for the `rand()`
 * whose parity picks the polarity flip. Hadamard::inPlace computes
 * `std::sqrt(1.0/channels)` itself; here that value is the
 * `scalingFactor` argument of process.
 */
module Diffusion {
  import opened Vectors
  import opened DelayLine
  import MixMatrix

  /** randomInRange: the point a fraction unitRand of the way from low to high. */
  function RandomInRange(low: real, high: real, unitRand: real): real
  {
    low + unitRand * (high - low)
  }

  /** A draw in [0, 1] lands in [low, high]. */
  lemma RandomInRangeBounds(low: real, high: real, unitRand: real)
    requires low <= high && 0.0 <= unitRand <= 1.0
    ensures low <= RandomInRange(low, high, unitRand) <= high
  {
    var w := high - low;
    assert unitRand * w >= 0.0;
    assert w - unitRand * w == (1.0 - unitRand) * w;
  }

  /** The lower edge of channel c's band of delays: range * c / channels. */
  function BandEdge(range: real, channels: nat, c: nat): real
    requires 0 < channels
  {
    range * c as real / channels as real
  }

  /** Band edges grow with the channel index. */
  lemma BandEdgeMonotone(range: real, channels: nat, a: nat, b: nat)
    requires 0 < channels && 0.0 <= range && a <= b
    ensures 0.0 <= BandEdge(range, channels, a) <= BandEdge(range, channels, b)
  {
    var n := channels as real;
    assert range * a as real <= range * b as real by {
      assert range * b as real - range * a as real == range * (b - a) as real;
    }
    assert range * a as real / n <= range * b as real / n;
  }

  /** The delay configure gives channel c: a random point of its band, truncated to samples. */
  function BandDelay(range: real, channels: nat, c: nat, unitRand: real): int
    requires 0 < channels
  {
    TruncateToInt(RandomInRange(BandEdge(range, channels, c), BandEdge(range, channels, c + 1), unitRand))
  }

  /** Channel c's delay lies in [floor(range * c / N), floor(range * (c + 1) / N)]. */
  lemma BandDelayInBand(range: real, channels: nat, c: nat, unitRand: real)
    requires c < channels && 0.0 <= range && 0.0 <= unitRand <= 1.0
    ensures 0 <= TruncateToInt(BandEdge(range, channels, c))
    ensures TruncateToInt(BandEdge(range, channels, c)) <= BandDelay(range, channels, c, unitRand)
    ensures BandDelay(range, channels, c, unitRand) <= TruncateToInt(BandEdge(range, channels, c + 1))
  {
    var low, high := BandEdge(range, channels, c), BandEdge(range, channels, c + 1);
    BandEdgeMonotone(range, channels, c, c + 1);
    RandomInRangeBounds(low, high, unitRand);
    var x := RandomInRange(low, high, unitRand);
    TruncateMonotone(low, x);
    TruncateMonotone(x, high);
  }

  /** The bands do not overlap, so the delays never decrease from one channel to the next. */
  lemma BandDelaysNonDecreasing(range: real, channels: nat, unitRands: seq<real>, c: nat, d: nat)
    requires 0.0 <= range && |unitRands| == channels
    requires forall k :: 0 <= k < channels ==> 0.0 <= unitRands[k] <= 1.0
    requires c <= d < channels
    ensures BandDelay(range, channels, c, unitRands[c]) <= BandDelay(range, channels, d, unitRands[d])
  {
    if c < d {
      BandDelayInBand(range, channels, c, unitRands[c]);
      BandDelayInBand(range, channels, d, unitRands[d]);
      BandEdgeMonotone(range, channels, c + 1, d);
      TruncateMonotone(BandEdge(range, channels, c + 1), BandEdge(range, channels, d));
    }
  }

  /** The polarity flips: channel c is negated when flips[c] is set. */
  function Flipped(x: seq<real>, flips: seq<bool>): (r: seq<real>)
    requires |flips| == |x|
    ensures |r| == |x|
    ensures forall c :: 0 <= c < |x| ==> r[c] == if flips[c] then -x[c] else x[c]
  {
    seq(|x|, c requires 0 <= c < |x| => if flips[c] then -x[c] else x[c])
  }

  /** Flipping the same channels twice gives the vector back. */
  lemma FlippedTwice(x: seq<real>, flips: seq<bool>)
    requires |flips| == |x|
    ensures Flipped(Flipped(x, flips), flips) == x
  {
    assert forall c :: 0 <= c < |x| ==> Flipped(Flipped(x, flips), flips)[c] == x[c];
  }

  lemma {:induction false} FlippedEnergyTo(x: seq<real>, flips: seq<bool>, n: nat)
    requires |flips| == |x| && n <= |x|
    ensures SumSqTo(Flipped(x, flips), n) == SumSqTo(x, n)
  {
    if n > 0 {
      FlippedEnergyTo(x, flips, n - 1);
    }
  }

  /** Polarity flips do not change the energy. */
  lemma FlippedEnergy(x: seq<real>, flips: seq<bool>)
    requires |flips| == |x|
    ensures SumSq(Flipped(x, flips)) == SumSq(x)
  {
    FlippedEnergyTo(x, flips, |x|);
  }

  /**
   * The mixing half of a diffusion step keeps the energy of the delayed
   * samples when the channel count is a power of two and the scaling
   * factor is sqrt(1 / channels).
   */
  lemma MixAndFlipEnergy(delayed: seq<real>, flips: seq<bool>, scalingFactor: real)
    requires |flips| == |delayed|
    requires MixMatrix.IsPowerOfTwo(|delayed|) && MixMatrix.IsScalingFactor(scalingFactor, |delayed|)
    ensures SumSq(Flipped(MixMatrix.Hadamard(delayed, scalingFactor), flips)) == SumSq(delayed)
  {
    FlippedEnergy(MixMatrix.Hadamard(delayed, scalingFactor), flips);
    MixMatrix.HadamardPreservesEnergy(delayed, scalingFactor);
  }

  /** The flip loop of process, on the mixed array. */
  method FlipInPlace(arr: array<real>, flips: seq<bool>)
    requires |flips| == arr.Length
    modifies arr
    ensures arr[..] == Flipped(old(arr[..]), flips)
  {
    ghost var x := arr[..];
    for c := 0 to arr.Length
      invariant forall k :: 0 <= k < c ==> arr[k] == if flips[k] then -x[k] else x[k]
      invariant forall k :: c <= k < arr.Length ==> arr[k] == x[k]
    {
      if flips[c] {
        arr[c] := arr[c] * -1.0;
      }
    }
  }

  /** `Array mixed = delayed;`, the Hadamard mix of the copy, then the flips. */
  method MixAndFlip(delayed: seq<real>, flips: seq<bool>, scalingFactor: real) returns (mixed: seq<real>)
    requires |flips| == |delayed|
    ensures mixed == Flipped(MixMatrix.Hadamard(delayed, scalingFactor), flips)
  {
    var n := |delayed|;
    var arr := new real[n](c requires 0 <= c < n => delayed[c]);
    assert arr[..n] == delayed;
    MixMatrix.HadamardInPlace(arr, n, scalingFactor);
    assert arr[..] == arr[..n];
    FlipInPlace(arr, flips);
    mixed := arr[..];
  }

  /**
   * The delay loop of process: each channel writes its input and then
   * reads at its delay, so the read already sees this call's input.
   */
  method WriteThenReadTaps(channels: nat, delaySamples: seq<int>, delays: seq<Delay>,
                           ghost written: seq<seq<real>>, input: seq<real>)
    returns (r: seq<Delay>, delayed: seq<real>)
    requires Recalls(channels, delaySamples, delays, written) && |input| == channels
    ensures r == WriteEach(delays, input)
    ensures Recalls(channels, delaySamples, r, Appended(written, input))
    ensures delayed == Echoes(Appended(written, input), delaySamples)
  {
    assert forall c :: 0 <= c < channels ==> |delays[c].buffer| == delaySamples[c] + 1;
    r, delayed := delays, [];
    for c := 0 to channels
      invariant |r| == channels && |delayed| == c
      invariant forall k :: 0 <= k < c ==> r[k] == Write(delays[k], input[k])
      invariant forall k :: c <= k < channels ==> r[k] == delays[k]
      invariant forall k :: 0 <= k < c ==> delayed[k] == Read(r[k], delaySamples[k])
    {
      r := r[c := Write(r[c], input[c])];
      delayed := delayed + [Read(r[c], delaySamples[c])];
    }
    var after := Appended(written, input);
    forall c | 0 <= c < channels
      ensures Holds(r[c], after[c])
    {
      WriteHolds(delays[c], written[c], input[c]);
    }
    assert forall c :: 0 <= c < channels ==> delayed[c] == Echoes(after, delaySamples)[c];
  }

  /**
   * The configure loop of a diffusion step: channel c gets BandDelay for
   * its draw, a cleared buffer of that length plus one, and a polarity
   * flip when its coin is odd.
   */
  method ConfigureBands(channels: nat, range: real, unitRands: seq<real>, coins: seq<nat>)
    returns (delaySamples: seq<int>, delays: seq<Delay>, flips: seq<bool>)
    requires 0.0 <= range && |unitRands| == channels && |coins| == channels
    requires forall c :: 0 <= c < channels ==> 0.0 <= unitRands[c] <= 1.0
    ensures |delaySamples| == channels && |delays| == channels && |flips| == channels
    ensures forall c :: 0 <= c < channels ==>
      delaySamples[c] == BandDelay(range, channels, c, unitRands[c]) &&
      0 <= delaySamples[c] &&
      delays[c] == Cleared(delaySamples[c] + 1) && Holds(delays[c], []) &&
      flips[c] == (coins[c] % 2 != 0)
  {
    delaySamples, delays, flips := [], [], [];
    for c := 0 to channels
      invariant |delaySamples| == c && |delays| == c && |flips| == c
      invariant forall k :: 0 <= k < c ==>
        delaySamples[k] == BandDelay(range, channels, k, unitRands[k]) &&
        0 <= delaySamples[k] &&
        delays[k] == Cleared(delaySamples[k] + 1) && Holds(delays[k], []) &&
        flips[k] == (coins[k] % 2 != 0)
    {
      var rangeLow := range * c as real / channels as real;
      var rangeHigh := range * (c + 1) as real / channels as real;
      var d := TruncateToInt(RandomInRange(rangeLow, rangeHigh, unitRands[c]));
      BandDelayInBand(range, channels, c, unitRands[c]);
      ClearedHoldsNothing(d + 1);
      delaySamples := delaySamples + [d];
      delays := delays + [Cleared(d + 1)];
      flips := flips + [coins[c] % 2 != 0];
    }
  }

  /** The part of a diffusion step's state that decides what process returns. */
  datatype StepState = StepState(delaySamples: seq<int>, history: seq<seq<real>>, flipPolarity: seq<bool>)

  /** A configured step over n channels. */
  ghost predicate Fits(st: StepState, n: nat)
  {
    |st.delaySamples| == n && |st.history| == n && |st.flipPolarity| == n &&
    forall c :: 0 <= c < n ==> 0 <= st.delaySamples[c]
  }

  /** What process returns from state st: delay (after the write), Hadamard mix, flips. */
  function StepOutput(st: StepState, input: seq<real>, scalingFactor: real): (r: seq<real>)
    requires Fits(st, |input|)
    ensures |r| == |input|
  {
    Flipped(MixMatrix.Hadamard(Echoes(Appended(st.history, input), st.delaySamples), scalingFactor),
            st.flipPolarity)
  }

  /** The state after process: every channel's history grew by its input. */
  function Advanced(st: StepState, input: seq<real>): (r: StepState)
    requires Fits(st, |input|)
    ensures Fits(r, |input|)
  {
    st.(history := Appended(st.history, input))
  }

  /** The steps applied left to right, each to the output of the one before. */
  function Chain(states: seq<StepState>, input: seq<real>, scalingFactor: real): (r: seq<real>)
    requires forall i :: 0 <= i < |states| ==> Fits(states[i], |input|)
    ensures |r| == |input|
    decreases |states|
  {
    if states == [] then input
    else
      var init := states[..|states| - 1];
      StepOutput(states[|states| - 1], Chain(init, input, scalingFactor), scalingFactor)
  }

  /** A channel with zero delay passes this call's input straight to the mix. */
  lemma ZeroDelayPassesInput(history: seq<seq<real>>, delaySamples: seq<int>, input: seq<real>, c: nat)
    requires |history| == |input| && |delaySamples| == |input|
    requires forall k :: 0 <= k < |input| ==> 0 <= delaySamples[k]
    requires c < |input| && delaySamples[c] == 0
    ensures Echoes(Appended(history, input), delaySamples)[c] == input[c]
  {
  }

  /** DiffusionStep. */
  class DiffusionStep {
    const channels: nat
    var delayMsRange: real
    var delaySamples: seq<int>
    var delays: seq<Delay>
    var flipPolarity: seq<bool>
    /** Every sample written to each channel since the last configure. */
    ghost var written: seq<seq<real>>

    ghost predicate Valid()
      reads this
    {
      Recalls(channels, delaySamples, delays, written) && |flipPolarity| == channels
    }

    /** The state configure leaves for these draws at this sample rate. */
    ghost predicate ConfiguredWith(sampleRate: real, unitRands: seq<real>, coins: seq<nat>)
      reads this
    {
      0 < channels && |delaySamples| == channels && |flipPolarity| == channels &&
      |unitRands| == channels && |coins| == channels && written == NoHistory(channels) &&
      forall c :: 0 <= c < channels ==>
        delaySamples[c] == BandDelay(delayMsRange * 0.001 * sampleRate, channels, c, unitRands[c]) &&
        flipPolarity[c] == (coins[c] % 2 != 0)
    }

    ghost function State(): (st: StepState)
      reads this
      ensures Valid() ==> Fits(st, channels)
    {
      StepState(delaySamples, written, flipPolarity)
    }

    constructor (channels: nat)
      ensures this.channels == channels && delayMsRange == 50.0
    {
      this.channels := channels;
      delayMsRange := 50.0;
      delaySamples := [];
      delays := [];
      flipPolarity := [];
      written := [];
    }

    /** Channel c's delay is drawn from the c-th of `channels` equal bands of the range. */
    method Configure(sampleRate: real, unitRands: seq<real>, coins: seq<nat>)
      requires 0.0 <= delayMsRange * 0.001 * sampleRate
      requires |unitRands| == channels && |coins| == channels
      requires forall c :: 0 <= c < channels ==> 0.0 <= unitRands[c] <= 1.0
      modifies this
      ensures Valid()
      ensures delayMsRange == old(delayMsRange)
      ensures forall c :: 0 <= c < channels ==>
        delaySamples[c] == BandDelay(delayMsRange * 0.001 * sampleRate, channels, c, unitRands[c]) &&
        delays[c] == Cleared(delaySamples[c] + 1) &&
        flipPolarity[c] == (coins[c] % 2 != 0)
      ensures written == NoHistory(channels)
      ensures 0 < channels ==> ConfiguredWith(sampleRate, unitRands, coins)
    {
      var delaySamplesRange := delayMsRange * 0.001 * sampleRate;
      var ds, dl, flips := ConfigureBands(channels, delaySamplesRange, unitRands, coins);
      delaySamples, delays, flipPolarity, written := ds, dl, flips, NoHistory(channels);
      assert delaySamplesRange == delayMsRange * 0.001 * sampleRate;
    }

    /**
     * Writes every input before reading it back at its delay, mixes the
     * delayed samples and negates the flagged channels.
     */
    method Process(input: seq<real>, scalingFactor: real) returns (output: seq<real>)
      requires Valid() && |input| == channels
      modifies this
      ensures Valid()
      ensures delayMsRange == old(delayMsRange) && delaySamples == old(delaySamples)
      ensures flipPolarity == old(flipPolarity)
      ensures delays == WriteEach(old(delays), input)
      ensures written == Appended(old(written), input)
      ensures output == Flipped(MixMatrix.Hadamard(Echoes(written, delaySamples), scalingFactor), flipPolarity)
      ensures output == StepOutput(old(State()), input, scalingFactor)
      ensures State() == Advanced(old(State()), input)
    {
      var delayed;
      delays, delayed := WriteThenReadTaps(channels, delaySamples, delays, written, input);
      written := Appended(written, input);
      output := MixAndFlip(delayed, flipPolarity, scalingFactor);
    }
  }

  /** 2^k as a real. */
  function Pow2(k: nat): (r: real)
    ensures r >= 1.0
  {
    if k == 0 then 1.0 else 2.0 * Pow2(k - 1)
  }

  /** DiffuserEqualLengths: every one of the n steps gets total / n. */
  function EqualRanges(total: real, n: nat): (r: seq<real>)
    ensures |r| == n
  {
    seq(n, _ requires n > 0 => total / n as real)
  }

  /** DiffuserHalfLengths: step i gets diffusionMs / 2^(i + 1). */
  function HalvedRanges(diffusionMs: real, n: nat): (r: seq<real>)
    ensures |r| == n
  {
    seq(n, i requires 0 <= i < n => diffusionMs / Pow2(i + 1))
  }

  lemma {:induction false} EqualRangesSumTo(total: real, n: nat, k: nat)
    requires 0 < n && k <= n
    ensures SumTo(EqualRanges(total, n), k) == k as real * (total / n as real)
  {
    if k > 0 {
      EqualRangesSumTo(total, n, k - 1);
    }
  }

  /** The equal ranges add up to the whole diffusion time. */
  lemma EqualRangesSum(total: real, n: nat)
    requires 0 < n
    ensures Sum(EqualRanges(total, n)) == total
  {
    EqualRangesSumTo(total, n, n);
  }

  lemma HalveStep(d: real, k: nat)
    ensures d / Pow2(k) * 0.5 == d / Pow2(k + 1)
  {
  }

  lemma {:induction false} HalvedRangesSumTo(d: real, n: nat, k: nat)
    requires k <= n
    ensures SumTo(HalvedRanges(d, n), k) == d - d / Pow2(k)
  {
    if k > 0 {
      HalvedRangesSumTo(d, n, k - 1);
      HalveStep(d, k - 1);
    }
  }

  /** The halved ranges add up to diffusionMs less the last range. */
  lemma HalvedRangesSum(d: real, n: nat)
    ensures Sum(HalvedRanges(d, n)) == d - d / Pow2(n)
  {
    HalvedRangesSumTo(d, n, n);
  }

  /**
   * The step states once the first i steps of a chain have processed
   * `input`: each of them has taken in what the steps before it produced.
   */
  function Progress(states: seq<StepState>, input: seq<real>, scalingFactor: real, i: nat): (r: seq<StepState>)
    requires i <= |states|
    requires forall k :: 0 <= k < |states| ==> Fits(states[k], |input|)
    ensures |r| == |states|
    ensures forall k :: 0 <= k < |states| ==> Fits(r[k], |input|)
  {
    seq(|states|, k requires 0 <= k < |states| =>
      if k < i then Advanced(states[k], Chain(states[..k], input, scalingFactor)) else states[k])
  }

  /** One more step of the chain: step i takes in the output of the first i steps. */
  lemma ProgressStep(states: seq<StepState>, input: seq<real>, scalingFactor: real, i: nat)
    requires i < |states|
    requires forall k :: 0 <= k < |states| ==> Fits(states[k], |input|)
    ensures Chain(states[..i + 1], input, scalingFactor)
         == StepOutput(states[i], Chain(states[..i], input, scalingFactor), scalingFactor)
    ensures Progress(states, input, scalingFactor, i)[i := Advanced(states[i], Chain(states[..i], input, scalingFactor))]
         == Progress(states, input, scalingFactor, i + 1)
  {
    assert states[..i + 1][..i] == states[..i];
  }

  /** stepCount fresh, distinct diffusion steps over the given channels. */
  method NewSteps(channels: nat, stepCount: nat) returns (steps: seq<DiffusionStep>)
    ensures |steps| == stepCount
    ensures forall i :: 0 <= i < stepCount ==> fresh(steps[i]) && steps[i].channels == channels
    ensures forall i, j :: 0 <= i < j < stepCount ==> steps[i] != steps[j]
  {
    steps := [];
    for i := 0 to stepCount
      invariant |steps| == i
      invariant forall k :: 0 <= k < i ==> fresh(steps[k]) && steps[k].channels == channels
      invariant forall k, j :: 0 <= k < j < i ==> steps[k] != steps[j]
    {
      var step := new DiffusionStep(channels);
      steps := steps + [step];
    }
  }

  /**
   * DiffuserEqualLengths and DiffuserHalfLengths: the two differ only in
   * how their constructors share the diffusion time among the steps.
   */
  class Diffuser {
    const channels: nat
    const steps: seq<DiffusionStep>

    ghost predicate Distinct()
      reads this
    {
      forall i, j :: 0 <= i < j < |steps| ==> steps[i] != steps[j]
    }

    ghost predicate Valid()
      reads this, steps
    {
      Distinct() && forall i :: 0 <= i < |steps| ==> steps[i].channels == channels && steps[i].Valid()
    }

    ghost function States(): (r: seq<StepState>)
      reads this, steps
      ensures |r| == |steps|
      ensures forall i :: 0 <= i < |steps| ==> r[i] == steps[i].State()
    {
      seq(|steps|, i requires 0 <= i < |steps| reads steps => steps[i].State())
    }

    ghost function Ranges(): (r: seq<real>)
      reads this, steps
      ensures |r| == |steps|
      ensures forall i :: 0 <= i < |steps| ==> r[i] == steps[i].delayMsRange
    {
      seq(|steps|, i requires 0 <= i < |steps| reads steps => steps[i].delayMsRange)
    }

    /** Each of the stepCount steps gets totalDiffusionMs / stepCount. */
    constructor EqualLengths(channels: nat, stepCount: nat, totalDiffusionMs: real)
      ensures this.channels == channels && |steps| == stepCount && Distinct()
      ensures forall i :: 0 <= i < stepCount ==>
        fresh(steps[i]) && steps[i].channels == channels &&
        steps[i].delayMsRange == EqualRanges(totalDiffusionMs, stepCount)[i]
    {
      var s := NewSteps(channels, stepCount);
      this.channels := channels;
      steps := s;
      new;
      for i := 0 to stepCount
        invariant forall k :: 0 <= k < i ==> steps[k].delayMsRange == EqualRanges(totalDiffusionMs, stepCount)[k]
      {
        steps[i].delayMsRange := totalDiffusionMs / stepCount as real;
      }
    }

    /** The range is halved before each step takes it: step i gets diffusionMs / 2^(i + 1). */
    constructor HalfLengths(channels: nat, stepCount: nat, diffusionMs: real)
      ensures this.channels == channels && |steps| == stepCount && Distinct()
      ensures forall i :: 0 <= i < stepCount ==>
        fresh(steps[i]) && steps[i].channels == channels &&
        steps[i].delayMsRange == HalvedRanges(diffusionMs, stepCount)[i]
    {
      var s := NewSteps(channels, stepCount);
      this.channels := channels;
      steps := s;
      new;
      var ms := diffusionMs;
      for i := 0 to stepCount
        invariant ms == diffusionMs / Pow2(i)
        invariant forall k :: 0 <= k < i ==> steps[k].delayMsRange == HalvedRanges(diffusionMs, stepCount)[k]
      {
        HalveStep(diffusionMs, i);
        ms := ms * 0.5;
        steps[i].delayMsRange := ms;
      }
    }

    /** Configures every step with its own draws. */
    method Configure(sampleRate: real, unitRands: seq<seq<real>>, coins: seq<seq<nat>>)
      requires Distinct() && forall i :: 0 <= i < |steps| ==> steps[i].channels == channels
      requires forall i :: 0 <= i < |steps| ==> 0.0 <= steps[i].delayMsRange * 0.001 * sampleRate
      requires |unitRands| == |steps| && |coins| == |steps|
      requires forall i :: 0 <= i < |steps| ==> |unitRands[i]| == channels && |coins[i]| == channels
      requires forall i, c :: 0 <= i < |steps| && 0 <= c < channels ==> 0.0 <= unitRands[i][c] <= 1.0
      modifies steps
      ensures Valid()
      ensures forall i :: 0 <= i < |steps| ==>
        steps[i].delayMsRange == old(steps[i].delayMsRange) && steps[i].written == NoHistory(channels)
      ensures 0 < channels ==> forall i :: 0 <= i < |steps| ==> steps[i].ConfiguredWith(sampleRate, unitRands[i], coins[i])
    {
      for i := 0 to |steps|
        invariant forall k :: 0 <= k < |steps| ==> steps[k].delayMsRange == old(steps[k].delayMsRange)
        invariant forall k :: 0 <= k < i ==> steps[k].Valid() && steps[k].written == NoHistory(channels)
        invariant 0 < channels ==> forall k :: 0 <= k < i ==> steps[k].ConfiguredWith(sampleRate, unitRands[k], coins[k])
      {
        steps[i].Configure(sampleRate, unitRands[i], coins[i]);
      }
    }

    /** Step i processes `input`; no other step changes. */
    method RunStep(i: nat, input: seq<real>, scalingFactor: real) returns (output: seq<real>)
      requires Valid() && i < |steps| && |input| == channels
      modifies steps[i]
      ensures Valid()
      ensures Ranges() == old(Ranges())
      ensures output == StepOutput(old(States())[i], input, scalingFactor)
      ensures States() == old(States())[i := Advanced(old(States())[i], input)]
    {
      ghost var pre := States();
      output := steps[i].Process(input, scalingFactor);
      assert forall k :: 0 <= k < |steps| && k != i ==> steps[k].State() == pre[k];
    }

    /** The steps in order, each taking the previous one's output. */
    method Process(samples: seq<real>, scalingFactor: real) returns (output: seq<real>)
      requires Valid() && |samples| == channels
      modifies steps
      ensures Valid()
      ensures Ranges() == old(Ranges())
      ensures output == Chain(old(States()), samples, scalingFactor)
      ensures States() == Progress(old(States()), samples, scalingFactor, |steps|)
    {
      ghost var states := States();
      output := samples;
      for i := 0 to |steps|
        invariant Valid()
        invariant Ranges() == old(Ranges())
        invariant output == Chain(states[..i], samples, scalingFactor)
        invariant States() == Progress(states, samples, scalingFactor, i)
      {
        output := RunStep(i, output, scalingFactor);
        ProgressStep(states, samples, scalingFactor, i);
      }
      assert states[..|steps|] == states;
    }
  }
}
