/**
 * The feedback loops of reverb-example-code.h: delay lines whose output
 * is scaled by `decayGain` and written back together with the input.
 *
 * Each structure is a class with the source's fields. Beside the delay
 * buffers it keeps a ghost record of every sample written to each
 * channel since the last configure, which is what lets the contracts
 * say which earlier sample a read returns.
 */
module Feedback {
  import opened Vectors
  import opened DelayLine
  import MixMatrix

  /** The reads of every channel at its own delay. */
  method ReadTaps(delays: seq<Delay>, delaySamples: seq<int>) returns (delayed: seq<real>)
    requires |delaySamples| == |delays|
    requires forall c :: 0 <= c < |delays| ==> 0 <= delaySamples[c] < |delays[c].buffer|
    ensures |delayed| == |delays|
    ensures forall c :: 0 <= c < |delays| ==> delayed[c] == Read(delays[c], delaySamples[c])
  {
    delayed := [];
    for c := 0 to |delays|
      invariant |delayed| == c
      invariant forall k :: 0 <= k < c ==> delayed[k] == Read(delays[k], delaySamples[k])
    {
      delayed := delayed + [Read(delays[c], delaySamples[c])];
    }
  }

  /**
   * Reading every channel of configured buffers returns, channel by
   * channel, the sample written delaySamples[c] writes earlier (zero if
   * there were not that many).
   */
  lemma TapsRecall(channels: nat, delaySamples: seq<int>, delays: seq<Delay>, written: seq<seq<real>>,
                   delayed: seq<real>)
    requires Recalls(channels, delaySamples, delays, written)
    requires |delayed| == channels
    requires forall c :: 0 <= c < channels ==> delayed[c] == Read(delays[c], delaySamples[c])
    ensures delayed == Echoes(written, delaySamples)
  {
    assert forall c :: 0 <= c < channels ==> delayed[c] == Echoes(written, delaySamples)[c];
  }

  /** What a feedback loop writes back: channel c's input plus its fed-back sample times gain. */
  function LoopInput(input: seq<real>, fed: seq<real>, gain: real): (r: seq<real>)
    requires |fed| == |input|
    ensures |r| == |input| && forall c :: 0 <= c < |r| ==> r[c] == input[c] + fed[c] * gain
  {
    seq(|input|, c requires 0 <= c < |input| => input[c] + fed[c] * gain)
  }

  /**
   * The write loop of the feedback structures: channel c receives
   * input[c] + fed[c] * gain, and the buffers keep recalling what was
   * written to them.
   */
  method WriteTaps(channels: nat, delaySamples: seq<int>, delays: seq<Delay>, ghost written: seq<seq<real>>,
                   input: seq<real>, fed: seq<real>, gain: real)
    returns (r: seq<Delay>)
    requires Recalls(channels, delaySamples, delays, written)
    requires |input| == channels && |fed| == channels
    ensures r == WriteEach(delays, LoopInput(input, fed, gain))
    ensures Recalls(channels, delaySamples, r, Appended(written, LoopInput(input, fed, gain)))
  {
    assert forall c :: 0 <= c < channels ==> |delays[c].buffer| == delaySamples[c] + 1;
    ghost var values := LoopInput(input, fed, gain);
    r := delays;
    for c := 0 to channels
      invariant |r| == channels
      invariant forall k :: 0 <= k < c ==> r[k] == Write(delays[k], values[k])
      invariant forall k :: c <= k < channels ==> r[k] == delays[k]
    {
      var sum := input[c] + fed[c] * gain;
      r := r[c := Write(r[c], sum)];
    }
    forall c | 0 <= c < channels
      ensures Holds(r[c], Appended(written, values)[c])
    {
      WriteHolds(delays[c], written[c], values[c]);
    }
  }

  /**
   * The delay of a channel of the multi-channel loops: its spacing
   * factor 2^(c/channels) times the base delay, truncated to whole
   * samples.
   */
  function SpreadDelay(base: real, factor: real): int
  {
    TruncateToInt(factor * base)
  }

  /** Scaling a non-negative length by a factor in [1, 2] keeps it in the octave above. */
  lemma WithinOctave(e: real, base: real)
    requires 1.0 <= e <= 2.0 && 0.0 <= base
    ensures base <= e * base <= 2.0 * base
  {
    assert e * base - base == (e - 1.0) * base;
    assert 2.0 * base - e * base == (2.0 - e) * base;
  }

  /** The delays lie between the base delay and twice the base delay. */
  lemma SpreadDelayInOctave(base: real, factor: real)
    requires 0.0 <= base && 1.0 <= factor <= 2.0
    ensures TruncateToInt(base) <= SpreadDelay(base, factor) <= TruncateToInt(2.0 * base)
  {
    WithinOctave(factor, base);
    TruncateMonotone(base, factor * base);
    TruncateMonotone(factor * base, 2.0 * base);
  }

  /**
   * The configure loop shared by both multi-channel loops: channel c
   * gets SpreadDelay with factor pow2[c], the value of std::pow(2, r) at
   * r = c / channels, and a cleared buffer of that length plus one.
   */
  method ConfigureSpread(channels: nat, base: real, pow2: seq<real>)
    returns (delaySamples: seq<int>, delays: seq<Delay>)
    requires 0.0 <= base && |pow2| == channels
    requires forall c :: 0 <= c < channels ==> 1.0 <= pow2[c] <= 2.0
    ensures |delaySamples| == channels && |delays| == channels
    ensures forall c :: 0 <= c < channels ==>
      delaySamples[c] == SpreadDelay(base, pow2[c]) &&
      TruncateToInt(base) <= delaySamples[c] <= TruncateToInt(2.0 * base) &&
      delays[c] == Cleared(delaySamples[c] + 1)
    ensures forall c :: 0 <= c < channels ==> Holds(delays[c], [])
    ensures Recalls(channels, delaySamples, delays, NoHistory(channels))
  {
    delaySamples, delays := [], [];
    for c := 0 to channels
      invariant |delaySamples| == c && |delays| == c
      invariant forall k :: 0 <= k < c ==>
        delaySamples[k] == SpreadDelay(base, pow2[k]) &&
        TruncateToInt(base) <= delaySamples[k] <= TruncateToInt(2.0 * base) &&
        delays[k] == Cleared(delaySamples[k] + 1)
      invariant forall k :: 0 <= k < c ==> Holds(delays[k], [])
    {
      var d := TruncateToInt(pow2[c] * base);
      SpreadDelayInOctave(base, pow2[c]);
      ClearedHoldsNothing(d + 1);
      delaySamples := delaySamples + [d];
      delays := delays + [Cleared(d + 1)];
    }
  }

  /** `Array mixed = delayed; Householder::inPlace(mixed.data());` on a copy of the channel vector. */
  method HouseholderMixed(delayed: seq<real>) returns (mixed: seq<real>)
    requires 1 <= |delayed|
    ensures mixed == MixMatrix.Householder(delayed)
  {
    var arr := new real[|delayed|](c requires 0 <= c < |delayed| => delayed[c]);
    assert arr[..|delayed|] == delayed;
    MixMatrix.HouseholderInPlace(arr, |delayed|);
    mixed := arr[..|delayed|];
  }

  /** SingleChannelFeedback: one delay line in a loop with gain decayGain. */
  class SingleChannelFeedback {
    var delayMs: real
    var decayGain: real
    var delaySamples: int
    var delay: Delay
    /** Every sample written since the last configure, oldest first. */
    ghost var written: seq<real>

    /** Configured: the buffer holds delaySamples + 1 samples, all of them from `written` or zeros. */
    ghost predicate Valid()
      reads this
    {
      0 <= delaySamples && |delay.buffer| == delaySamples + 1 && Holds(delay, written)
    }

    constructor ()
      ensures delayMs == 80.0 && decayGain == 0.85
    {
      delayMs := 80.0;
      decayGain := 0.85;
      delaySamples := 0;
      delay := Delay([]);
      written := [];
    }

    method Configure(sampleRate: real)
      requires 0.0 <= delayMs * 0.001 * sampleRate
      modifies this
      ensures delayMs == old(delayMs) && decayGain == old(decayGain)
      ensures delaySamples == DelayLength(delayMs, sampleRate)
      ensures delay == Cleared(delaySamples + 1) && written == []
      ensures Valid()
    {
      delaySamples := TruncateToInt(delayMs * 0.001 * sampleRate);
      delay := Cleared(delaySamples + 1);
      written := [];
    }

    /**
     * Reads before writing: the result is the sample written
     * delaySamples + 1 calls ago, and what is written is the input plus
     * that sample times decayGain.
     */
    method Process(input: real) returns (delayed: real)
      requires Valid()
      modifies this
      ensures delayMs == old(delayMs) && decayGain == old(decayGain) && delaySamples == old(delaySamples)
      ensures Valid()
      ensures delayed == Read(old(delay), delaySamples)
      ensures delayed == Echo(old(written), delaySamples)
      ensures written == old(written) + [input + delayed * decayGain]
    {
      var gain := decayGain;
      delayed := Read(delay, delaySamples);
      var sum := input + delayed * gain;
      WriteHolds(delay, written, sum);
      delay, written := Write(delay, sum), written + [sum];
    }
  }

  /** MultiChannelFeedback: independent loops, one per channel. */
  class MultiChannelFeedback {
    const channels: nat
    var delayMs: real
    var decayGain: real
    var delaySamples: seq<int>
    var delays: seq<Delay>
    ghost var written: seq<seq<real>>

    ghost predicate Valid()
      reads this
    {
      Recalls(channels, delaySamples, delays, written)
    }

    constructor (channels: nat)
      ensures this.channels == channels
      ensures delayMs == 150.0 && decayGain == 0.85
    {
      this.channels := channels;
      delayMs := 150.0;
      decayGain := 0.85;
      delaySamples := [];
      delays := [];
      written := [];
    }

    /** Delay times spread exponentially between delayMs and 2 * delayMs. */
    method Configure(sampleRate: real, pow2: seq<real>)
      requires 0.0 <= delayMs * 0.001 * sampleRate
      requires |pow2| == channels && forall c :: 0 <= c < channels ==> 1.0 <= pow2[c] <= 2.0
      modifies this
      ensures Valid()
      ensures delayMs == old(delayMs) && decayGain == old(decayGain)
      ensures forall c :: 0 <= c < channels ==>
        delaySamples[c] == SpreadDelay(delayMs * 0.001 * sampleRate, pow2[c]) &&
        delays[c] == Cleared(delaySamples[c] + 1)
      ensures written == NoHistory(channels)
    {
      var base := delayMs * 0.001 * sampleRate;
      delaySamples, delays := ConfigureSpread(channels, base, pow2);
      written := NoHistory(channels);
    }

    /**
     * Reads every channel before writing any; channel c writes its own
     * input plus its own delayed sample times decayGain.
     */
    method Process(input: seq<real>) returns (delayed: seq<real>)
      requires Valid() && |input| == channels
      modifies this
      ensures delayMs == old(delayMs) && decayGain == old(decayGain) && delaySamples == old(delaySamples)
      ensures Valid()
      ensures delayed == Echoes(old(written), delaySamples)
      ensures delays == WriteEach(old(delays), LoopInput(input, delayed, decayGain))
      ensures written == Appended(old(written), LoopInput(input, delayed, decayGain))
    {
      delayed := ReadTaps(delays, delaySamples);
      TapsRecall(channels, delaySamples, delays, written, delayed);
      delays := WriteTaps(channels, delaySamples, delays, written, input, delayed, decayGain);
      written := Appended(written, LoopInput(input, delayed, decayGain));
    }
  }

  /** MultiChannelMixedFeedback: the delayed samples pass through a Householder matrix before feedback. */
  class MultiChannelMixedFeedback {
    const channels: nat
    var delayMs: real
    var decayGain: real
    var delaySamples: seq<int>
    var delays: seq<Delay>
    ghost var written: seq<seq<real>>

    ghost predicate Valid()
      reads this
    {
      1 <= channels && Recalls(channels, delaySamples, delays, written)
    }

    constructor (channels: nat)
      requires 1 <= channels
      ensures this.channels == channels
      ensures delayMs == 150.0 && decayGain == 0.85
    {
      this.channels := channels;
      delayMs := 150.0;
      decayGain := 0.85;
      delaySamples := [];
      delays := [];
      written := [];
    }

    method Configure(sampleRate: real, pow2: seq<real>)
      requires 1 <= channels
      requires 0.0 <= delayMs * 0.001 * sampleRate
      requires |pow2| == channels && forall c :: 0 <= c < channels ==> 1.0 <= pow2[c] <= 2.0
      modifies this
      ensures Valid()
      ensures delayMs == old(delayMs) && decayGain == old(decayGain)
      ensures forall c :: 0 <= c < channels ==>
        delaySamples[c] == SpreadDelay(delayMs * 0.001 * sampleRate, pow2[c]) &&
        delays[c] == Cleared(delaySamples[c] + 1)
      ensures written == NoHistory(channels)
    {
      var base := delayMs * 0.001 * sampleRate;
      delaySamples, delays := ConfigureSpread(channels, base, pow2);
      written := NoHistory(channels);
    }

    /**
     * Returns the un-mixed delayed samples; channel c writes its input
     * plus channel c of the Householder mix of all delayed samples,
     * times decayGain.
     */
    method Process(input: seq<real>) returns (delayed: seq<real>)
      requires Valid() && |input| == channels
      modifies this
      ensures delayMs == old(delayMs) && decayGain == old(decayGain) && delaySamples == old(delaySamples)
      ensures Valid()
      ensures delayed == Echoes(old(written), delaySamples)
      ensures delays == WriteEach(old(delays), LoopInput(input, MixMatrix.Householder(delayed), decayGain))
      ensures written == Appended(old(written), LoopInput(input, MixMatrix.Householder(delayed), decayGain))
    {
      delayed := ReadTaps(delays, delaySamples);
      TapsRecall(channels, delaySamples, delays, written, delayed);
      var mix := HouseholderMixed(delayed);
      delays := WriteTaps(channels, delaySamples, delays, written, input, mix, decayGain);
      written := Appended(written, LoopInput(input, mix, decayGain));
    }
  }

  /**
   * Over a whole run of the mixed loop, the energy fed back is the
   * energy read out scaled by decayGain squared: the Householder mix
   * neither adds nor removes energy.
   */
  lemma MixedFeedbackEnergy(delayed: seq<real>, decayGain: real)
    requires 1 <= |delayed|
    ensures SumSq(Scale(decayGain, MixMatrix.Householder(delayed))) == decayGain * decayGain * SumSq(delayed)
  {
    SumSqScale(decayGain, MixMatrix.Householder(delayed));
    MixMatrix.HouseholderPreservesEnergy(delayed);
  }
}
