/**
 * BasicReverb from reverb-example-code.h: a chain of diffusion steps
 * whose output feeds a Householder-mixed feedback loop, blended with the
 * dry input.
 *
 * std::pow(10, x) in the constructor is the `pow10` argument; the other
 * stand-ins (`pow2`, the random draws, `scalingFactor`) are those of the
 * feedback and diffusion structures.
 */
module Reverb {
  import opened Vectors
  import opened DelayLine
  import MixMatrix
  import Feedback
  import Diffusion

  /**
   * The decay per trip round the feedback loop, in dB: a loop of
   * 1.5 * roomSizeMs fits rt60 / (1.5 * roomSizeMs * 0.001) times into
   * the reverb time, and those trips together must lose 60 dB.
   */
  function DbPerCycle(roomSizeMs: real, rt60: real): (db: real)
    requires roomSizeMs != 0.0 && rt60 != 0.0
  {
    var typicalLoopMs := roomSizeMs * 1.5;
    var loopsPerRt60 := rt60 / (typicalLoopMs * 0.001);
    -60.0 / loopsPerRt60
  }

  /** The closed form of the decay per trip. */
  lemma DbPerCycleClosedForm(roomSizeMs: real, rt60: real)
    requires roomSizeMs != 0.0 && rt60 != 0.0
    ensures DbPerCycle(roomSizeMs, rt60) == -60.0 * (1.5 * roomSizeMs * 0.001) / rt60
  {
    var l := roomSizeMs * 1.5 * 0.001;
    var loops := rt60 / l;
    assert loops * l == rt60;
    assert -60.0 / loops == -60.0 * l / rt60 by {
      assert (-60.0 / loops) * rt60 == (-60.0 / loops) * (loops * l);
    }
  }

  /** All the trips in one reverb time together lose exactly 60 dB. */
  lemma SixtyDbPerRt60(roomSizeMs: real, rt60: real)
    requires roomSizeMs != 0.0 && rt60 != 0.0
    ensures rt60 / (roomSizeMs * 1.5 * 0.001) * DbPerCycle(roomSizeMs, rt60) == -60.0
  {
    var loops := rt60 / (roomSizeMs * 1.5 * 0.001);
    assert loops != 0.0;
  }

  /** A positive room size and reverb time give a loss on every trip. */
  lemma DbPerCycleNegative(roomSizeMs: real, rt60: real)
    requires 0.0 < roomSizeMs && 0.0 < rt60
    ensures DbPerCycle(roomSizeMs, rt60) < 0.0
  {
    DbPerCycleClosedForm(roomSizeMs, rt60);
    var l := 1.5 * roomSizeMs * 0.001;
    assert -60.0 * l < 0.0;
  }

  /**
   * With any power-of-ten stand-in that maps losses to gains in (0, 1),
   * the feedback gain is a proper decay.
   */
  lemma DecayGainBelowOne(roomSizeMs: real, rt60: real, pow10: real -> real)
    requires 0.0 < roomSizeMs && 0.0 < rt60
    requires forall x :: x < 0.0 ==> 0.0 < pow10(x) < 1.0
    ensures 0.0 < pow10(DbPerCycle(roomSizeMs, rt60) * 0.05) < 1.0
  {
    DbPerCycleNegative(roomSizeMs, rt60);
  }

  /** The output loop: dry times the input plus wet times the reverb tail. */
  method Blend(dry: real, wet: real, input: seq<real>, longLasting: seq<real>) returns (output: seq<real>)
    requires |longLasting| == |input|
    ensures output == Add(Scale(dry, input), Scale(wet, longLasting))
  {
    output := [];
    for c := 0 to |input|
      invariant |output| == c
      invariant forall k :: 0 <= k < c ==> output[k] == dry * input[k] + wet * longLasting[k]
    {
      output := output + [dry * input[c] + wet * longLasting[c]];
    }
  }

  class BasicReverb {
    const channels: nat
    const feedback: Feedback.MultiChannelMixedFeedback
    const diffuser: Diffusion.Diffuser
    var dry: real
    var wet: real

    ghost predicate Valid()
      reads this, feedback, diffuser, diffuser.steps
    {
      feedback.channels == channels && diffuser.channels == channels &&
      feedback.Valid() && diffuser.Valid()
    }

    /**
     * The diffuser halves roomSizeMs across its steps, the feedback delay
     * is roomSizeMs, and the feedback gain loses DbPerCycle per trip.
     * The source's defaults are dry = 0 and wet = 1.
     */
    constructor (channels: nat, diffusionSteps: nat, roomSizeMs: real, rt60: real, dry: real, wet: real,
                 pow10: real -> real)
      requires 1 <= channels && roomSizeMs != 0.0 && rt60 != 0.0
      ensures this.channels == channels && this.dry == dry && this.wet == wet
      ensures feedback.channels == channels && diffuser.channels == channels
      ensures feedback.delayMs == roomSizeMs
      ensures feedback.decayGain == pow10(DbPerCycle(roomSizeMs, rt60) * 0.05)
      ensures fresh(feedback) && fresh(diffuser) && diffuser.Distinct() && |diffuser.steps| == diffusionSteps
      ensures forall i :: 0 <= i < diffusionSteps ==>
        fresh(diffuser.steps[i]) && diffuser.steps[i].channels == channels &&
        diffuser.steps[i].delayMsRange == Diffusion.HalvedRanges(roomSizeMs, diffusionSteps)[i]
    {
      var df := new Diffusion.Diffuser.HalfLengths(channels, diffusionSteps, roomSizeMs);
      var fb := new Feedback.MultiChannelMixedFeedback(channels);
      this.channels := channels;
      feedback := fb;
      diffuser := df;
      this.dry := dry;
      this.wet := wet;
      new;
      feedback.delayMs := roomSizeMs;
      var typicalLoopMs := roomSizeMs * 1.5;
      var loopsPerRt60 := rt60 / (typicalLoopMs * 0.001);
      var dbPerCycle := -60.0 / loopsPerRt60;
      feedback.decayGain := pow10(dbPerCycle * 0.05);
    }

    /** Configures the feedback loop, then the diffuser. */
    method Configure(sampleRate: real, pow2: seq<real>, unitRands: seq<seq<real>>, coins: seq<seq<nat>>)
      requires 1 <= channels && feedback.channels == channels && diffuser.channels == channels
      requires diffuser.Distinct()
      requires forall i :: 0 <= i < |diffuser.steps| ==> diffuser.steps[i].channels == channels
      requires 0.0 <= feedback.delayMs * 0.001 * sampleRate
      requires |pow2| == channels && forall c :: 0 <= c < channels ==> 1.0 <= pow2[c] <= 2.0
      requires forall i :: 0 <= i < |diffuser.steps| ==> 0.0 <= diffuser.steps[i].delayMsRange * 0.001 * sampleRate
      requires |unitRands| == |diffuser.steps| && |coins| == |diffuser.steps|
      requires forall i :: 0 <= i < |diffuser.steps| ==> |unitRands[i]| == channels && |coins[i]| == channels
      requires forall i, c :: 0 <= i < |diffuser.steps| && 0 <= c < channels ==> 0.0 <= unitRands[i][c] <= 1.0
      modifies feedback, diffuser.steps
      ensures Valid()
      ensures feedback.delayMs == old(feedback.delayMs) && feedback.decayGain == old(feedback.decayGain)
      ensures forall c :: 0 <= c < channels ==>
        feedback.delaySamples[c] == Feedback.SpreadDelay(feedback.delayMs * 0.001 * sampleRate, pow2[c]) &&
        feedback.delays[c] == Cleared(feedback.delaySamples[c] + 1)
      ensures feedback.written == NoHistory(channels)
      ensures diffuser.Ranges() == old(diffuser.Ranges())
      ensures forall i :: 0 <= i < |diffuser.steps| ==> diffuser.steps[i].ConfiguredWith(sampleRate, unitRands[i], coins[i])
    {
      feedback.Configure(sampleRate, pow2);
      diffuser.Configure(sampleRate, unitRands, coins);
    }

    /** The diffuser's half of process: the feedback loop is untouched. */
    method Diffuse(input: seq<real>, scalingFactor: real) returns (diffuse: seq<real>)
      requires Valid() && |input| == channels
      modifies diffuser.steps
      ensures Valid()
      ensures feedback.delaySamples == old(feedback.delaySamples) && feedback.decayGain == old(feedback.decayGain)
      ensures feedback.written == old(feedback.written)
      ensures |diffuse| == |input|
      ensures diffuse == Diffusion.Chain(old(diffuser.States()), input, scalingFactor)
      ensures diffuser.States() == Diffusion.Progress(old(diffuser.States()), input, scalingFactor, |diffuser.steps|)
    {
      diffuse := diffuser.Process(input, scalingFactor);
    }

    /**
     * The rest of process: the diffused signal enters the feedback loop,
     * and the output blends the dry input with the tail the loop read.
     * The diffuser is untouched.
     */
    method FeedBackAndBlend(input: seq<real>, diffuse: seq<real>) returns (output: seq<real>)
      requires Valid() && |input| == channels && |diffuse| == channels
      modifies feedback
      ensures Valid()
      ensures diffuser.States() == old(diffuser.States())
      ensures feedback.delaySamples == old(feedback.delaySamples) && feedback.decayGain == old(feedback.decayGain)
      ensures output == Add(Scale(dry, input), Scale(wet, Echoes(old(feedback.written), feedback.delaySamples)))
      ensures feedback.written == Appended(old(feedback.written),
        Feedback.LoopInput(diffuse, MixMatrix.Householder(Echoes(old(feedback.written), feedback.delaySamples)),
                           feedback.decayGain))
    {
      var longLasting := feedback.Process(diffuse);
      output := Blend(dry, wet, input, longLasting);
    }

    /**
     * Diffuses the input, passes it through the feedback loop, and
     * blends: output[c] = dry * input[c] + wet * longLasting[c]. The tail
     * read this call is what the loop held before it: the diffused input
     * only enters the loop.
     */
    method Process(input: seq<real>, scalingFactor: real) returns (output: seq<real>)
      requires Valid() && |input| == channels
      modifies feedback, diffuser.steps
      ensures Valid()
      ensures feedback.delaySamples == old(feedback.delaySamples) && feedback.decayGain == old(feedback.decayGain)
      ensures output == Add(Scale(dry, input), Scale(wet, Echoes(old(feedback.written), feedback.delaySamples)))
      ensures diffuser.States() == Diffusion.Progress(old(diffuser.States()), input, scalingFactor, |diffuser.steps|)
      ensures feedback.written == Appended(old(feedback.written),
        Feedback.LoopInput(Diffusion.Chain(old(diffuser.States()), input, scalingFactor),
                           MixMatrix.Householder(Echoes(old(feedback.written), feedback.delaySamples)),
                           feedback.decayGain))
    {
      var diffuse := Diffuse(input, scalingFactor);
      output := FeedBackAndBlend(input, diffuse);
    }
  }
}
