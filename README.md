# Reverb example code, modelled in Dafny

This project models the core of a small C++ reverb library and proves
properties of the model. The library has three headers:

- `mix-matrix.h`: two orthogonal mixing matrices applied in place to a
  buffer. The Householder reflection sums the entries, scales the sum by
  -2/N and adds it to every entry. The Hadamard transform is a recursive
  sum/difference butterfly followed by a scaling by sqrt(1/N).
- `reverb-example-code.h`: the reverb building blocks.
  - A single-channel feedback loop.
  - Two multi-channel feedback loops, one of them mixed with a Householder
    matrix.
  - A diffusion step: per-channel random delays, a Hadamard mix and
    random polarity flips.
  - Two diffusers that chain diffusion steps with equal or halving delay
    ranges.
  - `BasicReverb`, which puts a diffuser in front of the mixed feedback loop
    and blends dry and wet signals.
- `wav.h`: a RIFF/WAVE reader and writer for 16-bit PCM.
  - Little-endian word helpers.
  - A sticky `Result`, whose assignment keeps the first error.
  - `read`, which walks the chunks of a file.
  - `write`, which emits a 44-byte header followed by clamped samples.
  - `makeMono`, which averages the channels of each frame.

The model is split into modules:

- `Vectors`: sums, sums of squares, element-wise vector operations and
  their algebra.
- `MixMatrix`: the two matrices.
  - Each is a specification function on `seq<real>`.
  - Each in-place routine is a method over an `array<real>`, proved equal
    to its function.
- `DelayLine`: the nearest-sample delay line the loops are built from.
- `Feedback`, `Diffusion`, `Reverb`: one class per structure of
  `reverb-example-code.h`. Each class has the source's fields. Its methods
  are proved against functions of the written history.
- `LittleEndian`: 16- and 32-bit words over bytes, and a byte stream with
  end-of-file.
- `WavFormat`: the file format as functions. Covers parsing of a whole file,
  the serialised form of a write, sample coding, padding and down-mixing.
- `WavFile`: the `Wav` class. Its `Read`, `Write` and `MakeMono` methods
  work step by step as the source does. Each is proved equal to its
  `WavFormat` function.

## Model

| member | source | states |
|---|---|---|
| MixMatrix.HouseholderInPlace | mix-matrix.h:8-19 | the first `size` entries become the Householder reflection of their old values; the rest of the array is unchanged |
| MixMatrix.HouseholderNegatesSum | mix-matrix.h:8-19 | the reflection negates the sum of the entries |
| MixMatrix.HouseholderInvolution | mix-matrix.h:8-19 | applying the reflection twice gives back the input |
| MixMatrix.HouseholderPreservesEnergy | mix-matrix.h:8-19 | the sum of squares is unchanged (the matrix is orthogonal) |
| MixMatrix.ShiftTimesSize | mix-matrix.h:9-14 | N times the added value equals -2 times the sum |
| MixMatrix.RecursiveUnscaled | mix-matrix.h:26-41 | the block [start, start+size) of the array becomes its unscaled Hadamard transform; everything else is unchanged |
| MixMatrix.Combine | mix-matrix.h:35-40 | the combining loop puts a+b in the first half and a-b in the second half of the block |
| MixMatrix.HadamardInPlace | mix-matrix.h:43-50 | the first `size` entries become the scaled Hadamard transform of their old values; the rest is unchanged |
| MixMatrix.ScalePrefix | mix-matrix.h:46-49 | the first `size` entries are multiplied by the scaling factor; the rest is unchanged |
| MixMatrix.HadamardTwice | mix-matrix.h:22-41 | for a power-of-two size N, the unscaled transform applied twice multiplies the input by N |
| MixMatrix.HadamardEnergy | mix-matrix.h:22-41 | for a power-of-two size N, the unscaled transform multiplies the sum of squares by N |
| MixMatrix.HadamardFirstIsSum | mix-matrix.h:22-41 | for a power-of-two size, the first output is the sum of the inputs |
| MixMatrix.HadamardHomogeneous | mix-matrix.h:26-41 | the unscaled transform commutes with scaling |
| MixMatrix.HadamardAdditive | mix-matrix.h:26-41 | the unscaled transform is additive |
| MixMatrix.HadamardInvolution | mix-matrix.h:43-50 | for a power-of-two size and factor sqrt(1/N), the scaled transform is its own inverse |
| MixMatrix.HadamardPreservesEnergy | mix-matrix.h:43-50 | for a power-of-two size and factor sqrt(1/N), the sum of squares is unchanged |
| DelayLine.TruncateToInt | reverb-example-code.h:24 | the double-to-int conversion truncates toward zero: the result is within one of x, on the same side of zero |
| DelayLine.DelayLength | reverb-example-code.h:24 | the delay in samples is a non-negative whole number not above delayMs * 0.001 * sampleRate |
| DelayLine.Cleared | reverb-example-code.h:25-26 | after resize(n) and reset(), the buffer has n slots and every read returns 0 |
| DelayLine.Write | reverb-example-code.h:33 | after a write, read(0) is the written value and read(k) is the old read(k-1) |
| DelayLine.WriteHolds | reverb-example-code.h:33 | a write extends the recalled history by the written value |
| DelayLine.ReadAfterWrites | reverb-example-code.h:25-33 | after any series of writes to a cleared buffer, read(k) is the sample written k writes ago, or 0 before the first write |
| DelayLine.Echoes | reverb-example-code.h:64-66 | each channel reads its history at its own delay |
| Feedback.SingleChannelFeedback.constructor | reverb-example-code.h:17-18 | delayMs is 80 and decayGain is 0.85 |
| Feedback.SingleChannelFeedback.Configure | reverb-example-code.h:23-27 | delaySamples is the truncated delay length; the delay line holds delaySamples+1 zeros; nothing has been written |
| Feedback.SingleChannelFeedback.Process | reverb-example-code.h:29-36 | returns the sample written delaySamples + 1 calls ago (0 before that), because it reads before it writes; writes input + delayed * decayGain |
| Feedback.MultiChannelFeedback.constructor | reverb-example-code.h:44-45 | delayMs is 150 and decayGain is 0.85 |
| Feedback.MultiChannelFeedback.Configure | reverb-example-code.h:50-60 | channel c's delay is the base times 2^(c/channels), truncated; it lies between the base delay and twice it; every buffer is cleared |
| Feedback.MultiChannelFeedback.Process | reverb-example-code.h:62-74 | returns each channel's echo of its history; writes input + delayed * decayGain per channel |
| Feedback.MultiChannelMixedFeedback.constructor | reverb-example-code.h:80-81 | delayMs is 150 and decayGain is 0.85 |
| Feedback.MultiChannelMixedFeedback.Configure | reverb-example-code.h:86-94 | the same spread of delays and cleared buffers as the unmixed loop |
| Feedback.MultiChannelMixedFeedback.Process | reverb-example-code.h:96-112 | returns the unmixed echoes; writes input + Householder(delayed) * decayGain per channel |
| Feedback.ConfigureSpread | reverb-example-code.h:51-59 | the configure loop: each delay is SpreadDelay of its factor, inside the octave above the base, with a cleared buffer that recalls nothing |
| Feedback.SpreadDelayInOctave | reverb-example-code.h:53-55 | for a factor in [1, 2] the delay lies between the base delay and twice it |
| Feedback.ReadTaps | reverb-example-code.h:64-66 | channel c reads its own delay line at delaySamples[c] |
| Feedback.TapsRecall | reverb-example-code.h:64-66 | the taps read are the echoes of the written histories |
| Feedback.WriteTaps | reverb-example-code.h:68-71 | every delay line is written input[c] + fed[c] * gain, and its history grows by that value |
| Feedback.HouseholderMixed | reverb-example-code.h:103-104 | the mixed copy is the Householder reflection of the delayed vector |
| Feedback.MixedFeedbackEnergy | reverb-example-code.h:104-107 | the fed-back vector has decayGain^2 times the energy of the delayed one, so a gain below 1 makes the loop decay |
| Diffusion.RandomInRangeBounds | reverb-example-code.h:7-11 | for a unit draw in [0, 1] the result lies in [low, high] |
| Diffusion.BandEdgeMonotone | reverb-example-code.h:127-128 | band edges range*c/channels grow with c and are non-negative |
| Diffusion.BandDelayInBand | reverb-example-code.h:125-129 | channel c's delay lies between the truncated edges of its band |
| Diffusion.BandDelaysNonDecreasing | reverb-example-code.h:125-129 | the channel delays do not decrease with the channel index |
| Diffusion.ConfigureBands | reverb-example-code.h:126-133 | the configure loop: per-channel band delay, cleared buffer, and a polarity flip when rand() is odd |
| Diffusion.Flipped | reverb-example-code.h:149-151 | flipped channels are negated and the others kept |
| Diffusion.FlipInPlace | reverb-example-code.h:149-151 | the flip loop leaves the array equal to Flipped of its old contents |
| Diffusion.FlippedTwice | reverb-example-code.h:149-151 | flipping twice gives back the input |
| Diffusion.FlippedEnergy | reverb-example-code.h:149-151 | flipping keeps the sum of squares |
| Diffusion.MixAndFlipEnergy | reverb-example-code.h:145-151 | Hadamard mixing then flipping keeps the energy of the delayed vector |
| Diffusion.MixAndFlip | reverb-example-code.h:145-153 | the step's output is the flipped Hadamard mix of the delayed vector |
| Diffusion.WriteThenReadTaps | reverb-example-code.h:139-142 | the input is written before the read, so each tap reads the history that includes the input |
| Diffusion.ZeroDelayPassesInput | reverb-example-code.h:139-142 | because the write comes first, a channel with delay 0 passes its input straight through |
| Diffusion.DiffusionStep.constructor | reverb-example-code.h:118 | delayMsRange is 50 |
| Diffusion.DiffusionStep.Configure | reverb-example-code.h:124-134 | every channel gets its band delay, a cleared buffer and its polarity flip; the range is unchanged |
| Diffusion.DiffusionStep.Process | reverb-example-code.h:136-154 | writes the input, then returns Flipped(Hadamard(echoes)) of the extended history |
| Diffusion.Diffuser.EqualLengths | reverb-example-code.h:164-168 | every step gets totalDiffusionMs / stepCount |
| Diffusion.EqualRangesSum | reverb-example-code.h:164-168 | the equal step ranges add up to the total diffusion time |
| Diffusion.Diffuser.HalfLengths | reverb-example-code.h:189-194 | step i gets diffusionMs / 2^(i+1) |
| Diffusion.HalvedRangesSum | reverb-example-code.h:189-194 | the halved ranges add up to diffusionMs - diffusionMs / 2^stepCount |
| Diffusion.Diffuser.Configure | reverb-example-code.h:170-172 | each step is configured with its own draws; ranges are unchanged |
| Diffusion.Diffuser.RunStep | reverb-example-code.h:175-177 | step i processes the vector and no other step changes |
| Diffusion.Diffuser.Process | reverb-example-code.h:174-179 | the output is the chain of step outputs, each step fed the previous step's output, and every step advances |
| Diffusion.ProgressStep | reverb-example-code.h:175-177 | running one more step extends the chain by that step's output |
| Diffusion.NewSteps | reverb-example-code.h:162 | the step array holds stepCount distinct fresh steps of the given channel count |
| Reverb.DbPerCycleClosedForm | reverb-example-code.h:219-224 | dbPerCycle = -60 * (1.5 * roomSizeMs * 0.001) / rt60 |
| Reverb.SixtyDbPerRt60 | reverb-example-code.h:219-224 | loopsPerRt60 trips at dbPerCycle each lose exactly 60 dB |
| Reverb.DbPerCycleNegative | reverb-example-code.h:219-224 | for positive room size and rt60 each trip loses level |
| Reverb.DecayGainBelowOne | reverb-example-code.h:226 | the feedback gain is strictly between 0 and 1 |
| Reverb.BasicReverb.constructor | reverb-example-code.h:216-227 | the diffuser has halving ranges from roomSizeMs; the feedback delay is roomSizeMs and its gain is pow10(dbPerCycle * 0.05); dry and wet are stored |
| Reverb.BasicReverb.Configure | reverb-example-code.h:229-232 | configures the feedback loop and then the diffuser; gains and ranges are unchanged |
| Reverb.BasicReverb.Diffuse | reverb-example-code.h:235 | the diffuser's chain output; the feedback loop is untouched |
| Reverb.BasicReverb.FeedBackAndBlend | reverb-example-code.h:236-241 | the output is dry*input + wet*echoes; the feedback loop writes the diffuse vector mixed back in |
| Reverb.Blend | reverb-example-code.h:237-240 | the output is dry*input + wet*longLasting, channel by channel |
| Reverb.BasicReverb.Process | reverb-example-code.h:234-242 | the output is dry*input + wet*(the loop's echoes); the loop is fed the diffuser's output; the diffuser advances |
| LittleEndian.Word16OfBytes16 | wav.h:11-15 | reading the two bytes written for v gives v mod 2^16 |
| LittleEndian.Bytes16OfWord16 | wav.h:22-25 | writing the word read from two bytes gives those bytes back |
| LittleEndian.Word32OfBytes32 | wav.h:16-20 | reading the four bytes written for v gives v mod 2^32 |
| LittleEndian.Bytes32OfWord32 | wav.h:26-29 | writing the word read from four bytes gives those bytes back |
| LittleEndian.Read16Written | wav.h:11-15 | reading a 16-bit word from written bytes gives the word and leaves the rest |
| LittleEndian.Read32Written | wav.h:16-20 | reading a 32-bit word from written bytes gives the word and leaves the rest |
| LittleEndian.Read32Short | wav.h:16-20 | a read of fewer than four bytes leaves the missing high bytes 0 |
| LittleEndian.Skip | wav.h:151 | ignore(n) sets end-of-file exactly when fewer than n bytes remain |
| WavFormat.TagsSpellNames | wav.h:34-37 | the four tag constants are the ASCII bytes of "RIFF", "WAVE", "fmt " and "data" |
| WavFormat.Assign | wav.h:58-65 | assignment keeps an existing error and otherwise takes the new result |
| WavFormat.AssignAllKeepsFirstError | wav.h:58-65 | after a series of assignments the result is the first error, or the last result if none failed |
| WavFormat.FormatIsValid | wav.h:93-100 | true exactly for format 1 (PCM) with 16 bits per sample |
| WavFormat.DecodeSample | wav.h:139-143 | the decoded sample is in [-1, 1) and 32768 times it is the signed 16-bit value |
| WavFormat.EncodeSample | wav.h:197-201 | the encoded value fits 16 bits; what it clamps to is stated by EncodeDecode and the DecodeEncode lemmas |
| WavFormat.EncodeDecode | wav.h:139-143 | encoding a decoded 16-bit word gives the word back |
| WavFormat.DecodeEncodeInRange | wav.h:197-201 | in range, the round trip rounds down to the 1/32768 grid |
| WavFormat.DecodeEncodeClipsHigh | wav.h:198 | samples at or above 32767/32768 come back as 32767/32768 |
| WavFormat.DecodeEncodeClipsLow | wav.h:199 | samples at or below -1 come back as -1 |
| WavFormat.PadToFrames | wav.h:146-148 | the samples are kept and followed by fewer than `channels` zeros up to a multiple of channels |
| WavFormat.PadWholeFrames | wav.h:146-148 | whole frames are not padded |
| WavFormat.ReadPcm | wav.h:136-144 | at most `count` samples, each in [-1, 1) |
| WavFormat.ReadFile | wav.h:102-105 | a file that does not open gives IoError "Failed to open file: " + filename and leaves the state; otherwise the file is parsed |
| WavFormat.NotRiffRejected | wav.h:108 | data without the RIFF tag gives FormatError "Input is not a RIFF file" and leaves the state |
| WavFormat.NotWaveRejected | wav.h:109-110 | a RIFF file without the WAVE tag at bytes 8-11 gives FormatError "Input is not a plain WAVE file" and leaves the state |
| WavFormat.ParsedSamplesInRange | wav.h:131-149 | every sample of a parsed file is in [-1, 1) |
| WavFormat.CheckFormat | wav.h:119-130 | an accepted fmt chunk has at least one channel and leaves the samples |
| WavFormat.CheckFormatOutcome | wav.h:116-130 | a fmt chunk is accepted exactly when it has channels, a sample rate, 16-bit PCM and sizes that agree, and then sets channels and rate; zero channels, zero rate, an unsupported format and mismatched sizes each end read with their own code and message, the first failing check deciding |
| WavFormat.ChunkStepAtEnd | wav.h:113-114 | a chunk header that reads as type 0 and runs into end of file is skipped; the loop ends with the state unchanged |
| WavFormat.WriteCheckAsWritten | wav.h:158-159 | accepts exactly 1 <= channels <= 65535 and 1 <= sampleRate < 2^32; otherwise WeirdConfig |
| WavFormat.WriteCheck | wav.h:158-159 | accepts exactly 1 <= channels <= 32767 and 1 <= sampleRate < 2^32; otherwise WeirdConfig |
| WavFormat.Header | wav.h:172-193 | the header is 44 bytes; RoundTrip states that read accepts it and takes its format fields |
| WavFormat.HeaderLengthFields | wav.h:172-193 | when 44 + 2n fits 32 bits, the RIFF length field reads back as 36 + 2n and the data length field as 2n |
| WavFormat.EncodedAppend | wav.h:196-202 | encoding one more sample appends its two bytes |
| WavFormat.ReadPcmEncoded | wav.h:131-149 | the written data chunk reads back as the requantised samples |
| WavFormat.RoundTrip | wav.h:102-206 | reading what write emits gives Ok, the written channels and rate, and the requantised samples padded to whole frames |
| WavFormat.WideChannelsNotReadBack | wav.h:158 | with 32768 or more channels, read rejects what write emits as written with "Format sizes don't add up" |
| WavFormat.WideChannelsExample | wav.h:158 | 32768 channels at 48000 Hz pass the check as written, fail the corrected one, and read back as FormatError |
| WavFormat.MonoIsMean | wav.h:208-222 | each mono sample times the channel count is the sum of its frame |
| WavFormat.MonoOfMono | wav.h:208-222 | down-mixing a mono signal leaves it unchanged |
| WavFile.WriteOutcome | wav.h:158-163 | Ok exactly when the configuration passes and the file opens; a failed configuration check is returned as is |
| WavFile.ReadWords | wav.h:136-144 | the sample loop reads what ReadPcm specifies and stops at end of file |
| WavFile.WriteSamples | wav.h:196-202 | the clamp-and-offset loop emits exactly the encoded samples |
| WavFile.FrameSums | wav.h:209-215 | a fresh array of |samples|/channels frame sums |
| WavFile.AddChannel | wav.h:212-214 | adds channel c of every frame to its running sum |
| WavFile.Wav.State | wav.h:78-81 | the sample rate, channel count and samples of the object |
| WavFile.Wav.constructor | wav.h:78-83 | 48000 Hz, 1 channel, no samples, Ok |
| WavFile.Wav.WithFormat | wav.h:84 | the given rate and channel count, no samples, Ok |
| WavFile.Wav.WithSamples | wav.h:85 | the given rate, channel count and samples, Ok |
| WavFile.Wav.Load | wav.h:86-88 | the object holds what reading the file from the default state gives, and its result |
| WavFile.Wav.Read | wav.h:102-155 | the new state is ReadFile of the old one; the result is assigned with sticky semantics and returned |
| WavFile.Wav.ReadChunk | wav.h:113-153 | one loop turn: dispatch on the tag to the fmt and data handlers, or skip the chunk |
| WavFile.Wav.ReadFmtChunk | wav.h:115-130 | zero channels, zero rate, an unsupported format and inconsistent sizes end the read with their errors; otherwise the format is taken |
| WavFile.Wav.ReadDataChunk | wav.h:131-149 | the samples become the decoded data padded to whole frames |
| WavFile.Wav.Write | wav.h:157-206 | the state is unchanged; the result follows WriteOutcome; the bytes are the serialised file exactly when the write succeeds |
| WavFile.Wav.MakeMono | wav.h:208-222 | one channel, each sample the mean of its frame; partial trailing frames are dropped |
| WavFile.WriteThenLoad | wav.h:86-206 | loading what a valid Wav wrote gives Ok and the same rate and channels, with the requantised samples padded to frames |

## Left out

- `dsp/delay.h` (the signalsmith delay line) is not part of this model. `DelayLine` models it from how `reverb-example-code.h` uses it: `resize`, `reset`, `write` and `read` with nearest-sample interpolation, and a capacity of exactly delaySamples + 1.
- `main.cpp` is not part of this model.
- Floating point: samples and gains are real numbers. IEEE rounding, NaN and infinities are not modelled.
- `std::sqrt(1.0/size)` is a `scalingFactor` parameter. The energy and involution lemmas require it to be positive with square 1/N.
- `std::pow(2, r)` is supplied per channel as the `pow2` parameter, each value in [1, 2]. Its exponential spacing is not modelled.
- `std::pow(10, x)` is a function parameter `pow10`. `Reverb.DecayGainBelowOne` assumes it maps negative numbers into (0, 1).
- `rand()` is supplied as parameters: unit draws in [0, 1] for `randomInRange` and integers whose parity decides each polarity flip.
- Reverb.BasicReverb.constructor: requires a nonzero room size and rt60, where the source would divide by zero and produce an IEEE infinity.
- Channel counts and step counts are template parameters in the source. Here they are values fixed at construction, and the `Array` inputs are sequences of that length.
- File I/O: opening a file is an `isOpen` flag. The file's contents are a byte sequence, and a write returns the bytes it would emit.
- Reading past the end of a stream sets end-of-file, and the bytes that could not be read count as 0. In the source they are whatever the uninitialised local array held; the model fixes them at 0.
- `Result::warn` prints to a stream and is left out. `Load` stores the read result without printing.
- The `Format` parameter of `write` and the `format` variable of `read` have one value (PCM) and are not modelled as variables.
- WavFile.Wav.Read: requires at least one channel on entry, because the padding loop takes the sample count modulo the channel count. This also excludes objects with zero channels that would read correctly because a fmt chunk sets the channel count before the data chunk; the source divides by zero only when a data chunk arrives while the count is still 0 (wav.h:146).
- WavFile.Wav.MakeMono: requires at least one channel, because the source divides by the channel count.
- WavFile.Wav.constructor: the double and int parameters of the source's constructors are natural numbers here; their conversions to `unsigned int` are not modelled.
- WavFormat.ReadFmt: reads all six fields before CheckFormat checks them, where the source checks the channel count and rate between reads. The outcome is the same, because a failed check ends the read and the remaining bytes are not used. The class method WavFile.Wav.ReadFmtChunk checks in the source's order and is proved equal to it.
- WavFile.Wav.Write: uses the corrected channel limit 32767 (see Findings).
- WavFile.WriteOutcome: uses the corrected check WavFormat.WriteCheck, so for 32768 to 65535 channels and an open file it gives WeirdConfig where the source gives Ok. The source's check is WavFormat.WriteCheckAsWritten (see Findings).
- WavFormat.RoundTrip: assumes the data length 2 * |samples| fits in 32 bits, as the header's length fields do.

## Findings

| source | as written | input that shows it | evidently intended | confidence | as-written member | corrected member |
|---|---|---|---|---|---|---|
| wav.h:158, wav.h:188 | write accepts up to 65535 channels, but the bytes-per-frame field is `channels * 2` written as 16 bits, so it wraps for 32768 channels or more | channels = 32768, sampleRate = 48000: bytes per frame is written as 0, and read reports "Format sizes don't add up" | every configuration write accepts reads back | not executed | WavFormat.WideChannelsNotReadBack | WavFormat.RoundTrip |
