/**
 * The Wav class of wav.h: sample rate, channel count, interleaved
 * samples and a sticky result. read, write and makeMono change the
 * object step by step, as the source does, and each is proved equal to
 * the corresponding function of WavFormat. The file system is left out:
 * whether a file could be opened is a flag, a file's contents are a byte
 * sequence, and what write emits is returned.
 */
module WavFile {
  import opened LittleEndian
  import opened Vectors
  import opened WavFormat

  /** What write reports: a rejected configuration, a file that cannot be opened, or OK. */
  function WriteOutcome(filename: string, isOpen: bool, channels: nat, sampleRate: nat): (r: Result)
    ensures r.code == Ok <==> WriteCheck(channels, sampleRate).code == Ok && isOpen
    ensures WriteCheck(channels, sampleRate).code != Ok ==> r == WriteCheck(channels, sampleRate)
  {
    var check := WriteCheck(channels, sampleRate);
    if check.code != Ok then check
    else if !isOpen then Result(IoError, "Failed to open file: " + filename)
    else Result(Ok, "")
  }

  /** Two multiples of `channels` less than `channels` apart are equal. */
  lemma MultiplesMeet(a: nat, b: nat, channels: nat)
    requires 1 <= channels && a % channels == 0 && b % channels == 0
    requires a <= b < a + channels
    ensures a == b
  {
    assert a == channels * (a / channels);
    DivModUnique(b, channels, a / channels, b - a);
  }

  /**
   * The PCM loop of read's "data" branch: up to `count` words, each
   * decoded as it is read; a word cut short by the end of the file ends
   * the loop and is dropped.
   */
  method ReadWords(body: Stream, count: nat) returns (values: seq<real>, next: Stream)
    ensures Taken(values, next) == ReadPcm(body, count)
  {
    var file := body;
    values := [];
    var i := 0;
    while i < count
      invariant i <= count
      invariant values + ReadPcm(file, count - i).value == ReadPcm(body, count).value
      invariant ReadPcm(file, count - i).next == ReadPcm(body, count).next
    {
      ghost var before := file;
      var value := Read16(file);
      file := value.next;
      if file.eof {
        assert ReadPcm(before, count - i) == Taken([], file);
        assert values + [] == values;
        break;
      }
      values := values + [DecodeSample(value.value)];
      i := i + 1;
    }
    if i == count {
      assert values + [] == values;
    }
    next := file;
  }

  /** Frames lo to hi - 1 of `acc` hold the sums of their first `c` channels in `s`. */
  ghost predicate Summed(acc: seq<real>, lo: nat, hi: nat, s: seq<real>, channels: nat, c: nat)
    requires c <= channels
  {
    forall k :: lo <= k < hi && k < |acc| ==> k * channels + channels <= |s| && acc[k] == FrameSum(s, channels, k, c)
  }

  /** write's sample loop: one 16-bit word per sample, in order. */
  method WriteSamples(xs: seq<real>) returns (bytes: seq<Byte>)
    ensures bytes == Encoded(xs)
  {
    bytes := [];
    var i := 0;
    while i < |xs|
      invariant i <= |xs|
      invariant bytes == Encoded(xs[..i])
    {
      var value := xs[i] * 32768.0;
      if value > 32767.0 {
        value := 32767.0;
      }
      if value <= -32768.0 {
        value := -32768.0;
      }
      if value < 0.0 {
        value := value + 65536.0;
      }
      assert value.Floor == EncodeSample(xs[i]);
      bytes := bytes + Bytes16(value.Floor);
      EncodedAppend(xs[..i], xs[i]);
      assert xs[..i + 1] == xs[..i] + [xs[i]];
      i := i + 1;
    }
    assert xs[..i] == xs;
  }

  /** makeMono's accumulation: each frame's channels added in turn, channel by channel. */
  method FrameSums(s: seq<real>, channels: nat) returns (sums: array<real>)
    requires 1 <= channels
    ensures fresh(sums) && sums.Length == |s| / channels
    ensures Summed(sums[..], 0, sums.Length, s, channels, channels)
  {
    sums := new real[|s| / channels](_ => 0.0);
    forall k | 0 <= k < sums.Length
      ensures k * channels + channels <= |s|
    {
      FrameFits(|s|, channels, k);
    }
    for channel := 0 to channels
      invariant Summed(sums[..], 0, sums.Length, s, channels, channel)
    {
      AddChannel(sums, s, channels, channel);
    }
  }

  /** One pass of makeMono's inner loop: channel `c` of every frame added to its sum. */
  method AddChannel(sums: array<real>, s: seq<real>, channels: nat, c: nat)
    requires c < channels && sums.Length == |s| / channels
    requires Summed(sums[..], 0, sums.Length, s, channels, c)
    modifies sums
    ensures Summed(sums[..], 0, sums.Length, s, channels, c + 1)
  {
    for i := 0 to sums.Length
      invariant Summed(sums[..], 0, i, s, channels, c + 1)
      invariant Summed(sums[..], i, sums.Length, s, channels, c)
    {
      FrameFits(|s|, channels, i);
      sums[i] := sums[i] + s[i * channels + c];
    }
  }

  class Wav {
    var sampleRate: nat
    var channels: nat
    var samples: seq<real>
    var result: Result

    /** The members read and write work on. */
    function State(): (st: WavState)
      reads this
      ensures st.sampleRate == sampleRate && st.channels == channels && st.samples == samples
    {
      WavState(sampleRate, channels, samples)
    }

    /** Wav(): 48 kHz, mono, no samples, OK. */
    constructor ()
      ensures State() == WavState(48000, 1, []) && result == Result(Ok, "")
    {
      sampleRate := 48000;
      channels := 1;
      samples := [];
      result := Result(Ok, "");
    }

    /** Wav(sampleRate, channels): no samples yet. */
    constructor WithFormat(sampleRate: nat, channels: nat)
      ensures State() == WavState(sampleRate, channels, []) && result == Result(Ok, "")
    {
      this.sampleRate := sampleRate;
      this.channels := channels;
      samples := [];
      result := Result(Ok, "");
    }

    /** Wav(sampleRate, channels, samples). */
    constructor WithSamples(sampleRate: nat, channels: nat, samples: seq<real>)
      ensures State() == WavState(sampleRate, channels, samples) && result == Result(Ok, "")
    {
      this.sampleRate := sampleRate;
      this.channels := channels;
      this.samples := samples;
      result := Result(Ok, "");
    }

    /** Wav(filename): the defaults, then read; the result is read's. */
    constructor Load(filename: string, isOpen: bool, data: seq<Byte>)
      ensures var p := ReadFile(filename, isOpen, data, WavState(48000, 1, []));
        State() == p.state && result == p.result
    {
      sampleRate := 48000;
      channels := 1;
      samples := [];
      result := Result(Ok, "");
      new;
      var r := Read(filename, isOpen, data);
      result := Assign(result, r);
    }

    /**
     * read: the RIFF header, then chunk after chunk until the end of the
     * file or the first rejected "fmt " chunk. The new members and the
     * result are those of ReadFile; the result is assigned, so an earlier
     * error is kept.
     */
    method Read(filename: string, isOpen: bool, data: seq<Byte>) returns (r: Result)
      requires 1 <= channels
      modifies this
      ensures var p := ReadFile(filename, isOpen, data, old(State()));
        State() == p.state && result == Assign(old(result), p.result) && r == result
    {
      if !isOpen {
        result := Assign(result, Result(IoError, "Failed to open file: " + filename));
        return result;
      }
      var file := Stream(data, false);
      var riff := Read32(file);
      file := riff.next;
      if riff.value != ValueRiff {
        result := Assign(result, Result(FormatError, "Input is not a RIFF file"));
        return result;
      }
      var fileLength := Read32(file);
      file := fileLength.next;
      var wave := Read32(file);
      file := wave.next;
      if wave.value != ValueWave {
        result := Assign(result, Result(FormatError, "Input is not a plain WAVE file"));
        return result;
      }
      while !file.eof
        invariant 1 <= channels && result == old(result)
        invariant ParseChunks(file, State()) == Parse(data, old(State()))
        decreases Remaining(file)
      {
        ghost var st := State();
        var next, done := ReadChunk(file);
        if done {
          ParseChunksFinished(file, st, ChunkStep(file, st).parsed);
          return result;
        }
        ParseChunksContinue(file, st, next, State());
        file := next;
      }
      result := Assign(result, Result(Ok, ""));
      r := result;
    }

    /**
     * One turn of read's loop: the chunk header, then the chunk's body by
     * its tag. When `done`, read returns with the members and the result
     * this leaves.
     */
    method ReadChunk(chunk: Stream) returns (next: Stream, done: bool)
      requires 1 <= channels && !chunk.eof
      modifies this
      ensures var step := ChunkStep(chunk, old(State()));
        done ==> step.Finished? && State() == step.parsed.state && result == Assign(old(result), step.parsed.result)
      ensures !done ==> ChunkStep(chunk, old(State())) == Continue(next, State()) && result == old(result)
    {
      var file := chunk;
      var blockType := Read32(file);
      file := blockType.next;
      var blockLength := Read32(file);
      file := blockLength.next;
      if blockType.value == ValueFmt {
        next, done := ReadFmtChunk(file);
      } else if blockType.value == ValueData {
        next := ReadDataChunk(file, blockLength.value);
        done := false;
      } else {
        next := Skip(file, blockLength.value);
        done := false;
      }
    }

    /**
     * The body of a "fmt " chunk: each field is read, stored where the
     * class has a member for it, and checked as soon as it is read.
     */
    method ReadFmtChunk(body: Stream) returns (next: Stream, done: bool)
      modifies this
      ensures var step := ReadFmt(body, old(State()));
        done ==> step.Finished? && State() == step.parsed.state && result == Assign(old(result), step.parsed.result)
      ensures !done ==> ReadFmt(body, old(State())) == Continue(next, State()) && result == old(result)
    {
      ghost var st := State();
      ghost var f := ReadFormat(body).value;
      assert ReadFmt(body, st) == CheckFormat(f, ReadFormat(body).next, st);
      var file := body;
      var formatInt := Read16(file);
      file := formatInt.next;
      var channelCount := Read16(file);
      file := channelCount.next;
      channels := channelCount.value;
      assert channels == f.channels;
      if channels < 1 {
        result := Assign(result, Result(FormatError, "Cannot have zero channels"));
        assert ReadFmt(body, st) == Finished(Parsed(Result(FormatError, "Cannot have zero channels"), State()));
        return file, true;
      }
      var rate := Read32(file);
      file := rate.next;
      sampleRate := rate.value;
      assert sampleRate == f.sampleRate;
      if sampleRate < 1 {
        result := Assign(result, Result(FormatError, "Cannot have zero sampleRate"));
        assert ReadFmt(body, st) == Finished(Parsed(Result(FormatError, "Cannot have zero sampleRate"), State()));
        return file, true;
      }
      var expectedBytesPerSecond := Read32(file);
      file := expectedBytesPerSecond.next;
      var bytesPerFrame := Read16(file);
      file := bytesPerFrame.next;
      var bitsPerSample := Read16(file);
      file := bitsPerSample.next;
      assert f == Format(formatInt.value, channels, sampleRate, expectedBytesPerSecond.value,
                         bytesPerFrame.value, bitsPerSample.value);
      assert file == ReadFormat(body).next;
      if !FormatIsValid(formatInt.value, bitsPerSample.value) {
        var reason := UnsupportedReason(formatInt.value, bitsPerSample.value);
        result := Assign(result, Result(Unsupported, reason));
        assert ReadFmt(body, st) == Finished(Parsed(Result(Unsupported, reason), State()));
        return file, true;
      }
      if U32(bitsPerSample.value * channels) != U32(bytesPerFrame.value * 8) {
        result := Assign(result, Result(FormatError, SizesMismatch));
        assert ReadFmt(body, st) == Finished(Parsed(Result(FormatError, SizesMismatch), State()));
        return file, true;
      }
      if expectedBytesPerSecond.value != U32(sampleRate * bytesPerFrame.value) {
        result := Assign(result, Result(FormatError, SizesMismatch));
        assert ReadFmt(body, st) == Finished(Parsed(Result(FormatError, SizesMismatch), State()));
        return file, true;
      }
      assert ReadFmt(body, st) == Continue(file, State());
      return file, false;
    }

    /**
     * The body of a "data" chunk: blockLength / 2 words decoded in turn,
     * stopping at the end of the file, then zeros up to whole frames; the
     * result replaces the samples.
     */
    method ReadDataChunk(body: Stream, blockLength: nat) returns (next: Stream)
      requires 1 <= channels
      modifies this
      ensures ReadData(blockLength, body, old(State())) == Continue(next, State())
      ensures result == old(result)
    {
      var newSamples, file := ReadWords(body, blockLength / 2);
      var padded := PadToFrames(newSamples, channels);
      while |newSamples| % channels != 0
        invariant |newSamples| <= |padded|
        invariant newSamples == padded[..|newSamples|]
        decreases |padded| - |newSamples|
      {
        newSamples := newSamples + [0.0];
      }
      MultiplesMeet(|newSamples|, |padded|, channels);
      assert newSamples == padded;
      samples := newSamples;
      next := file;
    }

    /**
     * write: the configuration checks, the 44-byte header, then one
     * 16-bit word per sample. Nothing is emitted unless the checks pass
     * and the file opens. The channel limit is the one at which bytes per
     * frame still fits its 16-bit field (see WriteCheckAsWritten).
     */
    method Write(filename: string, isOpen: bool) returns (bytes: seq<Byte>, r: Result)
      modifies this
      ensures State() == old(State())
      ensures result == Assign(old(result), WriteOutcome(filename, isOpen, channels, sampleRate)) && r == result
      ensures bytes == if WriteOutcome(filename, isOpen, channels, sampleRate).code == Ok
        then Serialised(channels, sampleRate, samples) else []
    {
      if channels == 0 || channels > 32767 {
        result := Assign(result, Result(WeirdConfig, "Invalid channel count"));
        return [], result;
      }
      if sampleRate <= 0 || sampleRate > 0xFFFF_FFFF {
        result := Assign(result, Result(WeirdConfig, "Invalid sample rate"));
        return [], result;
      }
      if !isOpen {
        result := Assign(result, Result(IoError, "Failed to open file: " + filename));
        return [], result;
      }
      var data := WriteSamples(samples);
      bytes := Header(channels, sampleRate, |samples|) + data;
      result := Assign(result, Result(Ok, ""));
      r := result;
    }

    /**
     * makeMono: every frame becomes one sample, the mean of its channels;
     * a partial frame at the end is dropped.
     */
    method MakeMono()
      requires 1 <= channels
      modifies this
      ensures channels == 1 && samples == Mono(old(samples), old(channels))
      ensures sampleRate == old(sampleRate) && result == old(result)
    {
      var s, ch := samples, channels;
      var sums := FrameSums(s, ch);
      var n := sums.Length;
      for i := 0 to n
        modifies sums
        invariant forall k :: 0 <= k < i ==> sums[k] == Mono(s, ch)[k]
        invariant Summed(sums[..], i, n, s, ch, ch)
      {
        assert Mono(s, ch)[i] == FrameSum(s, ch, i, ch) / ch as real;
        sums[i] := sums[i] / ch as real;
      }
      assert sums[..] == Mono(s, ch);
      channels := 1;
      samples := sums[..];
    }
  }

  /**
   * A Wav written to a file and loaded again from the same bytes: the
   * copy has the configuration and the samples as 16-bit PCM holds them,
   * padded to whole frames.
   */
  method WriteThenLoad(w: Wav, filename: string) returns (copy: Wav)
    requires WriteCheck(w.channels, w.sampleRate).code == Ok && 2 * |w.samples| < 0x1_0000_0000
    modifies w
    ensures w.State() == old(w.State())
    ensures copy.State() == WavState(w.sampleRate, w.channels, PadToFrames(Requantised(w.samples), w.channels))
    ensures copy.result == Result(Ok, "")
  {
    var bytes, r := w.Write(filename, true);
    RoundTrip(w.channels, w.sampleRate, w.samples, WavState(48000, 1, []));
    copy := new Wav.Load(filename, true, bytes);
  }
}
