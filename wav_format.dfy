/**
 * The RIFF WAVE container of wav.h as functions on byte sequences: what
 * `Wav::read` makes of a file's bytes, the bytes `Wav::write` emits, the
 * 16-bit PCM sample mapping in both directions, the padding to whole
 * frames and the mono down-mix. The class in wav.dfy runs the same steps
 * imperatively and is proved equal to these functions.
 */
module WavFormat {
  import opened LittleEndian
  import opened Vectors

  // Little-endian versions of the four chunk tags.
  const ValueRiff: nat := 0x46464952
  const ValueWave: nat := 0x45564157
  const ValueFmt: nat := 0x20746d66
  const ValueData: nat := 0x61746164

  /** Format::PCM, the only format tag the codec handles. */
  const FormatPcm: nat := 1

  /** The bytes of an ASCII string. */
  function Ascii(s: string): (r: seq<Byte>)
    requires forall i :: 0 <= i < |s| ==> s[i] as int < 256
    ensures |r| == |s| && forall i :: 0 <= i < |s| ==> r[i] == s[i] as int
  {
    seq(|s|, i requires 0 <= i < |s| && s[i] as int < 256 => s[i] as int)
  }

  /** Each tag, written least significant byte first, spells its ASCII name. */
  lemma TagsSpellNames()
    ensures Bytes32(ValueRiff) == Ascii("RIFF")
    ensures Bytes32(ValueWave) == Ascii("WAVE")
    ensures Bytes32(ValueFmt) == Ascii("fmt ")
    ensures Bytes32(ValueData) == Ascii("data")
  {
  }

  // Results.

  datatype Code = Ok | IoError | FormatError | Unsupported | WeirdConfig

  datatype Result = Result(code: Code, reason: string)

  /**
   * Result::operator=: an assignment only takes effect while the result
   * is still OK, so the first error is kept.
   */
  function Assign(current: Result, other: Result): (r: Result)
    ensures r.code == Ok <==> current.code == Ok && other.code == Ok
    ensures current.code != Ok ==> r == current
  {
    if current.code == Ok then other else current
  }

  /** The result after assigning each of `others` in turn. */
  function AssignAll(current: Result, others: seq<Result>): Result
    decreases |others|
  {
    if others == [] then current else AssignAll(Assign(current, others[0]), others[1..])
  }

  /**
   * After a series of assignments the result is the first error among
   * the starting value and the assigned ones, or the last value assigned
   * when there was none.
   */
  lemma {:induction false} AssignAllKeepsFirstError(current: Result, others: seq<Result>, k: nat)
    requires k <= |others|
    requires forall j :: 0 <= j < k ==> others[j].code == Ok
    ensures current.code != Ok ==> AssignAll(current, others) == current
    ensures current.code == Ok && k < |others| && others[k].code != Ok ==> AssignAll(current, others) == others[k]
    ensures current.code == Ok && k == |others| && 0 < k ==> AssignAll(current, others) == others[k - 1]
    decreases |others|
  {
    if others != [] {
      if current.code != Ok {
        AssignAllKeepsFirstError(current, others[1..], 0);
      } else if k == 0 {
        AssignAllKeepsFirstError(others[0], others[1..], 0);
      } else {
        AssignAllKeepsFirstError(others[0], others[1..], k - 1);
      }
    }
  }

  /** formatIsValid: 16-bit PCM and nothing else. */
  predicate FormatIsValid(format: nat, bits: nat)
    ensures FormatIsValid(format, bits) <==> format == FormatPcm && bits == 16
  {
    if format == FormatPcm then bits == 16 else false
  }

  /** Arithmetic on `unsigned int`: the low 32 bits. */
  function U32(x: int): (r: nat)
    ensures r < 0x1_0000_0000
    ensures 0 <= x < 0x1_0000_0000 ==> r == x
  {
    x % 0x1_0000_0000
  }

  /** std::to_string of a non-negative number. */
  function Decimal(n: nat): string
  {
    var digit := "0123456789"[n % 10];
    if n < 10 then [digit] else Decimal(n / 10) + [digit]
  }

  /** The reason read gives for a format it does not handle. */
  function UnsupportedReason(format: nat, bits: nat): string
  {
    "Unsupported format:bits: " + Decimal(format) + ":" + Decimal(bits)
  }

  // 16-bit PCM samples.

  /** A 16-bit word read as two's complement, scaled by 1/32768. */
  function DecodeSample(w: nat): (x: real)
    requires w < 0x1_0000
    ensures -1.0 <= x < 1.0
    ensures x * 32768.0 == (if w >= 0x8000 then w - 0x1_0000 else w) as real
  {
    if w >= 32768 then (w as real - 65536.0) / 32768.0 else w as real / 32768.0
  }

  /**
   * The word write emits for a sample: scaled by 32768, clamped to
   * [-32768, 32767], offset by 65536 when negative, then truncated
   * (a non-negative value, so truncation is the floor).
   */
  function EncodeSample(x: real): (w: nat)
    ensures w < 0x1_0000
  {
    var value := x * 32768.0;
    var value := if value > 32767.0 then 32767.0 else value;
    var value := if value <= -32768.0 then -32768.0 else value;
    var value := if value < 0.0 then value + 65536.0 else value;
    value.Floor
  }

  /** Every word survives decoding and encoding again. */
  lemma EncodeDecode(w: nat)
    requires w < 0x1_0000
    ensures EncodeSample(DecodeSample(w)) == w
  {
    var x := DecodeSample(w);
    assert x * 32768.0 == (if w >= 0x8000 then w - 0x1_0000 else w) as real;
  }

  /**
   * A sample in range comes back rounded down to a multiple of 1/32768:
   * the error of a write followed by a read is below one step.
   */
  lemma DecodeEncodeInRange(x: real)
    requires -1.0 <= x && x * 32768.0 <= 32767.0
    ensures DecodeSample(EncodeSample(x)) == (x * 32768.0).Floor as real / 32768.0
    ensures DecodeSample(EncodeSample(x)) <= x < DecodeSample(EncodeSample(x)) + 1.0 / 32768.0
  {
    var v := x * 32768.0;
    var w := EncodeSample(x);
    if v < 0.0 {
      assert w == (v + 65536.0).Floor;
      assert w == v.Floor + 65536;
    }
  }

  /** Samples at or above full scale come back as the largest word. */
  lemma DecodeEncodeClipsHigh(x: real)
    requires x * 32768.0 > 32767.0
    ensures DecodeSample(EncodeSample(x)) == 32767.0 / 32768.0
  {
  }

  /** Samples at or below -1 come back as -1. */
  lemma DecodeEncodeClipsLow(x: real)
    requires x <= -1.0
    ensures DecodeSample(EncodeSample(x)) == -1.0
  {
    assert x * 32768.0 <= -32768.0;
  }

  /** The sample written for each sample, read back. */
  function Requantised(xs: seq<real>): (r: seq<real>)
    ensures |r| == |xs|
    ensures forall i :: 0 <= i < |xs| ==> r[i] == DecodeSample(EncodeSample(xs[i]))
  {
    seq(|xs|, i requires 0 <= i < |xs| => DecodeSample(EncodeSample(xs[i])))
  }

  // Frame arithmetic.

  lemma MulAtLeast(m: int, d: int)
    requires 0 <= m && 1 <= d
    ensures m <= m * d
  {
    assert m * d == m * (d - 1) + m;
  }

  /** Euclidean division by m has exactly one quotient and remainder. */
  lemma DivModUnique(a: int, m: int, q: int, r: int)
    requires 1 <= m && 0 <= r < m && a == m * q + r
    ensures a / m == q && a % m == r
  {
    var q0 := a / m;
    assert a == m * q0 + a % m;
    assert m * (q - q0) == a % m - r;
    if q0 < q {
      MulAtLeast(m, q - q0);
    } else if q < q0 {
      MulAtLeast(m, q0 - q);
    }
  }

  /** Every whole frame of an n-sample signal lies inside it. */
  lemma FrameFits(n: nat, channels: nat, frame: nat)
    requires 1 <= channels && frame < n / channels
    ensures frame * channels + channels <= n
  {
    var d := n / channels - frame;
    MulAtLeast(channels, d);
    assert n == channels * (n / channels) + n % channels;
    assert channels * (n / channels) == channels * frame + channels * d;
  }

  // Reading.

  /** The members read updates: sampleRate, channels and samples. */
  datatype WavState = WavState(sampleRate: nat, channels: nat, samples: seq<real>)

  /** What read returns (before it is assigned to the stored result) and the members it leaves. */
  datatype Parsed = Parsed(result: Result, state: WavState)

  /** The size of the smallest whole number of frames holding n samples. */
  function RoundUpToFrames(n: nat, channels: nat): (r: nat)
    requires 1 <= channels
    ensures r % channels == 0 && n <= r < n + channels
  {
    var m := n % channels;
    if m == 0 then n
    else
      DivModUnique(n + (channels - m), channels, n / channels + 1, 0);
      n + (channels - m)
  }

  /** The samples followed by the fewest zeros that make whole frames. */
  function PadToFrames(s: seq<real>, channels: nat): (r: seq<real>)
    requires 1 <= channels
    ensures |r| % channels == 0
    ensures |s| <= |r| < |s| + channels
    ensures r[..|s|] == s
    ensures forall i :: |s| <= i < |r| ==> r[i] == 0.0
  {
    s + Zeros(RoundUpToFrames(|s|, channels) - |s|)
  }

  /** Samples that already fill whole frames are left alone. */
  lemma PadWholeFrames(s: seq<real>, channels: nat)
    requires 1 <= channels && |s| % channels == 0
    ensures PadToFrames(s, channels) == s
  {
    assert RoundUpToFrames(|s|, channels) == |s|;
  }

  /**
   * The PCM loop of the data chunk: up to `count` words, stopping early
   * at the end of the file; a word cut short by the end is dropped.
   */
  function ReadPcm(s: Stream, count: nat): (r: Taken<seq<real>>)
    ensures |r.value| <= count
    ensures forall i :: 0 <= i < |r.value| ==> -1.0 <= r.value[i] < 1.0
    ensures Remaining(r.next) <= Remaining(s)
    decreases count
  {
    if count == 0 then Taken([], s)
    else
      var word := Read16(s);
      if word.next.eof then Taken([], word.next)
      else
        var rest := ReadPcm(word.next, count - 1);
        Taken([DecodeSample(word.value)] + rest.value, rest.next)
  }

  /** One turn of read's chunk loop: either read returns, or the loop goes on from `next`. */
  datatype Step = Finished(parsed: Parsed) | Continue(next: Stream, state: WavState)

  const SizesMismatch: string := "Format sizes don't add up"

  /** The six fields of a "fmt " chunk, in file order. */
  datatype Format = Format(format: nat, channels: nat, sampleRate: nat,
                           bytesPerSecond: nat, bytesPerFrame: nat, bits: nat)

  /** The fields of a "fmt " chunk, read in order. */
  function ReadFormat(s: Stream): (r: Taken<Format>)
    ensures Remaining(r.next) <= Remaining(s)
  {
    var formatInt := Read16(s);
    var channels := Read16(formatInt.next);
    var sampleRate := Read32(channels.next);
    var bytesPerSecond := Read32(sampleRate.next);
    var bytesPerFrame := Read16(bytesPerSecond.next);
    var bits := Read16(bytesPerFrame.next);
    Taken(Format(formatInt.value, channels.value, sampleRate.value,
                 bytesPerSecond.value, bytesPerFrame.value, bits.value), bits.next)
  }

  /**
   * The checks on a "fmt " chunk, in the order the source makes them.
   * channels and sampleRate are stored before they are checked, so a
   * rejected chunk still changes them. The source stops reading at the
   * first failed check; the bytes it would not have read are never used,
   * because read returns at once.
   */
  function CheckFormat(f: Format, next: Stream, st: WavState): (r: Step)
    ensures r.Continue? ==> r.next == next && 1 <= r.state.channels && r.state.samples == st.samples
    ensures r.Finished? ==> r.parsed.state.samples == st.samples
  {
    var st1 := st.(channels := f.channels);
    if f.channels < 1 then
      Finished(Parsed(Result(FormatError, "Cannot have zero channels"), st1))
    else
      var st2 := st1.(sampleRate := f.sampleRate);
      if f.sampleRate < 1 then
        Finished(Parsed(Result(FormatError, "Cannot have zero sampleRate"), st2))
      else if !FormatIsValid(f.format, f.bits) then
        Finished(Parsed(Result(Unsupported, UnsupportedReason(f.format, f.bits)), st2))
      else if U32(f.bits * f.channels) != U32(f.bytesPerFrame * 8) then
        Finished(Parsed(Result(FormatError, SizesMismatch), st2))
      else if f.bytesPerSecond != U32(f.sampleRate * f.bytesPerFrame) then
        Finished(Parsed(Result(FormatError, SizesMismatch), st2))
      else
        Continue(next, st2)
  }

  /**
   * A "fmt " chunk is accepted exactly when it has channels, a sample
   * rate, 16-bit PCM and sizes that agree; each failed check ends read
   * with its own code and message, the first failing one deciding.
   */
  lemma CheckFormatOutcome(f: Format, next: Stream, st: WavState)
    ensures CheckFormat(f, next, st).Continue? <==>
      1 <= f.channels && 1 <= f.sampleRate && FormatIsValid(f.format, f.bits) &&
      U32(f.bits * f.channels) == U32(f.bytesPerFrame * 8) &&
      f.bytesPerSecond == U32(f.sampleRate * f.bytesPerFrame)
    ensures CheckFormat(f, next, st).Continue? ==>
      CheckFormat(f, next, st) == Continue(next, st.(channels := f.channels, sampleRate := f.sampleRate))
    ensures f.channels < 1 ==>
      CheckFormat(f, next, st) == Finished(Parsed(Result(FormatError, "Cannot have zero channels"), st.(channels := f.channels)))
    ensures 1 <= f.channels && f.sampleRate < 1 ==>
      CheckFormat(f, next, st)
        == Finished(Parsed(Result(FormatError, "Cannot have zero sampleRate"), st.(channels := f.channels, sampleRate := f.sampleRate)))
    ensures 1 <= f.channels && 1 <= f.sampleRate && !FormatIsValid(f.format, f.bits) ==>
      CheckFormat(f, next, st)
        == Finished(Parsed(Result(Unsupported, UnsupportedReason(f.format, f.bits)), st.(channels := f.channels, sampleRate := f.sampleRate)))
    ensures (1 <= f.channels && 1 <= f.sampleRate && FormatIsValid(f.format, f.bits) &&
             (U32(f.bits * f.channels) != U32(f.bytesPerFrame * 8) ||
              f.bytesPerSecond != U32(f.sampleRate * f.bytesPerFrame))) ==>
      CheckFormat(f, next, st)
        == Finished(Parsed(Result(FormatError, SizesMismatch), st.(channels := f.channels, sampleRate := f.sampleRate)))
  {
  }

  /** The body of a "fmt " chunk: its fields, checked. */
  function ReadFmt(s: Stream, st: WavState): (r: Step)
    ensures r.Continue? ==> Remaining(r.next) <= Remaining(s) && 1 <= r.state.channels
  {
    var f := ReadFormat(s);
    CheckFormat(f.value, f.next, st)
  }

  /**
   * One chunk: a "fmt " chunk sets the format members, a "data" chunk
   * replaces the samples (padded to whole frames), any other chunk is
   * skipped by its length.
   */
  function ChunkStep(s: Stream, st: WavState): (r: Step)
    requires 1 <= st.channels && !s.eof
    ensures r.Continue? ==> Remaining(r.next) < Remaining(s) && 1 <= r.state.channels
  {
    var header := ReadChunkHeader(s);
    ChunkBody(header.value, header.next, st)
  }

  /** A chunk's tag and the length of its body. */
  datatype ChunkHeader = ChunkHeader(blockType: nat, blockLength: nat)

  function ReadChunkHeader(s: Stream): (r: Taken<ChunkHeader>)
    ensures !s.eof ==> Remaining(r.next) < Remaining(s)
  {
    var blockType := Read32(s);
    var blockLength := Read32(blockType.next);
    Taken(ChunkHeader(blockType.value, blockLength.value), blockLength.next)
  }

  /** What read does with a chunk's body, by the chunk's tag. */
  function ChunkBody(header: ChunkHeader, body: Stream, st: WavState): (r: Step)
    requires 1 <= st.channels
    ensures r.Continue? ==> Remaining(r.next) <= Remaining(body) && 1 <= r.state.channels
  {
    if header.blockType == ValueFmt then ReadFmt(body, st)
    else if header.blockType == ValueData then ReadData(header.blockLength, body, st)
    else Continue(Skip(body, header.blockLength), st)
  }

  /** A "data" chunk: blockLength / 2 samples, padded to whole frames. */
  function ReadData(blockLength: nat, body: Stream, st: WavState): (r: Step)
    requires 1 <= st.channels
    ensures r.Continue? && Remaining(r.next) <= Remaining(body) && r.state.channels == st.channels
  {
    var pcm := ReadPcm(body, blockLength / 2);
    Continue(pcm.next, st.(samples := PadToFrames(pcm.value, st.channels)))
  }

  /** A chunk header as write emits it reads back as its two fields. */
  lemma ReadChunkHeaderWritten(blockType: nat, blockLength: nat, rest: seq<Byte>)
    requires blockType < 0x1_0000_0000 && blockLength < 0x1_0000_0000
    ensures ReadChunkHeader(Stream(Bytes32(blockType) + (Bytes32(blockLength) + rest), false))
      == Taken(ChunkHeader(blockType, blockLength), Stream(rest, false))
  {
    Read32Exact(blockType, Bytes32(blockLength) + rest);
    Read32Exact(blockLength, rest);
  }

  /** The chunk loop of read, until the end of the file. */
  function ParseChunks(s: Stream, st: WavState): Parsed
    requires 1 <= st.channels
    decreases Remaining(s)
  {
    if s.eof then Parsed(Result(Ok, ""), st)
    else
      match ChunkStep(s, st)
      case Finished(p) => p
      case Continue(next, st') => ParseChunks(next, st')
  }

  /** read on the bytes of an opened file: the RIFF header, then the chunks. */
  function Parse(data: seq<Byte>, st: WavState): Parsed
    requires 1 <= st.channels
  {
    var riff := Read32(Stream(data, false));
    if riff.value != ValueRiff then
      Parsed(Result(FormatError, "Input is not a RIFF file"), st)
    else
      var fileLength := Read32(riff.next);
      var wave := Read32(fileLength.next);
      if wave.value != ValueWave then
        Parsed(Result(FormatError, "Input is not a plain WAVE file"), st)
      else
        ParseChunks(wave.next, st)
  }

  /** read(filename), with `isOpen` standing for whether the file could be opened. */
  function ReadFile(filename: string, isOpen: bool, data: seq<Byte>, st: WavState): (p: Parsed)
    requires 1 <= st.channels
    ensures !isOpen ==> p == Parsed(Result(IoError, "Failed to open file: " + filename), st)
    ensures isOpen ==> p == Parse(data, st)
  {
    if !isOpen then Parsed(Result(IoError, "Failed to open file: " + filename), st)
    else Parse(data, st)
  }

  /** A file that does not start with "RIFF" is rejected and changes nothing. */
  lemma NotRiffRejected(data: seq<Byte>, st: WavState)
    requires 1 <= st.channels
    requires |data| < 4 || data[..4] != Bytes32(ValueRiff)
    ensures Parse(data, st) == Parsed(Result(FormatError, "Input is not a RIFF file"), st)
  {
    var s := Stream(data, false);
    if |data| < 4 {
      Read32Short(s);
    } else {
      Read32Full(s);
      Bytes32OfWord32(data[0], data[1], data[2], data[3]);
      assert data[..4] == [data[0], data[1], data[2], data[3]];
    }
  }

  /** read32 at a stream that starts with a tag's bytes returns the tag. */
  lemma TagRead(s: Stream, tag: nat)
    requires tag < 0x1_0000_0000 && 4 <= |s.rest| && s.rest[..4] == Bytes32(tag)
    ensures Read32(s) == Taken(tag, Stream(s.rest[4..], s.eof))
  {
    Read32Full(s);
    Word32OfBytes32(tag);
  }

  /** read32 at a stream that does not start with a tag's bytes returns something else. */
  lemma OtherTagRead(s: Stream, tag: nat)
    requires 0x100_0000 <= tag < 0x1_0000_0000
    requires |s.rest| < 4 || s.rest[..4] != Bytes32(tag)
    ensures Read32(s).value != tag
  {
    if |s.rest| < 4 {
      Read32Short(s);
    } else {
      Read32Full(s);
      Bytes32OfWord32(s.rest[0], s.rest[1], s.rest[2], s.rest[3]);
      assert s.rest[..4] == [s.rest[0], s.rest[1], s.rest[2], s.rest[3]];
    }
  }

  /** A RIFF file whose form type is not "WAVE" is rejected and changes nothing. */
  lemma NotWaveRejected(data: seq<Byte>, st: WavState)
    requires 1 <= st.channels
    requires 4 <= |data| && data[..4] == Bytes32(ValueRiff)
    requires |data| < 12 || data[8..12] != Bytes32(ValueWave)
    ensures Parse(data, st) == Parsed(Result(FormatError, "Input is not a plain WAVE file"), st)
  {
    var s := Stream(data, false);
    TagRead(s, ValueRiff);
    var s2 := Read32(Read32(s).next).next;
    if |data| < 8 {
      assert s2 == Stream([], true);
    } else {
      assert s2 == Stream(data[8..], false);
      assert 12 <= |data| ==> s2.rest[..4] == data[8..12];
    }
    OtherTagRead(s2, ValueWave);
  }

  /** A chunk that lets the loop go on leads to the same result as the loop from after it. */
  lemma ParseChunksContinue(s: Stream, st: WavState, next: Stream, st': WavState)
    requires 1 <= st.channels && !s.eof
    requires ChunkStep(s, st) == Continue(next, st')
    ensures ParseChunks(s, st) == ParseChunks(next, st')
  {
  }

  /** A chunk that makes read return decides the loop's result. */
  lemma ParseChunksFinished(s: Stream, st: WavState, p: Parsed)
    requires 1 <= st.channels && !s.eof
    requires ChunkStep(s, st) == Finished(p)
    ensures ParseChunks(s, st) == p
  {
  }

  /** In-range samples stay in range across one chunk. */
  lemma ChunkStepKeepsRange(s: Stream, st: WavState)
    requires 1 <= st.channels && !s.eof
    requires forall i :: 0 <= i < |st.samples| ==> -1.0 <= st.samples[i] < 1.0
    ensures var r := ChunkStep(s, st);
      r.Continue? ==> forall i :: 0 <= i < |r.state.samples| ==> -1.0 <= r.state.samples[i] < 1.0
    ensures var r := ChunkStep(s, st);
      r.Finished? ==> r.parsed.state.samples == st.samples
  {
    var header := ReadChunkHeader(s);
    assert ChunkStep(s, st) == ChunkBody(header.value, header.next, st);
    if header.value.blockType != ValueFmt && header.value.blockType == ValueData {
      ReadDataInRange(header.value.blockLength, header.next, st);
    }
  }

  /** The samples of a "data" chunk lie in [-1, 1), and so do the zeros that pad them. */
  lemma ReadDataInRange(blockLength: nat, body: Stream, st: WavState)
    requires 1 <= st.channels
    ensures var samples := ReadData(blockLength, body, st).state.samples;
      forall i :: 0 <= i < |samples| ==> -1.0 <= samples[i] < 1.0
  {
    var pcm := ReadPcm(body, blockLength / 2);
    var padded := PadToFrames(pcm.value, st.channels);
    forall i | 0 <= i < |padded|
      ensures -1.0 <= padded[i] < 1.0
    {
      if i < |pcm.value| {
        assert padded[i] == padded[..|pcm.value|][i];
      }
    }
  }

  /** Every sample read from a file lies in [-1, 1). */
  lemma {:induction false} ParsedSamplesInRange(s: Stream, st: WavState)
    requires 1 <= st.channels
    requires forall i :: 0 <= i < |st.samples| ==> -1.0 <= st.samples[i] < 1.0
    ensures var p := ParseChunks(s, st).state;
      forall i :: 0 <= i < |p.samples| ==> -1.0 <= p.samples[i] < 1.0
    decreases Remaining(s)
  {
    if !s.eof {
      ChunkStepKeepsRange(s, st);
      var r := ChunkStep(s, st);
      if r.Finished? {
        ParseChunksFinished(s, st, r.parsed);
      } else {
        ParseChunksContinue(s, st, r.next, r.state);
        ParsedSamplesInRange(r.next, r.state);
      }
    }
  }

  // Writing.

  /** The fields write puts in the "fmt " chunk, before truncation to their widths. */
  function WrittenFormat(channels: nat, sampleRate: nat): (f: Format)
    ensures f.format == FormatPcm && f.bits == 16 && f.channels == channels && f.sampleRate == sampleRate
    ensures f.bytesPerFrame == 2 * channels && f.bytesPerSecond == U32(sampleRate * channels * 2)
  {
    var bytesPerSample := 2;
    Format(FormatPcm, channels, sampleRate, U32(sampleRate * channels * bytesPerSample),
           channels * bytesPerSample, bytesPerSample * 8)
  }

  /** The 16 bytes of a "fmt " chunk: each field truncated to its width. */
  function FormatBytes(f: Format): (r: seq<Byte>)
    ensures |r| == 16
  {
    Bytes16(f.format) + (Bytes16(f.channels) + (Bytes32(f.sampleRate) +
    (Bytes32(f.bytesPerSecond) + (Bytes16(f.bytesPerFrame) + Bytes16(f.bits)))))
  }

  /** Each field as read back from its bytes: its low 16 or 32 bits. */
  function Truncated(f: Format): Format
  {
    Format(f.format % 0x1_0000, f.channels % 0x1_0000, f.sampleRate % 0x1_0000_0000,
           f.bytesPerSecond % 0x1_0000_0000, f.bytesPerFrame % 0x1_0000, f.bits % 0x1_0000)
  }

  /** Reading the fields of a written "fmt " chunk gives them back, truncated. */
  lemma ReadFormatWritten(f: Format, rest: seq<Byte>)
    ensures ReadFormat(Stream(FormatBytes(f) + rest, false)) == Taken(Truncated(f), Stream(rest, false))
  {
    var r5 := Bytes16(f.bits) + rest;
    var r4 := Bytes16(f.bytesPerFrame) + r5;
    var r3 := Bytes32(f.bytesPerSecond) + r4;
    var r2 := Bytes32(f.sampleRate) + r3;
    var r1 := Bytes16(f.channels) + r2;
    assert FormatBytes(f) + rest == Bytes16(f.format) + r1;
    Read16Written(f.format, r1);
    Read16Written(f.channels, r2);
    Read32Written(f.sampleRate, r3);
    Read32Written(f.bytesPerSecond, r4);
    Read16Written(f.bytesPerFrame, r5);
    Read16Written(f.bits, rest);
  }

  /** The 44 header bytes write emits before the samples. */
  function Header(channels: nat, sampleRate: nat, sampleCount: nat): (h: seq<Byte>)
    ensures |h| == 44
  {
    var dataLength := U32(sampleCount * 2);
    var fileLength := U32(44 + dataLength);
    Bytes32(ValueRiff) + (Bytes32(U32(fileLength - 8)) + (Bytes32(ValueWave) +
    (Bytes32(ValueFmt) + (Bytes32(16) + (FormatBytes(WrittenFormat(channels, sampleRate)) +
    (Bytes32(ValueData) + Bytes32(dataLength)))))))
  }

  /**
   * The two length fields of the header: the RIFF length is the file
   * length less the 8-byte RIFF header, 36 + 2n, and the data length is
   * 2n, each read back by read32 when the file length fits 32 bits.
   */
  lemma HeaderLengthFields(channels: nat, sampleRate: nat, sampleCount: nat)
    requires 44 + 2 * sampleCount < 0x1_0000_0000
    ensures Header(channels, sampleRate, sampleCount)[4..8] == Bytes32(36 + 2 * sampleCount)
    ensures Header(channels, sampleRate, sampleCount)[40..44] == Bytes32(2 * sampleCount)
    ensures Read32(Stream(Header(channels, sampleRate, sampleCount)[4..], false)).value == 36 + 2 * sampleCount
    ensures Read32(Stream(Header(channels, sampleRate, sampleCount)[40..], false)).value == 2 * sampleCount
  {
    var h := Header(channels, sampleRate, sampleCount);
    var n := 2 * sampleCount;
    assert U32(sampleCount * 2) == n;
    assert U32(44 + n) == 44 + n;
    assert U32(44 + n - 8) == 36 + n;
    var fmt := Bytes32(ValueFmt) + (Bytes32(16) + (FormatBytes(WrittenFormat(channels, sampleRate)) + Bytes32(ValueData)));
    assert |fmt| == 28;
    var tail := Bytes32(ValueWave) + fmt;
    assert h == Bytes32(ValueRiff) + Bytes32(36 + n) + tail + Bytes32(n);
    assert h[4..8] == Bytes32(36 + n);
    assert h[40..44] == Bytes32(n);
    assert h[4..] == Bytes32(36 + n) + (tail + Bytes32(n));
    assert h[40..] == Bytes32(n) + [];
    Read32Exact(36 + n, tail + Bytes32(n));
    Read32Exact(n, []);
  }

  /** The data chunk's contents: one 16-bit word per sample, in order. */
  function Encoded(xs: seq<real>): (r: seq<Byte>)
    ensures |r| == 2 * |xs|
  {
    if xs == [] then [] else Bytes16(EncodeSample(xs[0])) + Encoded(xs[1..])
  }

  lemma {:induction false} EncodedAppend(xs: seq<real>, x: real)
    ensures Encoded(xs + [x]) == Encoded(xs) + Bytes16(EncodeSample(x))
    decreases |xs|
  {
    if xs == [] {
      assert [x][1..] == [];
    } else {
      assert (xs + [x])[1..] == xs[1..] + [x];
      EncodedAppend(xs[1..], x);
    }
  }

  /** Everything write emits for a configuration it accepts. */
  function Serialised(channels: nat, sampleRate: nat, xs: seq<real>): (r: seq<Byte>)
    ensures |r| == 44 + 2 * |xs|
  {
    Header(channels, sampleRate, |xs|) + Encoded(xs)
  }

  /**
   * The configuration checks of write as written: channels must fit the
   * 16-bit channel field, and the sample rate the 32-bit one.
   */
  function WriteCheckAsWritten(channels: nat, sampleRate: nat): (r: Result)
    ensures r.code == Ok <==> 1 <= channels <= 65535 && 1 <= sampleRate <= 0xFFFF_FFFF
    ensures r.code != Ok ==> r.code == WeirdConfig
  {
    if channels == 0 || channels > 65535 then Result(WeirdConfig, "Invalid channel count")
    else if sampleRate <= 0 || sampleRate > 0xFFFF_FFFF then Result(WeirdConfig, "Invalid sample rate")
    else Result(Ok, "")
  }

  /**
   * The same checks with the channel limit at which bytes per frame
   * (2 * channels) also fits its 16-bit field.
   */
  function WriteCheck(channels: nat, sampleRate: nat): (r: Result)
    ensures r.code == Ok <==> 1 <= channels <= 32767 && 1 <= sampleRate <= 0xFFFF_FFFF
    ensures r.code != Ok ==> r.code == WeirdConfig
  {
    if channels == 0 || channels > 32767 then Result(WeirdConfig, "Invalid channel count")
    else if sampleRate <= 0 || sampleRate > 0xFFFF_FFFF then Result(WeirdConfig, "Invalid sample rate")
    else Result(Ok, "")
  }

  // Reading back what was written.

  /** The data chunk write emits reads back as the requantised samples. */
  lemma {:induction false} ReadPcmEncoded(xs: seq<real>, rest: seq<Byte>)
    ensures ReadPcm(Stream(Encoded(xs) + rest, false), |xs|) == Taken(Requantised(xs), Stream(rest, false))
    decreases |xs|
  {
    if xs != [] {
      var w := EncodeSample(xs[0]);
      var tail := Encoded(xs[1..]) + rest;
      assert Encoded(xs) + rest == Bytes16(w) + tail;
      Read16Exact(w, tail);
      ReadPcmEncoded(xs[1..], rest);
      assert Requantised(xs) == [DecodeSample(w)] + Requantised(xs[1..]);
    }
  }

  /** The "fmt " fields write emits for up to 32767 channels pass every check read makes. */
  lemma CheckWrittenFormat(channels: nat, sampleRate: nat, next: Stream, st: WavState)
    requires 1 <= channels <= 32767 && 1 <= sampleRate < 0x1_0000_0000
    ensures CheckFormat(Truncated(WrittenFormat(channels, sampleRate)), next, st)
      == Continue(next, st.(channels := channels, sampleRate := sampleRate))
  {
    var f := WrittenFormat(channels, sampleRate);
    assert Truncated(f) == Format(FormatPcm, channels, sampleRate, f.bytesPerSecond, 2 * channels, 16);
    assert sampleRate * channels * 2 == sampleRate * (2 * channels);
  }

  /** After the last chunk, the loop reads an empty header and stops. */
  lemma ChunkStepAtEnd(s: Stream, st: WavState)
    requires 1 <= st.channels && !s.eof
    requires ReadChunkHeader(s).value.blockType == 0 && ReadChunkHeader(s).next.eof
    ensures ChunkStep(s, st).Continue? && ChunkStep(s, st).next.eof && ChunkStep(s, st).state == st
  {
    ChunkStepZeroTag(s, st);
  }

  /** With no bytes left, the header reads as tag 0 and the stream ends. */
  lemma ReadChunkHeaderAtEnd(s: Stream)
    requires s.rest == []
    ensures ReadChunkHeader(s).value.blockType == 0 && ReadChunkHeader(s).next.eof
  {
  }

  /** A chunk with tag 0, which names no chunk read knows, is skipped by its length. */
  lemma ChunkStepZeroTag(s: Stream, st: WavState)
    requires 1 <= st.channels && !s.eof && ReadChunkHeader(s).value.blockType == 0
    ensures ChunkStep(s, st) == Continue(Skip(ReadChunkHeader(s).next, ReadChunkHeader(s).value.blockLength), st)
  {
    ChunkBodySkips(ReadChunkHeader(s).value, ReadChunkHeader(s).next, st);
  }

  /** A chunk body with any other tag is skipped by its length. */
  lemma ChunkBodySkips(header: ChunkHeader, body: Stream, st: WavState)
    requires 1 <= st.channels && header.blockType != ValueFmt && header.blockType != ValueData
    ensures ChunkBody(header, body, st) == Continue(Skip(body, header.blockLength), st)
  {
  }

  /** After the last chunk, the loop reads an empty header and stops. */
  lemma ParseChunksAtEnd(s: Stream, st: WavState)
    requires 1 <= st.channels && !s.eof
    requires ReadChunkHeader(s).value.blockType == 0 && ReadChunkHeader(s).next.eof
    ensures ParseChunks(s, st) == Parsed(Result(Ok, ""), st)
  {
    ChunkStepAtEnd(s, st);
    ParseChunksContinue(s, st, ChunkStep(s, st).next, st);
  }

  /** A RIFF header with the WAVE tag hands the rest of the file to the chunk loop. */
  lemma ParseWritten(fileLength: nat, chunks: seq<Byte>, st: WavState)
    requires 1 <= st.channels && fileLength < 0x1_0000_0000
    ensures Parse(Bytes32(ValueRiff) + (Bytes32(fileLength) + (Bytes32(ValueWave) + chunks)), st)
      == ParseChunks(Stream(chunks, false), st)
  {
    var data := Bytes32(ValueRiff) + (Bytes32(fileLength) + (Bytes32(ValueWave) + chunks));
    HeaderReads(fileLength, chunks);
    ParseAccepts(data, st, Stream(chunks, false));
  }

  lemma HeaderReads(fileLength: nat, chunks: seq<Byte>)
    requires fileLength < 0x1_0000_0000
    ensures var s := Stream(Bytes32(ValueRiff) + (Bytes32(fileLength) + (Bytes32(ValueWave) + chunks)), false);
      Read32(s).value == ValueRiff && Read32(Read32(Read32(s).next).next) == Taken(ValueWave, Stream(chunks, false))
  {
    Read32Exact(ValueRiff, Bytes32(fileLength) + (Bytes32(ValueWave) + chunks));
    Read32Exact(fileLength, Bytes32(ValueWave) + chunks);
    Read32Exact(ValueWave, chunks);
  }

  /** A file whose first and third words are the RIFF and WAVE tags is read by the chunk loop from after them. */
  lemma ParseAccepts(data: seq<Byte>, st: WavState, next: Stream)
    requires 1 <= st.channels
    requires Read32(Stream(data, false)).value == ValueRiff
    requires Read32(Read32(Read32(Stream(data, false)).next).next) == Taken(ValueWave, next)
    ensures Parse(data, st) == ParseChunks(next, st)
  {
  }

  /** The "fmt " chunk write emits: the loop goes on after it with the written format. */
  lemma FmtChunkWritten(channels: nat, sampleRate: nat, rest: seq<Byte>, st: WavState)
    requires 1 <= st.channels
    requires 1 <= channels <= 32767 && 1 <= sampleRate < 0x1_0000_0000
    ensures ChunkStep(Stream(Bytes32(ValueFmt) + (Bytes32(16) + (FormatBytes(WrittenFormat(channels, sampleRate)) + rest)), false), st)
      == Continue(Stream(rest, false), st.(channels := channels, sampleRate := sampleRate))
  {
    var body := FormatBytes(WrittenFormat(channels, sampleRate)) + rest;
    ReadChunkHeaderWritten(ValueFmt, 16, body);
    ReadFormatWritten(WrittenFormat(channels, sampleRate), rest);
    CheckWrittenFormat(channels, sampleRate, Stream(rest, false), st);
  }

  /** The samples write emits, read as a "data" chunk body. */
  lemma ReadDataWritten(xs: seq<real>, st: WavState)
    requires 1 <= st.channels
    requires 2 * |xs| < 0x1_0000_0000
    ensures ReadData(U32(|xs| * 2), Stream(Encoded(xs), false), st)
      == Continue(Stream([], false), st.(samples := PadToFrames(Requantised(xs), st.channels)))
  {
    var e := Encoded(xs);
    var length := U32(|xs| * 2);
    assert length / 2 == |xs|;
    assert e + [] == e;
    ReadPcmEncoded(xs, []);
    ReadDataOf(Stream(e, false), length, Requantised(xs), Stream([], false), st);
  }

  /** A "data" chunk stores what its PCM loop read, padded, and goes on from where the loop stopped. */
  lemma ReadDataOf(body: Stream, blockLength: nat, values: seq<real>, next: Stream, st: WavState)
    requires 1 <= st.channels
    requires ReadPcm(body, blockLength / 2) == Taken(values, next)
    ensures ReadData(blockLength, body, st) == Continue(next, st.(samples := PadToFrames(values, st.channels)))
  {
  }

  /** A "data" chunk whose samples read to the end of the file: the loop goes on with them, padded. */
  lemma DataChunkRead(body: seq<Byte>, blockLength: nat, values: seq<real>, st: WavState)
    requires 1 <= st.channels && blockLength < 0x1_0000_0000
    requires ReadData(blockLength, Stream(body, false), st)
      == Continue(Stream([], false), st.(samples := PadToFrames(values, st.channels)))
    ensures ChunkStep(Stream(Bytes32(ValueData) + (Bytes32(blockLength) + body), false), st)
      == Continue(Stream([], false), st.(samples := PadToFrames(values, st.channels)))
  {
    ReadChunkHeaderWritten(ValueData, blockLength, body);
  }

  /** The "data" chunk write emits: the loop goes on with the requantised, padded samples. */
  lemma DataChunkWritten(xs: seq<real>, st: WavState)
    requires 1 <= st.channels
    requires 2 * |xs| < 0x1_0000_0000
    ensures ChunkStep(Stream(Bytes32(ValueData) + (Bytes32(U32(|xs| * 2)) + Encoded(xs)), false), st)
      == Continue(Stream([], false), st.(samples := PadToFrames(Requantised(xs), st.channels)))
  {
    ReadDataWritten(xs, st);
    DataChunkRead(Encoded(xs), U32(|xs| * 2), Requantised(xs), st);
  }

  /**
   * Reading back what write emits for a configuration it accepts restores
   * the sample rate and the channel count, and the samples as 16-bit PCM
   * represents them, padded to whole frames.
   */
  lemma RoundTrip(channels: nat, sampleRate: nat, xs: seq<real>, st: WavState)
    requires 1 <= st.channels
    requires WriteCheck(channels, sampleRate).code == Ok
    requires 2 * |xs| < 0x1_0000_0000
    ensures Parse(Serialised(channels, sampleRate, xs), st)
      == Parsed(Result(Ok, ""), WavState(sampleRate, channels, PadToFrames(Requantised(xs), channels)))
  {
    var fileLength := U32(U32(44 + U32(|xs| * 2)) - 8);
    var chunks := WrittenChunks(channels, sampleRate, xs);
    assert Serialised(channels, sampleRate, xs) == Bytes32(ValueRiff) + (Bytes32(fileLength) + (Bytes32(ValueWave) + chunks));
    ParseWritten(fileLength, chunks, st);
    ChunksRoundTrip(channels, sampleRate, xs, st);
  }

  /** The "fmt " chunk and the "data" chunk, as write emits them after the RIFF header. */
  function WrittenChunks(channels: nat, sampleRate: nat, xs: seq<real>): (r: seq<Byte>)
    ensures |r| == 32 + 2 * |xs|
  {
    Bytes32(ValueFmt) + (Bytes32(16) + (FormatBytes(WrittenFormat(channels, sampleRate)) + WrittenDataChunk(xs)))
  }

  /** The "data" chunk write emits. */
  function WrittenDataChunk(xs: seq<real>): (r: seq<Byte>)
    ensures |r| == 8 + 2 * |xs|
  {
    Bytes32(ValueData) + (Bytes32(U32(|xs| * 2)) + Encoded(xs))
  }

  /** The chunk loop over the two chunks write emits ends OK with the configuration and the samples. */
  lemma ChunksRoundTrip(channels: nat, sampleRate: nat, xs: seq<real>, st: WavState)
    requires 1 <= st.channels
    requires WriteCheck(channels, sampleRate).code == Ok
    requires 2 * |xs| < 0x1_0000_0000
    ensures ParseChunks(Stream(WrittenChunks(channels, sampleRate, xs), false), st)
      == Parsed(Result(Ok, ""), WavState(sampleRate, channels, PadToFrames(Requantised(xs), channels)))
  {
    var dataChunk := WrittenDataChunk(xs);
    FmtChunkWritten(channels, sampleRate, dataChunk, st);
    var st1 := st.(channels := channels, sampleRate := sampleRate);
    DataChunkWritten(xs, st1);
    var st2 := st1.(samples := PadToFrames(Requantised(xs), channels));
    TwoChunksToEnd(WrittenChunks(channels, sampleRate, xs), dataChunk, st, st1, st2);
  }

  /** A file that ends right after a chunk reads as OK. */
  lemma ParseChunksAtEmpty(st: WavState)
    requires 1 <= st.channels
    ensures ParseChunks(Stream([], false), st) == Parsed(Result(Ok, ""), st)
  {
    ReadChunkHeaderAtEnd(Stream([], false));
    ParseChunksAtEnd(Stream([], false), st);
  }

  /** Two chunks that each let the loop go on, and nothing after them: the file reads as OK. */
  lemma TwoChunksToEnd(first: seq<Byte>, second: seq<Byte>, st: WavState, st1: WavState, st2: WavState)
    requires 1 <= st.channels && 1 <= st1.channels && 1 <= st2.channels
    requires ChunkStep(Stream(first, false), st) == Continue(Stream(second, false), st1)
    requires ChunkStep(Stream(second, false), st1) == Continue(Stream([], false), st2)
    ensures ParseChunks(Stream(first, false), st) == Parsed(Result(Ok, ""), st2)
  {
    ParseChunksAtEmpty(st2);
    ParseChunksContinue(Stream(second, false), st1, Stream([], false), st2);
    ParseChunksContinue(Stream(first, false), st, Stream(second, false), st1);
  }

  /**
   * As written, write accepts 32768 to 65535 channels, but bytes per
   * frame (2 * channels) then loses its top bit in the 16-bit field and
   * read rejects the file it wrote.
   */
  lemma WideChannelsRejected(channels: nat, sampleRate: nat, next: Stream, st: WavState)
    requires 32768 <= channels && WriteCheckAsWritten(channels, sampleRate).code == Ok
    ensures CheckFormat(Truncated(WrittenFormat(channels, sampleRate)), next, st)
      == Finished(Parsed(Result(FormatError, SizesMismatch), st.(channels := channels, sampleRate := sampleRate)))
  {
    var f := WrittenFormat(channels, sampleRate);
    assert (2 * channels) % 0x1_0000 == 2 * channels - 0x1_0000;
    assert Truncated(f) == Format(FormatPcm, channels, sampleRate, f.bytesPerSecond, 2 * channels - 0x1_0000, 16);
    assert U32(16 * channels) == 16 * channels;
  }

  /** The "fmt " chunk write emits as written for 32768 or more channels ends the read with an error. */
  lemma WideFmtChunkRejected(channels: nat, sampleRate: nat, rest: seq<Byte>, st: WavState)
    requires 1 <= st.channels
    requires 32768 <= channels && WriteCheckAsWritten(channels, sampleRate).code == Ok
    ensures ChunkStep(Stream(Bytes32(ValueFmt) + (Bytes32(16) + (FormatBytes(WrittenFormat(channels, sampleRate)) + rest)), false), st)
      == Finished(Parsed(Result(FormatError, SizesMismatch), st.(channels := channels, sampleRate := sampleRate)))
  {
    var body := FormatBytes(WrittenFormat(channels, sampleRate)) + rest;
    ReadChunkHeaderWritten(ValueFmt, 16, body);
    ReadFormatWritten(WrittenFormat(channels, sampleRate), rest);
    WideChannelsRejected(channels, sampleRate, Stream(rest, false), st);
  }

  /** The whole file write emits as written for 32768 or more channels reads back as an error. */
  lemma WideChannelsNotReadBack(channels: nat, sampleRate: nat, xs: seq<real>, st: WavState)
    requires 1 <= st.channels
    requires 32768 <= channels && WriteCheckAsWritten(channels, sampleRate).code == Ok
    ensures Parse(Serialised(channels, sampleRate, xs), st).result == Result(FormatError, SizesMismatch)
  {
    var e := Encoded(xs);
    var dataChunk := Bytes32(ValueData) + (Bytes32(U32(|xs| * 2)) + e);
    var body := FormatBytes(WrittenFormat(channels, sampleRate)) + dataChunk;
    var chunks := Bytes32(ValueFmt) + (Bytes32(16) + body);
    var fileLength := U32(U32(44 + U32(|xs| * 2)) - 8);
    assert Serialised(channels, sampleRate, xs) == Bytes32(ValueRiff) + (Bytes32(fileLength) + (Bytes32(ValueWave) + chunks));
    ParseWritten(fileLength, chunks, st);
    WideFmtChunkRejected(channels, sampleRate, dataChunk, st);
    ParseChunksFinished(Stream(chunks, false), st, ChunkStep(Stream(chunks, false), st).parsed);
  }

  /** The smallest configuration write accepts as written and read rejects. */
  lemma WideChannelsExample()
    ensures WriteCheckAsWritten(32768, 48000).code == Ok
    ensures WriteCheck(32768, 48000).code == WeirdConfig
    ensures Parse(Serialised(32768, 48000, []), WavState(48000, 1, [])).result.code == FormatError
  {
    WideChannelsNotReadBack(32768, 48000, [], WavState(48000, 1, []));
  }

  // Down-mixing.

  /** The first c channel samples of frame `frame`, added in channel order. */
  function FrameSum(s: seq<real>, channels: nat, frame: nat, c: nat): real
    requires c <= channels && frame * channels + c <= |s|
  {
    if c == 0 then 0.0 else FrameSum(s, channels, frame, c - 1) + s[frame * channels + c - 1]
  }

  /** makeMono: one sample per whole frame, the mean of the frame's channels. */
  function Mono(s: seq<real>, channels: nat): (r: seq<real>)
    requires 1 <= channels
    ensures |r| == |s| / channels
  {
    seq(|s| / channels, frame requires 0 <= frame < |s| / channels =>
      FrameFits(|s|, channels, frame);
      FrameSum(s, channels, frame, channels) / channels as real)
  }

  /** Each mono sample times the channel count is the sum of its frame. */
  lemma MonoIsMean(s: seq<real>, channels: nat, frame: nat)
    requires 1 <= channels && frame < |s| / channels
    ensures frame * channels + channels <= |s|
    ensures Mono(s, channels)[frame] * channels as real == FrameSum(s, channels, frame, channels)
  {
    FrameFits(|s|, channels, frame);
    var c := channels as real;
    var f := FrameSum(s, channels, frame, channels);
    assert Mono(s, channels)[frame] == f / c;
  }

  /** A mono signal is its own down-mix. */
  lemma MonoOfMono(s: seq<real>)
    ensures Mono(s, 1) == s
  {
    forall i | 0 <= i < |s|
      ensures Mono(s, 1)[i] == s[i]
    {
      assert FrameSum(s, 1, i, 1) == s[i];
    }
  }
}
