/**
 * The delay line the reverb structures are built from
 * (signalsmith::delay::Delay with nearest-sample interpolation).
 *
 * Its state is the ring buffer's contents, kept here oldest first and
 * newest last; the capacity is the buffer length. `write` pushes one
 * sample (the oldest falls out) and `read(offset)` returns the sample
 * written `offset` writes ago, so `read(0)` is the most recent write.
 * `resize(n)` followed by `reset()` leaves a buffer of n zeros.
 */
module DelayLine {

  datatype Delay = Delay(buffer: seq<real>)

  /** The double-to-int conversion of C++: truncation toward zero. */
  function TruncateToInt(x: real): (r: int)
    ensures 0.0 <= x ==> 0 <= r && r as real <= x < r as real + 1.0
    ensures x < 0.0 ==> r <= 0 && x <= r as real && r as real - 1.0 < x
  {
    if x >= 0.0 then x.Floor else -((-x).Floor)
  }

  /** Truncation is monotone on the non-negative reals. */
  lemma TruncateMonotone(x: real, y: real)
    requires 0.0 <= x <= y
    ensures TruncateToInt(x) <= TruncateToInt(y)
  {
  }

  /** The number of samples a delay of `ms` milliseconds spans at `sampleRate`. */
  function DelayLength(ms: real, sampleRate: real): (r: int)
    requires 0.0 <= ms * 0.001 * sampleRate
    ensures 0 <= r && r as real <= ms * 0.001 * sampleRate
  {
    TruncateToInt(ms * 0.001 * sampleRate)
  }

  /** resize(capacity) then reset(): a buffer holding only zeros. */
  function Cleared(capacity: nat): (d: Delay)
    ensures |d.buffer| == capacity
    ensures forall k :: 0 <= k < capacity ==> Read(d, k) == 0.0
  {
    Delay(seq(capacity, _ => 0.0))
  }

  /** read(offset): the sample written `offset` writes ago. */
  function Read(d: Delay, offset: nat): real
    requires offset < |d.buffer|
  {
    d.buffer[|d.buffer| - 1 - offset]
  }

  /** write(v): v becomes read(0), everything else moves one step further back. */
  function Write(d: Delay, v: real): (r: Delay)
    requires 1 <= |d.buffer|
    ensures |r.buffer| == |d.buffer|
    ensures Read(r, 0) == v
    ensures forall k :: 1 <= k < |d.buffer| ==> Read(r, k) == Read(d, k - 1)
  {
    Delay(d.buffer[1..] + [v])
  }

  /**
   * What a read returns once `history` has been written since the
   * buffer was cleared: the sample written `offset` writes ago, or 0
   * when fewer writes have happened.
   */
  function Echo(history: seq<real>, offset: nat): real
  {
    if offset < |history| then history[|history| - 1 - offset] else 0.0
  }

  /** Every offset the buffer can read returns the matching sample of `history`. */
  ghost predicate Holds(d: Delay, history: seq<real>)
  {
    forall k :: 0 <= k < |d.buffer| ==> Read(d, k) == Echo(history, k)
  }

  /** A cleared buffer holds the empty history. */
  lemma ClearedHoldsNothing(capacity: nat)
    ensures Holds(Cleared(capacity), [])
  {
  }

  /** Writing v to a buffer that holds `history` makes it hold history + [v]. */
  lemma WriteHolds(d: Delay, history: seq<real>, v: real)
    requires 1 <= |d.buffer| && Holds(d, history)
    ensures Holds(Write(d, v), history + [v])
  {
    var h := history + [v];
    forall k | 0 <= k < |d.buffer|
      ensures Read(Write(d, v), k) == Echo(h, k)
    {
      if k > 0 {
        assert Echo(h, k) == Echo(history, k - 1);
      }
    }
  }

  /** The state after writing the samples of vs in order. */
  function WriteAll(d: Delay, vs: seq<real>): (r: Delay)
    requires 1 <= |d.buffer|
    ensures |r.buffer| == |d.buffer|
  {
    if vs == [] then d else Write(WriteAll(d, vs[..|vs| - 1]), vs[|vs| - 1])
  }

  /**
   * A delay line cleared to capacity n recalls every sample written
   * since, up to n - 1 writes back, and zero before that.
   */
  lemma {:induction false} ReadAfterWrites(n: nat, history: seq<real>)
    requires 1 <= n
    ensures Holds(WriteAll(Cleared(n), history), history)
    decreases |history|
  {
    if history == [] {
      ClearedHoldsNothing(n);
    } else {
      var init := history[..|history| - 1];
      ReadAfterWrites(n, init);
      WriteHolds(WriteAll(Cleared(n), init), init, history[|history| - 1]);
      assert init + [history[|history| - 1]] == history;
    }
  }

  // Banks of delay lines, one per channel.

  /** Every channel's history grown by that channel's new sample. */
  function Appended(history: seq<seq<real>>, v: seq<real>): (r: seq<seq<real>>)
    requires |v| == |history|
    ensures |r| == |history|
    ensures forall c :: 0 <= c < |r| ==> r[c] == history[c] + [v[c]]
  {
    seq(|history|, c requires 0 <= c < |history| => history[c] + [v[c]])
  }

  /** What a read of channel c returns: the sample written delaySamples[c] writes ago. */
  function Echoes(history: seq<seq<real>>, delaySamples: seq<int>): (r: seq<real>)
    requires |delaySamples| == |history|
    requires forall c :: 0 <= c < |delaySamples| ==> 0 <= delaySamples[c]
    ensures |r| == |history|
    ensures forall c :: 0 <= c < |r| ==> r[c] == Echo(history[c], delaySamples[c])
  {
    seq(|history|, c requires 0 <= c < |history| => Echo(history[c], delaySamples[c]))
  }

  /**
   * The buffers of a multi-channel structure after configure and the
   * writes recorded in `written`: channel c is sized delaySamples[c] + 1
   * and holds what was written to it since.
   */
  ghost predicate Recalls(channels: nat, delaySamples: seq<int>, delays: seq<Delay>, written: seq<seq<real>>)
  {
    |delaySamples| == channels && |delays| == channels && |written| == channels &&
    forall c :: 0 <= c < channels ==>
      0 <= delaySamples[c] && |delays[c].buffer| == delaySamples[c] + 1 && Holds(delays[c], written[c])
  }

  /** Every channel's delay line after one write of its own value. */
  function WriteEach(delays: seq<Delay>, values: seq<real>): (r: seq<Delay>)
    requires |values| == |delays|
    requires forall c :: 0 <= c < |delays| ==> 1 <= |delays[c].buffer|
    ensures |r| == |delays|
    ensures forall c :: 0 <= c < |r| ==> r[c] == Write(delays[c], values[c])
  {
    seq(|delays|, c requires 0 <= c < |delays| => Write(delays[c], values[c]))
  }

  /** An empty history for each of n channels. */
  function NoHistory(n: nat): (r: seq<seq<real>>)
    ensures |r| == n && forall c :: 0 <= c < n ==> r[c] == []
  {
    seq(n, _ => [])
  }
}
