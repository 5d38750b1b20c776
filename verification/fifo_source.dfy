/** The MPD FIFO source's deterministic parts
    (src/audio/sources/fifo.rs): the frame size, the periodic format poll
    and what it rebuilds, the 16/24/32-bit integer PCM decode, and the
    bound on the shared ring buffer. Opening the FIFO, the clocks, the
    cpal stream and the filters are outside the model; the polled format
    and the rebuild outcome are parameters. */
module FifoSource {
  import opened Wrappers
  import Bytes
  import FormatSwitch
  import M = MpdStatus

  const BUFFER_FRAMES: nat := 2048
  const RING_MAX: nat := 65536
  const I16_SCALE: real := 32768.0
  const I24_SCALE: real := 8388608.0
  const I32_SCALE: real := 2147483648.0

  /** Whole bytes per sample: the bit depth divided by 8, rounded down. */
  function BytesPerSample(f: M.AudioFormat): nat {
    f.bits / 8
  }

  /** Bytes per frame: one sample per channel. */
  function FrameSize(f: M.AudioFormat): (r: nat)
    ensures r == BytesPerSample(f) * f.channels
    ensures r == 0 <==> f.bits < 8 || f.channels == 0
  {
    BytesPerSample(f) * f.channels
  }

  /** What the poll compares: the rate, the bit depth or the channel count
      differs. */
  predicate FormatChanged(a: M.AudioFormat, b: M.AudioFormat) {
    a.rate != b.rate || a.bits != b.bits || a.channels != b.channels
  }

  /** Comparing the three fields is comparing the formats. */
  lemma FormatChangedIsDifferent(a: M.AudioFormat, b: M.AudioFormat)
    ensures FormatChanged(a, b) <==> a != b
  {
  }

  // ---------------------------------------------------------------------
  // Polling the format
  // ---------------------------------------------------------------------

  /** What the loop keeps: the tracked and built formats, the derived
      sizes, the read-buffer length and the equaliser's sample rate. */
  datatype FifoState = FifoState(
    sw: FormatSwitch.Switch<M.AudioFormat>,
    bytesPerSample: nat,
    frameSize: nat,
    readBufferLen: nat,
    eqRate: nat)

  /** The derived values agree with the tracked format. */
  predicate Consistent(s: FifoState) {
    && s.bytesPerSample == BytesPerSample(s.sw.current)
    && s.frameSize == FrameSize(s.sw.current)
    && s.readBufferLen == s.frameSize * BUFFER_FRAMES
    && s.eqRate == s.sw.current.rate
  }

  /** The state derived from a decision step. */
  function Derive(s: FifoState, step: FormatSwitch.Step<M.AudioFormat>): FifoState {
    var f := step.state.current;
    if f != s.sw.current then
      FifoState(step.state, BytesPerSample(f), FrameSize(f), FrameSize(f) * BUFFER_FRAMES, f.rate)
    else s.(sw := step.state)
  }

  /** One poll as written: when MPD reports a different format, the
      sizes, the read buffer and the equaliser are recomputed and the
      stream rebuilt; a failed rebuild keeps the old stream. */
  function PollAsWritten(s: FifoState, polled: Option<M.AudioFormat>, buildOk: bool): (r: FifoState)
    requires Consistent(s)
    ensures Consistent(r)
    ensures polled.None? ==> r == s
    ensures polled.Some? ==> r.sw.current == polled.value
    ensures polled.Some? && !FormatChanged(polled.value, s.sw.current) ==> r == s
  {
    match polled
    case None => s
    case Some(f) => Derive(s, FormatSwitch.ApplyAsWritten(s.sw, f, buildOk))
  }

  /** As written, a failed rebuild is never retried: the next poll of the
      same format leaves a 44.1 kHz stream playing 48 kHz data. */
  lemma PollAsWrittenStaysStale(s: FifoState)
    requires Consistent(s) && FormatSwitch.Synced(s.sw)
    requires s.sw.current == M.AudioFormat(44100, 16, 2)
    ensures var f := M.AudioFormat(48000, 16, 2);
      var s2 := PollAsWritten(PollAsWritten(s, Some(f), false), Some(f), true);
      s2.sw.stream == M.AudioFormat(44100, 16, 2) && s2.sw.current == f
  {
  }

  /** One poll with the intended decision: the stream is rebuilt whenever
      the polled format differs from the stream's, so once a rebuild
      succeeds the stream matches the data again. */
  function Poll(s: FifoState, polled: Option<M.AudioFormat>, buildOk: bool): (r: FifoState)
    requires Consistent(s)
    ensures Consistent(r)
    ensures polled.None? ==> r == s
    ensures polled.Some? ==> r.sw.current == polled.value
    ensures polled.Some? && buildOk ==> FormatSwitch.Synced(r.sw)
    ensures polled.Some? && !buildOk ==> r.sw.stream == s.sw.stream
  {
    match polled
    case None => s
    case Some(f) => Derive(s, FormatSwitch.Apply(s.sw, f, buildOk))
  }

  // ---------------------------------------------------------------------
  // Decoding
  // ---------------------------------------------------------------------

  /** The source's 24-bit trick: the three bytes placed in the top of an
      `i32`... */
  function Shifted24(b0: bv8, b1: bv8, b2: bv8): bv32 {
    (b2 as bv32 << 24) | (b1 as bv32 << 16) | (b0 as bv32 << 8)
  }

  /** ...then an arithmetic shift right by 8, which copies the sign bit. */
  function Sar8(x: bv32): bv32 {
    if x & 0x8000_0000 != 0 then (x >> 8) | 0xFF00_0000 else x >> 8
  }

  /** The shifted word holds the three bytes and a sign-extension byte. */
  lemma Sar8Bytes(b0: bv8, b1: bv8, b2: bv8)
    ensures var x := Sar8(Shifted24(b0, b1, b2));
      && Bytes.ByteAt(x, 0) == b0 && Bytes.ByteAt(x, 1) == b1 && Bytes.ByteAt(x, 2) == b2
      && Bytes.ByteAt(x, 3) == (if b2 & 0x80 != 0 then 0xFF else 0)
      && (b2 & 0x80 != 0 <==> b2 as nat >= 0x80)
  {
    Sar8Low(b0, b1, b2);
    Sar8High(b0, b1, b2);
    SignBit(b2);
  }

  lemma Sar8Low(b0: bv8, b1: bv8, b2: bv8)
    ensures var x := Sar8(Shifted24(b0, b1, b2));
      Bytes.ByteAt(x, 0) == b0 && Bytes.ByteAt(x, 1) == b1 && Bytes.ByteAt(x, 2) == b2
  {
    Sar8Byte0(b0, b1, b2);
    Sar8Byte1(b0, b1, b2);
    Sar8Byte2(b0, b1, b2);
  }

  lemma Sar8Byte0(b0: bv8, b1: bv8, b2: bv8)
    ensures Bytes.ByteAt(Sar8(Shifted24(b0, b1, b2)), 0) == b0
  {
  }

  lemma Sar8Byte1(b0: bv8, b1: bv8, b2: bv8)
    ensures Bytes.ByteAt(Sar8(Shifted24(b0, b1, b2)), 1) == b1
  {
  }

  lemma Sar8Byte2(b0: bv8, b1: bv8, b2: bv8)
    ensures Bytes.ByteAt(Sar8(Shifted24(b0, b1, b2)), 2) == b2
  {
  }

  lemma Sar8High(b0: bv8, b1: bv8, b2: bv8)
    ensures Bytes.ByteAt(Sar8(Shifted24(b0, b1, b2)), 3) == (if b2 & 0x80 != 0 then 0xFF else 0)
  {
  }

  /** The top bit of a byte is set exactly when its value is at least 128. */
  lemma SignBit(b: bv8)
    ensures b & 0x80 != 0 <==> b as nat >= 0x80
  {
  }

  /** Reading three bytes and their sign-extension byte as an `i32` gives
      the signed 24-bit value. */
  lemma SignExtended(b0: bv8, b1: bv8, b2: bv8, ext: bv8)
    requires ext == (if b2 as nat >= 0x80 then 0xFF else 0)
    ensures Bytes.I32Le(b0, b1, b2, ext) == Bytes.I24Le(b0, b1, b2)
  {
    assert ext as nat == (if b2 as nat >= 0x80 then 0xFF else 0);
  }

  /** The trick computes the signed little-endian 24-bit value, which lies
      in [-2^23, 2^23). */
  lemma Decode24IsSigned(b0: bv8, b1: bv8, b2: bv8)
    ensures Bytes.I32Of(Sar8(Shifted24(b0, b1, b2))) == Bytes.I24Le(b0, b1, b2)
    ensures -(Bytes.TWO_23 as int) <= Bytes.I32Of(Sar8(Shifted24(b0, b1, b2))) < Bytes.TWO_23
  {
    var x := Sar8(Shifted24(b0, b1, b2));
    Sar8Bytes(b0, b1, b2);
    SignExtended(b0, b1, b2, Bytes.ByteAt(x, 3));
  }

  /** A 16-bit sample scaled into [-1, 1). */
  function Scale16(x: int): (r: real)
    requires -(Bytes.TWO_15 as int) <= x < Bytes.TWO_15
    ensures -1.0 <= r < 1.0
  {
    x as real / I16_SCALE
  }

  /** A 24-bit sample scaled into [-1, 1). */
  function Scale24(x: int): (r: real)
    requires -(Bytes.TWO_23 as int) <= x < Bytes.TWO_23
    ensures -1.0 <= r < 1.0
  {
    x as real / I24_SCALE
  }

  /** A 32-bit sample scaled into [-1, 1). */
  function Scale32(x: int): (r: real)
    requires -(Bytes.TWO_31 as int) <= x < Bytes.TWO_31
    ensures -1.0 <= r < 1.0
  {
    x as real / I32_SCALE
  }

  /** One sample at byte `offset` of the bytes read: 16, 24 and 32-bit
      integers scaled into [-1, 1), 0 when the sample would run past the
      data, and 0 for any other depth. */
  function SampleAt(buf: seq<bv8>, bits: nat, offset: nat): (r: real)
    ensures -1.0 <= r < 1.0
    ensures bits !in {16, 24, 32} ==> r == 0.0
  {
    if bits == 16 then
      if offset + 1 < |buf| then Scale16(Bytes.I16Le(buf[offset], buf[offset + 1])) else 0.0
    else if bits == 24 then
      if offset + 2 < |buf| then
        Decode24IsSigned(buf[offset], buf[offset + 1], buf[offset + 2]);
        Scale24(Bytes.I32Of(Sar8(Shifted24(buf[offset], buf[offset + 1], buf[offset + 2]))))
      else 0.0
    else if bits == 32 then
      if offset + 3 < |buf| then
        Scale32(Bytes.I32Le(buf[offset], buf[offset + 1], buf[offset + 2], buf[offset + 3]))
      else 0.0
    else 0.0
  }

  /** The samples of one frame starting at byte `base`, channel by
      channel. */
  function FrameSamples(buf: seq<bv8>, f: M.AudioFormat, base: nat): (r: seq<real>)
    ensures |r| == f.channels
  {
    seq(f.channels, ch requires 0 <= ch < f.channels => SampleAt(buf, f.bits, base + ch * BytesPerSample(f)))
  }

  /** The samples of the first `frames` frames, in order: the reference
      the read loop is checked against. */
  function Frames(buf: seq<bv8>, f: M.AudioFormat, frames: nat): (r: seq<real>)
    ensures |r| == frames * f.channels
  {
    if frames == 0 then [] else Frames(buf, f, frames - 1) + FrameSamples(buf, f, (frames - 1) * FrameSize(f))
  }

  /** The read loop's conversion of `buf` (the bytes one read returned):
      every whole frame, channel by channel; a partial frame at the end is
      dropped. With a frame size of 0 the read buffer (frame size times the
      frame count) has no room, so no bytes arrive and nothing is decoded. */
  method DecodeFrames(buf: seq<bv8>, f: M.AudioFormat) returns (out: seq<real>)
    ensures FrameSize(f) > 0 ==> out == Frames(buf, f, |buf| / FrameSize(f))
    ensures FrameSize(f) > 0 ==> |out| == (|buf| / FrameSize(f)) * f.channels
    ensures FrameSize(f) == 0 ==> out == []
  {
    var frameSize := FrameSize(f);
    if frameSize == 0 {
      return [];
    }
    var frames := |buf| / frameSize;
    out := [];
    var frame := 0;
    while frame < frames
      invariant 0 <= frame <= frames
      invariant out == Frames(buf, f, frame)
    {
      var ch := 0;
      var base := frame * frameSize;
      while ch < f.channels
        invariant 0 <= ch <= f.channels
        invariant out == Frames(buf, f, frame) + FrameSamples(buf, f, base)[..ch]
      {
        out := out + [SampleAt(buf, f.bits, base + ch * BytesPerSample(f))];
        ch := ch + 1;
      }
      frame := frame + 1;
    }
  }

  /** Every decoded sample is in [-1, 1), and an unsupported depth decodes
      to silence. */
  lemma {:induction false} FramesRange(buf: seq<bv8>, f: M.AudioFormat, frames: nat)
    ensures forall i :: 0 <= i < |Frames(buf, f, frames)| ==> -1.0 <= Frames(buf, f, frames)[i] < 1.0
    ensures f.bits !in {16, 24, 32} ==> forall i :: 0 <= i < |Frames(buf, f, frames)| ==> Frames(buf, f, frames)[i] == 0.0
  {
    if frames > 0 {
      FramesRange(buf, f, frames - 1);
    }
  }

  // ---------------------------------------------------------------------
  // The ring buffer
  // ---------------------------------------------------------------------

  /** Append a batch to the ring buffer, then drop the oldest samples while
      it holds more than twice the back-pressure threshold. */
  method PushSamples(ring: seq<real>, batch: seq<real>) returns (r: seq<real>)
    ensures |r| <= 2 * RING_MAX
    ensures |ring + batch| <= 2 * RING_MAX ==> r == ring + batch
    ensures |ring + batch| > 2 * RING_MAX ==> |r| == 2 * RING_MAX
    ensures r == (ring + batch)[|ring + batch| - |r|..]
  {
    r := ring + batch;
    ghost var all := r;
    while |r| > 2 * RING_MAX
      invariant |r| <= |all| && r == all[|all| - |r|..]
      invariant |all| > 2 * RING_MAX ==> |r| >= 2 * RING_MAX
      invariant |all| <= 2 * RING_MAX ==> r == all
      decreases |r|
    {
      r := r[1..];
    }
  }
}
