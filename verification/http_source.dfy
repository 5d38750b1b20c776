/** The HTTP audio source's deterministic parts
    (src/audio/sources/http.rs): sniffing the 44-byte WAV header each
    connection begins with, deciding whether the equaliser and output stream
    must be rebuilt, and turning 16-bit PCM bytes into samples. Sockets,
    sleeps, the cpal stream, the filters and the ring-buffer back-pressure
    are outside the model; whether a connection delivers a header and
    whether a rebuild succeeds are parameters. */
module HttpSource {
  import opened Wrappers
  import Bytes
  import FormatSwitch

  const HEADER_LEN: nat := 44
  const RIFF: seq<bv8> := [0x52, 0x49, 0x46, 0x46]   // "RIFF"
  const WAVE: seq<bv8> := [0x57, 0x41, 0x56, 0x45]   // "WAVE"
  const FMT: seq<bv8> := [0x66, 0x6D, 0x74, 0x20]    // "fmt "
  const MAX_CHANNELS: nat := 8
  const FALLBACK_CHANNELS: nat := 2
  const MIN_RATE: nat := 8000
  const MAX_RATE: nat := 192000
  const FALLBACK_RATE: nat := 44100

  /** The stream format the loop tracks. */
  datatype WavFormat = WavFormat(rate: nat, channels: nat)

  /** The three chunk tags the loop checks. */
  predicate IsWav(h: seq<bv8>)
    requires |h| == HEADER_LEN
  {
    h[0..4] == RIFF && h[8..12] == WAVE && h[12..16] == FMT
  }

  /** A usable channel count, or 2. */
  function SaneChannels(ch: nat): (r: nat)
    ensures 1 <= r <= MAX_CHANNELS
    ensures 1 <= ch <= MAX_CHANNELS <==> r == ch
  {
    if ch == 0 || ch > MAX_CHANNELS then FALLBACK_CHANNELS else ch
  }

  /** A usable sample rate, or 44100. */
  function SaneRate(rate: nat): (r: nat)
    ensures MIN_RATE <= r <= MAX_RATE
    ensures MIN_RATE <= rate <= MAX_RATE <==> r == rate
  {
    if MIN_RATE <= rate <= MAX_RATE then rate else FALLBACK_RATE
  }

  /** The format a header announces: the channel count is the u16 at
      bytes 22..24 and the rate the u32 at bytes 24..28, both sanitised. A
      header without the tags leaves the previous format. */
  function SniffHeader(h: seq<bv8>, previous: WavFormat): (r: WavFormat)
    requires |h| == HEADER_LEN
    ensures !IsWav(h) ==> r == previous
    ensures IsWav(h) ==>
      && r.channels == SaneChannels(Bytes.U16Le(h[22], h[23]))
      && r.rate == SaneRate(Bytes.U32Le(h[24], h[25], h[26], h[27]))
    ensures IsWav(h) ==> 1 <= r.channels <= MAX_CHANNELS && MIN_RATE <= r.rate <= MAX_RATE
  {
    if IsWav(h) then
      WavFormat(SaneRate(Bytes.U32Le(h[24], h[25], h[26], h[27])), SaneChannels(Bytes.U16Le(h[22], h[23])))
    else previous
  }

  // ---------------------------------------------------------------------
  // Writing a header
  // ---------------------------------------------------------------------

  /** `u16::to_le_bytes`. */
  function U16Bytes(x: nat): (r: seq<bv8>)
    requires x < Bytes.TWO_16
    ensures |r| == 2
  {
    [(x % 0x100) as bv8, (x / 0x100) as bv8]
  }

  /** `u32::to_le_bytes`. */
  function U32Bytes(x: nat): (r: seq<bv8>)
    requires x < Bytes.TWO_32
    ensures |r| == 4
  {
    U16Bytes(x % Bytes.TWO_16) + U16Bytes(x / Bytes.TWO_16)
  }

  lemma U16BytesValue(x: nat)
    requires x < Bytes.TWO_16
    ensures Bytes.U16Le(U16Bytes(x)[0], U16Bytes(x)[1]) == x
  {
    Bytes.ByteOf(x % 0x100);
    Bytes.ByteOf(x / 0x100);
  }

  lemma U32BytesValue(x: nat)
    requires x < Bytes.TWO_32
    ensures var b := U32Bytes(x); Bytes.U32Le(b[0], b[1], b[2], b[3]) == x
  {
    U16BytesValue(x % Bytes.TWO_16);
    U16BytesValue(x / Bytes.TWO_16);
  }

  /** A canonical 44-byte PCM WAV header for a format; the fields the loop
      does not read are left zero. */
  function WavHeader(f: WavFormat): (h: seq<bv8>)
    requires f.rate < Bytes.TWO_32 && f.channels < Bytes.TWO_16
    ensures |h| == HEADER_LEN
  {
    RIFF + [0, 0, 0, 0] + WAVE + FMT + [0, 0, 0, 0, 0, 0]
      + U16Bytes(f.channels) + U32Bytes(f.rate) + seq(16, _ => 0)
  }

  /** Sniffing a written header gives back its format whenever the format
      is one the loop accepts, whatever the previous format was. */
  lemma SniffRoundTrip(f: WavFormat, previous: WavFormat)
    requires 1 <= f.channels <= MAX_CHANNELS && MIN_RATE <= f.rate <= MAX_RATE
    ensures SniffHeader(WavHeader(f), previous) == f
  {
    var h := WavHeader(f);
    var c := U16Bytes(f.channels);
    var r := U32Bytes(f.rate);
    assert h[0..4] == RIFF && h[8..12] == WAVE && h[12..16] == FMT;
    assert h[22] == c[0] && h[23] == c[1];
    assert h[24] == r[0] && h[25] == r[1] && h[26] == r[2] && h[27] == r[3];
    U16BytesValue(f.channels);
    U32BytesValue(f.rate);
  }

  // ---------------------------------------------------------------------
  // Reconnecting
  // ---------------------------------------------------------------------

  /** What the loop keeps across connections: the tracked and built
      formats, and the sample rate the processing equaliser was made for. */
  datatype HttpState = HttpState(sw: FormatSwitch.Switch<WavFormat>, eqRate: nat)

  /** The loop starts from the configured input format `f`, with a
      stream and an equaliser built for it. */
  function Initial(f: WavFormat): (s: HttpState)
    ensures FormatSwitch.Synced(s.sw) && s.sw.current == f && s.eqRate == f.rate
  {
    HttpState(FormatSwitch.Switch(f, f), f.rate)
  }

  /** One connection as written: `header` is `None` when fewer than 44
      bytes arrive; `plays` is whether the connection goes on to stream
      audio. A changed format rebuilds the equaliser and the stream, and a
      failed stream rebuild drops the connection. */
  function ConnectAsWritten(s: HttpState, header: Option<seq<bv8>>, buildOk: bool): (r: (HttpState, bool))
    requires header.Some? ==> |header.value| == HEADER_LEN
    ensures header.None? ==> r == (s, false)
    ensures header.Some? ==>
      var observed := SniffHeader(header.value, s.sw.current);
      && r.0.sw.current == observed
      && (observed == s.sw.current ==> r == (s, true))
      && (observed != s.sw.current ==> r.0.eqRate == observed.rate && r.1 == buildOk)
  {
    match header
    case None => (s, false)
    case Some(h) =>
      var observed := SniffHeader(h, s.sw.current);
      var step := FormatSwitch.ApplyAsWritten(s.sw, observed, buildOk);
      (HttpState(step.state, if step.attempted then observed.rate else s.eqRate),
       !step.attempted || step.built)
  }

  /** As written, a connection can play audio through a stream built for
      another format: starting from 44.1 kHz stereo, 48 kHz arrives, the
      rebuild fails, and on the next connection, with the same header,
      nothing is rebuilt. */
  lemma ConnectAsWrittenPlaysStale(h: seq<bv8>)
    requires h == WavHeader(WavFormat(48000, 2))
    ensures var s1 := ConnectAsWritten(Initial(WavFormat(44100, 2)), Some(h), false);
      var s2 := ConnectAsWritten(s1.0, Some(h), true);
      && !s1.1
      && s2.1
      && s2.0.sw.stream == WavFormat(44100, 2)
      && s2.0.sw.current == WavFormat(48000, 2)
  {
    SniffRoundTrip(WavFormat(48000, 2), WavFormat(44100, 2));
    SniffRoundTrip(WavFormat(48000, 2), WavFormat(48000, 2));
  }

  /** One connection with the intended decision: a rebuild is tried
      whenever the announced format differs from the stream's, so a
      connection that plays always plays through a stream built for the
      format it carries, and the equaliser matches it. */
  function Connect(s: HttpState, header: Option<seq<bv8>>, buildOk: bool): (r: (HttpState, bool))
    requires header.Some? ==> |header.value| == HEADER_LEN
    requires s.eqRate == s.sw.current.rate
    ensures header.None? ==> r == (s, false)
    ensures r.0.eqRate == r.0.sw.current.rate
    ensures header.Some? ==> r.0.sw.current == SniffHeader(header.value, s.sw.current)
    ensures r.1 ==> FormatSwitch.Synced(r.0.sw)
    ensures header.Some? && buildOk ==> r.1
  {
    match header
    case None => (s, false)
    case Some(h) =>
      var observed := SniffHeader(h, s.sw.current);
      var step := FormatSwitch.Apply(s.sw, observed, buildOk);
      (HttpState(step.state, observed.rate), !step.attempted || step.built)
  }

  // ---------------------------------------------------------------------
  // Decoding
  // ---------------------------------------------------------------------

  const I16_SCALE: real := 32768.0

  /** One 16-bit little-endian sample scaled into [-1, 1). */
  function Sample16(b0: bv8, b1: bv8): (r: real)
    ensures -1.0 <= r < 1.0
  {
    Bytes.I16Le(b0, b1) as real / I16_SCALE
  }

  /** The read loop's conversion: one sample per whole pair of bytes; a
      trailing odd byte is dropped. */
  method Decode16(buf: seq<bv8>) returns (out: seq<real>)
    ensures |out| == |buf| / 2
    ensures forall i :: 0 <= i < |out| ==> out[i] == Sample16(buf[2 * i], buf[2 * i + 1])
  {
    var samples := |buf| / 2;
    out := [];
    var i := 0;
    while i < samples
      invariant 0 <= i <= samples
      invariant |out| == i
      invariant forall j :: 0 <= j < i ==> out[j] == Sample16(buf[2 * j], buf[2 * j + 1])
    {
      var idx := i * 2;
      if idx + 1 < |buf| {
        out := out + [Sample16(buf[idx], buf[idx + 1])];
      }
      i := i + 1;
    }
  }

  /** 16-bit PCM bytes for a run of samples (`i16::to_le_bytes` each). */
  function Encode16(xs: seq<int>): (r: seq<bv8>)
    requires forall i :: 0 <= i < |xs| ==> -(Bytes.TWO_15 as int) <= xs[i] < Bytes.TWO_15
    ensures |r| == 2 * |xs|
  {
    if xs == [] then []
    else [Bytes.I16Bytes(xs[0]).0, Bytes.I16Bytes(xs[0]).1] + Encode16(xs[1..])
  }

  /** Byte `2i` and `2i + 1` of the encoding are sample `i`'s. */
  lemma {:induction false} Encode16At(xs: seq<int>, i: nat)
    requires forall k :: 0 <= k < |xs| ==> -(Bytes.TWO_15 as int) <= xs[k] < Bytes.TWO_15
    requires i < |xs|
    ensures Encode16(xs)[2 * i] == Bytes.I16Bytes(xs[i]).0
    ensures Encode16(xs)[2 * i + 1] == Bytes.I16Bytes(xs[i]).1
  {
    if i > 0 {
      Encode16At(xs[1..], i - 1);
    }
  }

  /** Decoding encoded samples gives each sample over 32768. */
  method DecodeEncoded(xs: seq<int>) returns (out: seq<real>)
    requires forall i :: 0 <= i < |xs| ==> -(Bytes.TWO_15 as int) <= xs[i] < Bytes.TWO_15
    ensures |out| == |xs|
    ensures forall i :: 0 <= i < |xs| ==> out[i] == xs[i] as real / I16_SCALE
  {
    var buf := Encode16(xs);
    out := Decode16(buf);
    forall i | 0 <= i < |xs| ensures out[i] == xs[i] as real / I16_SCALE {
      Encode16At(xs, i);
      Bytes.I16RoundTrip(xs[i]);
    }
  }
}
