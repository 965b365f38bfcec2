/** The RTMP muxer: it turns encoder callbacks into FLV tag bodies for the
    sender and delays early audio so that it lines up with video at stream
    start.

    The muxer is an immutable record; each callback is a pure step from the
    record to its successor and the (at most one) tag handed to the sender.
    The audio path keeps a FIFO of recent audio tags with their deltas, a
    running buffering time, a count of enqueued samples and a first-buffering
    flag. */
module RtmpMuxer {
  import opened Options
  import opened Flv
  import opened Timestamps

  datatype Stream = Audio | Video

  /** One call of the sender: a tag body and its relative timestamp in ms. */
  datatype Emission = Emission(stream: Stream, tag: seq<byte>, timestamp: real)

  /** An encoded audio buffer: its presentation time and its bytes, absent
      when the buffer list has no data pointer. */
  datatype AudioFrame = AudioFrame(pts: real, data: Option<seq<byte>>)

  /** An encoded video sample; `dts` is None for an invalid decode time and
      `data` is None when the sample has no data buffer. */
  datatype VideoFrame = VideoFrame(pts: real, dts: Option<real>, keyframe: bool, data: Option<seq<byte>>)

  datatype Muxer = Muxer(
    audioClock: real,
    videoClock: real,
    videoDifTime: real,        // audio pts minus video clock at the latest accepted audio sample
    isFirstBuffering: bool,
    audioBufferingTime: real,  // seconds of audio that went through the Add branch
    buffers: seq<seq<byte>>,   // the FIFO of audio tags ...
    deltas: seq<real>,         // ... and their deltas, in parallel
    bufferCount: int,          // number of Add branches taken
    bufferingEnabled: bool)    // fixed at construction; the source fixes it to true

  datatype Step = Step(next: Muxer, out: seq<Emission>)

  /** Buffering time, in seconds, beyond which Add evicts the FIFO head. */
  const BufferingCap: real := 1.0

  /** What holds of every muxer the steps can reach. */
  predicate Valid(m: Muxer)
  {
    && |m.buffers| == |m.deltas|
    && 0 <= m.bufferCount
    && |m.buffers| <= m.bufferCount
    && (m.bufferCount == 0 <==> |m.buffers| == 0)
    && 0.0 <= m.audioBufferingTime
    && (m.bufferCount == 0 ==> m.audioBufferingTime == 0.0)
    && (forall i :: 0 <= i < |m.deltas| ==> 0.0 <= m.deltas[i])
  }

  /** A freshly constructed muxer: both clocks unset and an empty sync buffer
      that has not yet seen its first audio. */
  function Initial(bufferingEnabled: bool): (r: Muxer)
    ensures Valid(r)
    ensures r.audioClock == Unset && r.videoClock == Unset
    ensures r.bufferingEnabled == bufferingEnabled
  {
    Muxer(Unset, Unset, 0.0, true, 0.0, [], [], 0, bufferingEnabled)
  }

  /** Resets the audio sync buffer and nothing else. */
  function InitAudioBuffer(m: Muxer): (r: Muxer)
    ensures Valid(r)
    ensures r.audioClock == m.audioClock && r.videoClock == m.videoClock
    ensures r.bufferingEnabled == m.bufferingEnabled
    ensures r.isFirstBuffering && |r.buffers| == 0 && r.bufferCount == 0
  {
    m.(videoDifTime := 0.0, isFirstBuffering := true, audioBufferingTime := 0.0,
       buffers := [], deltas := [], bufferCount := 0)
  }

  /** Clears both clocks and the audio sync buffer. */
  function Dispose(m: Muxer): (r: Muxer)
    ensures Valid(r)
    ensures r == Initial(m.bufferingEnabled)
    ensures r.audioClock == Unset && r.videoClock == Unset
  {
    InitAudioBuffer(m.(audioClock := Unset, videoClock := Unset))
  }

  /** Disposing twice is disposing once, and disposal forgets everything but
      the buffering switch. */
  lemma DisposeIdempotent(m: Muxer, m': Muxer)
    requires m.bufferingEnabled == m'.bufferingEnabled
    ensures Dispose(Dispose(m)) == Dispose(m)
    ensures Dispose(m) == Dispose(m')
  {
  }

  /** Whether no audio sample has yet been bypassed or drained against a
      running video clock since the last reset. */
  function IsFirstBufferingAudio(m: Muxer): (b: bool)
    ensures m == Initial(m.bufferingEnabled) ==> b
  {
    m.isFirstBuffering
  }

  // ---------------------------------------------------------------- formats

  /** A new audio format: the AAC sequence header at timestamp 0, or nothing
      when there is no format description. */
  function AudioFormatChanged(m: Muxer, config: Option<seq<byte>>): (r: Step)
    ensures r.next == m
    ensures config.None? ==> r.out == []
    ensures config.Some? ==>
              && |r.out| == 1 && r.out[0].stream == Audio && r.out[0].timestamp == 0.0
              && ParseAacAudioData(r.out[0].tag) == Some(MuxerAudio(AacPacketSequenceHeader, config.value))
  {
    match config
    case None => Step(m, [])
    case Some(c) => Step(m, [Emission(Audio, AacSequenceHeaderTag(c), 0.0)])
  }

  /** A new video format: the AVC sequence header at timestamp 0, or nothing
      when there is no format description or no avcC record. */
  function VideoFormatChanged(m: Muxer, avcC: Option<seq<byte>>): (r: Step)
    ensures r.next == m
    ensures avcC.None? ==> r.out == []
    ensures avcC.Some? ==>
              && |r.out| == 1 && r.out[0].stream == Video && r.out[0].timestamp == 0.0
              && ParseAvcVideoData(r.out[0].tag)
                 == Some(AvcVideoData(FrameTypeKey, CodecAvc, AvcPacketSequenceHeader, 0, avcC.value))
  {
    match avcC
    case None => Step(m, [])
    case Some(c) => Step(m, [Emission(Video, AvcSequenceHeaderTag(c), 0.0)])
  }

  // ------------------------------------------------------------------ video

  /** The decode time, standing in for the presentation time when invalid. */
  function DecodeTime(f: VideoFrame): real
  {
    if f.dts.None? then f.pts else f.dts.value
  }

  /** Presentation minus decode time in whole milliseconds; 0 without a DTS. */
  function CompositionTime(f: VideoFrame): int
  {
    if f.dts.None? then 0 else TruncateTowardZero((f.pts - f.dts.value) * 1000.0)
  }

  predicate VideoAccepted(m: Muxer, f: VideoFrame)
  {
    f.data.Some? && 0.0 <= Delta(m.videoClock, DecodeTime(f))
  }

  /** A video sample: emitted at once with its delta, and the video clock
      moves to its decode time; dropped without any change when it has no
      data buffer or lies before the video clock. */
  function VideoOutput(m: Muxer, f: VideoFrame): (r: Step)
    ensures Valid(m) ==> Valid(r.next)
    ensures r.out == [] <==> f.data.None? || (m.videoClock != Unset && DecodeTime(f) < m.videoClock)
    ensures r.out == [] ==> r.next == m
    ensures r.out != [] ==>
              && r.next == m.(videoClock := DecodeTime(f))
              && |r.out| == 1 && r.out[0].stream == Video
              && |r.out[0].tag| == 5 + |f.data.value|
              && ParseAvcVideoData(r.out[0].tag)
                 == Some(AvcVideoData(FrameTypeOf(f.keyframe), CodecAvc, AvcPacketNalu,
                                      SignedLow24(CompositionTime(f)), f.data.value))
              && 0.0 <= r.out[0].timestamp
              && (m.videoClock == Unset ==> r.out[0].timestamp == 0.0)
              && (m.videoClock != Unset ==> m.videoClock + r.out[0].timestamp / 1000.0 == DecodeTime(f))
  {
    if !VideoAccepted(m, f) then Step(m, [])
    else
      var tag := AvcNaluTag(f.keyframe, CompositionTime(f), f.data.value);
      Step(m.(videoClock := DecodeTime(f)), [Emission(Video, tag, Delta(m.videoClock, DecodeTime(f)))])
  }

  // ------------------------------------------------------------------ audio

  /** The three mutually exclusive ways an accepted audio sample is handled. */
  datatype Branch = Bypass | Add | Drain

  function AudioDelta(m: Muxer, f: AudioFrame): real
  {
    Delta(m.audioClock, f.pts)
  }

  predicate AudioAccepted(m: Muxer, f: AudioFrame)
  {
    f.data.Some? && 0 < |f.data.value| && 0.0 <= AudioDelta(m, f)
  }

  /** The branch an audio sample with this delta (ms) and skew (s) takes. */
  function Classify(m: Muxer, delta: real, difTime: real): (b: Branch)
    ensures !m.bufferingEnabled || m.videoClock == Unset ==> b == Bypass
    ensures b == Drain ==> difTime <= m.audioBufferingTime
    ensures b == Add ==> m.audioBufferingTime < difTime
    ensures b == Bypass && m.bufferingEnabled && m.videoClock != Unset ==> m.bufferCount == 0 && difTime < delta / 1000.0
    ensures m.bufferingEnabled && m.videoClock != Unset && m.bufferCount == 0 && difTime < delta / 1000.0 ==> b == Bypass
    ensures b != Bypass ==> (b == Add <==> m.audioBufferingTime < difTime)
  {
    if !m.bufferingEnabled || m.videoClock == Unset || (delta / 1000.0 > difTime && 0 == m.bufferCount) then Bypass
    else if m.videoClock == Unset || m.audioBufferingTime < difTime then Add
    else Drain
  }

  function AudioBranch(m: Muxer, f: AudioFrame): Branch
  {
    Classify(m, AudioDelta(m, f), f.pts - m.videoClock)
  }

  /** The first FIFO index Add keeps: the head goes once the cap is passed. */
  function Evicted(m: Muxer): nat
  {
    if BufferingCap < m.audioBufferingTime then 1 else 0
  }

  /** Bypass: emit the new tag now. */
  function BypassStep(m: Muxer, f: AudioFrame, tag: seq<byte>): Step
  {
    var first := if m.videoClock != Unset then false else m.isFirstBuffering;
    Step(m.(videoDifTime := f.pts - m.videoClock, audioClock := f.pts, isFirstBuffering := first),
         [Emission(Audio, tag, AudioDelta(m, f))])
  }

  /** Add: enqueue the new tag (after evicting the head past the cap) and
      still emit it now. */
  function AddStep(m: Muxer, f: AudioFrame, tag: seq<byte>): Step
    requires Evicted(m) <= |m.buffers| && Evicted(m) <= |m.deltas|
  {
    var delta := AudioDelta(m, f);
    var k := Evicted(m);
    Step(m.(videoDifTime := f.pts - m.videoClock,
            buffers := m.buffers[k..] + [tag], deltas := m.deltas[k..] + [delta],
            bufferCount := m.bufferCount + 1, audioClock := f.pts,
            audioBufferingTime := m.audioBufferingTime + delta / 1000.0),
         [Emission(Audio, tag, delta)])
  }

  /** Drain: emit the FIFO head with its stored delta, pop it, enqueue the new tag. */
  function DrainStep(m: Muxer, f: AudioFrame, tag: seq<byte>): Step
    requires 0 < |m.buffers| && 0 < |m.deltas|
  {
    Step(m.(videoDifTime := f.pts - m.videoClock, isFirstBuffering := false, audioClock := f.pts,
            buffers := m.buffers[1..] + [tag], deltas := m.deltas[1..] + [AudioDelta(m, f)]),
         [Emission(Audio, m.buffers[0], m.deltas[0])])
  }

  datatype Outcome = Completed(step: Step) | Trapped

  /** The audio callback exactly as the source writes it, including the
      runtime traps of `removeFirst` and of indexing an empty array. */
  function AudioOutputAsWritten(m: Muxer, f: AudioFrame): (r: Outcome)
    ensures !AudioAccepted(m, f) ==> r == Completed(Step(m, []))
    ensures r.Trapped? ==> AudioBranch(m, f) != Bypass
  {
    if !AudioAccepted(m, f) then Completed(Step(m, []))
    else
      var tag := AacRawTag(f.data.value);
      match AudioBranch(m, f)
      case Bypass => Completed(BypassStep(m, f, tag))
      case Add =>
        if Evicted(m) <= |m.buffers| && Evicted(m) <= |m.deltas| then Completed(AddStep(m, f, tag)) else Trapped
      case Drain =>
        if 0 < |m.buffers| && 0 < |m.deltas| then Completed(DrainStep(m, f, tag)) else Trapped
  }

  /** The Drain branch reached with nothing in the FIFO. */
  predicate EmptyDrain(m: Muxer, f: AudioFrame)
  {
    AudioAccepted(m, f) && AudioBranch(m, f) == Drain && |m.buffers| == 0
  }

  /** The audio callback with the empty-FIFO drain corrected: the new sample
      enters the empty FIFO and leaves it at once, exactly as a Bypass would
      emit it. Every other input behaves as the source does. */
  function AudioOutput(m: Muxer, f: AudioFrame): (r: Step)
    requires Valid(m)
    ensures Valid(r.next)
    ensures r.out == [] <==> f.data.None? || |f.data.value| == 0 || (m.audioClock != Unset && f.pts < m.audioClock)
    ensures r.out == [] ==> r.next == m
    ensures r.out != [] ==>
              && |r.out| == 1 && r.out[0].stream == Audio && 0.0 <= r.out[0].timestamp
              && r.next.audioClock == f.pts
              && r.next.videoClock == m.videoClock
              && r.next.videoDifTime == f.pts - m.videoClock
              && r.next.bufferingEnabled == m.bufferingEnabled
              && (r.next.isFirstBuffering <==> m.isFirstBuffering && (m.videoClock == Unset || AudioBranch(m, f) == Add))
              && m.audioBufferingTime <= r.next.audioBufferingTime
              && m.bufferCount <= r.next.bufferCount
    // Bypass, and a Drain on an empty FIFO: the new tag goes out, the FIFO is untouched.
    ensures r.out != [] && (AudioBranch(m, f) == Bypass || (|m.buffers| == 0 && AudioBranch(m, f) == Drain)) ==>
              && r.out[0] == Emission(Audio, AacRawTag(f.data.value), AudioDelta(m, f))
              && r.next.buffers == m.buffers && r.next.deltas == m.deltas
              && r.next.bufferCount == m.bufferCount && r.next.audioBufferingTime == m.audioBufferingTime
    // Add: the new tag goes out and joins the FIFO tail; the head is evicted past the cap.
    ensures r.out != [] && AudioBranch(m, f) == Add ==>
              && r.out[0] == Emission(Audio, AacRawTag(f.data.value), AudioDelta(m, f))
              && 0 < |r.next.buffers|
              && r.next.buffers[|r.next.buffers| - 1] == AacRawTag(f.data.value)
              && r.next.deltas[|r.next.deltas| - 1] == AudioDelta(m, f)
              && (BufferingCap < m.audioBufferingTime ==>
                    && r.next.buffers == m.buffers[1..] + [AacRawTag(f.data.value)] && |r.next.buffers| == |m.buffers|
                    && r.next.deltas == m.deltas[1..] + [AudioDelta(m, f)])
              && (m.audioBufferingTime <= BufferingCap ==>
                    && r.next.buffers == m.buffers + [AacRawTag(f.data.value)] && |r.next.buffers| == |m.buffers| + 1
                    && r.next.deltas == m.deltas + [AudioDelta(m, f)])
              && r.next.bufferCount == m.bufferCount + 1
              && r.next.audioBufferingTime == m.audioBufferingTime + AudioDelta(m, f) / 1000.0
    // Drain on a non-empty FIFO: the old head goes out with its own delta; the new tag takes its place at the tail.
    ensures r.out != [] && AudioBranch(m, f) == Drain && 0 < |m.buffers| ==>
              && r.out[0] == Emission(Audio, m.buffers[0], m.deltas[0])
              && r.next.buffers == m.buffers[1..] + [AacRawTag(f.data.value)]
              && r.next.deltas == m.deltas[1..] + [AudioDelta(m, f)]
              && |r.next.buffers| == |m.buffers|
              && r.next.bufferCount == m.bufferCount && r.next.audioBufferingTime == m.audioBufferingTime
  {
    if !AudioAccepted(m, f) then Step(m, [])
    else
      var tag := AacRawTag(f.data.value);
      match AudioBranch(m, f)
      case Bypass => BypassStep(m, f, tag)
      case Add => AddStep(m, f, tag)
      case Drain =>
        if |m.buffers| == 0 then BypassStep(m, f, tag) else DrainStep(m, f, tag)
  }

  /** The first-buffering query after an audio sample: it turns false once a
      sample is bypassed or drained while the video clock runs, an Add or a
      sample without a video clock leaves it alone, and a disposal sets it
      again. */
  lemma FirstBufferingAudioAnswers(m: Muxer, f: AudioFrame)
    requires Valid(m)
    ensures IsFirstBufferingAudio(Dispose(m))
    ensures AudioAccepted(m, f) && m.videoClock != Unset && AudioBranch(m, f) != Add ==>
              !IsFirstBufferingAudio(AudioOutput(m, f).next)
    ensures !AudioAccepted(m, f) || m.videoClock == Unset || AudioBranch(m, f) == Add ==>
              IsFirstBufferingAudio(AudioOutput(m, f).next) == IsFirstBufferingAudio(m)
  {
  }

  // ------------------------------------------------------------- the finding

  /** The source's audio callback traps exactly on a Drain with an empty
      FIFO; on every other input it agrees with the corrected callback. */
  lemma AsWrittenTrapsOnlyOnEmptyDrain(m: Muxer, f: AudioFrame)
    requires Valid(m)
    ensures AudioOutputAsWritten(m, f).Trapped? <==> EmptyDrain(m, f)
    ensures !EmptyDrain(m, f) ==> AudioOutputAsWritten(m, f) == Completed(AudioOutput(m, f))
  {
  }

  /** An empty-FIFO drain happens exactly when nothing was ever enqueued and
      a zero-delta audio sample lands on the video clock. */
  lemma EmptyDrainCharacterized(m: Muxer, f: AudioFrame)
    requires Valid(m)
    ensures EmptyDrain(m, f) <==>
              && AudioAccepted(m, f) && m.bufferingEnabled && m.videoClock != Unset
              && m.bufferCount == 0 && AudioDelta(m, f) == 0.0 && f.pts == m.videoClock
  {
  }

  /** The corrected empty-FIFO drain sends the new sample straight through at
      timestamp 0: the FIFO, the count and the buffering time are untouched,
      the audio clock moves to the sample, the recorded skew is 0 and the
      first-buffering flag is cleared. */
  lemma EmptyDrainActsAsBypass(m: Muxer, f: AudioFrame)
    requires Valid(m) && EmptyDrain(m, f)
    ensures AudioOutput(m, f) ==
              Step(m.(audioClock := f.pts, videoDifTime := 0.0, isFirstBuffering := false),
                   [Emission(Audio, AacRawTag(f.data.value), 0.0)])
  {
    EmptyDrainCharacterized(m, f);
  }

  /** From a fresh muxer: a video sample at 0.5 s, then the first audio
      sample at 0.5 s, reaches `buffers[0]` with an empty FIFO. */
  lemma EmptyDrainReachable()
    ensures var v := VideoOutput(Initial(true), VideoFrame(0.5, None, true, Some([0x65])));
            var a := AudioFrame(0.5, Some([0x21]));
            && EmptyDrain(v.next, a)
            && AudioOutputAsWritten(v.next, a) == Trapped
  {
  }
}
