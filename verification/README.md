# RTMP muxer: FLV tags and audio/video start-up sync

This project models the RTMP muxer of HaishinKit (`Sources/RTMP/RTMPMuxer.swift`).
The muxer receives callbacks from the audio and video encoders. It turns them into
FLV tag bodies with relative timestamps for the RTMP sender. At stream start it
delays audio so that it lines up with video.

The model has five modules:

- `Flv` builds the four tag bodies the muxer writes: the AAC sequence header, the AAC
  raw frame, the AVC sequence header and the AVC NALU frame. They follow sections E.4.2
  (AUDIODATA / AACAUDIODATA) and E.4.3 (VIDEODATA / AVCVIDEOPACKET) of Adobe's Video
  File Format Specification, version 10.1. Each builder has a parser for the same layout.
  Lemmas show that parsing a built tag returns its fields, and that a parsed tag is
  rebuilt to the same bytes. The enum raw values the source takes from the FLV types
  are named constants: AAC = 10, 44 kHz = 3, 16-bit = 1, stereo = 1, keyframe = 1,
  inter frame = 2, AVC = 7, sequence header = 0, raw/NALU = 1.
- `Timestamps` holds the per-stream delta. It is 0 on an unset clock, and otherwise the
  difference to the clock in milliseconds. It also holds the truncation of the
  composition time to an integer.
- `RtmpMuxer` is the muxer as an immutable record. Each callback is a pure step
  function that returns the next record and what was sent. The audio step is the sync
  buffer with its three branches:
  - Bypass: send the sample now.
  - Add: enqueue the sample, evicting the head once more than 1.0 s has been buffered,
    and still send it now.
  - Drain: send the FIFO head with its stored delta, pop it, and enqueue the new sample.

  The module has the audio callback exactly as written (`AudioOutputAsWritten`, which can
  trap) and the corrected one (`AudioOutput`) that the rest of the model uses.
- `MuxerRuns` feeds sequences of callbacks to the muxer and proves properties of whole
  runs: the reachable-state invariant, non-negative timestamps, counters that only grow
  between disposals, and telescoping video timestamps.
- `Options` holds the optional value used for absent inputs.

Times are exact `real` seconds. As in the source, a clock value of `0` means "unset", so
a stream whose last timestamp really was zero also reads as unset
(`MuxerRuns.ZeroDecodeTimeReadsAsUnset`). The sender is an append-only trace of
`Emission(stream, tag, timestamp)`. A step emits at most one tag.

## Behaviour worth knowing

- The video guard tests only that the sample's `data` is present, not its length. A
  missing `data`, or a decode time before a set video clock, drops the sample.
- With no video clock, the skew stored in `videoDifTime` is the audio presentation time
  itself (the PTS minus 0), not 0.
- Once anything has been enqueued, a bypass with the video clock set can never happen
  again until disposal. Every later audio sample that arrives while the video clock is
  set is added or drained, even when the skew is negative
  (`MuxerRuns.SkewBypassClosed`). With no video clock, audio is still bypassed.
- The 1-second cap compares the total time that ever went through Add, not the time
  currently in the FIFO. The FIFO grows by one on every Add until that total passes
  1.0 s, and holds its length after that.

## Model

| member | source | states |
|---|---|---|
| `Flv.AudioHeaderFields` | Sources/RTMP/RTMPMuxer.swift:11 | the muxer's audio header byte reads back as sound format AAC, 44 kHz, 16-bit, stereo |
| `Flv.VideoHeaderFields` | Sources/RTMP/RTMPMuxer.swift:144 | a frame-type/AVC header byte reads back as its frame type in the high nibble and codec 7 in the low nibble |
| `Flv.AacSequenceHeaderTag` | Sources/RTMP/RTMPMuxer.swift:58-59 | the audio sequence header is 2 bytes longer than the config and parses as AAC/44 kHz/16-bit/stereo, packet type 0, carrying exactly the config bytes |
| `Flv.AacRawTag` | Sources/RTMP/RTMPMuxer.swift:68-69 | the audio data tag is 2 bytes longer than the frame and parses as the same audio fields with packet type 1, carrying exactly the frame |
| `Flv.AacAudioDataReencodes` | Sources/RTMP/RTMPMuxer.swift:58-69 | any body that parses to the muxer's audio fields is exactly `[0xAF, packetType] ++ data`, so among bodies with packet type 0 or 1 the two audio builders are the only producers |
| `Flv.AvcSequenceHeaderTag` | Sources/RTMP/RTMPMuxer.swift:144-145 | the video sequence header is 5 bytes longer than avcC and parses as keyframe, AVC, packet type 0, composition time 0, carrying avcC |
| `Flv.AvcSequenceHeaderReencodes` | Sources/RTMP/RTMPMuxer.swift:144-145 | a body parsing as a keyframe AVC sequence header with zero composition time is the built header for its data |
| `Flv.AvcNaluTag` | Sources/RTMP/RTMPMuxer.swift:164-166 | the data tag is 5 bytes longer than the payload; it parses with frame type key (1) or inter (2) by the keyframe flag, AVC, packet type 1, the low 24 bits of the composition time sign-extended, and the payload |
| `Flv.AvcNaluTagReencodes` | Sources/RTMP/RTMPMuxer.swift:164-166 | a body parsing as a NALU tag with a frame type the muxer writes is the tag built from its parsed fields |
| `Flv.AvcVideoDataReencodes` | Sources/RTMP/RTMPMuxer.swift:164-166 | every AVC body is rebuilt byte for byte from its parsed header byte, packet type, SI24 composition time and data |
| `Flv.CompositionTimeBytes` | Sources/RTMP/RTMPMuxer.swift:165 | bytes 1..3 of the big-endian Int32 composition time decode as SI24 to the composition time's low 24 bits, sign-extended |
| `Flv.Int32LowBytes` | Sources/RTMP/RTMPMuxer.swift:165 | bytes 1..3 of the big-endian Int32 spell the composition time modulo 2^24 |
| `Flv.SignedLow24` | Sources/RTMP/RTMPMuxer.swift:165 | the value kept in the tag lies in [-2^23, 2^23), is congruent to the composition time modulo 2^24, and equals it when it already lies in that range |
| `Timestamps.Delta` | Sources/RTMP/RTMPMuxer.swift:64 | the delta is 0 on an unset clock; otherwise the clock plus delta/1000 is the new timestamp; it is non-negative exactly when the clock is unset or not after the timestamp (also the video delta of line 159) |
| `Timestamps.TruncateTowardZero` | Sources/RTMP/RTMPMuxer.swift:157 | the integer composition time has the sign of the real value and lies within 1 of it, on the side of zero |
| `RtmpMuxer.Initial` | Sources/RTMP/RTMPMuxer.swift:14-25 | a freshly constructed muxer satisfies the reachable-state invariant, has both clocks unset and keeps the buffering switch it was built with |
| `RtmpMuxer.InitAudioBuffer` | Sources/RTMP/RTMPMuxer.swift:42-49 | resets the sync buffer to an empty FIFO, zero count and first-buffering set, and leaves both clocks and the buffering switch alone |
| `RtmpMuxer.Dispose` | Sources/RTMP/RTMPMuxer.swift:27-34 | disposal yields the freshly constructed muxer, with both clocks unset |
| `RtmpMuxer.DisposeIdempotent` | Sources/RTMP/RTMPMuxer.swift:27-34 | disposing twice equals disposing once, and disposal forgets every prior state |
| `RtmpMuxer.IsFirstBufferingAudio` | Sources/RTMP/RTMPMuxer.swift:131-133 | the query answers the first-buffering flag, which is set on a freshly constructed muxer |
| `RtmpMuxer.FirstBufferingAudioAnswers` | Sources/RTMP/RTMPMuxer.swift:85-126 | after an audio sample the query answers false whenever that sample was bypassed or drained with the video clock set; an Add, a dropped sample or a missing video clock leave the answer unchanged; after disposal it answers true |
| `RtmpMuxer.AudioFormatChanged` | Sources/RTMP/RTMPMuxer.swift:54-61 | no format description sends nothing; otherwise one audio sequence header is sent at timestamp 0 carrying the config; the muxer state is unchanged |
| `RtmpMuxer.VideoFormatChanged` | Sources/RTMP/RTMPMuxer.swift:138-147 | no format description or no avcC sends nothing; otherwise one video sequence header is sent at timestamp 0; the state is unchanged |
| `RtmpMuxer.VideoOutput` | Sources/RTMP/RTMPMuxer.swift:149-169 | a video sample is dropped with no change exactly when its data buffer is missing or its decode time (PTS when DTS is invalid) lies before a set video clock; otherwise one NALU tag with the sample's frame type, composition time (0 without DTS) and payload is sent with delta 0 on an unset clock or the clock distance in ms, and only the video clock changes, to the decode time |
| `RtmpMuxer.Classify` | Sources/RTMP/RTMPMuxer.swift:85-98 | buffering disabled or no video clock always bypasses; with buffering on and a video clock, the sample bypasses exactly when nothing was enqueued and its delta exceeds the skew; otherwise it is added exactly when the buffering time is below the skew, and drained when it is not |
| `RtmpMuxer.AudioOutput` | Sources/RTMP/RTMPMuxer.swift:63-128 | an audio sample is dropped with no change exactly when its data is missing or empty or it lies before a set audio clock; otherwise exactly one tag is sent, the audio clock moves to its PTS and the skew is recorded; Bypass sends the new tag and leaves the FIFO alone; Add sends the new tag, appends it, evicts the head of both `buffers` and `deltas` only past 1.0 s of buffering, appends its delta, counts it and adds its delta to the buffering time; Drain sends the old head with its stored delta, keeps the FIFO length and puts the new tag at the tail; first-buffering is cleared exactly by a Drain or a Bypass with a video clock; the invariant is kept |
| `RtmpMuxer.AudioOutputAsWritten` | Sources/RTMP/RTMPMuxer.swift:63-128 | the source's callback, with its runtime traps; a dropped sample sends nothing and changes nothing, and a Bypass never traps |
| `RtmpMuxer.AsWrittenTrapsOnlyOnEmptyDrain` | Sources/RTMP/RTMPMuxer.swift:100-126 | on reachable states the source traps exactly on a Drain with an empty FIFO (the `removeFirst` in Add never does), and agrees with the corrected callback everywhere else |
| `RtmpMuxer.EmptyDrainCharacterized` | Sources/RTMP/RTMPMuxer.swift:85-120 | a Drain on an empty FIFO happens exactly when buffering is on, the video clock is set, nothing was ever enqueued, the delta is 0 and the audio PTS equals the video clock |
| `RtmpMuxer.EmptyDrainReachable` | Sources/RTMP/RTMPMuxer.swift:120 | from a fresh muxer, video at 0.5 s and then the first audio sample at 0.5 s reaches the `buffers[0]` of an empty FIFO |
| `RtmpMuxer.EmptyDrainActsAsBypass` | Sources/RTMP/RTMPMuxer.swift:85-95 | with the trap corrected, a Drain on an empty FIFO sends the new sample straight through at timestamp 0, moves the audio clock to it, records a skew of 0, clears first-buffering, and leaves the FIFO, the count and the buffering time untouched |
| `MuxerRuns.Apply` | Sources/RTMP/RTMPMuxer.swift:52-170 | every callback keeps the invariant, sends at most one tag, sends no negative timestamp and keeps the buffering switch |
| `MuxerRuns.Run` | Sources/RTMP/RTMPMuxer.swift:22-24 | along any callback sequence, `buffers` and `deltas` keep equal length, the FIFO is no longer than the enqueue count and is empty exactly when nothing was enqueued, deltas stay non-negative, and every sent timestamp is non-negative |
| `MuxerRuns.RunMonotone` | Sources/RTMP/RTMPMuxer.swift:87-118 | between disposals the buffering time and enqueue count never decrease, and `isFirstBufferingAudio` only goes from true to false |
| `MuxerRuns.SkewBypassClosed` | Sources/RTMP/RTMPMuxer.swift:85-87 | once something is enqueued, no later audio sample before disposal bypasses while buffering is on and the video clock is set |
| `MuxerRuns.VideoTimestampsTelescope` | Sources/RTMP/RTMPMuxer.swift:159-168 | from a set, positive video clock and with no disposal, the video timestamps sent add up to the distance in ms the video clock moved, and the clock never moves back |
| `MuxerRuns.ZeroDecodeTimeReadsAsUnset` | Sources/RTMP/RTMPMuxer.swift:159-168 | a video sample at decode time 0 leaves the clock reading unset, so the next sample with data is sent with delta 0 |
| `MuxerRuns.AddScenario` | Sources/RTMP/RTMPMuxer.swift:98-113 | in the callback as written, audio at 0.48 s, video at 0.5 s, then audio at 0.5 s and 0.52 s complete without a trap: the sample at 0.5 s bypasses, the one at 0.52 s takes Add, is sent at once with delta 20 ms, and leaves one FIFO entry, an enqueue count of 1 and 0.02 s of buffering |

## Left out

- AVFoundation types are replaced by plain records. `CMTime` becomes exact seconds, with `CMTime.invalid` as an absent DTS. `CMSampleBuffer` becomes a record of PTS, optional DTS, keyframe flag and optional bytes. The audio buffer list becomes its first buffer's optional bytes.
- The codec configuration encoders are not part of this model (`AudioSpecificConfig.swift` and `AVCConfigurationRecord.swift`). Their output is an opaque, optional byte sequence given to the format callbacks.
- Floating-point arithmetic is replaced by exact real arithmetic.
- RtmpMuxer.Classify: when `delta/1000` equals the skew exactly in real arithmetic, the source's `Double` comparison `(delta/1000) > videoDifTime` (line 87) may come out either way through rounding; the model always takes Add or Drain there. For example, with both clocks at 0.5 s and the next audio sample a whole number of milliseconds later, the rounded comparison is true for some offsets, so the source would bypass where the model does not.
- Timestamps.TruncateTowardZero: does not model the runtime trap of `Int32(_: Double)` for values outside the 32-bit range, because the model keeps any integer and writes its low 24 bits.
- RtmpMuxer.AudioOutput: `bufferCount` is an unbounded integer, so it does not model Swift's overflow trap after 2^63 enqueues, which no stream reaches.
- The weak delegate, the `metadata` callback and the `configs` dictionary (only ever cleared) are left out. The sender is assumed present and is modelled as the emitted trace.
- `print` logging, `deinit` (it only resets a buffer that is being freed) and threading are left out.
- `isAudioBuffering` is a constant `true` in the source. It is modelled as a switch fixed at construction, and `Initial(true)` is the source's muxer.
- `buffers` holds `Data?` in the source, but only non-nil values are ever appended, so the FIFO holds plain byte sequences and the `!` unwrap cannot fail.

## Findings

| source | as written | input that shows it | evidently intended | confidence | as-written member | corrected member |
|---|---|---|---|---|---|---|
| Sources/RTMP/RTMPMuxer.swift:120 | the Drain branch reads `buffers[0]!` and `deltas[0]` without checking that the FIFO is non-empty | fresh muxer; video sample at PTS 0.5 s with no DTS; then the first audio sample at PTS 0.5 s with data. The delta is 0 and the skew is 0, so Bypass (`0 > 0`) and Add (`0 < 0`) both fail and Drain indexes an empty array, which traps | a zero-skew sample with an empty FIFO is sent straight through at timestamp 0, as a Bypass would send it, leaving the FIFO empty | not executed | `RtmpMuxer.AudioOutputAsWritten`, shown by `RtmpMuxer.EmptyDrainReachable` and `RtmpMuxer.AsWrittenTrapsOnlyOnEmptyDrain` | `RtmpMuxer.AudioOutput`, with `RtmpMuxer.EmptyDrainActsAsBypass` |
