/** Sequences of encoder callbacks fed to the muxer, and what holds along
    them: the reachable-state invariant, non-negative timestamps, the
    monotone sync-buffer counters between disposals, and the telescoping of
    video timestamps. */
module MuxerRuns {
  import opened Options
  import opened Timestamps
  import opened RtmpMuxer

  /** One callback into the muxer. */
  datatype Event =
    | AudioFormatSet(config: Option<seq<Flv.byte>>)
    | AudioFrameOut(audio: AudioFrame)
    | VideoFormatSet(avcC: Option<seq<Flv.byte>>)
    | VideoFrameOut(video: VideoFrame)
    | Disposed

  function Apply(m: Muxer, e: Event): (r: Step)
    requires Valid(m)
    ensures Valid(r.next)
    ensures |r.out| <= 1
    ensures forall i :: 0 <= i < |r.out| ==> 0.0 <= r.out[i].timestamp
    ensures r.next.bufferingEnabled == m.bufferingEnabled
  {
    match e
    case AudioFormatSet(c) => AudioFormatChanged(m, c)
    case AudioFrameOut(f) => AudioOutput(m, f)
    case VideoFormatSet(c) => VideoFormatChanged(m, c)
    case VideoFrameOut(f) => VideoOutput(m, f)
    case Disposed => Step(Dispose(m), [])
  }

  /** Feeds the events in order; the sender sees the emissions in order. */
  function Run(m: Muxer, es: seq<Event>): (r: Step)
    requires Valid(m)
    ensures Valid(r.next)
    ensures |r.out| <= |es|
    ensures forall i :: 0 <= i < |r.out| ==> 0.0 <= r.out[i].timestamp
    ensures r.next.bufferingEnabled == m.bufferingEnabled
    decreases |es|
  {
    if |es| == 0 then Step(m, [])
    else
      var s := Apply(m, es[0]);
      var rest := Run(s.next, es[1..]);
      Step(rest.next, s.out + rest.out)
  }

  predicate DisposeFree(es: seq<Event>)
  {
    forall i :: 0 <= i < |es| ==> !es[i].Disposed?
  }

  /** Between disposals the buffering time and the enqueue count never go
      down, and the first-buffering flag only goes from true to false. */
  lemma {:induction false} RunMonotone(m: Muxer, es: seq<Event>)
    requires Valid(m) && DisposeFree(es)
    ensures var n := Run(m, es).next;
            && m.audioBufferingTime <= n.audioBufferingTime
            && m.bufferCount <= n.bufferCount
            && (IsFirstBufferingAudio(n) ==> IsFirstBufferingAudio(m))
    decreases |es|
  {
    if |es| > 0 {
      var s := Apply(m, es[0]);
      assert DisposeFree(es[1..]) by {
        forall i | 0 <= i < |es[1..]| ensures !es[1..][i].Disposed? {
          assert es[1..][i] == es[i + 1];
        }
      }
      RunMonotone(s.next, es[1..]);
    }
  }

  /** Once something has been enqueued, an enabled muxer with a video clock
      never again takes the "delta exceeds skew" bypass until it is disposed:
      every later audio sample that arrives while the video clock is set is
      added or drained. */
  lemma SkewBypassClosed(m: Muxer, es: seq<Event>)
    requires Valid(m) && DisposeFree(es) && 0 < m.bufferCount
    ensures forall i :: 0 <= i < |es| && es[i].AudioFrameOut? ==>
              var s := Run(m, es[..i]).next;
              s.bufferingEnabled && s.videoClock != Unset ==> AudioBranch(s, es[i].audio) != Bypass
  {
    forall i | 0 <= i < |es| && es[i].AudioFrameOut?
      ensures var s := Run(m, es[..i]).next;
              s.bufferingEnabled && s.videoClock != Unset ==> AudioBranch(s, es[i].audio) != Bypass
    {
      assert DisposeFree(es[..i]) by {
        forall j | 0 <= j < i ensures !es[..i][j].Disposed? {
          assert es[..i][j] == es[j];
        }
      }
      RunMonotone(m, es[..i]);
    }
  }

  /** Sum of the timestamps of the video emissions. */
  function VideoTime(out: seq<Emission>): real
  {
    if |out| == 0 then 0.0
    else (if out[0].stream == Video then out[0].timestamp else 0.0) + VideoTime(out[1..])
  }

  lemma {:induction false} VideoTimeAppend(a: seq<Emission>, b: seq<Emission>)
    ensures VideoTime(a + b) == VideoTime(a) + VideoTime(b)
    decreases |a|
  {
    if |a| > 0 {
      assert (a + b)[1..] == a[1..] + b;
      VideoTimeAppend(a[1..], b);
    } else {
      assert a + b == b;
    }
  }

  /** On a set video clock the video timestamps the sender receives add up to
      the distance, in ms, the video clock moved; the clock never moves back. */
  lemma {:induction false} VideoTimestampsTelescope(m: Muxer, es: seq<Event>)
    requires Valid(m) && DisposeFree(es) && Unset < m.videoClock
    ensures var r := Run(m, es);
            && m.videoClock <= r.next.videoClock
            && VideoTime(r.out) == (r.next.videoClock - m.videoClock) * 1000.0
    decreases |es|
  {
    if |es| > 0 {
      var s := Apply(m, es[0]);
      var rest := Run(s.next, es[1..]);
      assert DisposeFree(es[1..]) by {
        forall i | 0 <= i < |es[1..]| ensures !es[1..][i].Disposed? {
          assert es[1..][i] == es[i + 1];
        }
      }
      assert m.videoClock <= s.next.videoClock;
      assert VideoTime(s.out) == (s.next.videoClock - m.videoClock) * 1000.0;
      VideoTimestampsTelescope(s.next, es[1..]);
      VideoTimeAppend(s.out, rest.out);
    }
  }

  /** A video sample whose decode time is exactly zero leaves the video clock
      reading "unset", so the next sample is sent with delta 0 whatever its
      decode time. */
  lemma ZeroDecodeTimeReadsAsUnset(m: Muxer, f: VideoFrame, g: VideoFrame)
    requires VideoAccepted(m, f) && DecodeTime(f) == 0.0 && g.data.Some?
    ensures var s := VideoOutput(m, f);
            var t := VideoOutput(s.next, g);
            s.next.videoClock == Unset && |t.out| == 1 && t.out[0].timestamp == 0.0
  {
  }

  /** Audio at 0.48 s, video at 0.5 s, then audio at 0.5 s and at 0.52 s, fed
      to the callbacks exactly as the source writes them: none of them traps;
      the sample at 0.5 s is bypassed (its 20 ms delta exceeds the zero skew),
      the one at 0.52 s has a 20 ms delta against a 0.02 s skew, so it takes
      the Add branch, is still sent at once, and leaves one entry and 0.02 s
      of buffering behind. */
  lemma AddScenario()
    ensures var m0 := Initial(true);
            var a0 := AudioFrame(0.48, Some([0x20]));
            var v := VideoFrame(0.5, None, true, Some([0x65]));
            var a1 := AudioFrame(0.5, Some([0x21]));
            var a2 := AudioFrame(0.52, Some([0x22]));
            var o0 := AudioOutputAsWritten(m0, a0);
            && o0.Completed?
            && var m1 := VideoOutput(o0.step.next, v).next;
               var o1 := AudioOutputAsWritten(m1, a1);
               && AudioBranch(m1, a1) == Bypass
               && o1.Completed?
               && o1.step.out == [Emission(Audio, Flv.AacRawTag([0x21]), 20.0)]
               && var m2 := o1.step.next;
                  var o2 := AudioOutputAsWritten(m2, a2);
                  && AudioBranch(m2, a2) == Add
                  && o2.Completed?
                  && o2.step.out == [Emission(Audio, Flv.AacRawTag([0x22]), 20.0)]
                  && o2.step.next.audioBufferingTime == 0.02
                  && |o2.step.next.buffers| == 1
                  && o2.step.next.bufferCount == 1
                  && !IsFirstBufferingAudio(o2.step.next)
  {
  }
}
