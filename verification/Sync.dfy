/** Sample and camera clocks placed on one monotonic timeline. */
module Sync {
  import opened Bytes
  import opened Stream
  import opened Media

  const I64_MIN: int := -0x8000_0000_0000_0000
  const I64_MAX: int := 0x7fff_ffff_ffff_ffff

  datatype SyncError = ObservationBeforeStreamStart(streamStart: U64, observed: U64)

  datatype ClockAnchor = ClockAnchor(mediaPositionUs: U64, ptsUs: U64)

  // One track of the synchronizer: its anchor and the end of its last block.
  datatype Track = Track(anchor: Option<ClockAnchor>, lastEndUs: Option<U64>)

  datatype SyncState = SyncState(streamStart: U64, video: Track, audio: Track)

  function AnchoredPts(anchor: ClockAnchor, positionUs: U64): U64 {
    if positionUs >= anchor.mediaPositionUs then
      SaturatingAdd(anchor.ptsUs, positionUs - anchor.mediaPositionUs)
    else
      SaturatingSub(anchor.ptsUs, anchor.mediaPositionUs - positionUs)
  }

  function SamplesToUs(sampleFrames: nat, sampleRateHz: NonZeroU32): (us: U64)
  {
    var scaled := SaturatingMul(sampleFrames, 1_000_000);
    DivideShrinks(scaled, sampleRateHz);
    scaled / sampleRateHz
  }

  lemma {:induction false} DivideShrinks(n: nat, d: nat)
    requires d >= 1
    ensures 0 <= n / d <= n
  {
  }

  function SignedDifference(left: U64, right: U64): (d: int)
    ensures I64_MIN <= d <= I64_MAX
  {
    Max(I64_MIN, Min(left - right, I64_MAX))
  }

  // Place one block of a track whose observed time is already relative.
  function PlaceBlock(track: Track, positionUs: U64, durationUs: U64, observedPts: U64, source: bool)
    : (r: (Track, MediaTiming))
  {
    var anchor := if track.anchor.Some? then track.anchor.value else ClockAnchor(positionUs, observedPts);
    var pts := AnchoredPts(anchor, positionUs);
    (Track(Some(anchor), Some(SaturatingAdd(positionUs, durationUs))),
     MediaTiming(pts, durationUs, SignedDifference(observedPts, pts),
                 source || (track.lastEndUs.Some? && positionUs != track.lastEndUs.value)))
  }

  function VideoPositionUs(frame: CompressedFrame): U64 {
    SaturatingMul(frame.unwrapped, 1_000)
  }

  function VideoDurationUs(frame: CompressedFrame): U64 {
    SaturatingMul(frame.deltaToNext, 1_000)
  }

  function AudioPositionUs(a: TimedAudioChunk): U64 {
    SamplesToUs(a.chunk.startSampleFrame, a.format.sampleRateHz)
  }

  function AudioDurationUs(a: TimedAudioChunk): U64 {
    SamplesToUs(a.chunk.sampleFrames, a.format.sampleRateHz)
  }

  function TimeEvent(st: SyncState, event: MediaEvent): (SyncState, Result<MediaTiming, SyncError>) {
    if event.ObservedUs() < st.streamStart then
      (st, Err(ObservationBeforeStreamStart(st.streamStart, event.ObservedUs())))
    else
      var observed := event.ObservedUs() - st.streamStart;
      match event
      case VideoEvent(v) =>
        var (track, timing) := PlaceBlock(st.video, VideoPositionUs(v.frame), VideoDurationUs(v.frame),
                                          observed, v.sourceDiscontinuity);
        (st.(video := track), Ok(timing))
      case AudioEvent(a) =>
        var (track, timing) := PlaceBlock(st.audio, AudioPositionUs(a), AudioDurationUs(a),
                                          observed, a.sourceDiscontinuity);
        (st.(audio := track), Ok(timing))
  }

  class AvSynchronizer {
    const streamStart: U64
    var videoAnchor: Option<ClockAnchor>
    var audioAnchor: Option<ClockAnchor>
    var lastVideoPositionUs: Option<U64>
    var lastAudioEndUs: Option<U64>

    ghost function State(): SyncState
      reads this
    {
      SyncState(streamStart, Track(videoAnchor, lastVideoPositionUs), Track(audioAnchor, lastAudioEndUs))
    }

    constructor (streamStart: U64)
      ensures State() == SyncState(streamStart, Track(None, None), Track(None, None))
    {
      this.streamStart := streamStart;
      videoAnchor, audioAnchor, lastVideoPositionUs, lastAudioEndUs := None, None, None, None;
    }

    method ObservedPts(observed: U64) returns (r: Result<U64, SyncError>)
      ensures r == if observed < streamStart then Err(ObservationBeforeStreamStart(streamStart, observed))
                   else Ok(observed - streamStart)
    {
      if observed < streamStart {
        return Err(ObservationBeforeStreamStart(streamStart, observed));
      }
      r := Ok(observed - streamStart);
    }

    method VideoTiming(event: TimedVideoFrame) returns (r: Result<MediaTiming, SyncError>)
      modifies this
      ensures (State(), r) == TimeEvent(old(State()), VideoEvent(event))
    {
      var position := VideoPositionUs(event.frame);
      var duration := VideoDurationUs(event.frame);
      var observed := ObservedPts(event.observedAt);
      if observed.Err? {
        return Err(observed.error);
      }
      if videoAnchor.None? {
        videoAnchor := Some(ClockAnchor(position, observed.value));
      }
      var pts := AnchoredPts(videoAnchor.value, position);
      var discontinuity := event.sourceDiscontinuity
                           || (lastVideoPositionUs.Some? && position != lastVideoPositionUs.value);
      lastVideoPositionUs := Some(SaturatingAdd(position, duration));
      r := Ok(MediaTiming(pts, duration, SignedDifference(observed.value, pts), discontinuity));
    }

    method AudioTiming(event: TimedAudioChunk) returns (r: Result<MediaTiming, SyncError>)
      modifies this
      ensures (State(), r) == TimeEvent(old(State()), AudioEvent(event))
    {
      var position := AudioPositionUs(event);
      var duration := AudioDurationUs(event);
      var observed := ObservedPts(event.observedStart);
      if observed.Err? {
        return Err(observed.error);
      }
      if audioAnchor.None? {
        audioAnchor := Some(ClockAnchor(position, observed.value));
      }
      var pts := AnchoredPts(audioAnchor.value, position);
      var discontinuity := event.sourceDiscontinuity
                           || (lastAudioEndUs.Some? && position != lastAudioEndUs.value);
      lastAudioEndUs := Some(SaturatingAdd(position, duration));
      r := Ok(MediaTiming(pts, duration, SignedDifference(observed.value, pts), discontinuity));
    }

    method EventTiming(event: MediaEvent) returns (r: Result<MediaTiming, SyncError>)
      modifies this
      ensures (State(), r) == TimeEvent(old(State()), event)
    {
      match event
      case VideoEvent(v) => r := VideoTiming(v);
      case AudioEvent(a) => r := AudioTiming(a);
    }
  }
}
