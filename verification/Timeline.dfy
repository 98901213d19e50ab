/** Whole runs of the synchronizer: anchored clocks, no jitter, no false discontinuity. */
module Timeline {
  import opened Bytes
  import opened Jpeg
  import opened Stream
  import opened Media
  import opened Sync
  import opened Audio

  // What the synchronizer uses of an event; `observedUs` is relative to the start.
  datatype MediaBlock = MediaBlock(positionUs: U64, durationUs: U64, observedUs: U64, source: bool)

  function ToBlock(start: U64, event: MediaEvent): MediaBlock
    requires event.ObservedUs() >= start
  {
    match event
    case VideoEvent(v) =>
      MediaBlock(VideoPositionUs(v.frame), VideoDurationUs(v.frame), v.observedAt - start, v.sourceDiscontinuity)
    case AudioEvent(a) =>
      MediaBlock(AudioPositionUs(a), AudioDurationUs(a), a.observedStart - start, a.sourceDiscontinuity)
  }

  datatype Timed = Timed(state: SyncState, timings: seq<MediaTiming>, failed: bool)

  // A run over mixed events, stopping at the first observation before the start.
  function TimeAll(start: U64, events: seq<MediaEvent>): Timed {
    if events == [] then Timed(SyncState(start, Track(None, None), Track(None, None)), [], false)
    else
      var before := TimeAll(start, events[..|events| - 1]);
      if before.failed then before
      else
        var (state, r) := TimeEvent(before.state, events[|events| - 1]);
        Timed(state, if r.Ok? then before.timings + [r.value] else before.timings, r.Err?)
  }

  predicate NoneBefore(start: U64, events: seq<MediaEvent>) {
    forall k :: 0 <= k < |events| ==> events[k].ObservedUs() >= start
  }

  function OnTrack(start: U64, events: seq<MediaEvent>, video: bool): seq<MediaBlock>
    requires NoneBefore(start, events)
  {
    if events == [] then []
    else
      var last := events[|events| - 1];
      OnTrack(start, events[..|events| - 1], video)
      + if last.VideoEvent? == video then [ToBlock(start, last)] else []
  }

  function TimingsOnTrack(events: seq<MediaEvent>, timings: seq<MediaTiming>, video: bool): seq<MediaTiming>
    requires |events| == |timings|
  {
    if events == [] then []
    else
      TimingsOnTrack(events[..|events| - 1], timings[..|timings| - 1], video)
      + if events[|events| - 1].VideoEvent? == video then [timings[|timings| - 1]] else []
  }

  // One track alone, in closed form: everything is measured from its first block.

  function AnchorOf(blocks: seq<MediaBlock>): ClockAnchor
    requires blocks != []
  {
    ClockAnchor(blocks[0].positionUs, blocks[0].observedUs)
  }

  function EndOf(b: MediaBlock): U64 {
    SaturatingAdd(b.positionUs, b.durationUs)
  }

  function TrackTiming(blocks: seq<MediaBlock>, k: nat): MediaTiming
    requires k < |blocks|
  {
    var pts := AnchoredPts(AnchorOf(blocks), blocks[k].positionUs);
    MediaTiming(pts, blocks[k].durationUs, SignedDifference(blocks[k].observedUs, pts),
                blocks[k].source || (k > 0 && blocks[k].positionUs != EndOf(blocks[k - 1])))
  }

  function TrackAfter(blocks: seq<MediaBlock>): Track {
    if blocks == [] then Track(None, None)
    else Track(Some(AnchorOf(blocks)), Some(EndOf(blocks[|blocks| - 1])))
  }

  ghost predicate MatchesTrack(timings: seq<MediaTiming>, blocks: seq<MediaBlock>) {
    && |timings| == |blocks|
    && forall k :: 0 <= k < |blocks| ==> timings[k] == TrackTiming(blocks, k)
  }

  lemma {:induction false} PlaceExtends(blocks: seq<MediaBlock>, timings: seq<MediaTiming>, b: MediaBlock)
    requires MatchesTrack(timings, blocks)
    ensures var (track, timing) := PlaceBlock(TrackAfter(blocks), b.positionUs, b.durationUs, b.observedUs, b.source);
            track == TrackAfter(blocks + [b]) && MatchesTrack(timings + [timing], blocks + [b])
  {
    var (track, timing) := PlaceBlock(TrackAfter(blocks), b.positionUs, b.durationUs, b.observedUs, b.source);
    forall k | 0 <= k < |blocks| + 1
      ensures (timings + [timing])[k] == TrackTiming(blocks + [b], k)
    {
      if k < |blocks| {
        assert TrackTiming(blocks + [b], k) == TrackTiming(blocks, k);
      }
    }
  }

  ghost predicate TracksAgree(start: U64, events: seq<MediaEvent>, t: Timed)
    requires NoneBefore(start, events)
  {
    && |t.timings| == |events|
    && t.state == SyncState(start, TrackAfter(OnTrack(start, events, true)), TrackAfter(OnTrack(start, events, false)))
    && MatchesTrack(TimingsOnTrack(events, t.timings, true), OnTrack(start, events, true))
    && MatchesTrack(TimingsOnTrack(events, t.timings, false), OnTrack(start, events, false))
  }

  lemma {:induction false} FailsIffEarly(start: U64, events: seq<MediaEvent>)
    ensures TimeAll(start, events).state.streamStart == start
    ensures TimeAll(start, events).failed <==> !NoneBefore(start, events)
  {
    if events != [] {
      var init, last := events[..|events| - 1], events[|events| - 1];
      FailsIffEarly(start, init);
      assert forall k :: 0 <= k < |init| ==> events[k] == init[k];
      assert NoneBefore(start, events) <==> NoneBefore(start, init) && last.ObservedUs() >= start;
    }
  }

  // In any interleaving the two tracks do not influence each other: each is
  // timed from its own first block alone.
  lemma {:induction false} TracksAreIndependent(start: U64, events: seq<MediaEvent>)
    requires NoneBefore(start, events)
    ensures !TimeAll(start, events).failed && TracksAgree(start, events, TimeAll(start, events))
  {
    if events != [] {
      var init, last := events[..|events| - 1], events[|events| - 1];
      TracksAreIndependent(start, init);
      hide TracksAgree;
      TrackStep(start, init, TimeAll(start, init), last);
      assert init + [last] == events;
    }
  }

  lemma {:induction false} TrackStep(start: U64, events: seq<MediaEvent>, before: Timed, last: MediaEvent)
    requires NoneBefore(start, events)
    requires last.ObservedUs() >= start && TracksAgree(start, events, before)
    ensures var (state, r) := TimeEvent(before.state, last);
            r.Ok? && TracksAgree(start, events + [last], Timed(state, before.timings + [r.value], false))
  {
    var (state, r) := TimeEvent(before.state, last);
    var b := ToBlock(start, last);
    assert (events + [last])[..|events|] == events;
    assert (before.timings + [r.value])[..|events|] == before.timings;
    var video := last.VideoEvent?;
    var blocks := OnTrack(start, events, video);
    PlaceExtends(blocks, TimingsOnTrack(events, before.timings, video), b);
    assert OnTrack(start, events, !video) + [] == OnTrack(start, events, !video);
    assert TimingsOnTrack(events, before.timings, !video) + [] == TimingsOnTrack(events, before.timings, !video);
  }

  // ---------------------------------------------------------------------
  // Consequences for one track.

  // No PTS of the track leaves the range of u64.
  ghost predicate Representable(blocks: seq<MediaBlock>) {
    forall k :: 0 <= k < |blocks| ==>
      0 <= blocks[0].observedUs + blocks[k].positionUs - blocks[0].positionUs <= U64_MAX
  }

  // PTS differences are media-position differences: arrival times play no part.
  lemma {:induction false} PtsFollowsPosition(blocks: seq<MediaBlock>, i: nat, j: nat)
    requires i < |blocks| && j < |blocks| && Representable(blocks)
    ensures TrackTiming(blocks, j).ptsUs - TrackTiming(blocks, i).ptsUs
            == blocks[j].positionUs - blocks[i].positionUs
    ensures TrackTiming(blocks, 0).ptsUs == blocks[0].observedUs
  {
  }

  // Two deliveries of the same media with different jitter.
  ghost predicate SameMedia(a: seq<MediaBlock>, b: seq<MediaBlock>) {
    && |a| == |b|
    && (a != [] ==> a[0].observedUs == b[0].observedUs)
    && forall k :: 0 <= k < |a| ==>
         a[k].positionUs == b[k].positionUs && a[k].durationUs == b[k].durationUs && a[k].source == b[k].source
  }

  lemma {:induction false} JitterFree(a: seq<MediaBlock>, b: seq<MediaBlock>, k: nat)
    requires SameMedia(a, b) && k < |a|
    ensures var x, y := TrackTiming(a, k), TrackTiming(b, k);
            x.ptsUs == y.ptsUs && x.durationUs == y.durationUs && x.discontinuity == y.discontinuity
  {
    assert a[0].positionUs == b[0].positionUs;
    if k > 0 {
      assert EndOf(a[k - 1]) == EndOf(b[k - 1]);
    }
  }

  // ---------------------------------------------------------------------
  // The decoder's frames on the video track.

  // Consecutive frames of one decoder epoch.
  ghost predicate FramesTile(frames: seq<CompressedFrame>) {
    && (frames != [] ==> frames[0].unwrapped == 0)
    && forall k {:trigger frames[k]} :: 0 < k < |frames| ==>
         frames[k].unwrapped == frames[k - 1].unwrapped + frames[k - 1].deltaToNext
  }

  lemma {:induction false} FrameFollows(config: Config, rs: seq<RawRecord>, k: nat)
    requires HeadsAreHeaders(rs) && InnerEntropy(rs) && 0 < k && k + 2 < |rs|
    ensures var frames := BatchFrames(config, rs);
            frames[k].unwrapped == frames[k - 1].unwrapped + frames[k - 1].deltaToNext
  {
    BatchFrameAt(config, rs, k);
    BatchFrameAt(config, rs, k - 1);
    hide StartsWithSync, Reconstruct, BatchFrames, HasEntropy;
  }

  lemma {:induction false} BatchFramesTile(config: Config, rs: seq<RawRecord>)
    requires HeadsAreHeaders(rs) && InnerEntropy(rs)
    ensures FramesTile(BatchFrames(config, rs))
  {
    var frames := BatchFrames(config, rs);
    hide StartsWithSync, Reconstruct, BatchFrames, HasEntropy;
    if frames != [] {
      BatchFrameAt(config, rs, 0);
    }
    forall k {:trigger frames[k]} | 0 < k < |frames|
      ensures frames[k].unwrapped == frames[k - 1].unwrapped + frames[k - 1].deltaToNext
    {
      FrameFollows(config, rs, k);
    }
  }

  lemma {:induction false} DecodedFramesTile(config: Config, packets: seq<Packet>)
    requires !Decode(config, packets).failed
    ensures FramesTile(Decode(config, packets).frames)
  {
    DecoderRefinesBatch(config, packets);
    BatchFramesTile(config, LayoutOf(packets).records);
  }

  // The blocks made from frames, with any observation times and source flags.
  ghost predicate CarriesFrames(blocks: seq<MediaBlock>, frames: seq<CompressedFrame>) {
    && |blocks| == |frames|
    && forall k :: 0 <= k < |frames| ==>
         && blocks[k].positionUs == VideoPositionUs(frames[k])
         && blocks[k].durationUs == VideoDurationUs(frames[k])
  }

  // The end of the last frame still fits in u64 microseconds on the timeline.
  ghost predicate ClockFits(frames: seq<CompressedFrame>, firstObservedUs: nat) {
    forall k :: 0 <= k < |frames| ==>
      firstObservedUs + 1_000 * (frames[k].unwrapped + frames[k].deltaToNext) <= U64_MAX
  }

  // Decoder into synchronizer, within one epoch: PTS is the first observation
  // plus the camera's elapsed time, successive frames tile and never go back,
  // and a discontinuity is flagged exactly when the backend reported one.
  lemma {:induction false} VideoTimeline(frames: seq<CompressedFrame>, blocks: seq<MediaBlock>, k: nat)
    requires FramesTile(frames) && CarriesFrames(blocks, frames) && k < |frames|
    requires ClockFits(frames, blocks[0].observedUs)
    ensures TrackTiming(blocks, k).ptsUs == blocks[0].observedUs + 1_000 * frames[k].unwrapped
    ensures TrackTiming(blocks, k).durationUs == 1_000 * frames[k].deltaToNext
    ensures TrackTiming(blocks, k).discontinuity == blocks[k].source
    ensures k + 1 < |frames| ==>
              TrackTiming(blocks, k + 1).ptsUs == TrackTiming(blocks, k).ptsUs + TrackTiming(blocks, k).durationUs
  {
    assert frames[0].unwrapped == 0;
    assert blocks[0].positionUs == 0;
    assert ClockFits(frames, blocks[0].observedUs);
    if k > 0 {
      assert EndOf(blocks[k - 1]) == 1_000 * (frames[k - 1].unwrapped + frames[k - 1].deltaToNext);
    }
  }

  // ---------------------------------------------------------------------
  // Audio chunks on the audio track.

  ghost predicate CarriesChunks(blocks: seq<MediaBlock>, chunks: seq<AudioChunk>, rate: NonZeroU32) {
    && |blocks| == |chunks|
    && forall k :: 0 <= k < |chunks| ==>
         && blocks[k].positionUs == SamplesToUs(chunks[k].startSampleFrame, rate)
         && blocks[k].durationUs == SamplesToUs(chunks[k].sampleFrames, rate)
  }

  // Contiguous audio is flagged without the backend's word exactly when the two
  // roundings carry; the mismatch is then a single microsecond.
  lemma {:induction false} AudioDiscontinuityIff(
    blocks: seq<MediaBlock>, chunks: seq<AudioChunk>, rate: NonZeroU32, k: nat)
    requires Contiguous(chunks) && CarriesChunks(blocks, chunks, rate) && 0 < k < |chunks|
    requires Unsaturated(chunks[k].startSampleFrame)
    ensures TrackTiming(blocks, k).discontinuity
            <==> blocks[k].source
                 || Residue(chunks[k - 1].startSampleFrame, rate) + Residue(chunks[k - 1].sampleFrames, rate) >= rate
    ensures EndOf(blocks[k - 1]) <= blocks[k].positionUs <= EndOf(blocks[k - 1]) + 1
  {
    PredictedEndIff(chunks[k - 1].startSampleFrame, chunks[k - 1].sampleFrames, rate);
    assert chunks[k].startSampleFrame == chunks[k - 1].startSampleFrame + chunks[k - 1].sampleFrames;
  }

  function PeriodChunk(k: nat): AudioChunk {
    AudioChunk(seq(2560, _ => 0), 640 * k, 640)
  }

  // At 44 100 Hz four contiguous periods of 640 frames, never flagged by the
  // backend, are enough: the fourth starts one microsecond after the third ends.
  lemma {:induction false} FalseDiscontinuityAt44100(blocks: seq<MediaBlock>)
    requires CarriesChunks(blocks, [PeriodChunk(0), PeriodChunk(1), PeriodChunk(2), PeriodChunk(3)], 44_100)
    requires !blocks[3].source
    ensures TrackTiming(blocks, 3).discontinuity
    ensures Contiguous([PeriodChunk(0), PeriodChunk(1), PeriodChunk(2), PeriodChunk(3)])
  {
    var chunks := [PeriodChunk(0), PeriodChunk(1), PeriodChunk(2), PeriodChunk(3)];
    AudioDiscontinuityIff(blocks, chunks, 44_100, 3);
    assert Residue(1280, 44_100) == 41_600 && Residue(640, 44_100) == 20_800;
  }

  lemma {:induction false} NoFalseDiscontinuityAt16k(blocks: seq<MediaBlock>, chunks: seq<AudioChunk>, k: nat)
    requires Contiguous(chunks) && CarriesChunks(blocks, chunks, AUDIO_SAMPLE_RATE_HZ) && 0 < k < |chunks|
    requires Unsaturated(chunks[k].startSampleFrame)
    requires chunks[k - 1].sampleFrames % 2 == 0
    ensures TrackTiming(blocks, k).discontinuity == blocks[k].source
  {
    AudioDiscontinuityIff(blocks, chunks, AUDIO_SAMPLE_RATE_HZ, k);
    EvenIsExactAt16k(chunks[k - 1].sampleFrames);
  }

  ghost predicate WholePeriods(chunks: seq<AudioChunk>) {
    forall k :: 0 <= k < |chunks| ==>
      chunks[k].sampleFrames == PERIOD_SAMPLE_FRAMES && chunks[k].startSampleFrame == PERIOD_SAMPLE_FRAMES * k
  }

  // Periods of 640 frames at 16 kHz: the PTS advances by exactly 40 ms each.
  lemma {:induction false} PeriodTimeline(blocks: seq<MediaBlock>, chunks: seq<AudioChunk>, k: nat)
    requires WholePeriods(chunks) && CarriesChunks(blocks, chunks, AUDIO_SAMPLE_RATE_HZ) && k < |chunks|
    requires blocks[0].observedUs + 40_000 * |chunks| <= U64_MAX / 16_000
    ensures TrackTiming(blocks, k).ptsUs == blocks[0].observedUs + 40_000 * k
    ensures TrackTiming(blocks, k).durationUs == 40_000
    ensures TrackTiming(blocks, k).discontinuity == blocks[k].source
  {
    PeriodPosition(k);
    PeriodPosition(0);
    PeriodPosition(1);
    assert chunks[k].startSampleFrame == PERIOD_SAMPLE_FRAMES * k;
    if k > 0 {
      PeriodPosition(k - 1);
    }
  }

  lemma {:induction false} PeriodPosition(k: nat)
    requires 40_000 * k <= U64_MAX / 16_000
    ensures SamplesToUs(PERIOD_SAMPLE_FRAMES * k, AUDIO_SAMPLE_RATE_HZ) == 40_000 * k
  {
  }
}
