/** What a recorded file says: the end-to-end theorems about a capture. */
module CaptureTimeline {
  import opened Bytes
  import opened Stream
  import opened Media
  import opened Sync
  import opened Audio
  import opened EventOrder
  import opened Matroska
  import opened MatroskaWriter
  import opened Timeline
  import opened Clock
  import opened EpochClock
  import opened Capture
  import AlsaWorker

  // All batches, sorted one by one.
  function EventsOf(config: Config, rounds: seq<Round>): seq<MediaEvent> {
    if rounds == [] then [] else EventsOf(config, rounds[..|rounds| - 1]) + StableSort(LastBatch(config, rounds))
  }

  function SourceOf(config: Config, rounds: seq<Round>): Source {
    if rounds == [] then Source(FRESH, false)
    else TakeRound(config, SourceOf(config, rounds[..|rounds| - 1]), rounds[|rounds| - 1]).0
  }

  function LastBatch(config: Config, rounds: seq<Round>): seq<MediaEvent>
    requires rounds != []
  {
    TakeRound(config, SourceOf(config, rounds[..|rounds| - 1]), rounds[|rounds| - 1]).1
  }

  function BlocksFor(events: seq<MediaEvent>, timings: seq<MediaTiming>, delayMs: int): (blocks: seq<Block>)
    requires |events| == |timings|
    ensures |blocks| == |events|
  {
    seq(|events|, k requires 0 <= k < |events| => BlockOf(CallFor(events[k], timings[k], delayMs)))
  }

  // The accepted blocks are those for `events`, timed in order.
  ghost predicate Plays(format: AudioFormat, delayMs: int, p: Play, events: seq<MediaEvent>) {
    var timed := TimeAll(0, events);
    && |timed.timings| == |events| && !timed.failed && (p.end.None? ==> p.sync == timed.state)
    && AcceptedBlocks(format, p.calls) == BlocksFor(events, timed.timings, delayMs)
  }

  // The accepted blocks are those of the first events, and of all of them unless
  // the session has ended.
  ghost predicate PlaysPrefix(format: AudioFormat, delayMs: int, p: Play, events: seq<MediaEvent>) {
    var n := |AcceptedBlocks(format, p.calls)|;
    && n <= |events| && (p.end.None? ==> n == |events|)
    && Plays(format, delayMs, p, events[..n])
  }

  lemma {:induction false} TimeAllSnoc(events: seq<MediaEvent>, event: MediaEvent)
    requires !TimeAll(0, events).failed
    ensures var (state, r) := TimeEvent(TimeAll(0, events).state, event);
            TimeAll(0, events + [event])
            == Timed(state, if r.Ok? then TimeAll(0, events).timings + [r.value] else TimeAll(0, events).timings,
                     r.Err?)
  {
    hide TimeEvent;
    assert (events + [event])[..|events|] == events;
  }

  lemma {:induction false} PlayEventKeeps(
    format: AudioFormat, delayMs: int, p: Play, events: seq<MediaEvent>, event: MediaEvent)
    requires Plays(format, delayMs, p, events) && p.end.None?
    ensures var p' := PlayEvent(format, delayMs, p, event);
            Plays(format, delayMs, p', if p'.end.None? then events + [event] else events)
  {
    hide TimeEvent, TimeAll, CallFor, BlockOf, Rejection, AcceptedBlocks;
    TimeAllSnoc(events, event);
    var timing := TimeEvent(p.sync, event).1;
    if timing.Ok? {
      var call := CallFor(event, timing.value, delayMs);
      CallsSnoc(Floats((_: U64) => ZERO_FLOAT, (_: NonZeroU32) => ZERO_FLOAT), format, p.calls, call);
      var timings := TimeAll(0, events).timings;
      assert BlocksFor(events + [event], timings + [timing.value], delayMs)
          == BlocksFor(events, timings, delayMs) + [BlockOf(call)];
    }
  }

  lemma {:induction false} PlayedCount(format: AudioFormat, delayMs: int, p: Play, events: seq<MediaEvent>)
    requires Plays(format, delayMs, p, events)
    ensures |AcceptedBlocks(format, p.calls)| == |events|
  {
    hide AcceptedBlocks, TimeAll;
  }

  lemma {:induction false} PrefixOneMore(
    format: AudioFormat, delayMs: int, p: Play, events: seq<MediaEvent>, event: MediaEvent)
    requires PlaysPrefix(format, delayMs, p, events)
    ensures PlaysPrefix(format, delayMs, PlayEvent(format, delayMs, p, event), events + [event])
  {
    var n := |AcceptedBlocks(format, p.calls)|;
    var p' := PlayEvent(format, delayMs, p, event);
    assert (events + [event])[..n] == events[..n];
    if p.end.None? {
      assert events[..n] == events && (events + [event])[..n + 1] == events + [event];
      PlayEventKeeps(format, delayMs, p, events, event);
      hide Plays, AcceptedBlocks, PlayEvent;
      PlayedCount(format, delayMs, p', if p'.end.None? then events + [event] else events);
    }
  }

  lemma {:induction false} PrefixMoreEvents(
    format: AudioFormat, delayMs: int, p: Play, prior: seq<MediaEvent>, batch: seq<MediaEvent>)
    requires PlaysPrefix(format, delayMs, p, prior)
    ensures PlaysPrefix(format, delayMs, PlayEvents(format, delayMs, p, batch), prior + batch)
    decreases |batch|
  {
    hide PlaysPrefix, PlayEvent;
    if batch == [] {
      assert prior + batch == prior;
    } else {
      var init, last := batch[..|batch| - 1], batch[|batch| - 1];
      PrefixMoreEvents(format, delayMs, p, prior, init);
      PrefixOneMore(format, delayMs, PlayEvents(format, delayMs, p, init), prior + init, last);
      assert prior + init + [last] == prior + batch;
    }
  }

  lemma {:induction false} EndedPrefix(
    format: AudioFormat, delayMs: int, p: Play, end: End, events: seq<MediaEvent>, more: seq<MediaEvent>)
    requires PlaysPrefix(format, delayMs, p, events)
    ensures PlaysPrefix(format, delayMs, p.(end := Some(end)), events + more)
  {
    hide AcceptedBlocks, TimeAll;
    var n := |AcceptedBlocks(format, p.calls)|;
    assert (events + more)[..n] == events[..n];
  }

  lemma {:induction false} FlushKeeps(format: AudioFormat, delayMs: int, p: Play, events: seq<MediaEvent>)
    requires PlaysPrefix(format, delayMs, p, events)
    ensures PlaysPrefix(format, delayMs, p.(calls := p.calls + [Flush]), events)
  {
    CallsSnoc(Floats((_: U64) => ZERO_FLOAT, (_: NonZeroU32) => ZERO_FLOAT), format, p.calls, Flush);
    hide AcceptedBlocks, TimeAll;
  }

  // Every session, however it ends, wrote exactly the first of the sorted and
  // timed events, in order; one that was not cut short wrote all of them.
  lemma {:induction false} SessionPlaysEvents(config: Config, format: AudioFormat, delayMs: int, rounds: seq<Round>)
    ensures var c := PlayRounds(config, format, delayMs, rounds);
            && (c.play.end.None? ==> c.source == SourceOf(config, rounds))
            && PlaysPrefix(format, delayMs, c.play, EventsOf(config, rounds))
  {
    hide PlayEvents, StableSort, TakeRound, RoundEnd;
    if rounds == [] {
      assert BlocksFor([], [], delayMs) == [];
    } else {
      var init, last := rounds[..|rounds| - 1], rounds[|rounds| - 1];
      var c := PlayRounds(config, format, delayMs, init);
      SessionPlaysEvents(config, format, delayMs, init);
      hide PlaysPrefix, AcceptedBlocks;
      var events, batch := EventsOf(config, init), StableSort(LastBatch(config, rounds));
      if c.play.end.Some? {
        EndedPrefix(format, delayMs, c.play, c.play.end.value, events, batch);
      } else if RoundEnd(last).Some? {
        EndedPrefix(format, delayMs, c.play, RoundEnd(last).value, events, batch);
      } else {
        PrefixMoreEvents(format, delayMs, c.play, events, batch);
        FlushKeeps(format, delayMs, PlayEvents(format, delayMs, c.play, batch), events + batch);
      }
    }
  }

  // A session cut short by the devices wrote what its rounds before that wrote.
  lemma {:induction false} CutShortAtARound(config: Config, format: AudioFormat, delayMs: int, rounds: seq<Round>)
    returns (n: nat)
    requires var end := PlayRounds(config, format, delayMs, rounds).play.end;
             end.Some? && !end.value.Unwritten? && !end.value.Untimed?
    ensures n < |rounds| && RoundEnd(rounds[n]).Some?
    ensures PlayRounds(config, format, delayMs, rounds[..n]).play.end.None?
    ensures PlayRounds(config, format, delayMs, rounds[..n]).play.calls
            == PlayRounds(config, format, delayMs, rounds).play.calls
  {
    hide PlayEvents, StableSort, TakeRound, RoundEnd;
    n := |rounds| - 1;
    var before := PlayRounds(config, format, delayMs, rounds[..n]);
    if before.play.end.Some? {
      n := CutShortAtARound(config, format, delayMs, rounds[..n]);
      assert rounds[..|rounds| - 1][..n] == rounds[..n];
    } else if RoundEnd(rounds[n]).None? {
      var batch := StableSort(TakeRound(config, before.source, rounds[n]).1);
      PlayEndsOnErrors(format, delayMs, before.play, batch);
    }
  }

  lemma {:induction false} PlayEndsOnErrors(format: AudioFormat, delayMs: int, p: Play, events: seq<MediaEvent>)
    requires p.end.None?
    ensures var end := PlayEvents(format, delayMs, p, events).end;
            end.None? || end.value.Unwritten? || end.value.Untimed?
  {
    hide TimeEvent, Rejection, CallFor;
    if events != [] {
      PlayEndsOnErrors(format, delayMs, p, events[..|events| - 1]);
    }
  }

  // ---------------------------------------------------------------------
  // What the sorted events carry: the worker's chunks, and the frames of the
  // decoder's epochs.

  function ChunksOf(rounds: seq<Round>): seq<MediaEvent> {
    if rounds == [] then [] else ChunksOf(rounds[..|rounds| - 1]) + ChunkEvents(rounds[|rounds| - 1].audio)
  }

  lemma {:induction false} SelectUniform(events: seq<MediaEvent>, video: bool)
    requires forall k :: 0 <= k < |events| ==> events[k].VideoEvent? == video
    ensures Select(events, video) == events && Select(events, !video) == []
  {
    if events != [] {
      SelectUniform(events[..|events| - 1], video);
    }
  }

  lemma {:induction false} BatchTracks(config: Config, rounds: seq<Round>)
    requires rounds != []
    ensures var round := rounds[|rounds| - 1];
            var source := SourceOf(config, rounds[..|rounds| - 1]);
            && Select(LastBatch(config, rounds), true) == TakeUsb(config, source, UsbOf(round)).1
            && Select(LastBatch(config, rounds), false) == ChunkEvents(round.audio)
  {
    hide TakeUsb, ChunkEvents, SourceOf;
    var round := rounds[|rounds| - 1];
    var audio := ChunkEvents(round.audio);
    var media := TakeUsb(config, SourceOf(config, rounds[..|rounds| - 1]), UsbOf(round)).1;
    SelectUniform(audio, false);
    SelectUniform(media, true);
    hide Select;
    SelectAppend(audio, media, true);
    SelectAppend(audio, media, false);
  }

  // In no batch does a chunk's observed time go back.
  ghost predicate AudioKept(rounds: seq<Round>) {
    forall i :: 0 <= i < |rounds| ==> Ordered(ChunkEvents(rounds[i].audio))
  }

  // In no batch does a frame's observed time go back.
  ghost predicate VideoKept(config: Config, rounds: seq<Round>) {
    rounds == []
    || (VideoKept(config, rounds[..|rounds| - 1]) && Ordered(Select(LastBatch(config, rounds), true)))
  }

  lemma {:induction false} EventsCarryChunks(config: Config, rounds: seq<Round>)
    requires AudioKept(rounds)
    ensures Select(EventsOf(config, rounds), false) == ChunksOf(rounds)
  {
    hide Ordered, ChunkEvents, StableSort, LastBatch;
    if rounds != [] {
      var init := rounds[..|rounds| - 1];
      assert forall i :: 0 <= i < |init| ==> init[i] == rounds[i];
      EventsCarryChunks(config, init);
      BatchTracks(config, rounds);
      hide Select;
      var batch := LastBatch(config, rounds);
      SortKeepsTrackIff(batch, false);
      SelectAppend(EventsOf(config, init), StableSort(batch), false);
    }
  }

  function UsbEventsOf(rounds: seq<Round>): seq<UsbEvent> {
    if rounds == [] then [] else UsbEventsOf(rounds[..|rounds| - 1]) + UsbOf(rounds[|rounds| - 1])
  }

  // The packets received, cut where the decoder is reset: at packet errors and
  // after every packet it rejects. The last epoch is the open one.
  function SessionEpochs(config: Config, events: seq<UsbEvent>): (epochs: seq<seq<Packet>>)
    ensures |epochs| >= 1
  {
    if events == [] then [[]]
    else
      NextEpochs(config, SessionEpochs(config, events[..|events| - 1]), events[|events| - 1])
  }

  function NextEpochs(config: Config, epochs: seq<seq<Packet>>, event: UsbEvent): (next: seq<seq<Packet>>)
    requires |epochs| >= 1
    ensures |next| >= 1
  {
    var n := |epochs| - 1;
    match event.event
    case PacketReceived(endpoint, data) =>
      var epoch := epochs[n] + [Packet(endpoint, data)];
      epochs[..n] + [epoch] + if Decode(config, epoch).failed then [[]] else []
    case PacketError(_, _) => epochs + [[]]
    case _ => epochs
  }

  function FrameList(events: seq<MediaEvent>): (frames: seq<CompressedFrame>)
    requires forall k :: 0 <= k < |events| ==> events[k].VideoEvent?
    ensures |frames| == |events|
  {
    seq(|events|, k requires 0 <= k < |events| => events[k].video.frame)
  }

  lemma {:induction false} FrameListAppend(a: seq<MediaEvent>, b: seq<MediaEvent>)
    requires forall k :: 0 <= k < |a| ==> a[k].VideoEvent?
    requires forall k :: 0 <= k < |b| ==> b[k].VideoEvent?
    ensures FrameList(a + b) == FrameList(a) + FrameList(b)
  {
  }

  lemma {:induction false} EpochFramesSnoc(config: Config, epochs: seq<seq<Packet>>, epoch: seq<Packet>)
    ensures EpochFrames(config, epochs + [epoch]) == EpochFrames(config, epochs) + Decode(config, epoch).frames
  {
    assert (epochs + [epoch])[..|epochs|] == epochs;
  }

  lemma {:induction false} EpochFramesEmpty(config: Config, epochs: seq<seq<Packet>>)
    ensures EpochFrames(config, epochs + [[]]) == EpochFrames(config, epochs)
    ensures Decode(config, []) == Decoded(FRESH, [], false)
  {
    EpochFramesSnoc(config, epochs, []);
    assert EpochFrames(config, epochs) + [] == EpochFrames(config, epochs);
  }

  // Where the decoder is after these epochs, and what it has emitted.
  ghost predicate Reaches(config: Config, epochs: seq<seq<Packet>>, source: Source, frames: seq<CompressedFrame>)
    requires |epochs| >= 1
  {
    var d := Decode(config, epochs[|epochs| - 1]);
    !d.failed && source.decoder == d.state && frames == EpochFrames(config, epochs)
  }

  lemma {:induction false} EpochStep(
    config: Config, epochs: seq<seq<Packet>>, source: Source, frames: seq<CompressedFrame>, event: UsbEvent)
    requires |epochs| >= 1 && Reaches(config, epochs, source, frames)
    ensures var (after, media) := TakePacket(config, source, event);
            && (forall k :: 0 <= k < |media| ==> media[k].VideoEvent?)
            && Reaches(config, NextEpochs(config, epochs, event), after, frames + FrameList(media))
  {
    var (after, media) := TakePacket(config, source, event);
    if event.event.PacketReceived? {
      ReceiveStep(config, epochs, source, frames, event);
    } else {
      hide Decode;
      assert frames + [] == frames;
      EpochFramesEmpty(config, epochs);
    }
  }

  lemma {:induction false} ReceiveStep(
    config: Config, epochs: seq<seq<Packet>>, source: Source, frames: seq<CompressedFrame>, event: UsbEvent)
    requires |epochs| >= 1 && Reaches(config, epochs, source, frames) && event.event.PacketReceived?
    ensures var (after, media) := TakePacket(config, source, event);
            && (forall k :: 0 <= k < |media| ==> media[k].VideoEvent?)
            && Reaches(config, NextEpochs(config, epochs, event), after, frames + FrameList(media))
  {
    hide Step, Decode, EpochFrames;
    var n := |epochs| - 1;
    var packet := Packet(event.event.endpoint, event.event.data);
    var epoch, media := epochs[n] + [packet], TakePacket(config, source, event).1;
    var emitted := Emitted(Step(config, source.decoder, packet).1);
    DecodeSnoc(config, epochs[n], packet);
    assert FrameList(media) == emitted;
    assert epochs == epochs[..n] + [epochs[n]];
    EpochFramesSnoc(config, epochs[..n], epochs[n]);
    EpochFramesSnoc(config, epochs[..n], epoch);
    Associate(EpochFrames(config, epochs[..n]), Decode(config, epochs[n]).frames, emitted);
    EpochFramesEmpty(config, epochs[..n] + [epoch]);
    assert epochs[..n] + [epoch] + [] == epochs[..n] + [epoch];
  }

  // Taking in events is decoding their epochs, each by a fresh decoder.
  lemma {:induction false} TakeUsbEpochs(config: Config, events: seq<UsbEvent>)
    ensures var (source, media) := TakeUsb(config, Source(FRESH, false), events);
            Reaches(config, SessionEpochs(config, events), source, FrameList(media))
  {
    hide Step, Decode, Reaches, TakePacket, NextEpochs;
    if events == [] {
      NoEvents(config);
    } else {
      var init, last := events[..|events| - 1], events[|events| - 1];
      assert events == init + [last];
      TakeUsbEpochs(config, init);
      var (before, media) := TakeUsb(config, Source(FRESH, false), init);
      TakeUsbSnoc(config, Source(FRESH, false), init, last);
      EpochStep(config, SessionEpochs(config, init), before, FrameList(media), last);
      FrameListAppend(media, TakePacket(config, before, last).1);
    }
  }

  lemma {:induction false} NoEvents(config: Config)
    ensures Reaches(config, [[]], Source(FRESH, false), [])
  {
    var none: seq<seq<Packet>> := [];
    EpochFramesEmpty(config, none);
    assert none + [[]] == [[]];
  }

  lemma {:induction false} TakeUsbAppend(config: Config, source: Source, a: seq<UsbEvent>, b: seq<UsbEvent>)
    ensures var (middle, media) := TakeUsb(config, source, a);
            TakeUsb(config, source, a + b) == (TakeUsb(config, middle, b).0, media + TakeUsb(config, middle, b).1)
    decreases |b|
  {
    hide TakePacket;
    var (middle, media) := TakeUsb(config, source, a);
    if b == [] {
      assert a + b == a && media + [] == media;
    } else {
      var init, last := b[..|b| - 1], b[|b| - 1];
      assert b == init + [last];
      TakeUsbAppend(config, source, a, init);
      Associate(a, init, [last]);
      TakeUsbSnoc(config, source, a + init, last);
      TakeUsbSnoc(config, middle, init, last);
      hide TakeUsb;
      var (before, more) := TakeUsb(config, middle, init);
      Associate(media, more, TakePacket(config, before, last).1);
    }
  }

  // With video order kept, the frames written in order are those of the epochs.
  lemma {:induction false} EventsCarryEpochs(config: Config, rounds: seq<Round>)
    requires VideoKept(config, rounds)
    ensures FrameList(Select(EventsOf(config, rounds), true))
            == EpochFrames(config, SessionEpochs(config, UsbEventsOf(rounds)))
  {
    EventsCarryVideo(config, rounds);
    TakeUsbEpochs(config, UsbEventsOf(rounds));
    hide TakeUsb, SessionEpochs, EventsOf, Select, EpochFrames;
  }

  lemma {:induction false} EventsCarryVideo(config: Config, rounds: seq<Round>)
    requires VideoKept(config, rounds)
    ensures TakeUsb(config, Source(FRESH, false), UsbEventsOf(rounds))
            == (SourceOf(config, rounds), Select(EventsOf(config, rounds), true))
  {
    hide Ordered, StableSort, TakeUsb, ChunkEvents;
    if rounds == [] {
      NoUsb(config);
    } else {
      var init := rounds[..|rounds| - 1];
      EventsCarryVideo(config, init);
      BatchTracks(config, rounds);
      hide Select;
      var batch := LastBatch(config, rounds);
      SortKeepsTrackIff(batch, true);
      SelectAppend(EventsOf(config, init), StableSort(batch), true);
      TakeUsbAppend(config, Source(FRESH, false), UsbEventsOf(init), UsbOf(rounds[|rounds| - 1]));
    }
  }

  lemma {:induction false} NoUsb(config: Config)
    ensures TakeUsb(config, Source(FRESH, false), []) == (Source(FRESH, false), [])
  {
  }

  // ---------------------------------------------------------------------
  // The two tracks as a reader of the file sees them.

  function TrackBlocks(blocks: seq<Block>, track: nat): seq<Block> {
    if blocks == [] then []
    else
      var last := blocks[|blocks| - 1];
      var earlier := TrackBlocks(blocks[..|blocks| - 1], track);
      if last.track == track then earlier + [last] else earlier
  }

  // The block a track's event becomes.
  function Placed(event: MediaEvent, timing: MediaTiming, delayMs: int): Block {
    BlockOf(CallFor(event, timing, delayMs))
  }

  ghost predicate CarriesTrack(blocks: seq<Block>, events: seq<MediaEvent>, timings: seq<MediaTiming>, delayMs: int) {
    && |blocks| == |events| == |timings|
    && forall k :: 0 <= k < |blocks| ==> blocks[k] == Placed(events[k], timings[k], delayMs)
  }

  lemma {:induction false} TrackInFile(events: seq<MediaEvent>, timings: seq<MediaTiming>, delayMs: int, video: bool)
    requires |events| == |timings|
    ensures CarriesTrack(TrackBlocks(BlocksFor(events, timings, delayMs), if video then VIDEO_TRACK else AUDIO_TRACK),
                         Select(events, video), TimingsOnTrack(events, timings, video), delayMs)
  {
    var track := if video then VIDEO_TRACK else AUDIO_TRACK;
    if events != [] {
      var n := |events| - 1;
      var event, timing := events[n], timings[n];
      TrackInFile(events[..n], timings[..n], delayMs, video);
      assert BlocksFor(events, timings, delayMs)[..n] == BlocksFor(events[..n], timings[..n], delayMs);
      assert BlocksFor(events, timings, delayMs)[n] == Placed(event, timing, delayMs);
      assert Placed(event, timing, delayMs).track == track <==> event.VideoEvent? == video;
    }
  }

  lemma {:induction false} OnTrackSelects(events: seq<MediaEvent>, video: bool)
    ensures |OnTrack(0, events, video)| == |Select(events, video)|
    ensures forall k :: 0 <= k < |Select(events, video)| ==>
              OnTrack(0, events, video)[k] == ToBlock(0, Select(events, video)[k])
  {
    if events != [] {
      OnTrackSelects(events[..|events| - 1], video);
    }
  }


  // The blocks of one track in the file a session leaves, however it ended.
  function FileTrack(config: Config, format: AudioFormat, delayMs: int, rounds: seq<Round>, video: bool): seq<Block> {
    TrackBlocks(AcceptedBlocks(format, PlayRounds(config, format, delayMs, rounds).play.calls),
                if video then VIDEO_TRACK else AUDIO_TRACK)
  }

  ghost predicate CutShort(config: Config, format: AudioFormat, delayMs: int, rounds: seq<Round>) {
    PlayRounds(config, format, delayMs, rounds).play.end.Some?
  }

  lemma {:induction false} NeverEarly(events: seq<MediaEvent>)
    ensures NoneBefore(0, events)
  {
  }

  // Blocks made of the first events only are those made of all of them.
  lemma {:induction false} TimingOfPrefix(first: seq<MediaEvent>, rest: seq<MediaEvent>, video: bool, k: nat)
    requires k < |Select(first, video)|
    ensures NoneBefore(0, first) && NoneBefore(0, first + rest)
    ensures |OnTrack(0, first, video)| == |Select(first, video)| <= |Select(first + rest, video)|
    ensures |OnTrack(0, first + rest, video)| == |Select(first + rest, video)|
    ensures Select(first + rest, video)[k] == Select(first, video)[k]
    ensures TrackTiming(OnTrack(0, first + rest, video), k) == TrackTiming(OnTrack(0, first, video), k)
  {
    hide Select, OnTrack;
    NeverEarly(first);
    NeverEarly(first + rest);
    SelectAppend(first, rest, video);
    OnTrackSelects(first, video);
    OnTrackSelects(first + rest, video);
    var a, b := OnTrack(0, first, video), OnTrack(0, first + rest, video);
    assert a[0] == b[0] && a[k] == b[k];
    if k > 0 {
      assert a[k - 1] == b[k - 1];
    }
  }

  // The blocks of a track are its first events, each placed at the timing that
  // the track alone determines; in a session not cut short, all of them.
  lemma {:induction false} FileTrackIsTimed(
    config: Config, format: AudioFormat, delayMs: int, rounds: seq<Round>, video: bool, k: nat)
    requires k < |FileTrack(config, format, delayMs, rounds, video)|
    ensures var events := EventsOf(config, rounds);
            var blocks := FileTrack(config, format, delayMs, rounds, video);
            && NoneBefore(0, events)
            && |blocks| <= |Select(events, video)| == |OnTrack(0, events, video)|
            && blocks[k] == Placed(Select(events, video)[k], TrackTiming(OnTrack(0, events, video), k), delayMs)
  {
    var events, p := EventsOf(config, rounds), PlayRounds(config, format, delayMs, rounds).play;
    SessionPlaysEvents(config, format, delayMs, rounds);
    hide PlayRounds, AcceptedBlocks, OnTrack, TimingsOnTrack, TrackTiming, Placed, Select, TrackBlocks, EventsOf,
      BlocksFor;
    var n := |AcceptedBlocks(format, p.calls)|;
    var first, rest := events[..n], events[n..];
    assert first + rest == events;
    var timings := TimeAll(0, first).timings;
    NeverEarly(first);
    TracksAreIndependent(0, first);
    TrackInFile(first, timings, delayMs, video);
    assert MatchesTrack(TimingsOnTrack(first, timings, video), OnTrack(0, first, video));
    TimingOfPrefix(first, rest, video, k);
  }

  lemma {:induction false} FileTrackIsWhole(
    config: Config, format: AudioFormat, delayMs: int, rounds: seq<Round>, video: bool)
    requires !CutShort(config, format, delayMs, rounds)
    ensures |FileTrack(config, format, delayMs, rounds, video)| == |Select(EventsOf(config, rounds), video)|
  {
    var events, p := EventsOf(config, rounds), PlayRounds(config, format, delayMs, rounds).play;
    SessionPlaysEvents(config, format, delayMs, rounds);
    hide PlayRounds, AcceptedBlocks, TimingsOnTrack, Select, TrackBlocks, EventsOf, BlocksFor;
    assert events[..|events|] == events;
    TrackInFile(events, TimeAll(0, events).timings, delayMs, video);
  }

  lemma {:induction false} WholeMilliseconds(first: nat, ms: int)
    requires first + 1_000 * ms >= 0
    ensures (first + 1_000 * ms) / 1_000 == first / 1_000 + ms
  {
  }

  function FirstObserved(events: seq<MediaEvent>): U64 {
    if events == [] then 0 else events[0].ObservedUs()
  }

  // ---------------------------------------------------------------------
  // Video.

  function VideoEvents(config: Config, rounds: seq<Round>): (events: seq<MediaEvent>)
    ensures forall k :: 0 <= k < |events| ==> events[k].VideoEvent?
  {
    Select(EventsOf(config, rounds), true)
  }

  // No position and no PTS leaves the range of u64 microseconds.
  ghost predicate VideoFits(events: seq<MediaEvent>)
    requires forall k :: 0 <= k < |events| ==> events[k].VideoEvent?
  {
    forall k :: 0 <= k < |events| ==>
      && 1_000 * events[k].video.frame.unwrapped <= U64_MAX
      && 0 <= FirstObserved(events) + 1_000 * (events[k].video.frame.unwrapped - events[0].video.frame.unwrapped)
           <= U64_MAX
  }

  // End to end, video, for every session, with decoder resets and in whatever
  // order: a block's timestamp is the first block's observation plus the
  // difference of the camera times that the decoder counted, each in its own
  // epoch. No other arrival time counts.
  lemma {:induction false} VideoFollowsCamera(
    config: Config, format: AudioFormat, delayMs: int, rounds: seq<Round>, k: nat)
    requires k < |FileTrack(config, format, delayMs, rounds, true)|
    requires VideoFits(VideoEvents(config, rounds))
    ensures var events, blocks := VideoEvents(config, rounds), FileTrack(config, format, delayMs, rounds, true);
            && |blocks| <= |events| && (!CutShort(config, format, delayMs, rounds) ==> |blocks| == |events|)
            && var frame, first := events[k].video.frame, events[0].video.frame;
               && blocks[k].track == VIDEO_TRACK && blocks[k].data == frame.jpeg
               && blocks[k].ptsMs == FirstObserved(events) / 1_000 + frame.unwrapped - first.unwrapped
  {
    hide CutShort, EventsOf, FileTrack, OnTrack, Select, SignedDifference;
    var all, events := EventsOf(config, rounds), VideoEvents(config, rounds);
    if !CutShort(config, format, delayMs, rounds) {
      FileTrackIsWhole(config, format, delayMs, rounds, true);
    }
    FileTrackIsTimed(config, format, delayMs, rounds, true, k);
    OnTrackSelects(all, true);
    var blocks := OnTrack(0, all, true);
    assert blocks[0] == ToBlock(0, events[0]) && blocks[k] == ToBlock(0, events[k]);
    var frame, first := events[k].video.frame, events[0].video.frame;
    assert 1_000 * first.unwrapped <= U64_MAX && 1_000 * frame.unwrapped <= U64_MAX;
    WholeMilliseconds(FirstObserved(events), frame.unwrapped - first.unwrapped);
  }

  // The camera's elapsed time fits the timeline from the first observation on.
  ghost predicate CameraFits(config: Config, rounds: seq<Round>) {
    var frames := EpochFrames(config, SessionEpochs(config, UsbEventsOf(rounds)));
    forall k :: 0 <= k < |frames| ==>
      FirstObserved(VideoEvents(config, rounds)) + 1_000 * frames[k].unwrapped <= U64_MAX
  }

  // With video order kept, the blocks are the frames of the decoder's epochs in
  // order, each at the first observation plus the time since its epoch's start.
  lemma {:induction false} VideoShowsEpochs(
    config: Config, format: AudioFormat, delayMs: int, rounds: seq<Round>, k: nat)
    requires VideoKept(config, rounds) && CameraFits(config, rounds)
    requires k < |FileTrack(config, format, delayMs, rounds, true)|
    ensures var frames := EpochFrames(config, SessionEpochs(config, UsbEventsOf(rounds)));
            var blocks := FileTrack(config, format, delayMs, rounds, true);
            && |blocks| <= |frames| && (!CutShort(config, format, delayMs, rounds) ==> |blocks| == |frames|)
            && blocks[k].data == frames[k].jpeg
            && blocks[k].ptsMs == FirstObserved(VideoEvents(config, rounds)) / 1_000 + frames[k].unwrapped
  {
    var events := VideoEvents(config, rounds);
    var epochs := SessionEpochs(config, UsbEventsOf(rounds));
    EventsAreFrames(config, rounds);
    hide CutShort, EventsOf, FileTrack, Select, SessionEpochs, UsbEventsOf, VideoKept, EpochFrames, VideoFits,
      VideoEvents;
    EpochsStartAtZero(config, epochs);
    FramesFit(events);
    VideoFollowsCamera(config, format, delayMs, rounds, k);
    assert FrameList(events)[k] == events[k].video.frame && FrameList(events)[0] == events[0].video.frame;
  }

  lemma {:induction false} EventsAreFrames(config: Config, rounds: seq<Round>)
    requires VideoKept(config, rounds)
    ensures FrameList(VideoEvents(config, rounds)) == EpochFrames(config, SessionEpochs(config, UsbEventsOf(rounds)))
  {
    EventsCarryEpochs(config, rounds);
  }

  lemma {:induction false} FramesFit(events: seq<MediaEvent>)
    requires forall k :: 0 <= k < |events| ==> events[k].VideoEvent?
    requires events != [] ==> FrameList(events)[0].unwrapped == 0
    requires forall k :: 0 <= k < |events| ==>
               FirstObserved(events) + 1_000 * FrameList(events)[k].unwrapped <= U64_MAX
    ensures VideoFits(events)
  {
    assert forall k :: 0 <= k < |events| ==> FrameList(events)[k] == events[k].video.frame;
  }

  lemma {:induction false} EpochsStartAtZero(config: Config, epochs: seq<seq<Packet>>)
    ensures var frames := EpochFrames(config, epochs);
            frames != [] ==> frames[0].unwrapped == 0
  {
    hide Decode;
    if epochs != [] {
      EpochsStartAtZero(config, epochs[..|epochs| - 1]);
      EpochIsBatch(config, epochs[|epochs| - 1]);
    }
  }

  // The file's own video times.
  ghost predicate TimeNeverGoesBack(blocks: seq<Block>) {
    forall k {:trigger blocks[k]} :: 0 < k < |blocks| ==> blocks[k - 1].ptsMs <= blocks[k].ptsMs
  }

  // Block k and its successor are apart by frame k's camera delta.
  ghost predicate StepsFollowCamera(blocks: seq<Block>, frames: seq<CompressedFrame>)
    requires |blocks| <= |frames|
  {
    forall k {:trigger blocks[k]} :: 0 < k < |blocks| ==>
      blocks[k].ptsMs == blocks[k - 1].ptsMs + frames[k - 1].deltaToNext
  }

  lemma {:induction false} ShiftedTimes(blocks: seq<Block>, frames: seq<CompressedFrame>, base: nat)
    requires |blocks| == |frames|
    requires forall k :: 0 <= k < |blocks| ==> blocks[k].ptsMs == base + frames[k].unwrapped
    ensures TimeNeverGoesBack(blocks) <==> NeverGoesBack(frames)
    ensures StepsFollowCamera(blocks, frames) <==> Follows(frames)
  {
    forall k | 0 < k < |blocks|
      ensures blocks[k].ptsMs - blocks[k - 1].ptsMs == frames[k].unwrapped - frames[k - 1].unwrapped
    {
    }
  }

  // Over a whole session, resets included, file time never goes back exactly when
  // every epoch that is followed by frames of a later one shows a single time on
  // all its headers from the second to that of its last frame.
  lemma {:induction false} FileTimeNeverGoesBackIff(
    config: Config, format: AudioFormat, delayMs: int, rounds: seq<Round>)
    requires !CutShort(config, format, delayMs, rounds)
    requires VideoKept(config, rounds) && CameraFits(config, rounds)
    ensures TimeNeverGoesBack(FileTrack(config, format, delayMs, rounds, true))
            <==> StillBeforeLater(config, SessionEpochs(config, UsbEventsOf(rounds)), false)
  {
    var epochs := SessionEpochs(config, UsbEventsOf(rounds));
    hide CutShort, FileTrack, SessionEpochs, UsbEventsOf, VideoKept, EpochFrames, StillBeforeLater, CameraFits,
      TimeNeverGoesBack, StepsFollowCamera, NeverGoesBack, Follows, Select, VideoEvents;
    NeverGoesBackIff(config, epochs);
    FileTimes(config, format, delayMs, rounds);
    ShiftedTimes(FileTrack(config, format, delayMs, rounds, true), EpochFrames(config, epochs),
                 FirstObserved(VideoEvents(config, rounds)) / 1_000);
  }

  // And every step is the frame's camera delta exactly when each such epoch shows
  // that time on the header after its last frame too.
  lemma {:induction false} FileStepsFollowCameraIff(
    config: Config, format: AudioFormat, delayMs: int, rounds: seq<Round>)
    requires !CutShort(config, format, delayMs, rounds)
    requires VideoKept(config, rounds) && CameraFits(config, rounds)
    ensures var blocks := FileTrack(config, format, delayMs, rounds, true);
            var epochs := SessionEpochs(config, UsbEventsOf(rounds));
            && |blocks| == |EpochFrames(config, epochs)|
            && (StepsFollowCamera(blocks, EpochFrames(config, epochs)) <==> StillBeforeLater(config, epochs, true))
  {
    var epochs := SessionEpochs(config, UsbEventsOf(rounds));
    hide CutShort, FileTrack, SessionEpochs, UsbEventsOf, VideoKept, EpochFrames, StillBeforeLater, CameraFits,
      TimeNeverGoesBack, StepsFollowCamera, NeverGoesBack, Follows, Select, VideoEvents;
    FollowsIff(config, epochs);
    FileTimes(config, format, delayMs, rounds);
    ShiftedTimes(FileTrack(config, format, delayMs, rounds, true), EpochFrames(config, epochs),
                 FirstObserved(VideoEvents(config, rounds)) / 1_000);
  }

  lemma {:induction false} FileTimes(config: Config, format: AudioFormat, delayMs: int, rounds: seq<Round>)
    requires !CutShort(config, format, delayMs, rounds)
    requires VideoKept(config, rounds) && CameraFits(config, rounds)
    ensures var frames := EpochFrames(config, SessionEpochs(config, UsbEventsOf(rounds)));
            var blocks := FileTrack(config, format, delayMs, rounds, true);
            && |blocks| == |frames|
            && forall k :: 0 <= k < |blocks| ==>
                 blocks[k].ptsMs == FirstObserved(VideoEvents(config, rounds)) / 1_000 + frames[k].unwrapped
  {
    EventsCarryEpochs(config, rounds);
    FileTrackIsWhole(config, format, delayMs, rounds, true);
    hide CutShort, FileTrack, SessionEpochs, UsbEventsOf, VideoKept, EpochFrames, CameraFits, Select, EventsOf;
    forall k | 0 <= k < |FileTrack(config, format, delayMs, rounds, true)|
      ensures k < |EpochFrames(config, SessionEpochs(config, UsbEventsOf(rounds)))|
              && FileTrack(config, format, delayMs, rounds, true)[k].ptsMs
                 == FirstObserved(VideoEvents(config, rounds)) / 1_000
                    + EpochFrames(config, SessionEpochs(config, UsbEventsOf(rounds)))[k].unwrapped
    {
      VideoShowsEpochs(config, format, delayMs, rounds, k);
    }
  }

  // The place in the file of frame j of epoch i.
  function PlaceOf(config: Config, rounds: seq<Round>, i: nat, j: nat): nat
    requires i < |SessionEpochs(config, UsbEventsOf(rounds))|
  {
    |EpochFrames(config, SessionEpochs(config, UsbEventsOf(rounds))[..i])| + j
  }

  // Inside every epoch, successive blocks are apart by exactly the camera's delta.
  lemma {:induction false} VideoAdvancesByDelta(
    config: Config, format: AudioFormat, delayMs: int, rounds: seq<Round>, i: nat, j: nat)
    requires VideoKept(config, rounds) && CameraFits(config, rounds)
    requires i < |SessionEpochs(config, UsbEventsOf(rounds))|
    requires j + 1 < |Decode(config, SessionEpochs(config, UsbEventsOf(rounds))[i]).frames|
    requires PlaceOf(config, rounds, i, j + 1) < |FileTrack(config, format, delayMs, rounds, true)|
    ensures var frames := Decode(config, SessionEpochs(config, UsbEventsOf(rounds))[i]).frames;
            var blocks, k := FileTrack(config, format, delayMs, rounds, true), PlaceOf(config, rounds, i, j);
            blocks[k + 1].ptsMs == blocks[k].ptsMs + frames[j].deltaToNext
  {
    hide CutShort, Decode, FileTrack, SessionEpochs, UsbEventsOf, VideoKept, EpochFrames, CameraFits, VideoEvents,
      EpochRecords, BatchFrames;
    var epochs, k := SessionEpochs(config, UsbEventsOf(rounds)), PlaceOf(config, rounds, i, j);
    VideoShowsEpochs(config, format, delayMs, rounds, k);
    VideoShowsEpochs(config, format, delayMs, rounds, k + 1);
    EpochFrameAt(config, epochs, i, j);
    EpochFrameAt(config, epochs, i, j + 1);
    EpochTiles(config, epochs[i], j);
  }

  lemma {:induction false} EpochTiles(config: Config, epoch: seq<Packet>, j: nat)
    requires j + 1 < |Decode(config, epoch).frames|
    ensures var frames := Decode(config, epoch).frames;
            frames[j + 1].unwrapped == frames[j].unwrapped + frames[j].deltaToNext
  {
    EpochIsBatch(config, epoch);
    hide Decode, BatchFrames, EpochRecords;
    var frames := Decode(config, epoch).frames;
    assert frames[j + 1].unwrapped == frames[j + 1 - 1].unwrapped + frames[j + 1 - 1].deltaToNext;
  }

  // So in every epoch whose headers are never a full counter turn apart, the file
  // shows the camera's true milliseconds since the epoch's second header, across
  // any number of wraps.
  lemma {:induction false} FileShowsCameraTime(
    config: Config, format: AudioFormat, delayMs: int, rounds: seq<Round>, i: nat, j: nat, clock: seq<int>)
    requires VideoKept(config, rounds) && CameraFits(config, rounds)
    requires i < |SessionEpochs(config, UsbEventsOf(rounds))|
    requires j < |Decode(config, SessionEpochs(config, UsbEventsOf(rounds))[i]).frames|
    requires PlaceOf(config, rounds, i, j) < |FileTrack(config, format, delayMs, rounds, true)|
    requires CarriesClock(EpochRecords(config, SessionEpochs(config, UsbEventsOf(rounds))[i]), clock)
    requires |clock| >= 3 && NoFullTurn(clock, |clock| - 2)
    ensures j + 1 < |clock|
    ensures FileTrack(config, format, delayMs, rounds, true)[PlaceOf(config, rounds, i, j)].ptsMs
            == FirstObserved(VideoEvents(config, rounds)) / 1_000 + clock[j + 1] - clock[1]
  {
    hide CutShort, Decode, FileTrack, SessionEpochs, UsbEventsOf, VideoKept, EpochFrames, CameraFits, VideoEvents,
      LayoutOf, AcceptedPart, NoFullTurn, CarriesClock;
    var epochs := SessionEpochs(config, UsbEventsOf(rounds));
    VideoShowsEpochs(config, format, delayMs, rounds, PlaceOf(config, rounds, i, j));
    EpochFrameAt(config, epochs, i, j);
    var accepted := AcceptedPart(config, epochs[i]);
    TrueClockRecoveredIff(config, accepted, clock);
    assert ShowsTrueTime(Decode(config, accepted).frames[j], clock, j);
  }

  // ---------------------------------------------------------------------
  // Audio.

  // The worker's chunks: whole periods in the camera's format.
  ghost predicate PeriodEvents(events: seq<MediaEvent>) {
    forall k :: 0 <= k < |events| ==>
      && events[k].AudioEvent?
      && events[k].audio.format.sampleRateHz == AUDIO_SAMPLE_RATE_HZ
      && events[k].audio.chunk.sampleFrames == PERIOD_SAMPLE_FRAMES
      && events[k].audio.chunk.startSampleFrame == PERIOD_SAMPLE_FRAMES * k
  }

  // What the ALSA worker sends is such a list.
  lemma {:induction false} WorkerFeedsPeriods(
    chunks: seq<TimedAudioChunk>, periods: seq<AlsaWorker.Period>, statuses: seq<AlsaWorker.Status>, originNs: U64)
    requires AlsaWorker.CarriesAll(chunks, periods, statuses, originNs)
    ensures PeriodEvents(seq(|chunks|, k requires 0 <= k < |chunks| => AudioEvent(chunks[k])))
  {
    forall k | 0 <= k < |chunks|
      ensures chunks[k].format.sampleRateHz == AUDIO_SAMPLE_RATE_HZ
              && chunks[k].chunk.sampleFrames == PERIOD_SAMPLE_FRAMES
              && chunks[k].chunk.startSampleFrame == PERIOD_SAMPLE_FRAMES * k
    {
      assert AlsaWorker.Carries(chunks[k], periods[k], statuses[k], originNs, k);
    }
  }

  // Neither the timeline nor the signed delay saturates.
  ghost predicate DelayFits(count: nat, first: nat, delayMs: int) {
    && first + 40_000 * count <= U64_MAX / 16_000
    && -(U64_MAX / 2_000) <= delayMs <= U64_MAX / 2_000
    && first + 1_000 * delayMs >= 0
  }

  lemma {:induction false} DelayIsExact(timing: MediaTiming, delayMs: int)
    requires -(U64_MAX / 2_000) <= delayMs <= U64_MAX / 2_000
    requires 0 <= timing.ptsUs + 1_000 * delayMs <= U64_MAX
    ensures ApplyAudioDelay(timing, delayMs).ptsUs == timing.ptsUs + 1_000 * delayMs
  {
  }

  // End to end, audio, for every session, with any video errors: period k of 640
  // frames lies exactly 40 k milliseconds and one constant signed delay after the
  // first observation.
  lemma {:induction false} AudioFollowsSamples(
    config: Config, format: AudioFormat, delayMs: int, rounds: seq<Round>, k: nat)
    requires AudioKept(rounds) && PeriodEvents(ChunksOf(rounds))
    requires DelayFits(|ChunksOf(rounds)|, FirstObserved(ChunksOf(rounds)), delayMs)
    requires k < |FileTrack(config, format, delayMs, rounds, false)|
    ensures var chunks, blocks := ChunksOf(rounds), FileTrack(config, format, delayMs, rounds, false);
            && |blocks| <= |chunks| && (!CutShort(config, format, delayMs, rounds) ==> |blocks| == |chunks|)
            && blocks[k].track == AUDIO_TRACK && blocks[k].data == chunks[k].audio.chunk.pcm
            && blocks[k].ptsMs == FirstObserved(chunks) / 1_000 + 40 * k + delayMs
  {
    hide CutShort, EventsOf, FileTrack, OnTrack, TrackTiming, ApplyAudioDelay, AudioKept;
    var events, chunks := EventsOf(config, rounds), ChunksOf(rounds);
    EventsCarryChunks(config, rounds);
    if !CutShort(config, format, delayMs, rounds) {
      FileTrackIsWhole(config, format, delayMs, rounds, false);
    }
    FileTrackIsTimed(config, format, delayMs, rounds, false, k);
    OnTrackSelects(events, false);
    var blocks := OnTrack(0, events, false);
    var list := seq(|chunks|, i requires 0 <= i < |chunks| => chunks[i].audio.chunk);
    forall i | 0 <= i < |chunks|
      ensures blocks[i].positionUs == SamplesToUs(list[i].startSampleFrame, AUDIO_SAMPLE_RATE_HZ)
      ensures blocks[i].durationUs == SamplesToUs(list[i].sampleFrames, AUDIO_SAMPLE_RATE_HZ)
    {
      assert blocks[i] == ToBlock(0, chunks[i]);
    }
    assert WholePeriods(list) && CarriesChunks(blocks, list, AUDIO_SAMPLE_RATE_HZ);
    var first := FirstObserved(chunks);
    assert blocks[0].observedUs == first;
    PeriodTimeline(blocks, list, k);
    DelayIsExact(TrackTiming(blocks, k), delayMs);
    WholeMilliseconds(first, 40 * k + delayMs);
  }
}
