/** Synchronized capture: packets and audio chunks in, one Matroska file out. */
module Capture {
  import opened Bytes
  import opened Stream
  import opened Media
  import opened Sync
  import opened Audio
  import Transport
  import opened EventOrder
  import opened Matroska
  import opened MatroskaWriter

  // An event of the USB session; a packet's arrival is in nanoseconds from the
  // session origin.
  datatype UsbEvent = UsbEvent(event: Transport.SessionEvent, receivedNs: int)

  datatype AudioCaptureEvent = Chunk(chunk: TimedAudioChunk) | WorkerFailed | WorkerClosed

  // One turn of the event loop: what was queued, what the poll gave, whether
  // `stopping` was already set when the poll failed, and whether a report is due.
  datatype Round = Round(
    audio: seq<AudioCaptureEvent>, usb: Option<seq<UsbEvent>>, stopping: bool, reportDue: bool)

  datatype End =
    | Stopped | NoCapturedAudio | NoCapturedVideo
    | AudioWorkerFailed | AudioClosed | PollFailed | Disconnected
    | Untimed(sync: SyncError) | Unwritten(write: WriteError)

  // ---------------------------------------------------------------------
  // Taking in one round.

  // The decoder, and whether the next frame is the first after an error.
  datatype Source = Source(decoder: DecoderState, flagged: bool)

  function MonotonicUs(ns: int): U64 {
    Min(Max(0, ns) / 1_000, U64_MAX)
  }

  // A frame is observed where it starts: its camera duration before its arrival.
  function Observed(frame: CompressedFrame, receivedNs: int, flagged: bool): TimedVideoFrame {
    TimedVideoFrame(MonotonicUs(receivedNs - 1_000_000 * frame.deltaToNext), frame, flagged)
  }

  function TakePacket(config: Config, source: Source, event: UsbEvent): (Source, seq<MediaEvent>)
  {
    match event.event
    case PacketReceived(endpoint, data) =>
      var (decoder, outcome) := Step(config, source.decoder, Packet(endpoint, data));
      if outcome.Err? then (Source(FRESH, true), [])
      else if outcome.value.None? then (source.(decoder := decoder), [])
      else (Source(decoder, false), [VideoEvent(Observed(outcome.value.value, event.receivedNs, source.flagged))])
    case PacketError(_, _) => (Source(FRESH, true), [])
    case _ => (source, [])
  }

  function TakeUsb(config: Config, source: Source, events: seq<UsbEvent>): (r: (Source, seq<MediaEvent>))
    ensures forall k :: 0 <= k < |r.1| ==> r.1[k].VideoEvent?
  {
    if events == [] then (source, [])
    else
      var (before, media) := TakeUsb(config, source, events[..|events| - 1]);
      var (after, emitted) := TakePacket(config, before, events[|events| - 1]);
      (after, media + emitted)
  }

  function ChunkEvents(audio: seq<AudioCaptureEvent>): (events: seq<MediaEvent>)
    ensures forall k :: 0 <= k < |events| ==> events[k].AudioEvent?
  {
    if audio == [] then []
    else
      var last := audio[|audio| - 1];
      var earlier := ChunkEvents(audio[..|audio| - 1]);
      if last.Chunk? then earlier + [AudioEvent(last.chunk)] else earlier
  }

  // The first audio failure of the round.
  function AudioEnd(audio: seq<AudioCaptureEvent>): Option<End> {
    if audio == [] then None
    else
      var earlier := AudioEnd(audio[..|audio| - 1]);
      if earlier.Some? then earlier
      else
        match audio[|audio| - 1]
        case Chunk(_) => None
        case WorkerFailed => Some(AudioWorkerFailed)
        case WorkerClosed => Some(AudioClosed)
  }

  predicate HasEnd(events: seq<UsbEvent>) {
    exists k :: 0 <= k < |events| && events[k].event.EndsSession()
  }

  // What ends the session before anything of the round is written.
  function RoundEnd(round: Round): Option<End> {
    if AudioEnd(round.audio).Some? then AudioEnd(round.audio)
    else if round.usb.None? then Some(if round.stopping then Stopped else PollFailed)
    else if HasEnd(round.usb.value) then Some(Disconnected)
    else None
  }

  function UsbOf(round: Round): seq<UsbEvent> {
    if round.usb.Some? then round.usb.value else []
  }

  function TakeRound(config: Config, source: Source, round: Round): (Source, seq<MediaEvent>) {
    var (after, video) := TakeUsb(config, source, UsbOf(round));
    (after, ChunkEvents(round.audio) + video)
  }

  // ---------------------------------------------------------------------
  // Writing one round.

  function ApplyAudioDelay(timing: MediaTiming, delayMs: int): MediaTiming {
    if delayMs >= 0 then timing.(ptsUs := SaturatingAdd(timing.ptsUs, SaturatingMul(delayMs, 1_000)))
    else timing.(ptsUs := SaturatingSub(timing.ptsUs, SaturatingMul(-delayMs, 1_000)))
  }

  function CallFor(event: MediaEvent, timing: MediaTiming, delayMs: int): (call: Call)
    ensures !call.Flush?
  {
    match event
    case VideoEvent(v) => WriteVideo(v, timing)
    case AudioEvent(a) => WriteAudio(a, ApplyAudioDelay(timing, delayMs))
  }

  // The synchronizer and every call made on the writer so far.
  datatype Play = Play(sync: SyncState, calls: seq<Call>, end: Option<End>)

  function PlayEvent(format: AudioFormat, delayMs: int, p: Play, event: MediaEvent): Play {
    if p.end.Some? then p
    else
      var (sync, timing) := TimeEvent(p.sync, event);
      if timing.Err? then Play(sync, p.calls, Some(Untimed(timing.error)))
      else
        var call := CallFor(event, timing.value, delayMs);
        var rejection := Rejection(format, call);
        Play(sync, p.calls + [call], if rejection.Some? then Some(Unwritten(rejection.value)) else None)
  }

  function PlayEvents(format: AudioFormat, delayMs: int, p: Play, events: seq<MediaEvent>): Play {
    if events == [] then p
    else PlayEvent(format, delayMs, PlayEvents(format, delayMs, p, events[..|events| - 1]), events[|events| - 1])
  }

  // ---------------------------------------------------------------------
  // The whole session.

  datatype Captured = Captured(source: Source, play: Play)

  const SYNC_START: SyncState := SyncState(0, Track(None, None), Track(None, None))

  function PlayRound(config: Config, format: AudioFormat, delayMs: int, c: Captured, round: Round): Captured {
    if c.play.end.Some? then c
    else if RoundEnd(round).Some? then c.(play := c.play.(end := RoundEnd(round)))
    else
      var (source, batch) := TakeRound(config, c.source, round);
      var play := PlayEvents(format, delayMs, c.play, StableSort(batch));
      Captured(source,
               if play.end.None? && round.reportDue then play.(calls := play.calls + [Flush]) else play)
  }

  function PlayRounds(config: Config, format: AudioFormat, delayMs: int, rounds: seq<Round>): Captured {
    if rounds == [] then Captured(Source(FRESH, false), Play(SYNC_START, [], None))
    else PlayRound(config, format, delayMs, PlayRounds(config, format, delayMs, rounds[..|rounds| - 1]),
                   rounds[|rounds| - 1])
  }

  // How many calls wrote a block of the given kind.
  function Written(format: AudioFormat, calls: seq<Call>, video: bool): nat {
    if calls == [] then 0
    else
      var call := calls[|calls| - 1];
      Written(format, calls[..|calls| - 1], video)
      + if !call.Flush? && call.WriteVideo? == video && Rejection(format, call).None? then 1 else 0
  }

  // `stopping` is seen at the top of the loop, after the last round.
  function SessionEnding(format: AudioFormat, play: Play): End {
    if play.end.Some? then play.end.value
    else if Written(format, play.calls, false) == 0 then NoCapturedAudio
    else if Written(format, play.calls, true) == 0 then NoCapturedVideo
    else Stopped
  }

  // ---------------------------------------------------------------------
  // The loop itself.

  // Everything the file shows follows from the calls made.
  ghost predicate Reflects(writer: MatroskaWriter, calls: seq<Call>)
    reads writer, writer.output
  {
    && writer.Valid()
    && writer.blocks == AcceptedBlocks(writer.audioFormat, calls)
    && writer.duration == DurationShown(writer.floats, writer.audioFormat, calls)
    && writer.maximumEndUs == MaximumEnd(writer.audioFormat, calls)
  }

  lemma {:induction false} TakeUsbSnoc(config: Config, source: Source, events: seq<UsbEvent>, event: UsbEvent)
    ensures TakeUsb(config, source, events + [event])
            == (TakePacket(config, TakeUsb(config, source, events).0, event).0,
                TakeUsb(config, source, events).1 + TakePacket(config, TakeUsb(config, source, events).0, event).1)
  {
    hide TakePacket;
    assert (events + [event])[..|events|] == events;
  }

  method GatherUsb(decoder: StreamDecoder, events: seq<UsbEvent>, flagged: bool)
    returns (media: seq<MediaEvent>, flagged': bool, disconnected: bool)
    modifies decoder
    ensures disconnected <==> HasEnd(events)
    ensures !disconnected ==>
              (Source(decoder.State(), flagged'), media)
              == TakeUsb(decoder.config, Source(old(decoder.State()), flagged), events)
  {
    media, flagged', disconnected := [], flagged, false;
    for i := 0 to |events|
      invariant !HasEnd(events[..i])
      invariant (Source(decoder.State(), flagged'), media)
                == TakeUsb(decoder.config, Source(old(decoder.State()), flagged), events[..i])
    {
      assert events[..i + 1] == events[..i] + [events[i]];
      TakeUsbSnoc(decoder.config, Source(old(decoder.State()), flagged), events[..i], events[i]);
      assert media + [] == media;
      hide Step, TakeUsb;
      match events[i].event {
        case PacketReceived(endpoint, data) =>
          var outcome := decoder.PushPacket(Packet(endpoint, data));
          if outcome.Err? {
            decoder.Reset();
            flagged' := true;
          } else if outcome.value.Some? {
            media := media + [VideoEvent(Observed(outcome.value.value, events[i].receivedNs, flagged'))];
            flagged' := false;
          }
        case PacketError(_, _) =>
          decoder.Reset();
          flagged' := true;
        case _ =>
          disconnected := true;
          return;
      }
    }
    assert events[..|events|] == events;
  }

  method GatherAudio(audio: seq<AudioCaptureEvent>) returns (media: seq<MediaEvent>, end: Option<End>)
    ensures end == AudioEnd(audio)
    ensures end.None? ==> media == ChunkEvents(audio)
  {
    media, end := [], None;
    for i := 0 to |audio|
      invariant AudioEnd(audio[..i]).None? && media == ChunkEvents(audio[..i])
    {
      assert audio[..i + 1] == audio[..i] + [audio[i]];
      match audio[i] {
        case Chunk(chunk) => media := media + [AudioEvent(chunk)];
        case WorkerFailed =>
          AudioEndIsFirst(audio, i + 1);
          return media, Some(AudioWorkerFailed);
        case WorkerClosed =>
          AudioEndIsFirst(audio, i + 1);
          return media, Some(AudioClosed);
      }
    }
    assert audio[..|audio|] == audio;
  }

  lemma {:induction false} AudioEndIsEarly(audio: seq<AudioCaptureEvent>)
    ensures AudioEnd(audio).Some? ==> AudioEnd(audio).value.AudioWorkerFailed? || AudioEnd(audio).value.AudioClosed?
  {
    if audio != [] {
      AudioEndIsEarly(audio[..|audio| - 1]);
    }
  }

  lemma {:induction false} AudioEndIsFirst(audio: seq<AudioCaptureEvent>, n: nat)
    requires n <= |audio| && AudioEnd(audio[..n]).Some?
    ensures AudioEnd(audio) == AudioEnd(audio[..n])
    decreases |audio|
  {
    if n < |audio| {
      var init := audio[..|audio| - 1];
      assert init[..n] == audio[..n];
      AudioEndIsFirst(init, n);
    } else {
      assert audio[..n] == audio;
    }
  }

  // The file after the calls: rebuilt from the accepted ones, and after an
  // oversized block also the few bytes written before the error.
  ghost predicate FileShows(writer: MatroskaWriter, calls: seq<Call>, end: Option<End>)
    reads writer, writer.output
  {
    if end == Some(Unwritten(ElementTooLarge)) then
      && calls != [] && !calls[|calls| - 1].Flush?
      && var init := calls[..|calls| - 1];
         writer.output.bytes
         == FileBytes(writer.floats, writer.audioFormat, DurationShown(writer.floats, writer.audioFormat, init),
                      AcceptedBlocks(writer.audioFormat, init))
            + StrayBytes(BlockOf(calls[|calls| - 1]))
    else Reflects(writer, calls)
  }

  lemma {:induction false} IntactFile(writer: MatroskaWriter, calls: seq<Call>, end: Option<End>)
    requires end.None? || !end.value.Unwritten?
    ensures FileShows(writer, calls, end) == Reflects(writer, calls)
  {
  }

  lemma {:induction false} CallsSnoc(floats: Floats, format: AudioFormat, calls: seq<Call>, call: Call)
    ensures (calls + [call])[..|calls|] == calls
    ensures var all := calls + [call];
            if call.Flush? then
              && AcceptedBlocks(format, all) == AcceptedBlocks(format, calls)
              && MaximumEnd(format, all) == MaximumEnd(format, calls)
              && DurationShown(floats, format, all) == floats.milliseconds(MaximumEnd(format, calls))
            else if Rejection(format, call).Some? then
              && AcceptedBlocks(format, all) == AcceptedBlocks(format, calls)
              && MaximumEnd(format, all) == MaximumEnd(format, calls)
              && DurationShown(floats, format, all) == DurationShown(floats, format, calls)
            else
              && AcceptedBlocks(format, all) == AcceptedBlocks(format, calls) + [BlockOf(call)]
              && MaximumEnd(format, all)
                 == Max(MaximumEnd(format, calls),
                        EndUs(if call.WriteVideo? then call.videoTiming else call.audioTiming))
              && DurationShown(floats, format, all) == DurationShown(floats, format, calls)
  {
    hide Rejection, EndUs;
    assert (calls + [call])[..|calls|] == calls;
  }

  method WriteEvent(
    writer: MatroskaWriter, event: MediaEvent, timing: MediaTiming, delayMs: int, ghost calls: seq<Call>)
    returns (r: Option<WriteError>)
    requires Reflects(writer, calls)
    modifies writer`maximumEndUs, writer`blocks, writer.output
    ensures r == Rejection(writer.audioFormat, CallFor(event, timing, delayMs))
    ensures FileShows(writer, calls + [CallFor(event, timing, delayMs)],
                      if r.Some? then Some(Unwritten(r.value)) else None)
  {
    ghost var call := CallFor(event, timing, delayMs);
    hide AcceptedBlocks, MaximumEnd, DurationShown, Rejection, EndUs, FileBytes, StrayBytes, BlockOf, AllFit,
      ApplyAudioDelay, BeforeDuration, CallFor, FileShows;
    CallsSnoc(writer.floats, writer.audioFormat, calls, call);
    KindOfCall(event, timing, delayMs);
    if event.VideoEvent? {
      VideoTooLarge(writer.audioFormat, event.video, timing);
      r := writer.WriteVideo(event.video, timing);
    } else {
      r := writer.WriteAudio(event.audio, ApplyAudioDelay(timing, delayMs));
    }
    FileFollows(writer, calls, call, r);
  }

  // What one write does to the file, in terms of the calls.
  lemma {:induction false} FileFollows(writer: MatroskaWriter, calls: seq<Call>, call: Call, r: Option<WriteError>)
    requires r == Rejection(writer.audioFormat, call) && !call.Flush?
    requires r != Some(ElementTooLarge) ==>
               && writer.Valid()
               && writer.blocks == AcceptedBlocks(writer.audioFormat, calls + [call])
               && writer.duration == DurationShown(writer.floats, writer.audioFormat, calls + [call])
               && writer.maximumEndUs == MaximumEnd(writer.audioFormat, calls + [call])
    requires r == Some(ElementTooLarge) ==>
               writer.output.bytes
               == FileBytes(writer.floats, writer.audioFormat, DurationShown(writer.floats, writer.audioFormat, calls),
                            AcceptedBlocks(writer.audioFormat, calls)) + StrayBytes(BlockOf(call))
    ensures FileShows(writer, calls + [call], if r.Some? then Some(Unwritten(r.value)) else None)
  {
    hide FileBytes, Rejection, AcceptedBlocks, DurationShown, MaximumEnd, StrayBytes, BlockOf;
    assert (calls + [call])[..|calls|] == calls;
  }

  lemma {:induction false} VideoTooLarge(format: AudioFormat, frame: TimedVideoFrame, timing: MediaTiming)
    ensures Rejection(format, WriteVideo(frame, timing)).Some? ==>
              Rejection(format, WriteVideo(frame, timing)) == Some(ElementTooLarge)
  {
  }

  lemma {:induction false} PlayEventsSnoc(
    format: AudioFormat, delayMs: int, p: Play, events: seq<MediaEvent>, event: MediaEvent)
    ensures PlayEvents(format, delayMs, p, events + [event])
            == PlayEvent(format, delayMs, PlayEvents(format, delayMs, p, events), event)
  {
    hide PlayEvent;
    assert (events + [event])[..|events|] == events;
  }

  lemma {:induction false} EndedPlayStays(format: AudioFormat, delayMs: int, p: Play, events: seq<MediaEvent>, n: nat)
    requires n <= |events| && PlayEvents(format, delayMs, p, events[..n]).end.Some?
    ensures PlayEvents(format, delayMs, p, events) == PlayEvents(format, delayMs, p, events[..n])
    decreases |events|
  {
    if n < |events| {
      var init := events[..|events| - 1];
      assert init[..n] == events[..n];
      EndedPlayStays(format, delayMs, p, init, n);
    } else {
      assert events[..n] == events;
    }
  }

  lemma {:induction false} WrittenSnoc(format: AudioFormat, calls: seq<Call>, call: Call, video: bool)
    ensures Written(format, calls + [call], video)
            == Written(format, calls, video)
               + if !call.Flush? && call.WriteVideo? == video && Rejection(format, call).None? then 1 else 0
  {
    hide Rejection;
    assert (calls + [call])[..|calls|] == calls;
  }

  method PlayBatch(sync: AvSynchronizer, writer: MatroskaWriter, events: seq<MediaEvent>, delayMs: int,
                   videoFrames: nat, audioChunks: nat, ghost before: Play)
    returns (end: Option<End>, videoFrames': nat, audioChunks': nat, ghost calls: seq<Call>)
    requires before.end.None? && Reflects(writer, before.calls) && sync.State() == before.sync
    requires Counted(writer.audioFormat, before.calls, videoFrames, audioChunks)
    modifies sync, writer`maximumEndUs, writer`blocks, writer.output
    ensures Play(sync.State(), calls, end) == PlayEvents(writer.audioFormat, delayMs, before, events)
    ensures FileShows(writer, calls, end)
    ensures end.None? ==> Counted(writer.audioFormat, calls, videoFrames', audioChunks')
  {
    end, videoFrames', audioChunks', calls := None, videoFrames, audioChunks, before.calls;
    hide Reflects, TimeEvent, Rejection, CallFor, Written;
    for i := 0 to |events|
      invariant end.None? && Reflects(writer, calls)
      invariant Play(sync.State(), calls, None) == PlayEvents(writer.audioFormat, delayMs, before, events[..i])
      invariant Counted(writer.audioFormat, calls, videoFrames', audioChunks')
    {
      assert events[..i + 1] == events[..i] + [events[i]];
      PlayEventsSnoc(writer.audioFormat, delayMs, before, events[..i], events[i]);
      hide PlayEvents;
      var timing := sync.EventTiming(events[i]);
      if timing.Err? {
        EndedPlayStays(writer.audioFormat, delayMs, before, events, i + 1);
        end := Some(Untimed(timing.error));
        return;
      }
      ghost var call := CallFor(events[i], timing.value, delayMs);
      var r := WriteEvent(writer, events[i], timing.value, delayMs, calls);
      WrittenSnoc(writer.audioFormat, calls, call, true);
      WrittenSnoc(writer.audioFormat, calls, call, false);
      KindOfCall(events[i], timing.value, delayMs);
      calls := calls + [call];
      if r.Some? {
        EndedPlayStays(writer.audioFormat, delayMs, before, events, i + 1);
        end := Some(Unwritten(r.value));
        return;
      }
      if events[i].VideoEvent? {
        videoFrames' := videoFrames' + 1;
      } else {
        audioChunks' := audioChunks' + 1;
      }
    }
    assert events[..|events|] == events;
  }

  ghost predicate Counted(format: AudioFormat, calls: seq<Call>, videoFrames: nat, audioChunks: nat) {
    Written(format, calls, true) == videoFrames && Written(format, calls, false) == audioChunks
  }

  lemma {:induction false} KindOfCall(event: MediaEvent, timing: MediaTiming, delayMs: int)
    ensures CallFor(event, timing, delayMs)
            == if event.VideoEvent? then WriteVideo(event.video, timing)
               else WriteAudio(event.audio, ApplyAudioDelay(timing, delayMs))
  {
  }

  lemma {:induction false} EndedRoundsStay(
    config: Config, format: AudioFormat, delayMs: int, rounds: seq<Round>, n: nat)
    requires n <= |rounds| && PlayRounds(config, format, delayMs, rounds[..n]).play.end.Some?
    ensures PlayRounds(config, format, delayMs, rounds).play == PlayRounds(config, format, delayMs, rounds[..n]).play
    decreases |rounds|
  {
    if n < |rounds| {
      var init := rounds[..|rounds| - 1];
      assert init[..n] == rounds[..n];
      EndedRoundsStay(config, format, delayMs, init, n);
    } else {
      assert rounds[..n] == rounds;
    }
  }

  lemma {:induction false} PlayRoundsSnoc(
    config: Config, format: AudioFormat, delayMs: int, rounds: seq<Round>, round: Round)
    ensures PlayRounds(config, format, delayMs, rounds + [round])
            == PlayRound(config, format, delayMs, PlayRounds(config, format, delayMs, rounds), round)
  {
    hide PlayRound;
    assert (rounds + [round])[..|rounds|] == rounds;
  }

  method ReportFlush(writer: MatroskaWriter, ghost calls: seq<Call>)
    requires Reflects(writer, calls)
    modifies writer`duration, writer.output
    ensures Reflects(writer, calls + [Flush])
  {
    CallsSnoc(writer.floats, writer.audioFormat, calls, Flush);
    hide AcceptedBlocks, MaximumEnd, DurationShown, FileBytes, AllFit, BeforeDuration, Overwrite;
    writer.Flush();
  }

  // One turn of the loop that is not cut short.
  method RunRound(config: Config, decoder: StreamDecoder, sync: AvSynchronizer, writer: MatroskaWriter, round: Round,
                  delayMs: int, flagged: bool, videoFrames: nat, audioChunks: nat, ghost before: Captured)
    returns (end: Option<End>, flagged': bool, videoFrames': nat, audioChunks': nat, ghost calls: seq<Call>)
    requires before.play.end.None? && Reflects(writer, before.play.calls)
    requires decoder.config == config && Source(decoder.State(), flagged) == before.source
    requires sync.State() == before.play.sync
    requires Counted(writer.audioFormat, before.play.calls, videoFrames, audioChunks)
    modifies decoder, sync, writer`maximumEndUs, writer`blocks, writer`duration, writer.output
    ensures FileShows(writer, calls, end)
    ensures var c := PlayRound(config, writer.audioFormat, delayMs, before, round);
            && c.play.calls == calls && c.play.end == end
            && (end.None? ==> c == Captured(Source(decoder.State(), flagged'), Play(sync.State(), calls, None)))
    ensures end.None? ==> Counted(writer.audioFormat, calls, videoFrames', audioChunks')
  {
    hide Reflects, FileShows, TakeUsb, ChunkEvents, AudioEnd, PlayEvents, StableSort, Written;
    flagged', videoFrames', audioChunks', calls := flagged, videoFrames, audioChunks, before.play.calls;
    var audio;
    audio, end := GatherAudio(round.audio);
    if end.Some? {
      AudioEndIsEarly(round.audio);
      IntactFile(writer, calls, end);
      return;
    }
    if round.usb.None? {
      end := Some(if round.stopping then Stopped else PollFailed);
      IntactFile(writer, calls, end);
      return;
    }
    var video, disconnected;
    video, flagged', disconnected := GatherUsb(decoder, round.usb.value, flagged);
    if disconnected {
      end := Some(Disconnected);
      IntactFile(writer, calls, end);
      return;
    }
    end, videoFrames', audioChunks', calls :=
      PlayBatch(sync, writer, StableSort(audio + video), delayMs, videoFrames, audioChunks, before.play);
    if end.None? && round.reportDue {
      IntactFile(writer, calls, end);
      WrittenSnoc(writer.audioFormat, calls, Flush, true);
      WrittenSnoc(writer.audioFormat, calls, Flush, false);
      ReportFlush(writer, calls);
      calls := calls + [Flush];
      IntactFile(writer, calls, end);
    }
  }

  // The event loop over all rounds, then `stopping`.
  method RunCaptureSession(config: Config, writer: MatroskaWriter, rounds: seq<Round>, delayMs: int)
    returns (end: End, ghost calls: seq<Call>)
    requires Reflects(writer, [])
    modifies writer`maximumEndUs, writer`blocks, writer`duration, writer.output
    ensures var play := PlayRounds(config, writer.audioFormat, delayMs, rounds).play;
            && calls == play.calls && end == SessionEnding(writer.audioFormat, play)
            && FileShows(writer, calls, play.end)
  {
    var decoder := new StreamDecoder(config);
    var sync := new AvSynchronizer(0);
    var flagged, videoFrames, audioChunks := false, 0, 0;
    calls := [];
    ghost var c := Captured(Source(FRESH, false), Play(SYNC_START, [], None));
    NothingWritten(config, writer.audioFormat, delayMs);
    hide Reflects, FileShows, PlayRound, PlayRounds, Written, Counted, SessionEnding;
    for i := 0 to |rounds|
      invariant c == PlayRounds(config, writer.audioFormat, delayMs, rounds[..i])
      invariant c == Captured(Source(decoder.State(), flagged), Play(sync.State(), calls, None))
      invariant Reflects(writer, calls) && Counted(writer.audioFormat, calls, videoFrames, audioChunks)
      invariant decoder.config == config && fresh(decoder) && fresh(sync)
    {
      var failure;
      failure, flagged, videoFrames, audioChunks, calls :=
        RunRound(config, decoder, sync, writer, rounds[i], delayMs, flagged, videoFrames, audioChunks, c);
      c := PlayRound(config, writer.audioFormat, delayMs, c, rounds[i]);
      RoundPlayed(config, writer.audioFormat, delayMs, rounds, i);
      if failure.Some? {
        EndingOf(writer.audioFormat, c.play, 0, 0);
        return failure.value, calls;
      }
      IntactFile(writer, calls, failure);
    }
    assert rounds[..|rounds|] == rounds;
    IntactFile(writer, calls, None);
    EndingOf(writer.audioFormat, c.play, videoFrames, audioChunks);
    end := if audioChunks == 0 then NoCapturedAudio else if videoFrames == 0 then NoCapturedVideo else Stopped;
  }

  lemma {:induction false} RoundPlayed(config: Config, format: AudioFormat, delayMs: int, rounds: seq<Round>, i: nat)
    requires i < |rounds|
    ensures var c := PlayRound(config, format, delayMs, PlayRounds(config, format, delayMs, rounds[..i]), rounds[i]);
            && PlayRounds(config, format, delayMs, rounds[..i + 1]) == c
            && (c.play.end.Some? ==> PlayRounds(config, format, delayMs, rounds).play == c.play)
  {
    assert rounds[..i + 1] == rounds[..i] + [rounds[i]];
    PlayRoundsSnoc(config, format, delayMs, rounds[..i], rounds[i]);
    hide PlayRound;
    if PlayRounds(config, format, delayMs, rounds[..i + 1]).play.end.Some? {
      EndedRoundsStay(config, format, delayMs, rounds, i + 1);
    }
  }

  lemma {:induction false} NothingWritten(config: Config, format: AudioFormat, delayMs: int)
    ensures Counted(format, [], 0, 0)
    ensures PlayRounds(config, format, delayMs, []) == Captured(Source(FRESH, false), Play(SYNC_START, [], None))
  {
  }

  lemma {:induction false} EndingOf(format: AudioFormat, play: Play, videoFrames: nat, audioChunks: nat)
    requires play.end.Some? || Counted(format, play.calls, videoFrames, audioChunks)
    ensures SessionEnding(format, play)
            == if play.end.Some? then play.end.value
               else if audioChunks == 0 then NoCapturedAudio
               else if videoFrames == 0 then NoCapturedVideo
               else Stopped
  {
  }

  // A capture that is stopped, flushed and read back: the document holds the
  // accepted blocks, so what is proved about them is about the file itself.
  method RunCapture(config: Config, floats: Floats, format: AudioFormat, rounds: seq<Round>, delayMs: int)
    returns (writer: MatroskaWriter, end: End)
    ensures var play := PlayRounds(config, format, delayMs, rounds).play;
            && end == SessionEnding(format, play)
            && (end.Stopped? ==>
                  ReadFile(writer.output.bytes)
                  == Some(DocumentOf(floats, format, floats.milliseconds(MaximumEnd(format, play.calls)),
                                     AcceptedBlocks(format, play.calls))))
  {
    hide PlayRounds, FileBytes, DocumentOf, BeforeDuration, AllFit, Overwrite;
    var output := new Output();
    writer := new MatroskaWriter(output, floats, format);
    ghost var calls;
    end, calls := RunCaptureSession(config, writer, rounds, delayMs);
    if end.Stopped? {
      IntactFile(writer, calls, PlayRounds(config, format, delayMs, rounds).play.end);
      ReportFlush(writer, calls);
      CallsSnoc(floats, format, calls, Flush);
      FileRoundTrip(floats, format, writer.duration, writer.blocks);
    }
  }
}
