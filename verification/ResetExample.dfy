/** A session with one packet error, in which the file's video time goes back. */
module ResetExample {
  import opened Bytes
  import opened Jpeg
  import opened Stream
  import opened Media
  import opened Sync
  import opened EventOrder
  import opened Ebml
  import opened Matroska
  import opened MatroskaWriter
  import opened EpochClock
  import opened Capture
  import opened CaptureTimeline
  import Transport

  const CONFIG: Config := Config([], 100)

  // A header packet at a camera time, with one byte of entropy.
  function HeaderAt(ms: nat): Data
    requires ms < 2048
  {
    SYNC + [ms / 256, ms % 256, 1]
  }

  // Packets that arm and open one record after the other.
  function Armed(times: seq<nat>): seq<Packet>
    requires forall k :: 0 <= k < |times| ==> times[k] < 2048
  {
    if times == [] then []
    else
      Armed(times[..|times| - 1]) + [Packet(Boundary, [8])] + [Packet(Video, HeaderAt(times[|times| - 1]))]
  }

  function Records(times: seq<nat>): (records: seq<RawRecord>)
    requires forall k :: 0 <= k < |times| ==> times[k] < 2048
    ensures |records| == |times|
    ensures forall k :: 0 <= k < |times| ==> records[k] == RawRecord(HeaderAt(times[k]), [])
  {
    seq(|times|, k requires 0 <= k < |times| => RawRecord(HeaderAt(times[k]), []))
  }

  lemma {:induction false} HeaderReads(ms: nat)
    requires ms < 2048
    ensures IsHeader(HeaderAt(ms)) && HeaderTimestamp(HeaderAt(ms)) == ms
    ensures RawRecord(HeaderAt(ms), []).Entropy() == [1]
  {
    var h := HeaderAt(ms);
    assert h[..6] == SYNC && h[8..] == [1];
    assert [1] + [] == [1];
  }

  lemma {:induction false} ArmedSnoc(times: seq<nat>, ms: nat)
    requires ms < 2048 && forall k :: 0 <= k < |times| ==> times[k] < 2048
    ensures forall k :: 0 <= k < |times + [ms]| ==> (times + [ms])[k] < 2048
    ensures Armed(times + [ms]) == Armed(times) + [Packet(Boundary, [8])] + [Packet(Video, HeaderAt(ms))]
    ensures Records(times + [ms]) == Records(times) + [RawRecord(HeaderAt(ms), [])]
  {
    hide HeaderAt;
    assert (times + [ms])[..|times|] == times;
  }

  lemma {:induction false} ArmedLayout(times: seq<nat>)
    requires forall k :: 0 <= k < |times| ==> times[k] < 2048
    ensures LayoutOf(Armed(times)) == Layout(false, [], Records(times))
  {
    if times != [] {
      hide LayoutOf, HeaderAt, Armed, Records;
      var n := |times| - 1;
      ArmedLayout(times[..n]);
      OneMoreRecord(Armed(times[..n]), Records(times[..n]), times[n]);
      ArmedSnoc(times[..n], times[n]);
      assert times[..n] + [times[n]] == times;
    }
  }

  lemma {:induction false} OneMoreRecord(packets: seq<Packet>, records: seq<RawRecord>, ms: nat)
    requires ms < 2048 && LayoutOf(packets) == Layout(false, [], records)
    ensures LayoutOf(packets + [Packet(Boundary, [8])] + [Packet(Video, HeaderAt(ms))])
            == Layout(false, [], records + [RawRecord(HeaderAt(ms), [])])
  {
    HeaderReads(ms);
    hide LayoutOf, HeaderAt, StartsWithSync;
    LayoutSnoc(packets, Packet(Boundary, [8]));
    LayoutSnoc(packets + [Packet(Boundary, [8])], Packet(Video, HeaderAt(ms)));
  }

  lemma {:induction false} ArmedDecodes(times: seq<nat>)
    requires forall k :: 0 <= k < |times| ==> times[k] < 2048
    ensures !Decode(CONFIG, Armed(times)).failed
    ensures HeadsAreHeaders(Records(times)) && InnerEntropy(Records(times))
    ensures Decode(CONFIG, Armed(times)).frames == BatchFrames(CONFIG, Records(times))
  {
    forall k | 0 <= k < |times|
      ensures IsHeader(HeaderAt(times[k])) && RawRecord(HeaderAt(times[k]), []).Entropy() == [1]
    {
      HeaderReads(times[k]);
    }
    hide HeaderAt, StartsWithSync, Decode;
    ArmedLayout(times);
    DecoderRefinesBatch(CONFIG, Armed(times));
    hide LayoutOf, BatchFrames, StateOf, Armed;
    assert StripPadding([1]) == [1];
  }

  // Frame i of such an epoch.
  lemma {:induction false} ArmedFrame(times: seq<nat>, i: nat)
    requires forall k :: 0 <= k < |times| ==> times[k] < 2048
    requires i + 2 < |times|
    ensures |Decode(CONFIG, Armed(times)).frames| == |times| - 2
    ensures HeadsAreHeaders(Records(times))
    ensures var frame := Decode(CONFIG, Armed(times)).frames[i];
            frame.unwrapped == UnwrappedAt(Records(times), i) && |frame.jpeg| == 3
  {
    ArmedDecodes(times);
    BatchFrameAt(CONFIG, Records(times), i);
    HeaderReads(times[i + 1]);
    hide Decode, BatchFrames, HeaderAt, UnwrappedAt, StartsWithSync, Armed;
    OneByte();
  }

  lemma {:induction false} OneByte()
    ensures StripPadding([1]) == [1] && Reconstruct([], [1]).Ok? && |Reconstruct([], [1]).value| == 3
  {
    assert [1][..0] == [];
  }

  lemma {:induction false} ElapsedIs(times: seq<nat>)
    requires forall k :: 0 <= k < |times| ==> times[k] < 2048
    requires |times| >= 3
    ensures HeadsAreHeaders(Records(times))
    ensures UnwrappedAt(Records(times), 0) == 0
    ensures UnwrappedAt(Records(times), 1) == WrappedDelta(times[1], times[2])
  {
    forall k | 0 <= k < |times|
      ensures IsHeader(HeaderAt(times[k])) && HeaderTimestamp(HeaderAt(times[k])) == times[k]
    {
      HeaderReads(times[k]);
    }
    hide HeaderAt, StartsWithSync;
  }

  // ---------------------------------------------------------------------
  // The session: two epochs cut by a packet error, all in one round.

  const FIRST: seq<nat> := [0, 0, 40, 80]
  const SECOND: seq<nat> := [120, 160, 200]

  function Usb(packets: seq<Packet>): (events: seq<UsbEvent>)
    ensures |events| == |packets|
  {
    seq(|packets|, k requires 0 <= k < |packets| =>
      UsbEvent(Transport.PacketReceived(packets[k].endpoint, packets[k].data), 0))
  }

  const ERROR: UsbEvent := UsbEvent(Transport.PacketError(Video, 1), 0)

  function Events(): seq<UsbEvent> {
    Usb(Armed(FIRST)) + [ERROR] + Usb(Armed(SECOND))
  }

  function Session(): seq<Round> {
    [Round([], Some(Events()), false, false)]
  }

  lemma {:induction false} SessionEpochsSnoc(events: seq<UsbEvent>, event: UsbEvent)
    ensures SessionEpochs(CONFIG, events + [event]) == NextEpochs(CONFIG, SessionEpochs(CONFIG, events), event)
  {
    hide NextEpochs;
    assert (events + [event])[..|events|] == events;
  }

  lemma {:induction false} FailureStays(packets: seq<Packet>, more: seq<Packet>)
    requires !Decode(CONFIG, packets + more).failed
    ensures !Decode(CONFIG, packets).failed
    decreases |more|
  {
    hide Step;
    if more == [] {
      assert packets + more == packets;
    } else {
      var all := packets + more;
      assert all[..|all| - 1] == packets + more[..|more| - 1];
      FailureStays(packets, more[..|more| - 1]);
    }
  }

  // Packets the decoder accepts only lengthen the open epoch.
  lemma {:induction false} OpenEpochGrows(events: seq<UsbEvent>, done: seq<seq<Packet>>, packets: seq<Packet>)
    requires SessionEpochs(CONFIG, events) == done + [[]] && !Decode(CONFIG, packets).failed
    ensures SessionEpochs(CONFIG, events + Usb(packets)) == done + [packets]
    decreases |packets|
  {
    hide Decode, SessionEpochs;
    if packets == [] {
      assert events + Usb(packets) == events;
    } else {
      var init, last := packets[..|packets| - 1], packets[|packets| - 1];
      assert packets == init + [last];
      FailureStays(init, [last]);
      OpenEpochGrows(events, done, init);
      var event := UsbEvent(Transport.PacketReceived(last.endpoint, last.data), 0);
      assert events + Usb(packets) == events + Usb(init) + [event];
      SessionEpochsSnoc(events + Usb(init), event);
      assert (done + [init])[..|done|] == done && Packet(last.endpoint, last.data) == last;
      assert done + [packets] + [] == done + [packets];
    }
  }

  lemma {:induction false} EpochsAroundError(a: seq<Packet>, b: seq<Packet>)
    requires !Decode(CONFIG, a).failed && !Decode(CONFIG, b).failed
    ensures SessionEpochs(CONFIG, Usb(a) + [ERROR] + Usb(b)) == [a, b]
  {
    NothingYet();
    hide Decode, SessionEpochs;
    var none: seq<UsbEvent> := [];
    OpenEpochGrows(none, [], a);
    assert none + Usb(a) == Usb(a);
    SessionEpochsSnoc(Usb(a), ERROR);
    assert [] + [a] + [[]] == [a] + [[]];
    OpenEpochGrows(Usb(a) + [ERROR], [a], b);
    assert [a] + [b] == [a, b];
  }

  lemma {:induction false} TwoEpochs()
    ensures SessionEpochs(CONFIG, Events()) == [Armed(FIRST), Armed(SECOND)]
  {
    hide Decode, Armed, SessionEpochs;
    ArmedDecodes(FIRST);
    ArmedDecodes(SECOND);
    EpochsAroundError(Armed(FIRST), Armed(SECOND));
  }

  lemma {:induction false} NothingYet()
    ensures SessionEpochs(CONFIG, []) == [] + [[]]
  {
  }

  // Two epochs of four and three headers: the second starts at zero again.
  lemma {:induction false} JoinedFrames(a: seq<nat>, b: seq<nat>)
    requires |a| == 4 && forall k :: 0 <= k < |a| ==> a[k] < 2048
    requires |b| == 3 && forall k :: 0 <= k < |b| ==> b[k] < 2048
    ensures var frames := EpochFrames(CONFIG, [Armed(a), Armed(b)]);
            && |frames| == 3
            && frames[0].unwrapped == 0 && frames[1].unwrapped == WrappedDelta(a[1], a[2])
            && frames[2].unwrapped == 0
            && forall k :: 0 <= k < 3 ==> |frames[k].jpeg| == 3
  {
    ArmedFrame(a, 0);
    ArmedFrame(a, 1);
    ArmedFrame(b, 0);
    ElapsedIs(a);
    ElapsedIs(b);
    hide Decode, Armed, UnwrappedAt, Records, WrappedDelta, EpochFrames;
    TwoLists(Armed(a), Armed(b));
  }

  lemma {:induction false} TwoLists(a: seq<Packet>, b: seq<Packet>)
    ensures EpochFrames(CONFIG, [a, b]) == Decode(CONFIG, a).frames + Decode(CONFIG, b).frames
  {
    hide Decode;
    var none: seq<seq<Packet>> := [];
    EpochFramesSnoc(CONFIG, none, a);
    EpochFramesSnoc(CONFIG, [a], b);
    assert none + [a] == [a] && [a] + [b] == [a, b];
    assert [] + Decode(CONFIG, a).frames == Decode(CONFIG, a).frames;
  }

  lemma {:induction false} ThreeFrames()
    ensures var frames := EpochFrames(CONFIG, [Armed(FIRST), Armed(SECOND)]);
            && |frames| == 3
            && frames[0].unwrapped == 0 && frames[1].unwrapped == 40 && frames[2].unwrapped == 0
            && forall k :: 0 <= k < 3 ==> |frames[k].jpeg| == 3
  {
    hide Armed, EpochFrames;
    JoinedFrames(FIRST, SECOND);
  }

  // Everything arrives at the session origin, so everything is observed at zero.
  ghost predicate AtZero(events: seq<MediaEvent>) {
    forall k :: 0 <= k < |events| ==> events[k].ObservedUs() == 0
  }

  lemma {:induction false} TakenAtZero(source: Source, events: seq<UsbEvent>)
    requires forall k :: 0 <= k < |events| ==> events[k].receivedNs == 0
    ensures AtZero(TakeUsb(CONFIG, source, events).1)
  {
    hide Step;
    if events != [] {
      TakenAtZero(source, events[..|events| - 1]);
    }
  }

  lemma {:induction false} ZeroIsOrdered(events: seq<MediaEvent>)
    requires AtZero(events)
    ensures Ordered(events)
  {
    if events != [] {
      ZeroIsOrdered(events[..|events| - 1]);
    }
  }

  lemma {:induction false} OneBatch()
    ensures UsbEventsOf(Session()) == Events()
    ensures var batch := LastBatch(CONFIG, Session());
            && batch == TakeUsb(CONFIG, Source(FRESH, false), Events()).1
            && AtZero(batch) && EventsOf(CONFIG, Session()) == batch && VideoEvents(CONFIG, Session()) == batch
    ensures VideoKept(CONFIG, Session())
  {
    TakenAtZero(Source(FRESH, false), Events());
    hide Events, Step, TakeUsb;
    var session, batch := Session(), LastBatch(CONFIG, Session());
    assert session[..0] == [] && [] + Events() == Events();
    assert [] + batch == batch;
    ZeroIsOrdered(batch);
    SortedIsFixed(batch);
    SelectUniform(batch, true);
    hide StableSort, Select, Ordered;
  }

  // ---------------------------------------------------------------------
  // Nothing in it is rejected.

  lemma {:induction false} SmallBlockFits(b: Block)
    requires 1 <= b.track <= 2 && |b.data| <= 4
    ensures BlockFits(b)
  {
    UintIsShort(b.ptsMs);
    hide EncodeUint;
    assert Small(ClusterNodes(b), 8);
    SmallPrints(ClusterNodes(b), 8);
  }

  lemma {:induction false} SmallVideoIsWritten(format: AudioFormat, delayMs: int, p: Play, event: MediaEvent)
    requires p.end.None? && p.sync.streamStart == 0 && event.VideoEvent? && |event.video.frame.jpeg| <= 4
    ensures var p' := PlayEvent(format, delayMs, p, event);
            p'.end.None? && p'.sync.streamStart == 0
  {
    var timing := TimeEvent(p.sync, event).1;
    assert timing.Ok?;
    SmallBlockFits(Block(VIDEO_TRACK, timing.value.ptsUs / 1_000, event.video.frame.jpeg));
    hide BlockFits, PlaceBlock;
  }

  lemma {:induction false} SmallVideosAreWritten(format: AudioFormat, delayMs: int, p: Play, events: seq<MediaEvent>)
    requires p.end.None? && p.sync.streamStart == 0
    requires SmallVideos(events)
    ensures var p' := PlayEvents(format, delayMs, p, events);
            p'.end.None? && p'.sync.streamStart == 0
  {
    hide PlayEvent;
    if events != [] {
      var n := |events| - 1;
      SmallVideosAreWritten(format, delayMs, p, events[..n]);
      SmallVideoIsWritten(format, delayMs, PlayEvents(format, delayMs, p, events[..n]), events[n]);
    }
  }

  lemma {:induction false} NoRoundEnd()
    ensures RoundEnd(Session()[0]).None?
  {
    hide Armed;
    var events := Events();
    forall k | 0 <= k < |events|
      ensures !events[k].event.EndsSession()
    {
    }
  }

  // Every event is a video frame of at most four bytes.
  ghost predicate SmallVideos(events: seq<MediaEvent>) {
    forall k :: 0 <= k < |events| ==> events[k].VideoEvent? && |events[k].video.frame.jpeg| <= 4
  }

  lemma {:induction false} SessionIsSmall()
    ensures SmallVideos(LastBatch(CONFIG, Session()))
  {
    hide Events, TakeUsb, Armed, Select, EventsOf, VideoKept, SessionEpochs, EpochFrames, LastBatch, Session;
    OneBatch();
    TwoEpochs();
    ThreeFrames();
    EventsCarryEpochs(CONFIG, Session());
    var batch := VideoEvents(CONFIG, Session());
    assert forall k :: 0 <= k < |batch| ==> FrameList(batch)[k] == batch[k].video.frame;
  }

  lemma {:induction false} NotCutShort(format: AudioFormat, delayMs: int)
    ensures !CutShort(CONFIG, format, delayMs, Session())
  {
    NoRoundEnd();
    OneBatch();
    SessionIsSmall();
    var batch := LastBatch(CONFIG, Session());
    ZeroIsOrdered(batch);
    SortedIsFixed(batch);
    OnlyRound(format, delayMs, Session()[0]);
    hide Events, Step, TakeUsb, TakeRound, RoundEnd, EventsOf, VideoEvents, StableSort, Ordered, PlayRounds, LastBatch;
    SmallVideosAreWritten(format, delayMs, Play(SYNC_START, [], None), batch);
  }

  lemma {:induction false} OnlyRound(format: AudioFormat, delayMs: int, round: Round)
    requires RoundEnd(round).None? && !round.reportDue
    ensures var batch := LastBatch(CONFIG, [round]);
            PlayRounds(CONFIG, format, delayMs, [round]).play
            == PlayEvents(format, delayMs, Play(SYNC_START, [], None), StableSort(batch))
  {
    hide TakeRound, RoundEnd, PlayEvents, StableSort;
    assert [round][..0] == [];
  }

  // The file of this session shows 0, 40 and again 0 milliseconds.
  lemma {:induction false} TimeGoesBackAfterReset(format: AudioFormat, delayMs: int)
    ensures !CutShort(CONFIG, format, delayMs, Session())
    ensures VideoKept(CONFIG, Session()) && CameraFits(CONFIG, Session())
    ensures var blocks := FileTrack(CONFIG, format, delayMs, Session(), true);
            && |blocks| == 3
            && blocks[0].ptsMs == 0 && blocks[1].ptsMs == 40 && blocks[2].ptsMs == 0
            && !TimeNeverGoesBack(blocks)
  {
    hide Events, TakeUsb, Armed, Select, EventsOf, VideoKept, SessionEpochs, EpochFrames, LastBatch, CutShort,
      FileTrack, Session, UsbEventsOf;
    NotCutShort(format, delayMs);
    OneBatch();
    TwoEpochs();
    ThreeFrames();
    FileTimes(CONFIG, format, delayMs, Session());
  }
}
