/** The stateful cross-endpoint frame assembler and the batch layout it refines. */
module Stream {
  import opened Bytes
  import opened Jpeg

  datatype Endpoint = Boundary | Video

  datatype Packet = Packet(endpoint: Endpoint, data: Data)

  datatype CompressedFrame = CompressedFrame(
    sequence: nat, timestamp11: nat, unwrapped: nat, deltaToNext: nat, flags: nat, jpeg: Data)

  datatype PendingRecord = PendingRecord(timestamp: nat, unwrapped: nat, flags: nat, entropy: Data)

  datatype DecodeError = RecordTooLarge(maximum: nat) | FrameConversion(cause: ConversionError)

  // The result of one push: Ok(None), Ok(Some(frame)) or an error.
  type Outcome = Result<Option<CompressedFrame>, DecodeError>

  // Fixed parameters: the constant JPEG header and the configured record limit.
  datatype Config = Config(jpegHeader: Data, maxRecordSize: nat)

  datatype DecoderState = DecoderState(
    boundaryPending: bool, current: Option<PendingRecord>, discardFirst: bool, nextSequence: nat)

  const FRESH: DecoderState := DecoderState(false, None, true, 0)

  // Bit 3 of the first byte of a 0x81 packet.
  predicate IsBoundaryToken(data: Data) {
    data != [] && data[0] / 8 % 2 == 1
  }

  predicate IsHeader(data: Data) {
    |data| >= 8 && StartsWithSync(data)
  }

  function HeaderTimestamp(header: Data): (t: nat)
    requires |header| >= 8
    ensures t < 2048
  {
    var high: int := header[6] % 8;
    high * 256 + header[7]
  }

  function HeaderFlags(header: Data): nat
    requires |header| >= 8
  {
    header[6] - header[6] % 8
  }

  // 11-bit wrapping difference.
  function WrappedDelta(earlier: nat, later: nat): (d: nat)
    ensures d < 2048
  {
    (later - earlier) % 2048
  }

  function StartRecord(config: Config, st: DecoderState, header: Data): (DecoderState, Outcome)
    requires IsHeader(header)
  {
    var timestamp := HeaderTimestamp(header);
    var fresh_ := PendingRecord(timestamp, 0, HeaderFlags(header), header[8..]);
    match st.current
    case None =>
      (DecoderState(false, Some(fresh_), st.discardFirst, st.nextSequence), Ok(None))
    case Some(finished) =>
      if st.discardFirst then
        (DecoderState(false, Some(fresh_), false, st.nextSequence), Ok(None))
      else
        var delta := WrappedDelta(finished.timestamp, timestamp);
        var started := Some(fresh_.(unwrapped := finished.unwrapped + delta));
        match Reconstruct(config.jpegHeader, finished.entropy)
        case Err(e) =>
          (DecoderState(false, started, false, st.nextSequence), Err(FrameConversion(e)))
        case Ok(jpeg) =>
          (DecoderState(false, started, false, st.nextSequence + 1),
           Ok(Some(CompressedFrame(st.nextSequence, finished.timestamp, finished.unwrapped, delta,
                                   finished.flags, jpeg))))
  }

  function Step(config: Config, st: DecoderState, packet: Packet): (DecoderState, Outcome) {
    if packet.endpoint.Boundary? then
      (if IsBoundaryToken(packet.data) then st.(boundaryPending := true) else st, Ok(None))
    else if IsHeader(packet.data) && st.boundaryPending then
      StartRecord(config, st, packet.data)
    else
      match st.current
      case None => (st, Ok(None))
      case Some(record) =>
        if |record.entropy| + |packet.data| > config.maxRecordSize then
          (DecoderState(false, None, true, st.nextSequence), Err(RecordTooLarge(config.maxRecordSize)))
        else
          (st.(current := Some(record.(entropy := record.entropy + packet.data))), Ok(None))
  }

  class StreamDecoder {
    const config: Config
    var boundaryPending: bool
    var current: Option<PendingRecord>
    var discardFirst: bool
    var nextSequence: nat

    ghost function State(): DecoderState
      reads this
    {
      DecoderState(boundaryPending, current, discardFirst, nextSequence)
    }

    constructor (config: Config)
      ensures this.config == config && State() == FRESH
    {
      this.config := config;
      boundaryPending, current, discardFirst, nextSequence := false, None, true, 0;
    }

    method Reset()
      modifies this
      ensures State() == FRESH
    {
      boundaryPending, current, discardFirst, nextSequence := false, None, true, 0;
    }

    method PushPacket(packet: Packet) returns (outcome: Outcome)
      modifies this
      ensures (State(), outcome) == Step(config, old(State()), packet)
    {
      match packet.endpoint
      case Boundary =>
        if IsBoundaryToken(packet.data) {
          boundaryPending := true;
        }
        outcome := Ok(None);
      case Video =>
        outcome := PushVideo(packet.data);
    }

    method PushVideo(data: Data) returns (outcome: Outcome)
      modifies this
      ensures (State(), outcome) == Step(config, old(State()), Packet(Video, data))
    {
      if IsHeader(data) && boundaryPending {
        boundaryPending := false;
        var timestamp := HeaderTimestamp(data);
        var finished := current;
        var nextUnwrapped := 0;
        if finished.Some? {
          nextUnwrapped := finished.value.unwrapped + WrappedDelta(finished.value.timestamp, timestamp);
        }
        current := Some(PendingRecord(timestamp, if discardFirst then 0 else nextUnwrapped,
                                      HeaderFlags(data), data[8..]));
        if finished.Some? {
          var record := finished.value;
          if discardFirst {
            discardFirst := false;
            return Ok(None);
          }
          var delta := WrappedDelta(record.timestamp, timestamp);
          var jpeg := ReconstructJpeg(config.jpegHeader, record.entropy);
          if jpeg.Err? {
            return Err(FrameConversion(jpeg.error));
          }
          var frame := CompressedFrame(nextSequence, record.timestamp, record.unwrapped, delta,
                                       record.flags, jpeg.value);
          nextSequence := nextSequence + 1;
          return Ok(Some(frame));
        }
        return Ok(None);
      }
      if current.Some? {
        var record := current.value;
        if |record.entropy| + |data| > config.maxRecordSize {
          current, boundaryPending, discardFirst := None, false, true;
          return Err(RecordTooLarge(config.maxRecordSize));
        }
        current := Some(record.(entropy := record.entropy + data));
      }
      outcome := Ok(None);
    }
  }

  // ---------------------------------------------------------------------
  // A whole run from a fresh decoder, stopping at the first error.

  datatype Decoded = Decoded(state: DecoderState, frames: seq<CompressedFrame>, failed: bool)

  function Emitted(outcome: Outcome): (frames: seq<CompressedFrame>) {
    if outcome.Ok? && outcome.value.Some? then [outcome.value.value] else []
  }

  function Decode(config: Config, packets: seq<Packet>): Decoded {
    if packets == [] then Decoded(FRESH, [], false)
    else
      var before := Decode(config, packets[..|packets| - 1]);
      if before.failed then before
      else
        var (state, outcome) := Step(config, before.state, packets[|packets| - 1]);
        Decoded(state, before.frames + Emitted(outcome), outcome.Err?)
  }

  lemma {:induction false} DecodeSnoc(config: Config, packets: seq<Packet>, packet: Packet)
    requires !Decode(config, packets).failed
    ensures var before := Decode(config, packets);
            var (state, outcome) := Step(config, before.state, packet);
            Decode(config, packets + [packet]) == Decoded(state, before.frames + Emitted(outcome), outcome.Err?)
  {
    hide Step;
    assert (packets + [packet])[..|packets|] == packets;
  }

  // ---------------------------------------------------------------------
  // The batch layout: which packets open a record, and which bytes it holds.

  // A record as its header packet and the packets that continue it.
  datatype RawRecord = RawRecord(head: Data, tail: seq<Data>) {
    function Bytes(): Data { head + Flatten(tail) }

    function Entropy(): Data
      requires |head| >= 8
    {
      head[8..] + Flatten(tail)
    }
  }

  datatype Layout = Layout(armed: bool, preamble: Data, records: seq<RawRecord>)

  predicate HeadsAreHeaders(records: seq<RawRecord>) {
    forall k :: 0 <= k < |records| ==> IsHeader(records[k].head)
  }

  function Extend(l: Layout, packet: Packet): (l': Layout)
    requires HeadsAreHeaders(l.records)
    ensures HeadsAreHeaders(l'.records)
  {
    if packet.endpoint.Boundary? then l.(armed := l.armed || IsBoundaryToken(packet.data))
    else if IsHeader(packet.data) && l.armed then
      Layout(false, l.preamble, l.records + [RawRecord(packet.data, [])])
    else if l.records == [] then l.(preamble := l.preamble + packet.data)
    else
      var n := |l.records| - 1;
      var grown := RawRecord(l.records[n].head, l.records[n].tail + [packet.data]);
      l.(records := l.records[..n] + [grown])
  }

  function LayoutOf(packets: seq<Packet>): (l: Layout)
    ensures HeadsAreHeaders(l.records)
  {
    if packets == [] then Layout(false, [], [])
    else Extend(LayoutOf(packets[..|packets| - 1]), packets[|packets| - 1])
  }

  lemma {:induction false} LayoutSnoc(packets: seq<Packet>, last: Packet)
    ensures LayoutOf(packets + [last]) == Extend(LayoutOf(packets), last)
  {
    hide Extend;
    assert (packets + [last])[..|packets|] == packets;
  }

  function VideoBytes(packets: seq<Packet>): Data {
    if packets == [] then []
    else
      var last := packets[|packets| - 1];
      VideoBytes(packets[..|packets| - 1]) + if last.endpoint.Video? then last.data else []
  }

  function RecordBytes(records: seq<RawRecord>): Data {
    if records == [] then [] else RecordBytes(records[..|records| - 1]) + records[|records| - 1].Bytes()
  }

  // Every video byte lies in the preamble or in exactly one record, in order.
  lemma {:induction false} LayoutTilesVideo(packets: seq<Packet>)
    ensures var l := LayoutOf(packets);
            VideoBytes(packets) == l.preamble + RecordBytes(l.records)
  {
    if packets != [] {
      var before, packet := LayoutOf(packets[..|packets| - 1]), packets[|packets| - 1];
      LayoutTilesVideo(packets[..|packets| - 1]);
      ExtendAppends(before, packet);
    }
  }

  lemma {:induction false} ExtendAppends(l: Layout, packet: Packet)
    requires HeadsAreHeaders(l.records)
    ensures var l' := Extend(l, packet);
            l'.preamble + RecordBytes(l'.records)
            == (l.preamble + RecordBytes(l.records)) + if packet.endpoint.Video? then packet.data else []
  {
    hide StartsWithSync;
    var rs := l.records;
    if packet.endpoint.Video? {
      if IsHeader(packet.data) && l.armed {
        RecordBytesSnoc(rs, RawRecord(packet.data, []));
        Associate(l.preamble, RecordBytes(rs), packet.data);
      } else if rs != [] {
        var n := |rs| - 1;
        RecordBytesSnoc(rs[..n], RawRecord(rs[n].head, rs[n].tail + [packet.data]));
        FlattenSnoc(rs[n].tail, packet.data);
        Associate(rs[n].head, Flatten(rs[n].tail), packet.data);
        Associate(RecordBytes(rs[..n]), rs[n].Bytes(), packet.data);
        Associate(l.preamble, RecordBytes(rs), packet.data);
      }
    }
  }

  lemma {:induction false} RecordBytesSnoc(rs: seq<RawRecord>, r: RawRecord)
    ensures RecordBytes(rs + [r]) == RecordBytes(rs) + r.Bytes()
    ensures r.tail == [] ==> r.Bytes() == r.head
  {
    assert (rs + [r])[..|rs|] == rs;
  }

  // The batch meaning of a frame, read off the records alone.

  function Timestamp(r: RawRecord): nat
    requires |r.head| >= 8
  {
    HeaderTimestamp(r.head)
  }

  function UnwrappedAt(records: seq<RawRecord>, i: nat): nat
    requires HeadsAreHeaders(records) && i + 1 < |records|
  {
    if i == 0 then 0
    else UnwrappedAt(records, i - 1) + WrappedDelta(Timestamp(records[i]), Timestamp(records[i + 1]))
  }

  predicate HasEntropy(r: RawRecord)
    requires |r.head| >= 8
  {
    StripPadding(r.Entropy()) != []
  }

  function FrameAt(config: Config, records: seq<RawRecord>, i: nat): CompressedFrame
    requires HeadsAreHeaders(records) && i + 2 < |records|
    requires HasEntropy(records[i + 1])
  {
    var record := records[i + 1];
    CompressedFrame(i, Timestamp(record), UnwrappedAt(records, i),
                    WrappedDelta(Timestamp(record), Timestamp(records[i + 2])),
                    HeaderFlags(record.head), Reconstruct(config.jpegHeader, record.Entropy()).value)
  }

  // The limit binds only records that are continued past their header packet;
  // the records that become frames must hold some entropy.
  predicate WithinLimit(config: Config, r: RawRecord)
    requires |r.head| >= 8
  {
    r.tail == [] || |r.Entropy()| <= config.maxRecordSize
  }

  ghost predicate Decodable(config: Config, records: seq<RawRecord>)
    requires HeadsAreHeaders(records)
  {
    && (forall k :: 0 <= k < |records| ==> WithinLimit(config, records[k]))
    && InnerEntropy(records)
  }

  ghost predicate InnerEntropy(records: seq<RawRecord>)
    requires HeadsAreHeaders(records)
  {
    forall k :: 1 <= k < |records| - 1 ==> HasEntropy(records[k])
  }

  function BatchFrames(config: Config, records: seq<RawRecord>): (frames: seq<CompressedFrame>)
    requires HeadsAreHeaders(records) && InnerEntropy(records)
    ensures |frames| == Max(0, |records| - 2)
  {
    if |records| <= 2 then []
    else BatchFrames(config, records[..|records| - 1]) + [FrameAt(config, records, |records| - 3)]
  }

  // The decoder state that a layout determines.
  function StateOf(l: Layout): DecoderState
    requires HeadsAreHeaders(l.records)
  {
    var n := |l.records|;
    if n == 0 then DecoderState(l.armed, None, true, 0)
    else
      var r := l.records[n - 1];
      var unwrapped := if n == 1 then 0 else UnwrappedAt(l.records, n - 2);
      DecoderState(l.armed, Some(PendingRecord(Timestamp(r), unwrapped, HeaderFlags(r.head), r.Entropy())),
                   n == 1, Max(0, n - 2))
  }

  ghost predicate Agrees(config: Config, d: Decoded, l: Layout)
    requires HeadsAreHeaders(l.records)
  {
    && d.failed == !Decodable(config, l.records)
    && (!d.failed ==> d.state == StateOf(l) && d.frames == BatchFrames(config, l.records))
  }

  // Refinement: on every packet sequence the decoder errs exactly when some
  // record breaks a limit, and otherwise its frames are the batch frames.
  lemma {:induction false} DecoderRefinesBatch(config: Config, packets: seq<Packet>)
    ensures Agrees(config, Decode(config, packets), LayoutOf(packets))
  {
    if packets != [] {
      var init, packet := packets[..|packets| - 1], packets[|packets| - 1];
      DecoderRefinesBatch(config, init);
      var before, l := Decode(config, init), LayoutOf(init);
      if before.failed {
        FailurePersists(config, l, packet);
      } else {
        StepRefines(config, l, packet);
      }
    }
  }

  lemma {:induction false} FailurePersists(config: Config, l: Layout, packet: Packet)
    requires HeadsAreHeaders(l.records) && !Decodable(config, l.records)
    ensures !Decodable(config, Extend(l, packet).records)
  {
    hide StartsWithSync;
    var rs, rs' := l.records, Extend(l, packet).records;
    if k :| 0 <= k < |rs| && !WithinLimit(config, rs[k]) {
      LimitStaysBroken(config, l, packet, k);
    } else {
      var k :| 1 <= k < |rs| - 1 && !HasEntropy(rs[k]);
      assert rs'[k] == rs[k];
    }
  }

  lemma {:induction false} LimitStaysBroken(config: Config, l: Layout, packet: Packet, k: nat)
    requires HeadsAreHeaders(l.records) && k < |l.records| && !WithinLimit(config, l.records[k])
    ensures k < |Extend(l, packet).records| && !WithinLimit(config, Extend(l, packet).records[k])
  {
    hide StartsWithSync;
    FlattenSnoc(l.records[k].tail, packet.data);
  }

  lemma {:induction false} StepRefines(config: Config, l: Layout, packet: Packet)
    requires HeadsAreHeaders(l.records) && Decodable(config, l.records)
    ensures var (state, outcome) := Step(config, StateOf(l), packet);
            Agrees(config, Decoded(state, BatchFrames(config, l.records) + Emitted(outcome), outcome.Err?),
                   Extend(l, packet))
  {
    if packet.endpoint.Boundary? || (!(IsHeader(packet.data) && l.armed) && l.records == []) {
      IdleRefines(config, l, packet);
    } else {
      hide Step, StateOf, Extend, Agrees, Decodable, BatchFrames, IsHeader;
      assert packet == Packet(Video, packet.data);
      if IsHeader(packet.data) && l.armed {
        HeaderRefines(config, l, packet.data);
      } else {
        ContinuationRefines(config, l, packet.data);
      }
    }
  }

  // Boundary packets, and video packets before the first record.
  lemma {:induction false} IdleRefines(config: Config, l: Layout, packet: Packet)
    requires HeadsAreHeaders(l.records) && Decodable(config, l.records)
    requires packet.endpoint.Boundary? || (!(IsHeader(packet.data) && l.armed) && l.records == [])
    ensures var (state, outcome) := Step(config, StateOf(l), packet);
            Agrees(config, Decoded(state, BatchFrames(config, l.records) + Emitted(outcome), outcome.Err?),
                   Extend(l, packet))
  {
    hide StartsWithSync, HasEntropy, WithinLimit;
    assert Extend(l, packet).records == l.records;
    assert BatchFrames(config, l.records) + [] == BatchFrames(config, l.records);
  }

  lemma {:induction false} UnwrappedIsPrefixStable(a: seq<RawRecord>, b: seq<RawRecord>, i: nat)
    requires HeadsAreHeaders(a) && HeadsAreHeaders(b) && i + 1 < |a| && i + 1 < |b|
    requires forall k :: 0 <= k <= i + 1 ==> a[k].head == b[k].head
    ensures UnwrappedAt(a, i) == UnwrappedAt(b, i)
  {
    if i > 0 {
      UnwrappedIsPrefixStable(a, b, i - 1);
    }
  }

  // A frame depends on its record and on the headers up to the next one.
  lemma {:induction false} FrameIsPrefixStable(config: Config, a: seq<RawRecord>, b: seq<RawRecord>, i: nat)
    requires HeadsAreHeaders(a) && HeadsAreHeaders(b) && i + 2 < |a| && i + 2 < |b|
    requires forall k :: 0 <= k <= i + 2 ==> a[k].head == b[k].head
    requires a[i + 1] == b[i + 1] && HasEntropy(a[i + 1])
    ensures FrameAt(config, a, i) == FrameAt(config, b, i)
  {
    UnwrappedIsPrefixStable(a, b, i);
  }

  // The batch frames, one by one.
  lemma {:induction false} BatchFrameAt(config: Config, rs: seq<RawRecord>, i: nat)
    requires HeadsAreHeaders(rs) && InnerEntropy(rs) && i + 2 < |rs|
    ensures BatchFrames(config, rs)[i] == FrameAt(config, rs, i)
  {
    hide StartsWithSync, FrameAt, HasEntropy;
    if i + 3 < |rs| {
      var init := rs[..|rs| - 1];
      BatchFrameAt(config, init, i);
      FrameIsPrefixStable(config, init, rs, i);
    }
  }

  lemma {:induction false} BatchFramesSnoc(config: Config, rs: seq<RawRecord>, r: RawRecord)
    requires HeadsAreHeaders(rs) && IsHeader(r.head) && |rs| >= 2
    requires InnerEntropy(rs) && HasEntropy(rs[|rs| - 1])
    ensures HeadsAreHeaders(rs + [r]) && InnerEntropy(rs + [r])
    ensures BatchFrames(config, rs + [r]) == BatchFrames(config, rs) + [FrameAt(config, rs + [r], |rs| - 2)]
  {
    hide StartsWithSync;
    assert (rs + [r])[..|rs|] == rs;
  }

  // A header closes the current record: the step's outcome in batch terms.
  lemma {:induction false} HeaderStep(config: Config, l: Layout, header: Data)
    requires HeadsAreHeaders(l.records) && IsHeader(header) && l.armed
    ensures var (state, outcome) := Step(config, StateOf(l), Packet(Video, header));
            var l' := Extend(l, Packet(Video, header));
            var n := |l.records|;
            if n < 2 then state == StateOf(l') && outcome == Ok(None)
            else if !HasEntropy(l.records[n - 1]) then outcome.Err?
            else state == StateOf(l') && outcome == Ok(Some(FrameAt(config, l'.records, n - 2)))
  {
    hide StartsWithSync;
    var rs, r := l.records, RawRecord(header, []);
    var n := |rs|;
    assert r.Entropy() == header[8..];
    if n >= 2 {
      UnwrappedIsPrefixStable(rs, rs + [r], n - 2);
    }
  }

  lemma {:induction false} ExtendOpens(l: Layout, header: Data)
    requires HeadsAreHeaders(l.records) && IsHeader(header) && l.armed
    ensures Extend(l, Packet(Video, header)).records == l.records + [RawRecord(header, [])]
  {
  }

  lemma {:induction false} FewRecords(config: Config, rs: seq<RawRecord>, r: RawRecord)
    requires HeadsAreHeaders(rs) && IsHeader(r.head) && |rs| < 2 && InnerEntropy(rs)
    ensures HeadsAreHeaders(rs + [r]) && InnerEntropy(rs + [r])
    ensures BatchFrames(config, rs + [r]) == BatchFrames(config, rs) + []
  {
  }

  lemma {:induction false} HeaderRefines(config: Config, l: Layout, header: Data)
    requires HeadsAreHeaders(l.records) && Decodable(config, l.records)
    requires IsHeader(header) && l.armed
    ensures var packet := Packet(Video, header);
            var (state, outcome) := Step(config, StateOf(l), packet);
            Agrees(config, Decoded(state, BatchFrames(config, l.records) + Emitted(outcome), outcome.Err?),
                   Extend(l, packet))
  {
    var rs, r := l.records, RawRecord(header, []);
    ExtendOpens(l, header);
    hide StartsWithSync, Extend, Step, StateOf, FrameAt, WithinLimit, HasEntropy, BatchFrames, Flatten, IsHeader;
    HeaderStep(config, l, header);
    DecodableSnoc(config, rs, r);
    if |rs| < 2 {
      FewRecords(config, rs, r);
    } else if HasEntropy(rs[|rs| - 1]) {
      BatchFramesSnoc(config, rs, r);
    }
  }

  lemma {:induction false} DecodableSnoc(config: Config, rs: seq<RawRecord>, r: RawRecord)
    requires HeadsAreHeaders(rs) && IsHeader(r.head) && r.tail == [] && Decodable(config, rs)
    ensures HeadsAreHeaders(rs + [r])
    ensures Decodable(config, rs + [r]) <==> (|rs| >= 2 ==> HasEntropy(rs[|rs| - 1]))
  {
    var rs' := rs + [r];
    assert forall k :: 0 <= k < |rs| ==> rs'[k] == rs[k];
    if |rs| >= 2 && Decodable(config, rs') {
      assert HasEntropy(rs'[|rs| - 1]);
    }
  }

  lemma {:induction false} BatchFramesIgnoreLast(config: Config, rs: seq<RawRecord>, rs': seq<RawRecord>)
    requires HeadsAreHeaders(rs) && HeadsAreHeaders(rs') && |rs| == |rs'| >= 1
    requires rs[..|rs| - 1] == rs'[..|rs| - 1] && rs[|rs| - 1].head == rs'[|rs| - 1].head
    requires InnerEntropy(rs)
    ensures InnerEntropy(rs') && BatchFrames(config, rs') == BatchFrames(config, rs)
  {
    hide StartsWithSync, FrameAt, HasEntropy;
    var init := rs[..|rs| - 1];
    assert forall k :: 0 <= k < |rs| - 1 ==> rs[k] == init[k] && rs'[k] == init[k];
    if |rs| > 2 {
      FrameIsPrefixStable(config, rs, rs', |rs| - 3);
    }
  }

  lemma {:induction false} DecodableGrow(config: Config, rs: seq<RawRecord>, data: Data)
    requires HeadsAreHeaders(rs) && Decodable(config, rs) && rs != []
    ensures var n := |rs| - 1;
            var grown := RawRecord(rs[n].head, rs[n].tail + [data]);
            && HeadsAreHeaders(rs[..n] + [grown])
            && grown.Entropy() == rs[n].Entropy() + data
            && (Decodable(config, rs[..n] + [grown])
                <==> |rs[n].Entropy()| + |data| <= config.maxRecordSize)
  {
    hide StartsWithSync;
    var n := |rs| - 1;
    var rs' := rs[..n] + [RawRecord(rs[n].head, rs[n].tail + [data])];
    FlattenSnoc(rs[n].tail, data);
    assert rs'[n].Entropy() == rs[n].Entropy() + data;
    assert forall k :: 0 <= k < n ==> rs'[k] == rs[k];
    assert WithinLimit(config, rs'[n]) <==> |rs[n].Entropy()| + |data| <= config.maxRecordSize;
  }

  // Continuing the last record changes nothing in the decoder but its entropy.
  lemma {:induction false} GrownState(l: Layout, data: Data)
    requires HeadsAreHeaders(l.records) && l.records != [] && !(IsHeader(data) && l.armed)
    ensures var st, st' := StateOf(l), StateOf(Extend(l, Packet(Video, data)));
            && st.current.Some? && st.current.value.entropy == l.records[|l.records| - 1].Entropy()
            && st.boundaryPending == l.armed
            && st' == st.(current := Some(st.current.value.(entropy := st.current.value.entropy + data)))
  {
    hide StartsWithSync, WrappedDelta, HeaderTimestamp, HeaderFlags;
    var rs, rs' := l.records, Extend(l, Packet(Video, data)).records;
    var n := |rs| - 1;
    FlattenSnoc(rs[n].tail, data);
    assert rs'[n].Entropy() == rs[n].Entropy() + data;
    if n >= 1 {
      UnwrappedIsPrefixStable(rs, rs', n - 1);
    }
  }

  lemma {:induction false} ContinuationStep(config: Config, l: Layout, data: Data)
    requires HeadsAreHeaders(l.records) && l.records != [] && !(IsHeader(data) && l.armed)
    ensures var (state, outcome) := Step(config, StateOf(l), Packet(Video, data));
            var l' := Extend(l, Packet(Video, data));
            if |l.records[|l.records| - 1].Entropy()| + |data| > config.maxRecordSize then outcome.Err?
            else state == StateOf(l') && outcome == Ok(None)
  {
    GrownState(l, data);
    hide StartsWithSync, StateOf, Extend;
  }

  lemma {:induction false} SameButLast(rs: seq<RawRecord>, rs': seq<RawRecord>)
    requires rs != [] && exists r: RawRecord :: rs' == rs[..|rs| - 1] + [r]
    ensures |rs'| == |rs| && rs'[..|rs| - 1] == rs[..|rs| - 1]
  {
  }

  lemma {:induction false} ExtendGrows(l: Layout, data: Data)
    requires HeadsAreHeaders(l.records) && l.records != [] && !(IsHeader(data) && l.armed)
    ensures var n := |l.records| - 1;
            Extend(l, Packet(Video, data)).records
            == l.records[..n] + [RawRecord(l.records[n].head, l.records[n].tail + [data])]
  {
  }

  lemma {:induction false} ContinuationRefines(config: Config, l: Layout, data: Data)
    requires HeadsAreHeaders(l.records) && Decodable(config, l.records) && l.records != []
    requires !(IsHeader(data) && l.armed)
    ensures var packet := Packet(Video, data);
            var (state, outcome) := Step(config, StateOf(l), packet);
            Agrees(config, Decoded(state, BatchFrames(config, l.records) + Emitted(outcome), outcome.Err?),
                   Extend(l, packet))
  {
    hide StartsWithSync, Extend, Step, StateOf, FrameAt, WithinLimit, HasEntropy, BatchFrames, Flatten;
    ExtendGrows(l, data);
    ContinuationStep(config, l, data);
    DecodableGrow(config, l.records, data);
    var l' := Extend(l, Packet(Video, data));
    SameButLast(l.records, l'.records);
    BatchFramesIgnoreLast(config, l.records, l'.records);
    assert BatchFrames(config, l.records) + [] == BatchFrames(config, l.records);
  }
}
