/** The offline record splitter, and its agreement with the online decoder. */
module SplitRecords {
  import opened Bytes
  import opened Jpeg
  import opened Stream
  import opened ExtractStream

  datatype Header = Header(offset: nat, packetLength: nat, timestamp: nat)

  datatype SplitError = RangeExceedsFile(line: nat) | NoHeaders | DuplicateOffsets

  datatype SplitRecord = SplitRecord(
    index: nat, dataOffset: nat, data: Data, timestamp: nat, deltaToNext: Option<nat>, boundedByNext: bool)

  // The header that a metadata row names, if it names one.
  function HeaderOfRow(row: Row, line: nat, ep82: Data): Result<seq<Header>, SplitError> {
    if row.endpoint != VIDEO_ENDPOINT || row.dataOffset.None? || row.length < 8 then Ok([])
    else
      var offset := row.dataOffset.value;
      if offset + row.length > |ep82| then Err(RangeExceedsFile(line))
      else
        var packet := ep82[offset..offset + row.length];
        if packet[..6] != SYNC then Ok([]) else Ok([Header(offset, row.length, HeaderTimestamp(packet))])
  }

  function HeadersOfRows(rows: seq<Row>, ep82: Data): Result<seq<Header>, SplitError> {
    if rows == [] then Ok([])
    else
      match HeadersOfRows(rows[..|rows| - 1], ep82)
      case Err(e) => Err(e)
      case Ok(headers) =>
        match HeaderOfRow(rows[|rows| - 1], |rows|, ep82)
        case Err(e) => Err(e)
        case Ok(more) => Ok(headers + more)
  }

  predicate Ascending(headers: seq<Header>) {
    forall i, j :: 0 <= i < j < |headers| ==> headers[i].offset < headers[j].offset
  }

  // A stable sort by offset.
  function InsertByOffset(sorted: seq<Header>, h: Header): (r: seq<Header>)
    ensures |r| == |sorted| + 1
  {
    if sorted == [] || sorted[|sorted| - 1].offset <= h.offset then sorted + [h]
    else InsertByOffset(sorted[..|sorted| - 1], h) + [sorted[|sorted| - 1]]
  }

  function SortByOffset(headers: seq<Header>): (r: seq<Header>)
    ensures |r| == |headers|
  {
    if headers == [] then []
    else InsertByOffset(SortByOffset(headers[..|headers| - 1]), headers[|headers| - 1])
  }

  lemma {:induction false} AscendingIsSorted(headers: seq<Header>)
    requires Ascending(headers)
    ensures SortByOffset(headers) == headers
  {
    if headers != [] {
      AscendingIsSorted(headers[..|headers| - 1]);
    }
  }

  function LoadHeaders(rows: seq<Row>, ep82: Data): Result<seq<Header>, SplitError> {
    match HeadersOfRows(rows, ep82)
    case Err(e) => Err(e)
    case Ok(headers) =>
      var sorted := SortByOffset(headers);
      if sorted == [] then Err(NoHeaders)
      else if exists i, j :: 0 <= i < j < |sorted| && sorted[i].offset == sorted[j].offset then
        Err(DuplicateOffsets)
      else Ok(sorted)
  }

  function EndOfRecord(headers: seq<Header>, ep82: Data, i: nat): nat
    requires i < |headers|
  {
    if i + 1 < |headers| then headers[i + 1].offset else |ep82|
  }

  // Python's slice: empty when the bounds cross, clipped at the end of the file.
  function Slice(data: Data, start: nat, end: nat): Data {
    var stop := Min(end, |data|);
    if start <= stop then data[start..stop] else []
  }

  function RecordOf(headers: seq<Header>, ep82: Data, i: nat): SplitRecord
    requires i < |headers|
  {
    var bounded := i + 1 < |headers|;
    SplitRecord(i + 1, headers[i].offset, Slice(ep82, headers[i].offset, EndOfRecord(headers, ep82, i)),
                headers[i].timestamp,
                if bounded then Some(WrappedDelta(headers[i].timestamp, headers[i + 1].timestamp)) else None,
                bounded)
  }

  method LoadHeaderOffsets(rows: seq<Row>, ep82: Data) returns (r: Result<seq<Header>, SplitError>)
    ensures r == LoadHeaders(rows, ep82)
  {
    var headers: seq<Header> := [];
    var i := 0;
    assert rows[..0] == [];
    while i < |rows|
      invariant 0 <= i <= |rows| && HeadersOfRows(rows[..i], ep82) == Ok(headers)
    {
      assert rows[..i + 1][..i] == rows[..i];
      var found := HeaderOfRow(rows[i], i + 1, ep82);
      if found.Err? {
        HeadersErrPersists(rows, ep82, i + 1);
        return Err(found.error);
      }
      headers := headers + found.value;
      i := i + 1;
    }
    assert rows[..i] == rows;
    headers := SortByOffset(headers);
    if headers == [] {
      return Err(NoHeaders);
    }
    if exists i, j :: 0 <= i < j < |headers| && headers[i].offset == headers[j].offset {
      return Err(DuplicateOffsets);
    }
    r := Ok(headers);
  }

  lemma {:induction false} HeadersErrPersists(rows: seq<Row>, ep82: Data, k: nat)
    requires k <= |rows| && HeadersOfRows(rows[..k], ep82).Err?
    ensures HeadersOfRows(rows, ep82) == Err(HeadersOfRows(rows[..k], ep82).error)
    decreases |rows| - k
  {
    if k < |rows| {
      assert rows[..k + 1][..k] == rows[..k];
      HeadersErrPersists(rows, ep82, k + 1);
    } else {
      assert rows[..k] == rows;
    }
  }

  method Split(rows: seq<Row>, ep82: Data) returns (r: Result<seq<SplitRecord>, SplitError>)
    ensures r.Err? <==> LoadHeaders(rows, ep82).Err?
    ensures r.Ok? ==>
              var headers := LoadHeaders(rows, ep82).value;
              |r.value| == |headers| && forall i :: 0 <= i < |headers| ==> r.value[i] == RecordOf(headers, ep82, i)
  {
    var headers := LoadHeaderOffsets(rows, ep82);
    if headers.Err? {
      return Err(headers.error);
    }
    var records: seq<SplitRecord> := [];
    var index := 0;
    while index < |headers.value|
      invariant 0 <= index <= |headers.value| && |records| == index
      invariant forall i :: 0 <= i < index ==> records[i] == RecordOf(headers.value, ep82, i)
    {
      records := records + [RecordOf(headers.value, ep82, index)];
      index := index + 1;
    }
    r := Ok(records);
  }

  // ---------------------------------------------------------------------
  // Headers seen from the packets.

  function HeaderOfPacket(packet: Packet, offset: nat): seq<Header> {
    if packet.endpoint.Video? && IsHeader(packet.data) then
      [Header(offset, |packet.data|, HeaderTimestamp(packet.data))]
    else []
  }

  function VideoHeaders(packets: seq<Packet>): seq<Header> {
    if packets == [] then []
    else
      var init := packets[..|packets| - 1];
      VideoHeaders(init) + HeaderOfPacket(packets[|packets| - 1], |VideoBytes(init)|)
  }

  // Every packet-start header finds an unconsumed boundary token.
  predicate AllArmed(packets: seq<Packet>) {
    packets == []
    || (AllArmed(packets[..|packets| - 1])
        && (HeaderOfPacket(packets[|packets| - 1], 0) != [] ==> LayoutOf(packets[..|packets| - 1]).armed))
  }

  // The headers of a layout's records, at their offsets in the video file.
  function RecordHeaders(preamble: nat, records: seq<RawRecord>): (headers: seq<Header>)
    requires HeadsAreHeaders(records)
    ensures |headers| == |records|
  {
    if records == [] then []
    else
      var init, last := records[..|records| - 1], records[|records| - 1];
      RecordHeaders(preamble, init) + [Header(preamble + |RecordBytes(init)|, |last.head|, Timestamp(last))]
  }

  lemma {:induction false} RecordHeadersIgnoreTail(preamble: nat, rs: seq<RawRecord>, r: RawRecord)
    requires HeadsAreHeaders(rs) && rs != [] && r.head == rs[|rs| - 1].head
    ensures HeadsAreHeaders(rs[..|rs| - 1] + [r])
    ensures RecordHeaders(preamble, rs[..|rs| - 1] + [r]) == RecordHeaders(preamble, rs)
  {
    var init := rs[..|rs| - 1];
    assert (init + [r])[..|init|] == init;
  }

  lemma {:induction false} RecordHeadersSnoc(preamble: nat, rs: seq<RawRecord>, r: RawRecord)
    requires HeadsAreHeaders(rs) && IsHeader(r.head)
    ensures HeadsAreHeaders(rs + [r])
    ensures RecordHeaders(preamble, rs + [r])
            == RecordHeaders(preamble, rs) + [Header(preamble + |RecordBytes(rs)|, |r.head|, Timestamp(r))]
  {
    assert (rs + [r])[..|rs|] == rs;
  }

  // The splitter sees at least the decoder's records, and exactly those when
  // every header is armed.
  lemma {:induction false} HeadersMatchRecords(packets: seq<Packet>)
    ensures var l := LayoutOf(packets);
            && |VideoHeaders(packets)| >= |l.records|
            && (|VideoHeaders(packets)| == |l.records| <==> AllArmed(packets))
            && (AllArmed(packets) ==> VideoHeaders(packets) == RecordHeaders(|l.preamble|, l.records))
  {
    if packets != [] {
      var init, last := packets[..|packets| - 1], packets[|packets| - 1];
      HeadersMatchRecords(init);
      var l := LayoutOf(init);
      LayoutTilesVideo(init);
      assert |VideoBytes(init)| == |l.preamble| + |RecordBytes(l.records)|;
      MatchStep(l, last, |VideoBytes(init)|);
    }
  }

  lemma {:induction false} MatchStep(l: Layout, packet: Packet, offset: nat)
    requires HeadsAreHeaders(l.records) && offset == |l.preamble| + |RecordBytes(l.records)|
    ensures var l' := Extend(l, packet);
            var seen := HeaderOfPacket(packet, offset);
            && |l'.records| <= |l.records| + |seen|
            && (|l'.records| == |l.records| + |seen| <==> (seen != [] ==> l.armed))
            && ((seen != [] ==> l.armed) && (l.records == [] || l'.preamble == l.preamble) ==>
                  RecordHeaders(|l'.preamble|, l'.records) == RecordHeaders(|l.preamble|, l.records) + seen)
            && (l.records == [] || l'.preamble == l.preamble)
  {
    hide StartsWithSync, Flatten, HeaderTimestamp, RecordHeaders, RecordBytes;
    var rs := l.records;
    if packet.endpoint.Video? {
      if IsHeader(packet.data) && l.armed {
        RecordHeadersSnoc(|l.preamble|, rs, RawRecord(packet.data, []));
      } else if rs != [] {
        RecordHeadersIgnoreTail(|l.preamble|, rs, RawRecord(rs[|rs| - 1].head, rs[|rs| - 1].tail + [packet.data]));
      }
    }
    var headers := RecordHeaders(|l.preamble|, rs);
    assert headers + [] == headers;
  }

  // ---------------------------------------------------------------------
  // The records' bytes.

  lemma {:induction false} RecordBytesPrefix(rs: seq<RawRecord>, k: nat)
    requires k <= |rs|
    ensures RecordBytes(rs[..k]) <= RecordBytes(rs)
    decreases |rs| - k
  {
    if k == |rs| {
      assert rs[..k] == rs;
    } else {
      RecordBytesPrefix(rs, k + 1);
      assert rs[..k + 1][..k] == rs[..k];
    }
  }

  lemma {:induction false} RecordHeaderAt(preamble: nat, rs: seq<RawRecord>, i: nat)
    requires HeadsAreHeaders(rs) && i < |rs|
    ensures RecordHeaders(preamble, rs)[i]
            == Header(preamble + |RecordBytes(rs[..i])|, |rs[i].head|, Timestamp(rs[i]))
  {
    if i + 1 < |rs| {
      RecordHeaderAt(preamble, rs[..|rs| - 1], i);
      assert rs[..|rs| - 1][..i] == rs[..i];
    }
  }

  // Record i ends where the bytes of the first i + 1 records end.
  lemma {:induction false} RecordEnds(preamble: Data, rs: seq<RawRecord>, i: nat)
    requires HeadsAreHeaders(rs) && i < |rs|
    ensures EndOfRecord(RecordHeaders(|preamble|, rs), preamble + RecordBytes(rs), i)
            == |preamble| + |RecordBytes(rs[..i])| + |rs[i].Bytes()|
    ensures RecordBytes(rs[..i]) + rs[i].Bytes() <= RecordBytes(rs)
  {
    RecordBytesPrefix(rs, i + 1);
    assert rs[..i + 1][..i] == rs[..i];
    assert RecordBytes(rs[..i + 1]) == RecordBytes(rs[..i]) + rs[i].Bytes();
    if i + 1 < |rs| {
      RecordHeaderAt(|preamble|, rs, i + 1);
    } else {
      assert rs[..i + 1] == rs;
    }
  }

  // Cutting the video file at the record headers gives the records back.
  lemma {:induction false} SliceIsRecord(preamble: Data, rs: seq<RawRecord>, i: nat)
    requires HeadsAreHeaders(rs) && i < |rs|
    ensures RecordOf(RecordHeaders(|preamble|, rs), preamble + RecordBytes(rs), i).data == rs[i].Bytes()
  {
    RecordHeaderAt(|preamble|, rs, i);
    RecordEnds(preamble, rs, i);
    hide RecordBytes, RecordHeaders, HeadsAreHeaders, EndOfRecord;
    CutMiddle(preamble, RecordBytes(rs[..i]), rs[i].Bytes(), RecordBytes(rs));
  }

  lemma {:induction false} CutMiddle(preamble: Data, before: Data, middle: Data, all: Data)
    requires before + middle <= all
    ensures var file := preamble + all;
            var start := |preamble| + |before|;
            start + |middle| <= |file| && file[start..start + |middle|] == middle
  {
    var file := preamble + all;
    assert forall k :: 0 <= k < |middle| ==> file[|preamble| + |before| + k] == all[|before| + k]
                                             && (before + middle)[|before| + k] == middle[k];
  }

  // What the splitter's record i + 1 says, and what the decoder's frame i says.
  ghost predicate SameImage(config: Config, record: SplitRecord, frame: CompressedFrame) {
    && WrapRecord(config.jpegHeader, record.data) == Ok(frame.jpeg)
    && record.timestamp == frame.timestamp11 && record.deltaToNext == Some(frame.deltaToNext)
    && record.boundedByNext
  }

  lemma {:induction false} FrameMatchesRecord(config: Config, preamble: Data, rs: seq<RawRecord>, i: nat)
    requires HeadsAreHeaders(rs) && i + 2 < |rs| && HasEntropy(rs[i + 1])
    ensures SameImage(config, RecordOf(RecordHeaders(|preamble|, rs), preamble + RecordBytes(rs), i + 1),
                      FrameAt(config, rs, i))
  {
    SliceIsRecord(preamble, rs, i + 1);
    RecordHeaderAt(|preamble|, rs, i + 1);
    RecordHeaderAt(|preamble|, rs, i + 2);
    RecordWraps(config, rs[i + 1]);
    hide RecordBytes, RecordHeaders, WrapRecord, UnwrappedAt, EndOfRecord, Slice, Reconstruct;
  }

  // The online decoder and the offline tools produce the same images: frame i is
  // the wrapped record i + 2 (counting from 1) of the splitter.
  lemma {:induction false} BatchToolsAgree(config: Config, packets: seq<Packet>, i: nat)
    requires AllArmed(packets) && !Decode(config, packets).failed
    requires i < |Decode(config, packets).frames|
    ensures i + 2 < |VideoHeaders(packets)|
    ensures SameImage(config, RecordOf(VideoHeaders(packets), VideoBytes(packets), i + 1),
                      Decode(config, packets).frames[i])
  {
    var l := LayoutOf(packets);
    DecoderRefinesBatch(config, packets);
    HeadersMatchRecords(packets);
    LayoutTilesVideo(packets);
    BatchFrameAt(config, l.records, i);
    FrameMatchesRecord(config, l.preamble, l.records, i);
    hide Decode, LayoutOf, BatchFrames, RecordHeaders, RecordBytes, SameImage, RecordOf, FrameAt, StateOf, AllArmed;
  }

  lemma {:induction false} RecordWraps(config: Config, r: RawRecord)
    requires IsHeader(r.head) && HasEntropy(r)
    ensures WrapRecord(config.jpegHeader, r.Bytes()) == Ok(Reconstruct(config.jpegHeader, r.Entropy()).value)
  {
    var record := r.Bytes();
    assert record[..6] == r.head[..6] && record[8..] == r.Entropy();
    WrapAgreesWithReconstruct(config.jpegHeader, record);
  }

  // ---------------------------------------------------------------------
  // From the extractor's rows to the packets' headers.

  ghost predicate TiledRows(rows: seq<Row>) {
    forall k :: 0 <= k < |rows| ==>
      rows[k].dataOffset == if rows[k].length == 0 then None
                            else Some(BytesBefore(rows[..k], rows[k].endpoint))
  }

  lemma {:induction false} HeadersFromSlices(rows: seq<Row>, ep81: Data, ep82: Data)
    requires TiledRows(rows) && SliceRows(rows, ep81, ep82).Ok?
    ensures var packets := SliceRows(rows, ep81, ep82).value;
            && HeadersOfRows(rows, ep82) == Ok(VideoHeaders(packets))
            && |VideoBytes(packets)| == BytesBefore(rows, VIDEO_ENDPOINT)
  {
    if rows != [] {
      var init, row := rows[..|rows| - 1], rows[|rows| - 1];
      assert TiledRows(init) by {
        assert forall k :: 0 <= k < |init| ==> init[k] == rows[k] && init[..k] == rows[..k];
      }
      HeadersFromSlices(init, ep81, ep82);
      var before := SliceRows(init, ep81, ep82).value;
      assert row.dataOffset == if row.length == 0 then None else Some(BytesBefore(init, row.endpoint));
      RowHeader(row, |rows|, before, ep81, ep82);
    }
  }

  lemma {:induction false} RowHeader(row: Row, line: nat, before: seq<Packet>, ep81: Data, ep82: Data)
    requires row.endpoint == VIDEO_ENDPOINT ==>
               row.dataOffset == if row.length == 0 then None else Some(|VideoBytes(before)|)
    requires SliceRow(row, line, ep81, ep82).Ok?
    ensures var packets := before + SliceRow(row, line, ep81, ep82).value;
            && (HeaderOfRow(row, line, ep82).Ok?
                && VideoHeaders(packets) == VideoHeaders(before) + HeaderOfRow(row, line, ep82).value)
            && |VideoBytes(packets)| == |VideoBytes(before)| + if row.endpoint == VIDEO_ENDPOINT then row.length else 0
  {
    var sliced := SliceRow(row, line, ep81, ep82).value;
    if sliced == [] {
      assert before + sliced == before;
      assert VideoHeaders(before) + [] == VideoHeaders(before);
    } else {
      assert (before + sliced)[..|before|] == before;
      hide VideoHeaders, VideoBytes, HeaderTimestamp;
    }
  }

  lemma {:induction false} HeadersAscend(packets: seq<Packet>)
    ensures Ascending(VideoHeaders(packets))
    ensures forall k :: 0 <= k < |VideoHeaders(packets)| ==> VideoHeaders(packets)[k].offset < |VideoBytes(packets)|
  {
    if packets != [] {
      HeadersAscend(packets[..|packets| - 1]);
      hide HeaderTimestamp, StartsWithSync;
    }
  }

  // On the extractor's output the splitter finds exactly the packets' headers.
  lemma {:induction false} SplitterSeesPacketHeaders(urbs: seq<Urb>, device: nat, endpoints: set<nat>)
    requires StreamEndpoints(endpoints) && ExtractAll(urbs, device, endpoints).Ok?
    requires FilesFit(ExtractAll(urbs, device, endpoints).value)
    ensures var t, headers := ExtractAll(urbs, device, endpoints).value, VideoHeaders(PacketsOf(urbs));
            && LoadHeaders(t.rows, t.files[VIDEO_ENDPOINT])
               == (if headers == [] then Err(NoHeaders) else Ok(headers))
            && VideoBytes(PacketsOf(urbs)) == t.files[VIDEO_ENDPOINT]
  {
    ExtractionRoundTrip(urbs, device, endpoints);
    var t := ExtractAll(urbs, device, endpoints).value;
    assert TiledRows(t.rows);
    HeadersFromSlices(t.rows, t.files[BOUNDARY_ENDPOINT], t.files[VIDEO_ENDPOINT]);
    HeadersAscend(PacketsOf(urbs));
    AscendingIsSorted(VideoHeaders(PacketsOf(urbs)));
    hide ExtractAll, SliceRows, HeadersOfRows, VideoHeaders, RowsTile, BytesBefore;
  }
}
