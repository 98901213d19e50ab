/** The incremental writer: clusters are appended, the duration is patched in place. */
module MatroskaWriter {
  import opened Bytes
  import opened Ebml
  import opened Media
  import opened Stream
  import opened Matroska

  // Bytes written over an existing file, past its end, or beyond a gap of zeros.
  function Overwrite(file: Data, at: nat, data: Data): (r: Data) {
    if at <= |file| then file[..at] + data + file[Min(at + |data|, |file|)..]
    else file + seq(at - |file|, _ => 0) + data
  }

  // A seekable output held in memory.
  class Output {
    var bytes: Data
    var cursor: nat

    constructor ()
      ensures bytes == [] && cursor == 0
    {
      bytes, cursor := [], 0;
    }

    method WriteAll(data: Data)
      modifies this
      ensures bytes == Overwrite(old(bytes), old(cursor), data)
      ensures cursor == old(cursor) + |data| <= |bytes|
      ensures old(cursor) == |old(bytes)| ==> bytes == old(bytes) + data && cursor == |bytes|
    {
      bytes := Overwrite(bytes, cursor, data);
      cursor := cursor + |data|;
    }

    method SeekEnd() returns (end: nat)
      modifies this`cursor
      ensures end == cursor == |bytes|
    {
      cursor := |bytes|;
      end := cursor;
    }

    method SeekStart(position: nat)
      modifies this`cursor
      ensures cursor == position
    {
      cursor := position;
    }
  }

  // Append the next element of a list to a buffer that holds those before it.
  method AppendElement(buffer: Data, id: nat, payload: Data, ghost all: seq<Node>, ghost next: nat)
    returns (longer: Data)
    requires AllPrintable(all) && next < |all| && all[next] == Node(id, payload)
    requires buffer == PrintNodes(all[..next])
    ensures longer == PrintNodes(all[..next + 1])
    ensures ValidId(id) && FitsSize(|payload|) && longer == buffer + Element(id, payload)
  {
    assert all[next].Printable();
    longer := buffer + Element(id, payload);
    assert all[..next + 1] == all[..next] + [all[next]];
    PrintNodesSnoc(all[..next], all[next]);
  }

  method AppendUint(buffer: Data, id: nat, value: U64, ghost all: seq<Node>, ghost next: nat)
    returns (longer: Data)
    requires AllPrintable(all) && next < |all| && all[next] == Node(id, EncodeUint(value))
    requires buffer == PrintNodes(all[..next])
    ensures longer == PrintNodes(all[..next + 1])
    ensures ValidId(id) && FitsSize(|EncodeUint(value)|)
    ensures longer == buffer + Element(id, EncodeUint(value))
  {
    longer := AppendElement(buffer, id, EncodeUint(value), all, next);
  }

  // On an oversized payload the ID has already been written when the size fails.
  method WriteElement(output: Output, id: nat, payload: Data) returns (ok: bool)
    requires output.cursor == |output.bytes| && ValidId(id)
    modifies output
    ensures output.cursor == |output.bytes|
    ensures ok <==> FitsSize(|payload|)
    ensures ok ==> output.bytes == old(output.bytes) + Element(id, payload)
    ensures !ok ==> id < Pow256(4) && output.bytes == old(output.bytes) + EncodeId(id)
  {
    ValidIdFits(id);
    output.WriteAll(EncodeId(id));
    if !FitsSize(|payload|) {
      return false;
    }
    output.WriteAll(EncodeSize(|payload|));
    output.WriteAll(payload);
    Associate(old(output.bytes), EncodeId(id), EncodeSize(|payload|));
    Associate(old(output.bytes), EncodeId(id) + EncodeSize(|payload|), payload);
    ok := true;
  }

  // ---------------------------------------------------------------------
  // Where the duration lives.

  const TIMESTAMP_SCALE: nat := 0x2ad7b1

  function InfoHead(): (s: Data) {
    UintIsShort(1_000_000);
    Element(TIMESTAMP_SCALE, EncodeUint(1_000_000))
  }

  function InfoTail(): (s: Data) {
    Element(0x4d80, Ascii("handycam")) + Element(0x5741, Ascii("handycam"))
  }

  lemma {:induction false} DurationElement(duration: Float64)
    ensures |EncodeId(DURATION_ID)| == 2 && |EncodeSize(8)| == 1
    ensures Element(DURATION_ID, duration) == EncodeId(DURATION_ID) + EncodeSize(8) + duration
  {
    ValidIdFits(DURATION_ID);
    EncodeIdIsMinimal(DURATION_ID);
  }

  lemma {:induction false} InfoLayout(duration: Float64)
    ensures Small(InfoNodes(duration), 8) && AllPrintable(InfoNodes(duration))
    ensures PrintNodes(InfoNodes(duration))
            == InfoHead() + Element(DURATION_ID, duration) + InfoTail()
  {
    hide EncodeUint, Small, Ascii, EncodeId, EncodeSize;
    InfoIsSmall(duration);
    UintIsShort(1_000_000);
    SmallPrints(InfoNodes(duration), 8);
    var scale, length := Node(TIMESTAMP_SCALE, EncodeUint(1_000_000)), Node(DURATION_ID, duration);
    var muxer, app := Node(0x4d80, Ascii("handycam")), Node(0x5741, Ascii("handycam"));
    PrintFour(scale, length, muxer, app);
    Associate(InfoHead() + Element(DURATION_ID, duration), Element(muxer.id, muxer.payload),
              Element(app.id, app.payload));
  }

  lemma {:induction false} PrintFour(a: Node, b: Node, c: Node, d: Node)
    requires a.Printable() && b.Printable() && c.Printable() && d.Printable()
    ensures AllPrintable([a, b, c, d])
    ensures PrintNodes([a, b, c, d])
            == Element(a.id, a.payload) + Element(b.id, b.payload) + Element(c.id, c.payload)
               + Element(d.id, d.payload)
  {
    PrintTwo(a, b);
    PrintNodesSnoc([a, b], c);
    PrintNodesSnoc([a, b, c], d);
    assert [a, b] + [c] == [a, b, c];
    assert [a, b, c] + [d] == [a, b, c, d];
  }

  // The length of Info, whatever the duration.
  function InfoLength(): nat {
    |InfoHead()| + 11 + |InfoTail()|
  }

  lemma {:induction false} InfoLengthFits(duration: Float64)
    ensures FitsSize(InfoLength()) && |PrintNodes(InfoNodes(duration))| == InfoLength()
  {
    InfoLayout(duration);
    DurationElement(duration);
    SmallPrints(InfoNodes(duration), 8);
  }

  function BeforeDuration(): Data {
    InfoLengthFits(ZERO_FLOAT);
    ValidIdFits(INFO_ID);
    ValidIdFits(DURATION_ID);
    FileStart() + EncodeId(INFO_ID) + EncodeSize(InfoLength()) + InfoHead()
    + EncodeId(DURATION_ID) + EncodeSize(8)
  }

  function AfterDuration(floats: Floats, format: AudioFormat, blocks: seq<Block>): Data
    requires AllFit(blocks)
  {
    InfoTail() + PrintNodes([TracksNode(floats, format)] + Clusters(blocks))
  }

  // ---------------------------------------------------------------------

  lemma {:induction false} PrintNodesAppend(a: seq<Node>, b: seq<Node>)
    requires AllPrintable(a) && AllPrintable(b)
    ensures AllPrintable(a + b) && PrintNodes(a + b) == PrintNodes(a) + PrintNodes(b)
    decreases |b|
  {
    if b == [] {
      assert a + b == a;
    } else {
      var init, last := b[..|b| - 1], b[|b| - 1];
      assert b == init + [last] && a + b == (a + init) + [last];
      assert last.Printable();
      PrintNodesAppend(a, init);
      PrintNodesSnoc(a + init, last);
      PrintNodesSnoc(init, last);
      Associate(PrintNodes(a), PrintNodes(init), Element(last.id, last.payload));
    }
  }

  lemma {:induction false} Regroup(
    start: Data, id: Data, size: Data, head: Data, did: Data, dsize: Data, d: Data, tail: Data, r: Data)
    ensures start + (id + size + (head + (did + dsize + d) + tail) + r)
            == (start + id + size + head + did + dsize) + d + (tail + r)
  {
    Associate(did, dsize, d);
    Associate(head, did, dsize + d);
    Associate(head + did, dsize, d);
    var before := head + did + dsize;
    assert head + (did + dsize + d) == before + d;
    assert id + size + (before + d + tail) + r == (id + size + before) + d + (tail + r);
    assert start + ((id + size + before) + d + (tail + r)) == (start + (id + size + before)) + d + (tail + r);
    assert start + (id + size + before) == start + id + size + head + did + dsize;
  }

  // The duration's eight bytes sit between a fixed prefix and the rest.
  lemma {:induction false} DurationPosition(floats: Floats, format: AudioFormat, duration: Float64, blocks: seq<Block>)
    requires AllFit(blocks)
    ensures FileBytes(floats, format, duration, blocks)
            == BeforeDuration() + duration + AfterDuration(floats, format, blocks)
  {
    hide EncodeUint, Ascii, EncodeId, EncodeSize, PrintNodes, Clusters, FileStart, InfoHead, InfoTail;
    var info, rest := InfoNode(duration), [TracksNode(floats, format)] + Clusters(blocks);
    assert SegmentNodes(floats, format, duration, blocks) == [info] + rest;
    PrintNodesAppend([info], rest);
    PrintOne(info);
    InfoLengthFits(duration);
    InfoLayout(duration);
    DurationElement(duration);
    ValidIdFits(INFO_ID);
    Regroup(FileStart(), EncodeId(INFO_ID), EncodeSize(InfoLength()), InfoHead(), EncodeId(DURATION_ID),
            EncodeSize(8), duration, InfoTail(), PrintNodes(rest));
  }

  lemma {:induction false} PrintOne(node: Node)
    requires node.Printable()
    ensures AllPrintable([node]) && PrintNodes([node]) == Element(node.id, node.payload)
  {
    PrintNodesSnoc([], node);
    assert [] + [node] == [node];
  }

  lemma {:induction false} PrintTwo(a: Node, b: Node)
    requires a.Printable() && b.Printable()
    ensures AllPrintable([a, b])
    ensures PrintNodes([a, b]) == Element(a.id, a.payload) + Element(b.id, b.payload)
  {
    PrintOne(a);
    PrintNodesSnoc([a], b);
    assert [a] + [b] == [a, b];
  }

  lemma {:induction false} PatchMiddle(prefix: Data, was: Data, now: Data, suffix: Data)
    requires |was| == |now|
    ensures var file := prefix + was + suffix;
            && file[|prefix|..|prefix| + |was|] == was
            && Overwrite(file, |prefix|, now) == prefix + now + suffix
            && (prefix + now + suffix)[..|prefix|] == file[..|prefix|]
            && (prefix + now + suffix)[|prefix| + |was|..] == file[|prefix| + |was|..]
  {
    var file := prefix + was + suffix;
    assert file[..|prefix|] == prefix && file[|prefix| + |was|..] == suffix;
  }

  // Patching the duration in place gives the file rebuilt from scratch, and it
  // changes nothing but the eight bytes of the Duration payload.
  lemma {:induction false} PatchIsRebuild(
    floats: Floats, format: AudioFormat, was: Float64, now: Float64, blocks: seq<Block>)
    requires AllFit(blocks)
    ensures var offset, file := |BeforeDuration()|, FileBytes(floats, format, was, blocks);
            && offset + 8 <= |file| && file[offset..offset + 8] == was
            && var patched := FileBytes(floats, format, now, blocks);
            && Overwrite(file, offset, now) == patched && |patched| == |file|
            && patched[..offset] == file[..offset] && patched[offset + 8..] == file[offset + 8..]
  {
    DurationPosition(floats, format, was, blocks);
    DurationPosition(floats, format, now, blocks);
    PatchMiddle(BeforeDuration(), was, now, AfterDuration(floats, format, blocks));
  }

  lemma {:induction false} FileGrows(
    floats: Floats, format: AudioFormat, duration: Float64, blocks: seq<Block>, b: Block)
    requires AllFit(blocks) && BlockFits(b)
    ensures AllFit(blocks + [b])
    ensures FileBytes(floats, format, duration, blocks + [b])
            == FileBytes(floats, format, duration, blocks) + Element(CLUSTER_ID, ClusterBody(b))
  {
    hide Element, FileStart, ClusterBody, InfoNode, TracksNode;
    var nodes, node := SegmentNodes(floats, format, duration, blocks), Node(CLUSTER_ID, ClusterBody(b));
    ClustersSnoc(blocks, b);
    assert SegmentNodes(floats, format, duration, blocks + [b]) == nodes + [node];
    PrintNodesSnoc(nodes, node);
    Associate(FileStart(), PrintNodes(nodes), Element(node.id, node.payload));
  }

  // ---------------------------------------------------------------------

  datatype WriteError = AudioFormatChanged | InvalidPcmLength(expected: nat, actual: nat) | ElementTooLarge

  // Bytes that the declared sample count and format call for, in saturating usize arithmetic.
  function ExpectedPcmLength(a: TimedAudioChunk): U64 {
    SaturatingMul(SaturatingMul(a.chunk.sampleFrames, a.format.channels), 2)
  }

  // One call on the writer, and the block it adds when it is accepted.
  datatype Call =
    | WriteVideo(frame: TimedVideoFrame, videoTiming: MediaTiming)
    | WriteAudio(chunk: TimedAudioChunk, audioTiming: MediaTiming)
    | Flush

  function BlockOf(call: Call): Block
    requires !call.Flush?
  {
    match call
    case WriteVideo(frame, timing) => Block(VIDEO_TRACK, timing.ptsUs / 1_000, frame.frame.jpeg)
    case WriteAudio(chunk, timing) => Block(AUDIO_TRACK, timing.ptsUs / 1_000, chunk.chunk.pcm)
  }

  function Rejection(format: AudioFormat, call: Call): Option<WriteError> {
    if call.WriteAudio? && call.chunk.format != format then Some(AudioFormatChanged)
    else if call.WriteAudio? && |call.chunk.chunk.pcm| != ExpectedPcmLength(call.chunk) then
      Some(InvalidPcmLength(ExpectedPcmLength(call.chunk), |call.chunk.chunk.pcm|))
    else if !call.Flush? && !BlockFits(BlockOf(call)) then Some(ElementTooLarge)
    else None
  }

  function EndUs(timing: MediaTiming): U64 {
    SaturatingAdd(timing.ptsUs, timing.durationUs)
  }

  // Total effect of a call list, as a reader of the final file sees it.

  function AcceptedBlocks(format: AudioFormat, calls: seq<Call>): (blocks: seq<Block>)
    ensures AllFit(blocks)
  {
    if calls == [] then []
    else
      var before, call := AcceptedBlocks(format, calls[..|calls| - 1]), calls[|calls| - 1];
      if call.Flush? || Rejection(format, call).Some? then before else before + [BlockOf(call)]
  }

  function MaximumEnd(format: AudioFormat, calls: seq<Call>): U64 {
    if calls == [] then 0
    else
      var before, call := MaximumEnd(format, calls[..|calls| - 1]), calls[|calls| - 1];
      if call.Flush? || Rejection(format, call).Some? then before
      else Max(before, EndUs(if call.WriteVideo? then call.videoTiming else call.audioTiming))
  }

  // The duration field shows the end of media at the last flush.
  function DurationShown(floats: Floats, format: AudioFormat, calls: seq<Call>): Float64 {
    if calls == [] then ZERO_FLOAT
    else
      var init := calls[..|calls| - 1];
      if calls[|calls| - 1].Flush? then floats.milliseconds(MaximumEnd(format, init))
      else DurationShown(floats, format, init)
  }

  class MatroskaWriter {
    const floats: Floats
    const audioFormat: AudioFormat
    const output: Output
    var durationOffset: nat
    var maximumEndUs: U64
    ghost var duration: Float64
    ghost var blocks: seq<Block>

    ghost predicate Valid()
      reads this, output
    {
      && output.cursor == |output.bytes|
      && durationOffset == |BeforeDuration()|
      && AllFit(blocks)
      && output.bytes == FileBytes(floats, audioFormat, duration, blocks)
    }

    constructor (output: Output, floats: Floats, format: AudioFormat)
      requires output.bytes == [] && output.cursor == 0
      modifies output
      ensures Valid() && this.output == output && this.floats == floats && audioFormat == format
      ensures blocks == [] && duration == ZERO_FLOAT && maximumEndUs == 0
    {
      hide FileBytes, BeforeDuration;
      this.output, this.floats, this.audioFormat := output, floats, format;
      maximumEndUs, duration, blocks := 0, ZERO_FLOAT, [];
      new;
      durationOffset := WriteHeader(output, floats, format);
    }

    // Shared by both tracks: append one cluster holding one block.
    method AppendCluster(b: Block) returns (ok: bool)
      requires Valid() && 1 <= b.track <= 2
      modifies this`blocks, output
      ensures ok <==> BlockFits(b)
      ensures ok ==> Valid() && blocks == old(blocks) + [b]
      ensures !ok ==> output.bytes == old(output.bytes) + StrayBytes(b)
    {
      hide FileBytes, ClusterBody, StrayBytes;
      ok := WriteCluster(output, b);
      if ok {
        FileGrows(floats, audioFormat, duration, blocks, b);
        blocks := blocks + [b];
      }
    }

    method WriteVideo(event: TimedVideoFrame, timing: MediaTiming) returns (r: Option<WriteError>)
      requires Valid()
      modifies this`maximumEndUs, this`blocks, output
      ensures r == Rejection(audioFormat, Call.WriteVideo(event, timing))
      ensures r.None? ==>
                && Valid() && blocks == old(blocks) + [BlockOf(Call.WriteVideo(event, timing))]
                && maximumEndUs == Max(old(maximumEndUs), EndUs(timing))
      ensures r.Some? ==>
                output.bytes == old(output.bytes) + StrayBytes(BlockOf(Call.WriteVideo(event, timing)))
    {
      hide FileBytes, BlockFits, StrayBytes, BeforeDuration, AllFit;
      var ok := AppendCluster(Block(VIDEO_TRACK, timing.ptsUs / 1_000, event.frame.jpeg));
      if !ok {
        return Some(ElementTooLarge);
      }
      maximumEndUs := Max(maximumEndUs, EndUs(timing));
      r := None;
    }

    method WriteAudio(event: TimedAudioChunk, timing: MediaTiming) returns (r: Option<WriteError>)
      requires Valid()
      modifies this`maximumEndUs, this`blocks, output
      ensures r == Rejection(audioFormat, Call.WriteAudio(event, timing))
      ensures r.None? ==>
                && Valid() && blocks == old(blocks) + [BlockOf(Call.WriteAudio(event, timing))]
                && maximumEndUs == Max(old(maximumEndUs), EndUs(timing))
      ensures r.Some? && !r.value.ElementTooLarge? ==>
                Valid() && blocks == old(blocks) && output.bytes == old(output.bytes)
                && maximumEndUs == old(maximumEndUs)
      ensures r.Some? && r.value.ElementTooLarge? ==>
                output.bytes == old(output.bytes) + StrayBytes(BlockOf(Call.WriteAudio(event, timing)))
    {
      hide FileBytes, BlockFits, StrayBytes, ExpectedPcmLength, BeforeDuration, AllFit;
      if event.format != audioFormat {
        return Some(AudioFormatChanged);
      }
      var expected := ExpectedPcmLength(event);
      if |event.chunk.pcm| != expected {
        return Some(InvalidPcmLength(expected, |event.chunk.pcm|));
      }
      var ok := AppendCluster(Block(AUDIO_TRACK, timing.ptsUs / 1_000, event.chunk.pcm));
      if !ok {
        return Some(ElementTooLarge);
      }
      maximumEndUs := Max(maximumEndUs, EndUs(timing));
      r := None;
    }

    method Flush()
      requires Valid()
      modifies this`duration, output
      ensures Valid() && duration == floats.milliseconds(maximumEndUs)
      ensures output.bytes == Overwrite(old(output.bytes), durationOffset, duration)
      ensures |output.bytes| == |old(output.bytes)|
    {
      hide FileBytes, BeforeDuration, Overwrite, AllFit;
      PatchIsRebuild(floats, audioFormat, duration, floats.milliseconds(maximumEndUs), blocks);
      var end := output.SeekEnd();
      output.SeekStart(durationOffset);
      output.WriteAll(floats.milliseconds(maximumEndUs));
      output.SeekStart(end);
      duration := floats.milliseconds(maximumEndUs);
    }
  }

  // What a failed cluster leaves behind: its ID, when only the cluster is too large.
  function StrayBytes(b: Block): Data {
    ValidIdFits(CLUSTER_ID);
    if FitsSize(|b.data| + 4) then EncodeId(CLUSTER_ID) else []
  }

  method WriteCluster(output: Output, b: Block) returns (ok: bool)
    requires output.cursor == |output.bytes| && 1 <= b.track <= 2
    modifies output
    ensures output.cursor == |output.bytes|
    ensures ok <==> BlockFits(b)
    ensures ok ==> output.bytes == old(output.bytes) + Element(CLUSTER_ID, ClusterBody(b))
    ensures !ok ==> output.bytes == old(output.bytes) + StrayBytes(b)
  {
    hide Element, EncodeUint, EncodeId, PrintNodes;
    UintIsShort(b.ptsMs);
    var cluster: Data := Element(TIMESTAMP_ID, EncodeUint(b.ptsMs));
    var block := [0x80 + b.track, 0, 0, 0x80] + b.data;
    if !FitsSize(|block|) {
      return false;
    }
    cluster := cluster + Element(SIMPLE_BLOCK_ID, block);
    PrintTwo(Node(TIMESTAMP_ID, EncodeUint(b.ptsMs)), Node(SIMPLE_BLOCK_ID, block));
    ok := WriteElement(output, CLUSTER_ID, cluster);
  }

  method BuildEbmlHeader() returns (ebml: Data)
    ensures AllPrintable(EbmlHeaderNodes()) && ebml == PrintNodes(EbmlHeaderNodes())
    ensures FitsSize(|ebml|)
  {
    hide Element, EncodeUint, Small, Ascii;
    EbmlHeaderIsSmall();
    SmallPrints(EbmlHeaderNodes(), 8);
    ghost var all := EbmlHeaderNodes();
    ebml := [];
    assert all[..0] == [] && all[..7] == all && PrintNodes([]) == [];
    hide Element, EncodeUint, PrintNodes, AllPrintable, Ascii;
    ebml := AppendUint(ebml, 0x4286, 1, all, 0);
    ebml := AppendUint(ebml, 0x42f7, 1, all, 1);
    ebml := AppendUint(ebml, 0x42f2, 4, all, 2);
    ebml := AppendUint(ebml, 0x42f3, 8, all, 3);
    ebml := AppendElement(ebml, 0x4282, Ascii("matroska"), all, 4);
    ebml := AppendUint(ebml, 0x4287, 4, all, 5);
    ebml := AppendUint(ebml, 0x4285, 2, all, 6);
  }

  method WriteEbmlHeader(output: Output)
    requires output.bytes == [] && output.cursor == 0
    modifies output
    ensures output.bytes == FileStart() && output.cursor == |output.bytes|
  {
    hide Element, EncodeUint, PrintNodes, EncodeId, EbmlHeaderNodes;
    var ebml := BuildEbmlHeader();
    var ok := WriteElement(output, EBML_ID, ebml);
    ValidIdFits(SEGMENT_ID);
    output.WriteAll(EncodeId(SEGMENT_ID));
    output.WriteAll(UNKNOWN_SIZE);
  }

  // The Info payload, and where in it the duration's payload starts.
  method BuildInfo() returns (info: Data, durationInInfo: nat)
    ensures info == PrintNodes(InfoNodes(ZERO_FLOAT)) && FitsSize(|info|)
    ensures durationInInfo == |InfoHead()| + 3
  {
    hide EncodeUint, Small, Ascii;
    InfoLengthFits(ZERO_FLOAT);
    InfoLayout(ZERO_FLOAT);
    ghost var all := InfoNodes(ZERO_FLOAT);
    info := [];
    assert all[..0] == [] && all[..4] == all && PrintNodes([]) == [];
    hide Element, EncodeUint, PrintNodes, AllPrintable, Ascii;
    info := AppendUint(info, TIMESTAMP_SCALE, 1_000_000, all, 0);
    durationInInfo := |info| + 3;
    info := AppendElement(info, DURATION_ID, ZERO_FLOAT, all, 1);
    info := AppendElement(info, 0x4d80, Ascii("handycam"), all, 2);
    info := AppendElement(info, 0x5741, Ascii("handycam"), all, 3);
  }

  method BuildVideoSettings() returns (settings: Data)
    ensures settings == PrintedVideoSettings()
  {
    hide EncodeUint, Small;
    ghost var all := VideoSettings();
    SettingsAreSmall(Floats((_: U64) => ZERO_FLOAT, (_: NonZeroU32) => ZERO_FLOAT), AudioFormat(1, 1));
    SmallPrints(all, 8);
    settings := [];
    assert all[..0] == [] && all[..2] == all && PrintNodes([]) == [];
    hide Element, EncodeUint, PrintNodes, AllPrintable, Ascii;
    settings := AppendUint(settings, 0xb0, WIDTH, all, 0);
    settings := AppendUint(settings, 0xba, HEIGHT, all, 1);
  }

  method BuildVideoEntry() returns (video: Data)
    ensures video == PrintedVideoEntry()
  {
    hide Element, EncodeUint, Small, Ascii, PrintedVideoSettings;
    var settings := BuildVideoSettings();
    ghost var all := VideoEntry(settings);
    VideoEntryIsSmall(settings);
    SmallPrints(all, 40);
    video := [];
    assert all[..0] == [] && all[..6] == all && PrintNodes([]) == [];
    hide Element, EncodeUint, PrintNodes, AllPrintable, Ascii, PrintedVideoSettings;
    video := AppendUint(video, 0xd7, VIDEO_TRACK, all, 0);
    video := AppendUint(video, 0x73c5, VIDEO_TRACK, all, 1);
    video := AppendUint(video, 0x83, 1, all, 2);
    video := AppendElement(video, 0x86, Ascii("V_MJPEG"), all, 3);
    video := AppendUint(video, 0x23e383, 40_000_000, all, 4);
    video := AppendElement(video, 0xe0, settings, all, 5);
  }

  method BuildAudioSettings(floats: Floats, format: AudioFormat) returns (settings: Data)
    ensures settings == PrintedAudioSettings(floats, format)
  {
    ghost var all := AudioSettings(floats, format);
    hide EncodeUint, Small;
    SettingsAreSmall(floats, format);
    SmallPrints(all, 8);
    settings := [];
    assert all[..0] == [] && all[..3] == all && PrintNodes([]) == [];
    hide Element, EncodeUint, PrintNodes, AllPrintable, Ascii;
    settings := AppendElement(settings, 0xb5, floats.hertz(format.sampleRateHz), all, 0);
    settings := AppendUint(settings, 0x9f, format.channels, all, 1);
    settings := AppendUint(settings, 0x6264, 16, all, 2);
  }

  method BuildAudioEntry(floats: Floats, format: AudioFormat) returns (audio: Data)
    ensures audio == PrintedAudioEntry(floats, format)
  {
    hide Element, EncodeUint, Small, Ascii, PrintedAudioSettings;
    var settings := BuildAudioSettings(floats, format);
    ghost var all := AudioEntry(settings);
    AudioEntryIsSmall(settings);
    SmallPrints(all, 60);
    audio := [];
    assert all[..0] == [] && all[..5] == all && PrintNodes([]) == [];
    hide Element, EncodeUint, PrintNodes, AllPrintable, Ascii, PrintedAudioSettings;
    audio := AppendUint(audio, 0xd7, AUDIO_TRACK, all, 0);
    audio := AppendUint(audio, 0x73c5, AUDIO_TRACK, all, 1);
    audio := AppendUint(audio, 0x83, 2, all, 2);
    audio := AppendElement(audio, 0x86, Ascii("A_PCM/INT/LIT"), all, 3);
    audio := AppendElement(audio, 0xe1, settings, all, 4);
  }

  method BuildTracks(floats: Floats, format: AudioFormat) returns (tracks: Data)
    ensures tracks == TracksNode(floats, format).payload
  {
    hide Element, PrintedVideoEntry, PrintedAudioEntry, Small;
    var video := BuildVideoEntry();
    var audio := BuildAudioEntry(floats, format);
    ghost var all := TrackEntries(floats, format);
    SmallPrints(all, 360);
    tracks := [];
    assert all[..0] == [] && all[..2] == all && PrintNodes([]) == [];
    hide Element, PrintNodes, AllPrintable, PrintedVideoEntry, PrintedAudioEntry;
    tracks := AppendElement(tracks, 0xae, video, all, 0);
    tracks := AppendElement(tracks, 0xae, audio, all, 1);
  }

  // The computed offset is the length of everything before the duration.
  lemma {:induction false} OffsetIsRight()
    ensures FitsSize(InfoLength()) && SizeWidth(InfoLength()).Some?
    ensures |FileStart()| + (4 + SizeWidth(InfoLength()).value) + (|InfoHead()| + 3) == |BeforeDuration()|
  {
    InfoLengthFits(ZERO_FLOAT);
    SizeWidthDefined(InfoLength());
    ValidIdFits(INFO_ID);
    EncodeIdIsMinimal(INFO_ID);
    DurationElement(ZERO_FLOAT);
    SizeLength(InfoLength());
  }

  lemma {:induction false} SizeLength(size: nat)
    requires FitsSize(size)
    ensures SizeWidth(size).Some? && |EncodeSize(size)| == SizeWidth(size).value
  {
    SizeWidthDefined(size);
  }

  method WriteHeader(output: Output, floats: Floats, format: AudioFormat) returns (durationOffset: nat)
    requires output.bytes == [] && output.cursor == 0
    modifies output
    ensures output.bytes == FileBytes(floats, format, ZERO_FLOAT, []) && output.cursor == |output.bytes|
    ensures durationOffset == |BeforeDuration()|
  {
    WriteEbmlHeader(output);
    var infoStart := output.cursor;
    var info, durationInInfo := BuildInfo();
    SizeLength(|info|);
    var infoHeaderSize := 4 + SizeWidth(|info|).value;
    var ok := WriteElement(output, INFO_ID, info);
    durationOffset := infoStart + infoHeaderSize + durationInInfo;
    var tracks := BuildTracks(floats, format);
    ok := WriteElement(output, TRACKS_ID, tracks);
    InfoLengthFits(ZERO_FLOAT);
    OffsetIsRight();
    FreshFile(floats, format);
  }

  lemma {:induction false} FreshFile(floats: Floats, format: AudioFormat)
    ensures var info, tracks := InfoNode(ZERO_FLOAT), TracksNode(floats, format);
            FileBytes(floats, format, ZERO_FLOAT, [])
            == FileStart() + Element(INFO_ID, info.payload) + Element(TRACKS_ID, tracks.payload)
  {
    hide FileStart, EncodeId, EncodeSize;
    var info, tracks := InfoNode(ZERO_FLOAT), TracksNode(floats, format);
    assert SegmentNodes(floats, format, ZERO_FLOAT, []) == [info, tracks];
    PrintTwo(info, tracks);
    Associate(FileStart(), Element(INFO_ID, info.payload), Element(TRACKS_ID, tracks.payload));
  }

  // ---------------------------------------------------------------------

  // Every list of calls, run until it ends or a block is too large for EBML.
  // The file is the one rebuilt from scratch, and it reads back as exactly the
  // accepted writes in call order, with the duration of the last flush.
  method RunCalls(floats: Floats, format: AudioFormat, calls: seq<Call>)
    returns (writer: MatroskaWriter, done: nat)
    ensures done <= |calls|
    ensures forall k :: 0 <= k < done ==> Rejection(format, calls[k]) != Some(ElementTooLarge)
    ensures done < |calls| ==>
              && !calls[done].Flush? && Rejection(format, calls[done]) == Some(ElementTooLarge)
              && writer.output.bytes
                 == FileBytes(floats, format, DurationShown(floats, format, calls[..done]),
                              AcceptedBlocks(format, calls[..done]))
                    + StrayBytes(BlockOf(calls[done]))
    ensures done == |calls| ==>
              && writer.output.bytes
                 == FileBytes(floats, format, DurationShown(floats, format, calls), AcceptedBlocks(format, calls))
              && ReadFile(writer.output.bytes)
                 == Some(DocumentOf(floats, format, DurationShown(floats, format, calls),
                                    AcceptedBlocks(format, calls)))
  {
    hide FileBytes, StrayBytes, EndUs, DocumentOf, BeforeDuration, BlockFits, ExpectedPcmLength;
    var output := new Output();
    writer := new MatroskaWriter(output, floats, format);
    done := 0;
    while done < |calls|
      invariant 0 <= done <= |calls|
      invariant writer.Valid() && fresh(writer) && fresh(writer.output)
      invariant writer.floats == floats && writer.audioFormat == format
      invariant writer.blocks == AcceptedBlocks(format, calls[..done])
      invariant writer.duration == DurationShown(floats, format, calls[..done])
      invariant writer.maximumEndUs == MaximumEnd(format, calls[..done])
      invariant forall k :: 0 <= k < done ==> Rejection(format, calls[k]) != Some(ElementTooLarge)
    {
      var call := calls[done];
      assert calls[..done + 1][..done] == calls[..done];
      match call {
        case WriteVideo(frame, timing) =>
          var r := writer.WriteVideo(frame, timing);
          if r.Some? {
            return;
          }
        case WriteAudio(chunk, timing) =>
          var r := writer.WriteAudio(chunk, timing);
          if r == Some(ElementTooLarge) {
            return;
          }
        case Flush =>
          writer.Flush();
      }
      done := done + 1;
    }
    assert calls[..done] == calls;
    FileRoundTrip(floats, format, writer.duration, writer.blocks);
  }
}
