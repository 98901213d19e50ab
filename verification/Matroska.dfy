/** The seekable Matroska writer and a reader of its files (SimpleBlock: RFC 9559, section 10.2). */
module Matroska {
  import opened Bytes
  import opened Ebml
  import opened Media
  import opened Stream

  const VIDEO_TRACK: nat := 1
  const AUDIO_TRACK: nat := 2
  const WIDTH: nat := 320
  const HEIGHT: nat := 240

  const EBML_ID: nat := 0x1a45dfa3
  const SEGMENT_ID: nat := 0x18538067
  const INFO_ID: nat := 0x1549a966
  const TRACKS_ID: nat := 0x1654ae6b
  const CLUSTER_ID: nat := 0x1f43b675
  const TIMESTAMP_ID: nat := 0xe7
  const SIMPLE_BLOCK_ID: nat := 0xa3
  const DURATION_ID: nat := 0x4489

  const UNKNOWN_SIZE: Data := [0x01, 0xff, 0xff, 0xff, 0xff, 0xff, 0xff, 0xff]

  // A big-endian IEEE 754 double, kept as its eight bytes.
  type Float64 = s: Data | |s| == 8 witness [0, 0, 0, 0, 0, 0, 0, 0]

  const ZERO_FLOAT: Float64 := [0, 0, 0, 0, 0, 0, 0, 0]

  // How the platform renders `us as f64 / 1000.0` and a sample rate.
  datatype Floats = Floats(milliseconds: U64 -> Float64, hertz: NonZeroU32 -> Float64)

  function AsciiByte(c: char): Byte {
    c as int % 256
  }

  function Ascii(text: string): (bytes: Data)
    ensures |bytes| == |text|
  {
    seq(|text|, i requires 0 <= i < |text| => AsciiByte(text[i]))
  }

  // ---------------------------------------------------------------------
  // What the file holds.

  function EbmlHeaderNodes(): seq<Node> {
    [Node(0x4286, EncodeUint(1)), Node(0x42f7, EncodeUint(1)), Node(0x42f2, EncodeUint(4)),
     Node(0x42f3, EncodeUint(8)), Node(0x4282, Ascii("matroska")), Node(0x4287, EncodeUint(4)),
     Node(0x4285, EncodeUint(2))]
  }

  function InfoNodes(duration: Float64): seq<Node> {
    [Node(0x2ad7b1, EncodeUint(1_000_000)), Node(DURATION_ID, duration),
     Node(0x4d80, Ascii("handycam")), Node(0x5741, Ascii("handycam"))]
  }

  function VideoSettings(): seq<Node> {
    [Node(0xb0, EncodeUint(WIDTH)), Node(0xba, EncodeUint(HEIGHT))]
  }

  function AudioSettings(floats: Floats, format: AudioFormat): seq<Node> {
    [Node(0xb5, floats.hertz(format.sampleRateHz)), Node(0x9f, EncodeUint(format.channels)),
     Node(0x6264, EncodeUint(16))]
  }

  function VideoEntry(settings: Data): seq<Node> {
    [Node(0xd7, EncodeUint(VIDEO_TRACK)), Node(0x73c5, EncodeUint(VIDEO_TRACK)), Node(0x83, EncodeUint(1)),
     Node(0x86, Ascii("V_MJPEG")), Node(0x23e383, EncodeUint(40_000_000)), Node(0xe0, settings)]
  }

  function AudioEntry(settings: Data): seq<Node> {
    [Node(0xd7, EncodeUint(AUDIO_TRACK)), Node(0x73c5, EncodeUint(AUDIO_TRACK)), Node(0x83, EncodeUint(2)),
     Node(0x86, Ascii("A_PCM/INT/LIT")), Node(0xe1, settings)]
  }

  // Elements small enough that every size is printable; `bound` limits the sum.
  ghost predicate Small(nodes: seq<Node>, bound: nat) {
    && |nodes| * (12 + bound) < SIZE_LIMIT
    && forall k :: 0 <= k < |nodes| ==> ValidId(nodes[k].id) && |nodes[k].payload| <= bound
  }

  lemma {:induction false} ElementLength(id: nat, payload: Data)
    requires ValidId(id) && FitsSize(|payload|)
    ensures |Element(id, payload)| <= 12 + |payload|
    ensures |EncodeSize(|payload|)| <= 8
  {
    ValidIdFits(id);
    SizeWidthDefined(|payload|);
  }

  lemma {:induction false} SmallPrints(nodes: seq<Node>, bound: nat)
    requires Small(nodes, bound)
    ensures AllPrintable(nodes) && |PrintNodes(nodes)| <= |nodes| * (12 + bound)
  {
    if nodes != [] {
      var init, last := nodes[..|nodes| - 1], nodes[|nodes| - 1];
      assert |nodes| * (12 + bound) == |init| * (12 + bound) + (12 + bound);
      SmallPrints(init, bound);
      assert bound < SIZE_LIMIT by {
        assert |init| * (12 + bound) >= 0;
      }
      assert last.Printable();
      ElementLength(last.id, last.payload);
    }
  }

  lemma {:induction false} UintIsShort(value: U64)
    ensures |EncodeUint(value)| <= 8
  {
    UintRoundTrip(value);
  }

  lemma {:induction false} EbmlHeaderIsSmall()
    ensures Small(EbmlHeaderNodes(), 8)
  {
    hide EncodeUint, Ascii;
    UintIsShort(1);
    UintIsShort(2);
    UintIsShort(4);
    UintIsShort(8);
  }

  lemma {:induction false} InfoIsSmall(duration: Float64)
    ensures Small(InfoNodes(duration), 8)
  {
    hide EncodeUint, Ascii;
    UintIsShort(1_000_000);
  }

  lemma {:induction false} SettingsAreSmall(floats: Floats, format: AudioFormat)
    ensures Small(VideoSettings(), 8) && Small(AudioSettings(floats, format), 8)
  {
    hide EncodeUint;
    UintIsShort(WIDTH);
    UintIsShort(HEIGHT);
    UintIsShort(16);
    UintIsShort(format.channels);
  }

  function PrintedVideoSettings(): (s: Data)
    ensures |s| <= 40
  {
    SettingsAreSmall(Floats((_: U64) => ZERO_FLOAT, (_: NonZeroU32) => ZERO_FLOAT), AudioFormat(1, 1));
    SmallPrints(VideoSettings(), 8);
    PrintNodes(VideoSettings())
  }

  function PrintedAudioSettings(floats: Floats, format: AudioFormat): (s: Data)
    ensures |s| <= 60
  {
    SettingsAreSmall(floats, format);
    SmallPrints(AudioSettings(floats, format), 8);
    PrintNodes(AudioSettings(floats, format))
  }

  lemma {:induction false} VideoEntryIsSmall(settings: Data)
    requires |settings| <= 40
    ensures Small(VideoEntry(settings), 40)
  {
    hide EncodeUint, Ascii;
    UintIsShort(VIDEO_TRACK);
    UintIsShort(1);
    UintIsShort(40_000_000);
  }

  lemma {:induction false} AudioEntryIsSmall(settings: Data)
    requires |settings| <= 60
    ensures Small(AudioEntry(settings), 60)
  {
    hide EncodeUint, Ascii;
    UintIsShort(AUDIO_TRACK);
    UintIsShort(2);
  }

  function PrintedVideoEntry(): (s: Data)
    ensures |s| <= 312
  {
    VideoEntryIsSmall(PrintedVideoSettings());
    SmallPrints(VideoEntry(PrintedVideoSettings()), 40);
    PrintNodes(VideoEntry(PrintedVideoSettings()))
  }

  function PrintedAudioEntry(floats: Floats, format: AudioFormat): (s: Data)
    ensures |s| <= 360
  {
    AudioEntryIsSmall(PrintedAudioSettings(floats, format));
    SmallPrints(AudioEntry(PrintedAudioSettings(floats, format)), 60);
    PrintNodes(AudioEntry(PrintedAudioSettings(floats, format)))
  }

  function TrackEntries(floats: Floats, format: AudioFormat): (nodes: seq<Node>)
    ensures |nodes| == 2 && Small(nodes, 360)
  {
    [Node(0xae, PrintedVideoEntry()), Node(0xae, PrintedAudioEntry(floats, format))]
  }

  function InfoNode(duration: Float64): (node: Node)
    ensures node.Printable() && node.id == INFO_ID
  {
    InfoIsSmall(duration);
    SmallPrints(InfoNodes(duration), 8);
    Node(INFO_ID, PrintNodes(InfoNodes(duration)))
  }

  function TracksNode(floats: Floats, format: AudioFormat): (node: Node)
    ensures node.Printable() && node.id == TRACKS_ID
  {
    SmallPrints(TrackEntries(floats, format), 360);
    Node(TRACKS_ID, PrintNodes(TrackEntries(floats, format)))
  }

  // One media block as the caller wrote it.
  datatype Block = Block(track: nat, ptsMs: U64, data: Data)

  function BlockPayload(track: nat, data: Data): (payload: Data)
    requires 1 <= track <= 2
  {
    [0x80 + track, 0, 0, 0x80] + data
  }

  // Both the block and the cluster around it have a printable size.
  predicate BlockFits(b: Block) {
    && 1 <= b.track <= 2
    && FitsSize(|b.data| + 4)
    && FitsSize(|ClusterBody(b)|)
  }

  function ClusterNodes(b: Block): (nodes: seq<Node>)
    requires 1 <= b.track <= 2
  {
    [Node(TIMESTAMP_ID, EncodeUint(b.ptsMs)), Node(SIMPLE_BLOCK_ID, BlockPayload(b.track, b.data))]
  }

  function ClusterBody(b: Block): Data
    requires 1 <= b.track <= 2 && FitsSize(|b.data| + 4)
  {
    UintIsShort(b.ptsMs);
    PrintNodes(ClusterNodes(b))
  }

  predicate AllFit(blocks: seq<Block>) {
    forall k :: 0 <= k < |blocks| ==> BlockFits(blocks[k])
  }

  function Clusters(blocks: seq<Block>): (nodes: seq<Node>)
    requires AllFit(blocks)
    ensures |nodes| == |blocks| && AllPrintable(nodes)
  {
    seq(|blocks|, k requires 0 <= k < |blocks| => Node(CLUSTER_ID, ClusterBody(blocks[k])))
  }

  function SegmentNodes(floats: Floats, format: AudioFormat, duration: Float64, blocks: seq<Block>)
    : (nodes: seq<Node>)
    requires AllFit(blocks)
    ensures AllPrintable(nodes)
  {
    [InfoNode(duration), TracksNode(floats, format)] + Clusters(blocks)
  }

  function FileStart(): Data {
    EbmlHeaderIsSmall();
    SmallPrints(EbmlHeaderNodes(), 8);
    ValidIdFits(SEGMENT_ID);
    Element(EBML_ID, PrintNodes(EbmlHeaderNodes())) + EncodeId(SEGMENT_ID) + UNKNOWN_SIZE
  }

  // The complete file: rebuilt from nothing for a duration and a block list.
  function FileBytes(floats: Floats, format: AudioFormat, duration: Float64, blocks: seq<Block>): Data
    requires AllFit(blocks)
  {
    FileStart() + PrintNodes(SegmentNodes(floats, format, duration, blocks))
  }

  // ---------------------------------------------------------------------
  // An independent reader.

  datatype SimpleBlock = SimpleBlock(track: nat, relativeMs: int, flags: Byte, frame: Data)

  datatype Cluster = Cluster(timestampMs: nat, blocks: seq<SimpleBlock>)

  datatype Document = Document(
    header: seq<Node>, info: seq<Node>, tracks: seq<seq<Node>>, clusters: seq<Cluster>)

  function ReadSimpleBlock(payload: Data): Option<SimpleBlock> {
    match ReadSize(payload)
    case None => None
    case Some((track, rest)) =>
      if track.Unknown? || |rest| < 3 then None
      else
        var raw := BigEndianValue(rest[..2]);
        Some(SimpleBlock(track.size, if raw >= 0x8000 then raw - 0x1_0000 else raw, rest[2], rest[3..]))
  }

  function ReadSimpleBlocks(nodes: seq<Node>): Option<seq<SimpleBlock>> {
    if nodes == [] then Some([])
    else if nodes[0].id != SIMPLE_BLOCK_ID then None
    else
      match (ReadSimpleBlock(nodes[0].payload), ReadSimpleBlocks(nodes[1..]))
      case (Some(block), Some(blocks)) => Some([block] + blocks)
      case (_, _) => None
  }

  function ReadCluster(node: Node): Option<Cluster> {
    if node.id != CLUSTER_ID then None
    else
      match ReadNodes(node.payload)
      case None => None
      case Some(children) =>
        if children == [] || children[0].id != TIMESTAMP_ID then None
        else
          match ReadSimpleBlocks(children[1..])
          case None => None
          case Some(blocks) => Some(Cluster(BigEndianValue(children[0].payload), blocks))
  }

  function ReadClusters(nodes: seq<Node>): Option<seq<Cluster>> {
    if nodes == [] then Some([])
    else
      match (ReadClusters(nodes[..|nodes| - 1]), ReadCluster(nodes[|nodes| - 1]))
      case (Some(clusters), Some(cluster)) => Some(clusters + [cluster])
      case (_, _) => None
  }

  function ReadTracks(nodes: seq<Node>): Option<seq<seq<Node>>> {
    if nodes == [] then Some([])
    else if nodes[0].id != 0xae then None
    else
      match (ReadNodes(nodes[0].payload), ReadTracks(nodes[1..]))
      case (Some(entry), Some(entries)) => Some([entry] + entries)
      case (_, _) => None
  }

  function ReadSegment(header: seq<Node>, body: Data): Option<Document> {
    match ReadNodes(body)
    case None => None
    case Some(children) =>
      if |children| < 2 || children[0].id != INFO_ID || children[1].id != TRACKS_ID then None
      else
        match (ReadNodes(children[0].payload), ReadNodes(children[1].payload))
        case (Some(info), Some(entries)) =>
          (match (ReadTracks(entries), ReadClusters(children[2..]))
           case (Some(tracks), Some(clusters)) => Some(Document(header, info, tracks, clusters))
           case (_, _) => None)
        case (_, _) => None
  }

  // An EBML header, then one Segment of unknown size reaching to the end.
  function ReadFile(file: Data): Option<Document> {
    match ReadNode(file)
    case None => None
    case Some((ebml, rest)) =>
      if ebml.id != EBML_ID then None
      else
        match (ReadNodes(ebml.payload), ReadId(rest))
        case (Some(header), Some((id, afterId))) =>
          if id != SEGMENT_ID then None
          else
            (match ReadSize(afterId)
             case Some((Unknown, body)) => ReadSegment(header, body)
             case _ => None)
        case (_, _) => None
  }

  // What a reader must find for a list of blocks.
  function ClusterOf(b: Block): Cluster {
    Cluster(b.ptsMs, [SimpleBlock(b.track, 0, 0x80, b.data)])
  }

  function ClustersOf(blocks: seq<Block>): (clusters: seq<Cluster>)
    ensures |clusters| == |blocks|
    ensures forall k :: 0 <= k < |blocks| ==> clusters[k] == ClusterOf(blocks[k])
  {
    seq(|blocks|, k requires 0 <= k < |blocks| => ClusterOf(blocks[k]))
  }

  function DocumentOf(floats: Floats, format: AudioFormat, duration: Float64, blocks: seq<Block>): Document {
    Document(EbmlHeaderNodes(), InfoNodes(duration),
             [VideoEntry(PrintedVideoSettings()), AudioEntry(PrintedAudioSettings(floats, format))],
             ClustersOf(blocks))
  }

  lemma {:induction false} SimpleBlockRoundTrip(track: nat, data: Data)
    requires 1 <= track <= 2
    ensures ReadSimpleBlock(BlockPayload(track, data)) == Some(SimpleBlock(track, 0, 0x80, data))
  {
    var payload := BlockPayload(track, data);
    PowTable();
    assert payload[..1] == [0x80 + track];
    assert BigEndianValue([0x80 + track]) == 0x80 + track;
    var rest := payload[1..];
    assert ReadSize(payload) == Some((Known(track), rest));
    assert rest[..2] == [0, 0] && rest[3..] == data;
    assert BigEndianValue([0, 0]) == 0;
  }

  lemma {:induction false} ClusterRoundTrip(b: Block)
    requires BlockFits(b)
    ensures ReadCluster(Node(CLUSTER_ID, ClusterBody(b))) == Some(ClusterOf(b))
  {
    var nodes := ClusterNodes(b);
    UintIsShort(b.ptsMs);
    ReadPrintedNodes(nodes);
    UintRoundTrip(b.ptsMs);
    SimpleBlockRoundTrip(b.track, b.data);
    OneSimpleBlock(nodes[1], SimpleBlock(b.track, 0, 0x80, b.data));
    assert nodes[1..] == [nodes[1]];
  }

  lemma {:induction false} OneSimpleBlock(node: Node, block: SimpleBlock)
    requires node.id == SIMPLE_BLOCK_ID && ReadSimpleBlock(node.payload) == Some(block)
    ensures ReadSimpleBlocks([node]) == Some([block])
  {
    assert [node][1..] == [];
    assert ReadSimpleBlocks([node][1..]) == Some([]);
    assert [block] + [] == [block];
  }

  lemma {:induction false} ClustersSnoc(blocks: seq<Block>, last: Block)
    requires AllFit(blocks) && BlockFits(last)
    ensures AllFit(blocks + [last])
    ensures Clusters(blocks + [last]) == Clusters(blocks) + [Node(CLUSTER_ID, ClusterBody(last))]
    ensures ClustersOf(blocks + [last]) == ClustersOf(blocks) + [ClusterOf(last)]
  {
  }

  lemma {:induction false} ReadClustersSnoc(nodes: seq<Node>, last: Node, clusters: seq<Cluster>, cluster: Cluster)
    requires ReadClusters(nodes) == Some(clusters) && ReadCluster(last) == Some(cluster)
    ensures ReadClusters(nodes + [last]) == Some(clusters + [cluster])
  {
    assert (nodes + [last])[..|nodes|] == nodes;
  }

  lemma {:induction false} ClustersRoundTrip(blocks: seq<Block>)
    requires AllFit(blocks)
    ensures ReadClusters(Clusters(blocks)) == Some(ClustersOf(blocks))
  {
    if blocks == [] {
      assert Clusters(blocks) == [];
    } else {
      var init, last := blocks[..|blocks| - 1], blocks[|blocks| - 1];
      assert blocks == init + [last];
      ClustersRoundTrip(init);
      ClusterRoundTrip(last);
      ClustersSnoc(init, last);
      ReadClustersSnoc(Clusters(init), Node(CLUSTER_ID, ClusterBody(last)), ClustersOf(init), ClusterOf(last));
    }
  }

  lemma {:induction false} ReadTwoTracks(a: Node, b: Node, x: seq<Node>, y: seq<Node>)
    requires a.id == b.id == 0xae && ReadNodes(a.payload) == Some(x) && ReadNodes(b.payload) == Some(y)
    ensures ReadTracks([a, b]) == Some([x, y])
  {
    assert [b][1..] == [];
    assert ReadTracks([b][1..]) == Some([]);
    assert [y] + [] == [y] && [x] + [y] == [x, y];
    assert ReadTracks([b]) == Some([y]);
    assert [a, b][1..] == [b];
  }

  lemma {:induction false} VideoEntryReads()
    ensures ReadNodes(PrintedVideoEntry()) == Some(VideoEntry(PrintedVideoSettings()))
  {
    VideoEntryIsSmall(PrintedVideoSettings());
    SmallReads(VideoEntry(PrintedVideoSettings()), 40);
  }

  lemma {:induction false} AudioEntryReads(floats: Floats, format: AudioFormat)
    ensures ReadNodes(PrintedAudioEntry(floats, format))
            == Some(AudioEntry(PrintedAudioSettings(floats, format)))
  {
    AudioEntryIsSmall(PrintedAudioSettings(floats, format));
    SmallReads(AudioEntry(PrintedAudioSettings(floats, format)), 60);
  }

  lemma {:induction false} TracksRoundTrip(floats: Floats, format: AudioFormat)
    ensures ReadNodes(TracksNode(floats, format).payload) == Some(TrackEntries(floats, format))
    ensures ReadTracks(TrackEntries(floats, format))
            == Some([VideoEntry(PrintedVideoSettings()), AudioEntry(PrintedAudioSettings(floats, format))])
  {
    VideoEntryReads();
    AudioEntryReads(floats, format);
    ReadTwoTracks(Node(0xae, PrintedVideoEntry()), Node(0xae, PrintedAudioEntry(floats, format)),
                  VideoEntry(PrintedVideoSettings()), AudioEntry(PrintedAudioSettings(floats, format)));
    SmallReads(TrackEntries(floats, format), 360);
  }

  lemma {:induction false} InfoRoundTrip(duration: Float64)
    ensures ReadNodes(InfoNode(duration).payload) == Some(InfoNodes(duration))
  {
    InfoIsSmall(duration);
    SmallReads(InfoNodes(duration), 8);
  }

  lemma {:induction false} SmallReads(nodes: seq<Node>, bound: nat)
    requires Small(nodes, bound)
    ensures AllPrintable(nodes) && ReadNodes(PrintNodes(nodes)) == Some(nodes)
  {
    SmallPrints(nodes, bound);
    ReadPrintedNodes(nodes);
  }

  // The settings inside the track entries are read back too.
  lemma {:induction false} SettingsRoundTrip(floats: Floats, format: AudioFormat)
    ensures ReadNodes(PrintedVideoSettings()) == Some(VideoSettings())
    ensures ReadNodes(PrintedAudioSettings(floats, format)) == Some(AudioSettings(floats, format))
    ensures BigEndianValue(EncodeUint(format.channels)) == format.channels
  {
    SettingsAreSmall(floats, format);
    SmallReads(VideoSettings(), 8);
    SmallReads(AudioSettings(floats, format), 8);
    UintRoundTrip(format.channels);
  }

  lemma {:induction false} SegmentReads(header: seq<Node>, body: Data, info: Node, tracks: Node, rest: seq<Node>,
                     infoNodes: seq<Node>, entries: seq<Node>, tracksRead: seq<seq<Node>>,
                     clusters: seq<Cluster>)
    requires ReadNodes(body) == Some([info, tracks] + rest)
    requires info.id == INFO_ID && ReadNodes(info.payload) == Some(infoNodes)
    requires tracks.id == TRACKS_ID && ReadNodes(tracks.payload) == Some(entries)
    requires ReadTracks(entries) == Some(tracksRead) && ReadClusters(rest) == Some(clusters)
    ensures ReadSegment(header, body) == Some(Document(header, infoNodes, tracksRead, clusters))
  {
    assert ([info, tracks] + rest)[2..] == rest;
  }

  lemma {:induction false} SegmentRoundTrip(
    floats: Floats, format: AudioFormat, duration: Float64, blocks: seq<Block>, header: seq<Node>)
    requires AllFit(blocks)
    ensures ReadSegment(header, PrintNodes(SegmentNodes(floats, format, duration, blocks)))
            == Some(DocumentOf(floats, format, duration, blocks).(header := header))
  {
    ReadPrintedNodes(SegmentNodes(floats, format, duration, blocks));
    InfoRoundTrip(duration);
    TracksRoundTrip(floats, format);
    ClustersRoundTrip(blocks);
    SegmentReads(header, PrintNodes(SegmentNodes(floats, format, duration, blocks)),
                 InfoNode(duration), TracksNode(floats, format), Clusters(blocks),
                 InfoNodes(duration), TrackEntries(floats, format),
                 [VideoEntry(PrintedVideoSettings()), AudioEntry(PrintedAudioSettings(floats, format))],
                 ClustersOf(blocks));
  }

  lemma {:induction false} UnknownSizeReads(body: Data)
    ensures ReadSize(UNKNOWN_SIZE + body) == Some((Unknown, body))
  {
    var s := UNKNOWN_SIZE + body;
    assert s[..8] == UNKNOWN_SIZE && s[8..] == body;
    UnknownSizeValue();
  }

  lemma {:induction false} UnknownSizeValue()
    ensures BigEndianValue(UNKNOWN_SIZE) % Pow128(8) == Pow128(8) - 1
  {
    assert BigEndianValue(UNKNOWN_SIZE) == 0x01ff_ffff_ffff_ffff;
    PowTable();
  }

  lemma {:induction false} FileReads(header: Data, body: Data, nodes: seq<Node>)
    requires FitsSize(|header|) && ReadNodes(header) == Some(nodes)
    ensures SEGMENT_ID < Pow256(4)
    ensures ReadFile(Element(EBML_ID, header) + EncodeId(SEGMENT_ID) + UNKNOWN_SIZE + body)
            == ReadSegment(nodes, body)
  {
    ValidIdFits(SEGMENT_ID);
    var ebml, rest := Element(EBML_ID, header), EncodeId(SEGMENT_ID) + (UNKNOWN_SIZE + body);
    Associate(ebml + EncodeId(SEGMENT_ID), UNKNOWN_SIZE, body);
    Associate(ebml, EncodeId(SEGMENT_ID), UNKNOWN_SIZE + body);
    NodeRoundTrip(EBML_ID, header, rest);
    IdRoundTrip(SEGMENT_ID, UNKNOWN_SIZE + body);
    UnknownSizeReads(body);
  }

  // The whole file reads back: header, one Segment of unknown size, Info with
  // its duration, both tracks, and one cluster per block, in order.
  lemma {:induction false} FileRoundTrip(floats: Floats, format: AudioFormat, duration: Float64, blocks: seq<Block>)
    requires AllFit(blocks)
    ensures ReadFile(FileBytes(floats, format, duration, blocks))
            == Some(DocumentOf(floats, format, duration, blocks))
  {
    hide EncodeUint, Ascii, Small, EncodeId;
    EbmlHeaderIsSmall();
    SmallPrints(EbmlHeaderNodes(), 8);
    SmallReads(EbmlHeaderNodes(), 8);
    FileReads(PrintNodes(EbmlHeaderNodes()), PrintNodes(SegmentNodes(floats, format, duration, blocks)),
              EbmlHeaderNodes());
    SegmentRoundTrip(floats, format, duration, blocks, EbmlHeaderNodes());
  }
}
