/** The stream extractor: endpoint files and the descriptor rows that index them. */
module ExtractStream {
  import opened Bytes
  import opened Stream

  const BOUNDARY_ENDPOINT: nat := 0x81
  const VIDEO_ENDPOINT: nat := 0x82
  const USIZE_MAX: nat := U64_MAX

  // One completed isochronous URB as the capture lists it.
  datatype Urb = Urb(captureFrame: nat, device: nat, endpoint: nat, urbLength: nat, startFrame: nat,
                     descriptorCount: nat, lengths: seq<nat>, statuses: seq<int>, chunks: seq<Data>)

  datatype Row = Row(captureFrame: nat, endpoint: nat, descriptorIndex: nat, usbFrame: nat, status: int,
                     length: nat, dataOffset: Option<nat>)

  datatype ExtractError =
    | FilterMismatch(captureFrame: nat)
    | LengthCount(captureFrame: nat)
    | StatusCount(captureFrame: nat)
    | ChunkCount(captureFrame: nat)
    | LengthSum(captureFrame: nat)
    | ChunkLength(captureFrame: nat, descriptorIndex: nat)

  // The descriptor rows so far and the endpoint files they point into.
  datatype Tape = Tape(rows: seq<Row>, files: map<nat, Data>)

  function EmptyTape(endpoints: set<nat>): Tape {
    Tape([], map e | e in endpoints :: [])
  }

  function NonEmpty(lengths: seq<nat>): nat {
    if lengths == [] then 0
    else NonEmpty(lengths[..|lengths| - 1]) + if lengths[|lengths| - 1] > 0 then 1 else 0
  }

  function Sum(lengths: seq<nat>): nat {
    if lengths == [] then 0 else Sum(lengths[..|lengths| - 1]) + lengths[|lengths| - 1]
  }

  // The checks made before any byte of the URB is written.
  function Refusal(u: Urb, device: nat, endpoints: set<nat>): Option<ExtractError> {
    if u.device != device || u.endpoint !in endpoints then Some(FilterMismatch(u.captureFrame))
    else if |u.lengths| != u.descriptorCount then Some(LengthCount(u.captureFrame))
    else if |u.statuses| != u.descriptorCount then Some(StatusCount(u.captureFrame))
    else if |u.chunks| != NonEmpty(u.lengths) then Some(ChunkCount(u.captureFrame))
    else if Sum(u.lengths) != u.urbLength then Some(LengthSum(u.captureFrame))
    else None
  }

  lemma {:induction false} NonEmptyMonotone(lengths: seq<nat>, k: nat)
    requires k <= |lengths|
    ensures NonEmpty(lengths[..k]) <= NonEmpty(lengths)
    ensures k < |lengths| && lengths[k] > 0 ==> NonEmpty(lengths[..k]) < NonEmpty(lengths)
    decreases |lengths| - k
  {
    if k < |lengths| {
      NonEmptyMonotone(lengths, k + 1);
      assert lengths[..k + 1][..k] == lengths[..k];
    } else {
      assert lengths[..k] == lengths;
    }
  }

  // Write descriptor k: a row, and the next chunk when it carries data.
  function Emit(t: Tape, u: Urb, k: nat): Result<Tape, ExtractError>
    requires k < |u.lengths| == |u.statuses| && |u.chunks| == NonEmpty(u.lengths) && u.endpoint in t.files
  {
    var row := Row(u.captureFrame, u.endpoint, k, (u.startFrame + k) % 2048, u.statuses[k], u.lengths[k], None);
    if u.lengths[k] == 0 then Ok(t.(rows := t.rows + [row]))
    else
      NonEmptyMonotone(u.lengths, k);
      var chunk := u.chunks[NonEmpty(u.lengths[..k])];
      if |chunk| != u.lengths[k] then Err(ChunkLength(u.captureFrame, k))
      else
        var file := t.files[u.endpoint];
        Ok(Tape(t.rows + [row.(dataOffset := Some(|file|))], t.files[u.endpoint := file + chunk]))
  }

  function EmitFirst(t: Tape, u: Urb, k: nat): (r: Result<Tape, ExtractError>)
    requires k <= |u.lengths| == |u.statuses| && |u.chunks| == NonEmpty(u.lengths) && u.endpoint in t.files
    ensures r.Ok? ==> r.value.files.Keys == t.files.Keys
  {
    if k == 0 then Ok(t)
    else
      match EmitFirst(t, u, k - 1)
      case Err(e) => Err(e)
      case Ok(t') => Emit(t', u, k - 1)
  }

  function ExtractUrb(t: Tape, u: Urb, device: nat): (r: Result<Tape, ExtractError>)
    ensures r.Ok? ==> r.value.files.Keys == t.files.Keys
  {
    match Refusal(u, device, t.files.Keys)
    case Some(e) => Err(e)
    case None => EmitFirst(t, u, |u.lengths|)
  }

  function ExtractAll(urbs: seq<Urb>, device: nat, endpoints: set<nat>): (r: Result<Tape, ExtractError>)
    ensures r.Ok? ==> r.value.files.Keys == endpoints
  {
    if urbs == [] then Ok(EmptyTape(endpoints))
    else
      match ExtractAll(urbs[..|urbs| - 1], device, endpoints)
      case Err(e) => Err(e)
      case Ok(t) => ExtractUrb(t, urbs[|urbs| - 1], device)
  }

  method ExtractDescriptors(t: Tape, u: Urb) returns (r: Result<Tape, ExtractError>)
    requires |u.lengths| == |u.statuses| && |u.chunks| == NonEmpty(u.lengths) && u.endpoint in t.files
    ensures r == EmitFirst(t, u, |u.lengths|)
  {
    var tape, chunkIndex, k := t, 0, 0;
    assert u.lengths[..0] == [];
    while k < |u.lengths|
      invariant 0 <= k <= |u.lengths|
      invariant EmitFirst(t, u, k) == Ok(tape) && chunkIndex == NonEmpty(u.lengths[..k])
    {
      var row := Row(u.captureFrame, u.endpoint, k, (u.startFrame + k) % 2048, u.statuses[k], u.lengths[k], None);
      assert u.lengths[..k + 1][..k] == u.lengths[..k];
      if u.lengths[k] > 0 {
        NonEmptyMonotone(u.lengths, k);
        var chunk := u.chunks[chunkIndex];
        chunkIndex := chunkIndex + 1;
        if |chunk| != u.lengths[k] {
          EmitErrPersists(t, u, k + 1);
          return Err(ChunkLength(u.captureFrame, k));
        }
        var file := tape.files[u.endpoint];
        row := row.(dataOffset := Some(|file|));
        tape := tape.(files := tape.files[u.endpoint := file + chunk]);
      }
      tape := tape.(rows := tape.rows + [row]);
      k := k + 1;
    }
    r := Ok(tape);
  }

  lemma {:induction false} EmitErrPersists(t: Tape, u: Urb, k: nat)
    requires k <= |u.lengths| == |u.statuses| && |u.chunks| == NonEmpty(u.lengths) && u.endpoint in t.files
    requires EmitFirst(t, u, k).Err?
    ensures EmitFirst(t, u, |u.lengths|) == Err(EmitFirst(t, u, k).error)
    decreases |u.lengths| - k
  {
    if k < |u.lengths| {
      EmitErrPersists(t, u, k + 1);
    }
  }

  method Extract(urbs: seq<Urb>, device: nat, endpoints: set<nat>) returns (r: Result<Tape, ExtractError>)
    ensures r == ExtractAll(urbs, device, endpoints)
  {
    var tape := EmptyTape(endpoints);
    var i := 0;
    assert urbs[..0] == [];
    while i < |urbs|
      invariant 0 <= i <= |urbs|
      invariant ExtractAll(urbs[..i], device, endpoints) == Ok(tape)
    {
      assert urbs[..i + 1][..i] == urbs[..i];
      var refusal := Refusal(urbs[i], device, tape.files.Keys);
      if refusal.Some? {
        ExtractErrPersists(urbs, device, endpoints, i + 1);
        return Err(refusal.value);
      }
      var extracted := ExtractDescriptors(tape, urbs[i]);
      if extracted.Err? {
        ExtractErrPersists(urbs, device, endpoints, i + 1);
        return extracted;
      }
      tape := extracted.value;
      i := i + 1;
    }
    assert urbs[..i] == urbs;
    r := Ok(tape);
  }

  lemma {:induction false} ExtractErrPersists(urbs: seq<Urb>, device: nat, endpoints: set<nat>, k: nat)
    requires k <= |urbs| && ExtractAll(urbs[..k], device, endpoints).Err?
    ensures ExtractAll(urbs, device, endpoints) == Err(ExtractAll(urbs[..k], device, endpoints).error)
    decreases |urbs| - k
  {
    if k < |urbs| {
      assert urbs[..k + 1][..k] == urbs[..k];
      ExtractErrPersists(urbs, device, endpoints, k + 1);
    } else {
      assert urbs[..k] == urbs;
    }
  }

  // ---------------------------------------------------------------------
  // What the capture contained: the packets the decoder should see.

  function PacketsOfChunks(endpoint: nat, chunks: seq<Data>): seq<Packet> {
    if chunks == [] then []
    else PacketsOfChunks(endpoint, chunks[..|chunks| - 1]) + AsPacket(endpoint, chunks[|chunks| - 1])
  }

  // Only the boundary and video endpoints feed the decoder.
  function AsPacket(endpoint: nat, data: Data): seq<Packet> {
    if endpoint == BOUNDARY_ENDPOINT then [Packet(Boundary, data)]
    else if endpoint == VIDEO_ENDPOINT then [Packet(Video, data)]
    else []
  }

  function PacketsOf(urbs: seq<Urb>): seq<Packet> {
    if urbs == [] then []
    else
      var last := urbs[|urbs| - 1];
      PacketsOf(urbs[..|urbs| - 1]) + PacketsOfChunks(last.endpoint, last.chunks)
  }

  // ---------------------------------------------------------------------
  // The replayer's side: slices of the files named by the rows.

  datatype SliceError = MissingOffset(line: nat) | Overflow(line: nat) | OutOfRange(line: nat)

  function SliceRow(row: Row, line: nat, ep81: Data, ep82: Data): (r: Result<seq<Packet>, SliceError>)
    ensures r.Ok? ==> |r.value| <= 1
  {
    if row.endpoint != BOUNDARY_ENDPOINT && row.endpoint != VIDEO_ENDPOINT then Ok([])
    else if row.length == 0 then Ok([])
    else if row.dataOffset.None? then Err(MissingOffset(line))
    else
      var source := if row.endpoint == BOUNDARY_ENDPOINT then ep81 else ep82;
      var start := row.dataOffset.value;
      var end := start + row.length;
      if end > USIZE_MAX then Err(Overflow(line))
      else if end > |source| then Err(OutOfRange(line))
      else Ok(AsPacket(row.endpoint, source[start..end]))
  }

  function SliceRows(rows: seq<Row>, ep81: Data, ep82: Data): Result<seq<Packet>, SliceError> {
    if rows == [] then Ok([])
    else
      match SliceRows(rows[..|rows| - 1], ep81, ep82)
      case Err(e) => Err(e)
      case Ok(packets) =>
        match SliceRow(rows[|rows| - 1], |rows|, ep81, ep82)
        case Err(e) => Err(e)
        case Ok(more) => Ok(packets + more)
  }

  // Files only grow, so what a row names never changes.
  lemma {:induction false} SlicesAreStable(rows: seq<Row>, ep81: Data, ep82: Data, ep81': Data, ep82': Data)
    requires SliceRows(rows, ep81, ep82).Ok? && ep81 <= ep81' && ep82 <= ep82'
    ensures SliceRows(rows, ep81', ep82') == SliceRows(rows, ep81, ep82)
  {
    if rows != [] {
      var row := rows[|rows| - 1];
      SlicesAreStable(rows[..|rows| - 1], ep81, ep82, ep81', ep82');
      if row.length > 0 && row.dataOffset.Some? {
        SliceOfPrefix(ep81, ep81', row.dataOffset.value, row.dataOffset.value + row.length);
        SliceOfPrefix(ep82, ep82', row.dataOffset.value, row.dataOffset.value + row.length);
      }
    }
  }

  lemma {:induction false} SliceOfPrefix(a: Data, b: Data, start: nat, end: nat)
    requires a <= b
    ensures start <= end <= |a| ==> a[start..end] == b[start..end]
  {
  }

  // ---------------------------------------------------------------------
  // Tiling and the round trip.

  function BytesBefore(rows: seq<Row>, endpoint: nat): nat {
    if rows == [] then 0
    else
      var last := rows[|rows| - 1];
      BytesBefore(rows[..|rows| - 1], endpoint) + if last.endpoint == endpoint then last.length else 0
  }

  // Every non-empty row starts where the previous ones on its endpoint end, and
  // together they cover the endpoint's file.
  ghost predicate RowsTile(t: Tape) {
    && (forall k :: 0 <= k < |t.rows| ==>
                      t.rows[k].endpoint in t.files
                      && t.rows[k].dataOffset == if t.rows[k].length == 0 then None
                                                 else Some(BytesBefore(t.rows[..k], t.rows[k].endpoint)))
    && (forall e :: e in t.files ==> |t.files[e]| == BytesBefore(t.rows, e))
  }

  lemma {:induction false} TileSnoc(t: Tape, t': Tape)
    requires RowsTile(t) && |t'.rows| == |t.rows| + 1 && t'.rows[..|t.rows|] == t.rows
    requires t'.files.Keys == t.files.Keys
    requires var row := t'.rows[|t.rows|];
             && row.endpoint in t.files
             && row.dataOffset == (if row.length == 0 then None else Some(|t.files[row.endpoint]|))
             && (forall e :: e in t.files ==>
                   |t'.files[e]| == |t.files[e]| + if e == row.endpoint then row.length else 0)
    ensures RowsTile(t')
  {
    forall k | 0 <= k < |t'.rows|
      ensures t'.rows[k].endpoint in t'.files
              && t'.rows[k].dataOffset == if t'.rows[k].length == 0 then None
                                          else Some(BytesBefore(t'.rows[..k], t'.rows[k].endpoint))
    {
      if k < |t.rows| {
        assert t'.rows[k] == t.rows[k] && t'.rows[..k] == t.rows[..k];
      }
    }
  }

  // No file outgrows what a Rust buffer can hold.
  ghost predicate FilesFit(t: Tape) {
    forall e :: e in t.files ==> |t.files[e]| <= USIZE_MAX
  }

  ghost predicate Recovers(t: Tape, packets: seq<Packet>) {
    && BOUNDARY_ENDPOINT in t.files && VIDEO_ENDPOINT in t.files
    && SliceRows(t.rows, t.files[BOUNDARY_ENDPOINT], t.files[VIDEO_ENDPOINT]) == Ok(packets)
    && VideoBytes(packets) == t.files[VIDEO_ENDPOINT]
  }

  // The packet descriptor k stands for, if the decoder is to see it.
  function EmittedPacket(u: Urb, k: nat): seq<Packet>
    requires k < |u.lengths| && |u.chunks| == NonEmpty(u.lengths)
  {
    if u.lengths[k] == 0 then []
    else
      NonEmptyMonotone(u.lengths, k);
      AsPacket(u.endpoint, u.chunks[NonEmpty(u.lengths[..k])])
  }

  lemma {:induction false} EmitTiles(t: Tape, u: Urb, k: nat)
    requires k < |u.lengths| == |u.statuses| && |u.chunks| == NonEmpty(u.lengths) && u.endpoint in t.files
    requires RowsTile(t) && Emit(t, u, k).Ok?
    ensures RowsTile(Emit(t, u, k).value)
  {
    TileSnoc(t, Emit(t, u, k).value);
  }

  lemma {:induction false} EmitRecovers(t: Tape, u: Urb, k: nat, packets: seq<Packet>)
    requires k < |u.lengths| == |u.statuses| && |u.chunks| == NonEmpty(u.lengths) && u.endpoint in t.files
    requires Recovers(t, packets) && Emit(t, u, k).Ok? && FilesFit(Emit(t, u, k).value)
    ensures Recovers(Emit(t, u, k).value, packets + EmittedPacket(u, k))
  {
    var t' := Emit(t, u, k).value;
    var old81, old82 := t.files[BOUNDARY_ENDPOINT], t.files[VIDEO_ENDPOINT];
    var new81, new82 := t'.files[BOUNDARY_ENDPOINT], t'.files[VIDEO_ENDPOINT];
    SlicesAreStable(t.rows, old81, old82, new81, new82);
    assert t'.rows[..|t.rows|] == t.rows;
    EmittedSlice(t, u, k);
    VideoAppend(packets, EmittedPacket(u, k));
  }

  // The row just written names exactly the chunk just written.
  lemma {:induction false} EmittedSlice(t: Tape, u: Urb, k: nat)
    requires k < |u.lengths| == |u.statuses| && |u.chunks| == NonEmpty(u.lengths) && u.endpoint in t.files
    requires BOUNDARY_ENDPOINT in t.files && VIDEO_ENDPOINT in t.files
    requires Emit(t, u, k).Ok? && FilesFit(Emit(t, u, k).value)
    ensures var t' := Emit(t, u, k).value;
            && |t'.rows| == |t.rows| + 1
            && SliceRow(t'.rows[|t.rows|], |t'.rows|, t'.files[BOUNDARY_ENDPOINT], t'.files[VIDEO_ENDPOINT])
               == Ok(EmittedPacket(u, k))
            && t'.files[VIDEO_ENDPOINT] == t.files[VIDEO_ENDPOINT] + VideoBytes(EmittedPacket(u, k))
  {
    if u.lengths[k] > 0 {
      NonEmptyMonotone(u.lengths, k);
      var file, chunk := t.files[u.endpoint], u.chunks[NonEmpty(u.lengths[..k])];
      hide NonEmpty;
      var t' := Emit(t, u, k).value;
      assert |t'.files[u.endpoint]| <= USIZE_MAX;
      NewRowSlice(t'.rows[|t.rows|], |t'.rows|, file, chunk, t'.files[BOUNDARY_ENDPOINT], t'.files[VIDEO_ENDPOINT]);
      OnePacketBytes(AsPacket(u.endpoint, chunk));
    }
  }

  lemma {:induction false} NewRowSlice(row: Row, line: nat, file: Data, chunk: Data, ep81: Data, ep82: Data)
    requires row.length == |chunk| > 0 && row.dataOffset == Some(|file|) && |file + chunk| <= USIZE_MAX
    requires row.endpoint == BOUNDARY_ENDPOINT ==> ep81 == file + chunk
    requires row.endpoint == VIDEO_ENDPOINT ==> ep82 == file + chunk
    ensures SliceRow(row, line, ep81, ep82) == Ok(AsPacket(row.endpoint, chunk))
  {
    assert (file + chunk)[|file|..|file| + |chunk|] == chunk;
  }

  lemma {:induction false} OnePacketBytes(packets: seq<Packet>)
    requires |packets| <= 1
    ensures VideoBytes(packets) == if packets != [] && packets[0].endpoint.Video? then packets[0].data else []
  {
    if packets != [] {
      assert packets[..0] == [];
    }
  }

  lemma {:induction false} VideoAppend(packets: seq<Packet>, more: seq<Packet>)
    requires |more| <= 1
    ensures VideoBytes(packets + more) == VideoBytes(packets) + VideoBytes(more)
  {
    OnePacketBytes(more);
    if more == [] {
      assert packets + more == packets;
    } else {
      assert (packets + more)[..|packets|] == packets;
    }
  }

  // The descriptors' packets are the URB's chunks, in order.
  lemma {:induction false} EmitFirstRecovers(t: Tape, u: Urb, k: nat, packets: seq<Packet>)
    requires k <= |u.lengths| == |u.statuses| && |u.chunks| == NonEmpty(u.lengths) && u.endpoint in t.files
    requires Recovers(t, packets) && RowsTile(t)
    requires EmitFirst(t, u, k).Ok? && FilesFit(EmitFirst(t, u, k).value)
    ensures NonEmpty(u.lengths[..k]) <= |u.chunks|
    ensures RowsTile(EmitFirst(t, u, k).value)
    ensures Recovers(EmitFirst(t, u, k).value,
                     packets + PacketsOfChunks(u.endpoint, u.chunks[..NonEmpty(u.lengths[..k])]))
  {
    NonEmptyMonotone(u.lengths, k);
    if k == 0 {
      assert u.lengths[..0] == [] && u.chunks[..0] == [];
      assert packets + [] == packets;
    } else {
      var before := EmitFirst(t, u, k - 1).value;
      EmitGrows(before, u, k - 1);
      EmitFirstRecovers(t, u, k - 1, packets);
      NonEmptyMonotone(u.lengths, k - 1);
      var c := NonEmpty(u.lengths[..k - 1]);
      assert u.lengths[..k][..k - 1] == u.lengths[..k - 1];
      var soFar := PacketsOfChunks(u.endpoint, u.chunks[..c]);
      EmitTiles(before, u, k - 1);
      EmitRecovers(before, u, k - 1, packets + soFar);
      Associate(packets, soFar, EmittedPacket(u, k - 1));
      ChunksSoFar(u, k);
    }
  }

  lemma {:induction false} EmitGrows(t: Tape, u: Urb, k: nat)
    requires k < |u.lengths| == |u.statuses| && |u.chunks| == NonEmpty(u.lengths) && u.endpoint in t.files
    requires Emit(t, u, k).Ok? && FilesFit(Emit(t, u, k).value)
    ensures FilesFit(t)
  {
    var t' := Emit(t, u, k).value;
    forall e | e in t.files
      ensures |t.files[e]| <= USIZE_MAX
    {
      assert |t'.files[e]| <= USIZE_MAX;
    }
  }

  lemma {:induction false} ChunksSoFar(u: Urb, k: nat)
    requires 0 < k <= |u.lengths| && |u.chunks| == NonEmpty(u.lengths)
    ensures NonEmpty(u.lengths[..k - 1]) <= NonEmpty(u.lengths[..k]) <= |u.chunks|
    ensures PacketsOfChunks(u.endpoint, u.chunks[..NonEmpty(u.lengths[..k])])
            == PacketsOfChunks(u.endpoint, u.chunks[..NonEmpty(u.lengths[..k - 1])]) + EmittedPacket(u, k - 1)
  {
    NonEmptyMonotone(u.lengths, k);
    NonEmptyMonotone(u.lengths, k - 1);
    assert u.lengths[..k][..k - 1] == u.lengths[..k - 1];
    var c := NonEmpty(u.lengths[..k - 1]);
    if u.lengths[k - 1] > 0 {
      assert u.chunks[..c + 1][..c] == u.chunks[..c];
    }
  }

  ghost predicate StreamEndpoints(endpoints: set<nat>) {
    BOUNDARY_ENDPOINT in endpoints && VIDEO_ENDPOINT in endpoints
  }

  // Extractor and replayer undo each other: for every accepted list of URBs the
  // rows tile each endpoint file, and slicing the files by the rows gives back
  // exactly the non-empty packets in capture order, without a range error.
  lemma {:induction false} ExtractionRoundTrip(urbs: seq<Urb>, device: nat, endpoints: set<nat>)
    requires StreamEndpoints(endpoints) && ExtractAll(urbs, device, endpoints).Ok?
    requires FilesFit(ExtractAll(urbs, device, endpoints).value)
    ensures RowsTile(ExtractAll(urbs, device, endpoints).value)
    ensures Recovers(ExtractAll(urbs, device, endpoints).value, PacketsOf(urbs))
  {
    if urbs != [] {
      var u := urbs[|urbs| - 1];
      var before := ExtractAll(urbs[..|urbs| - 1], device, endpoints).value;
      ShorterFits(before, u, |u.lengths|);
      ExtractionRoundTrip(urbs[..|urbs| - 1], device, endpoints);
      EmitFirstRecovers(before, u, |u.lengths|, PacketsOf(urbs[..|urbs| - 1]));
      assert u.lengths[..|u.lengths|] == u.lengths && u.chunks[..|u.chunks|] == u.chunks;
    }
  }

  lemma {:induction false} ShorterFits(t: Tape, u: Urb, k: nat)
    requires k <= |u.lengths| == |u.statuses| && |u.chunks| == NonEmpty(u.lengths) && u.endpoint in t.files
    requires EmitFirst(t, u, k).Ok? && FilesFit(EmitFirst(t, u, k).value)
    ensures FilesFit(t)
  {
    if k > 0 {
      EmitGrows(EmitFirst(t, u, k - 1).value, u, k - 1);
      ShorterFits(t, u, k - 1);
    }
  }
}
