/** Raw-capture replay: slice the endpoint files and decode, resetting after each error. */
module ReplayCapture {
  import opened Bytes
  import opened Jpeg
  import opened Stream
  import opened ExtractStream

  // The packets so far, cut after every packet on which the decoder failed.
  datatype Epochs = Epochs(failed: seq<seq<Packet>>, current: seq<Packet>)

  function EpochsOf(config: Config, packets: seq<Packet>): Epochs {
    if packets == [] then Epochs([], [])
    else
      var before := EpochsOf(config, packets[..|packets| - 1]);
      var epoch := before.current + [packets[|packets| - 1]];
      if Decode(config, epoch).failed then Epochs(before.failed + [epoch], [])
      else before.(current := epoch)
  }

  function FailedFrames(config: Config, failed: seq<seq<Packet>>): seq<CompressedFrame> {
    if failed == [] then []
    else FailedFrames(config, failed[..|failed| - 1]) + Decode(config, failed[|failed| - 1]).frames
  }

  function EpochFrames(config: Config, epochs: Epochs): seq<CompressedFrame> {
    FailedFrames(config, epochs.failed) + Decode(config, epochs.current).frames
  }

  function JoinEpochs(failed: seq<seq<Packet>>): seq<Packet> {
    if failed == [] then [] else JoinEpochs(failed[..|failed| - 1]) + failed[|failed| - 1]
  }

  // A failed epoch: its last packet is the first one the decoder rejects, and
  // its frames are the batch frames of the packets before that one.
  ghost predicate FailsLast(config: Config, epoch: seq<Packet>) {
    && epoch != []
    && Decode(config, epoch).failed
    && !Decode(config, epoch[..|epoch| - 1]).failed
    && Decode(config, epoch).frames == Decode(config, epoch[..|epoch| - 1]).frames
  }

  ghost predicate Partitions(config: Config, e: Epochs, packets: seq<Packet>) {
    && JoinEpochs(e.failed) + e.current == packets
    && !Decode(config, e.current).failed
    && forall k :: 0 <= k < |e.failed| ==> FailsLast(config, e.failed[k])
  }

  // On every packet sequence, errors included, the packets fall into consecutive
  // epochs, each decoded as if by a fresh decoder; only the last may be complete.
  lemma {:induction false} EpochsPartition(config: Config, packets: seq<Packet>)
    ensures Partitions(config, EpochsOf(config, packets), packets)
  {
    if packets == [] {
      assert JoinEpochs([]) + [] == packets;
    } else {
      hide Decode, Partitions, EpochsOf;
      var init, last := packets[..|packets| - 1], packets[|packets| - 1];
      assert packets == init + [last];
      EpochsPartition(config, init);
      EpochsSnoc(config, init, last);
      NextEpoch(config, EpochsOf(config, init), init, last);
    }
  }

  lemma {:induction false} EpochsSnoc(config: Config, packets: seq<Packet>, last: Packet)
    ensures var before := EpochsOf(config, packets);
            var epoch := before.current + [last];
            EpochsOf(config, packets + [last])
            == if Decode(config, epoch).failed then Epochs(before.failed + [epoch], [])
               else before.(current := epoch)
  {
    hide Decode;
    assert (packets + [last])[..|packets|] == packets;
  }

  lemma {:induction false} NextEpoch(config: Config, before: Epochs, packets: seq<Packet>, last: Packet)
    requires Partitions(config, before, packets)
    ensures var epoch := before.current + [last];
            Partitions(config,
                       if Decode(config, epoch).failed then Epochs(before.failed + [epoch], [])
                       else before.(current := epoch),
                       packets + [last])
  {
    var epoch := before.current + [last];
    hide Decode, FailsLast, JoinEpochs;
    FailsLastSnoc(config, before.current, last);
    Associate(JoinEpochs(before.failed), before.current, [last]);
    JoinSnoc(before.failed, epoch);
  }

  lemma {:induction false} JoinSnoc(failed: seq<seq<Packet>>, epoch: seq<Packet>)
    ensures JoinEpochs(failed + [epoch]) + [] == JoinEpochs(failed) + epoch
  {
    assert (failed + [epoch])[..|failed|] == failed;
  }

  lemma {:induction false} FailsLastSnoc(config: Config, epoch: seq<Packet>, last: Packet)
    requires !Decode(config, epoch).failed
    ensures Decode(config, epoch + [last]).failed ==> FailsLast(config, epoch + [last])
    ensures !Decode(config, []).failed
  {
    assert (epoch + [last])[..|epoch|] == epoch;
    FailingStepEmitsNothing(config, Decode(config, epoch).state, last);
    var frames := Decode(config, epoch).frames;
    assert frames + [] == frames;
    hide Step;
  }

  lemma {:induction false} FailingStepEmitsNothing(config: Config, st: DecoderState, packet: Packet)
    ensures Step(config, st, packet).1.Err? ==> Emitted(Step(config, st, packet).1) == []
  {
  }

  // So every frame of a replay is a batch frame of some epoch.
  lemma {:induction false} EpochFramesAreBatchFrames(config: Config, packets: seq<Packet>, k: nat)
    requires k < |EpochsOf(config, packets).failed|
    ensures var epoch := EpochsOf(config, packets).failed[k];
            && epoch != []
            && var rs := LayoutOf(epoch[..|epoch| - 1]).records;
            && InnerEntropy(rs) && Decode(config, epoch).frames == BatchFrames(config, rs)
  {
    EpochsPartition(config, packets);
    var epoch := EpochsOf(config, packets).failed[k];
    assert FailsLast(config, epoch);
    DecoderRefinesBatch(config, epoch[..|epoch| - 1]);
  }

  // The decoder is where the current epoch of these packets leaves it.
  ghost predicate Follows(decoder: StreamDecoder, seen: seq<Packet>)
    reads decoder
  {
    var d := Decode(decoder.config, EpochsOf(decoder.config, seen).current);
    !d.failed && decoder.State() == d.state
  }

  // Push one packet, and start a new epoch when it is rejected.
  method DecodeOrReset(decoder: StreamDecoder, packet: Packet, ghost seen: seq<Packet>)
    returns (emitted: seq<CompressedFrame>, failed: bool)
    requires Follows(decoder, seen)
    modifies decoder
    ensures Follows(decoder, seen + [packet])
    ensures var before, after := EpochsOf(decoder.config, seen), EpochsOf(decoder.config, seen + [packet]);
            && EpochFrames(decoder.config, after) == EpochFrames(decoder.config, before) + emitted
            && |after.failed| == |before.failed| + if failed then 1 else 0
  {
    OneMorePacket(decoder.config, seen, packet);
    var outcome := decoder.PushPacket(packet);
    hide Decode, EpochsOf, EpochFrames, Step;
    emitted, failed := Emitted(outcome), outcome.Err?;
    if failed {
      decoder.Reset();
    }
  }

  // Handle row i: slice it, and feed the decoder when it names a packet.
  method ReplayRow(decoder: StreamDecoder, rows: seq<Row>, i: nat, ep81: Data, ep82: Data, ghost seen: seq<Packet>)
    returns (error: Option<SliceError>, emitted: seq<CompressedFrame>, pushed: nat, failures: nat,
             ghost after: seq<Packet>)
    requires i < |rows| && SliceRows(rows[..i], ep81, ep82) == Ok(seen) && Follows(decoder, seen)
    modifies decoder
    ensures error.Some? ==> SliceRows(rows, ep81, ep82) == Err(error.value)
    ensures error.None? ==>
              && SliceRows(rows[..i + 1], ep81, ep82) == Ok(after) && Follows(decoder, after)
              && |after| == |seen| + pushed
              && EpochFrames(decoder.config, EpochsOf(decoder.config, after))
                 == EpochFrames(decoder.config, EpochsOf(decoder.config, seen)) + emitted
              && |EpochsOf(decoder.config, after).failed| == |EpochsOf(decoder.config, seen).failed| + failures
  {
    hide Decode, EpochsOf, EpochFrames, Follows, SliceRow, SliceRows;
    SlicePrefix(rows, i, ep81, ep82);
    error, emitted, pushed, failures, after := None, [], 0, 0, seen;
    var sliced := SliceRow(rows[i], i + 1, ep81, ep82);
    if sliced.Err? {
      SliceErrPersists(rows, ep81, ep82, i + 1);
      error := Some(sliced.error);
    } else if sliced.value != [] {
      var failed: bool;
      emitted, failed := DecodeOrReset(decoder, sliced.value[0], seen);
      pushed, failures, after := 1, if failed then 1 else 0, seen + [sliced.value[0]];
    }
  }

  // The replay loop over descriptor rows.
  method RunReplayCapture(rows: seq<Row>, ep81: Data, ep82: Data, config: Config)
    returns (error: Option<SliceError>, frames: seq<CompressedFrame>, packets: nat, errors: nat)
    ensures error.Some? <==> SliceRows(rows, ep81, ep82).Err?
    ensures error.Some? ==> SliceRows(rows, ep81, ep82) == Err(error.value)
    ensures error.None? ==>
              var all := SliceRows(rows, ep81, ep82).value;
              && packets == |all|
              && frames == EpochFrames(config, EpochsOf(config, all))
              && errors == |EpochsOf(config, all).failed|
  {
    var decoder := new StreamDecoder(config);
    ghost var seen: seq<Packet> := [];
    frames, packets, errors, error := [], 0, 0, None;
    assert rows[..0] == [];
    NoEpochs(config);
    assert Follows(decoder, seen);
    hide Decode, EpochsOf, EpochFrames, Follows, SliceRow;
    var i := 0;
    while i < |rows|
      invariant 0 <= i <= |rows| && fresh(decoder) && decoder.config == config
      invariant SliceRows(rows[..i], ep81, ep82) == Ok(seen) && packets == |seen|
      invariant Follows(decoder, seen) && error.None?
      invariant frames == EpochFrames(config, EpochsOf(config, seen))
      invariant errors == |EpochsOf(config, seen).failed|
    {
      var emitted, pushed, failures;
      error, emitted, pushed, failures, seen := ReplayRow(decoder, rows, i, ep81, ep82, seen);
      if error.Some? {
        return;
      }
      frames, packets, errors := frames + emitted, packets + pushed, errors + failures;
      i := i + 1;
    }
    assert rows[..i] == rows;
  }

  lemma {:induction false} SlicePrefix(rows: seq<Row>, i: nat, ep81: Data, ep82: Data)
    requires i < |rows| && SliceRows(rows[..i], ep81, ep82).Ok?
    ensures var seen := SliceRows(rows[..i], ep81, ep82).value;
            match SliceRow(rows[i], i + 1, ep81, ep82)
            case Err(e) => SliceRows(rows[..i + 1], ep81, ep82) == Err(e)
            case Ok(more) =>
              SliceRows(rows[..i + 1], ep81, ep82) == Ok(if more == [] then seen else seen + [more[0]])
  {
    hide SliceRow;
    assert rows[..i + 1][..i] == rows[..i];
    var r := SliceRow(rows[i], i + 1, ep81, ep82);
    var seen := SliceRows(rows[..i], ep81, ep82).value;
    if r.Ok? {
      assert r.value == [] || r.value == [r.value[0]];
      assert seen + [] == seen;
    }
  }

  lemma {:induction false} NoEpochs(config: Config)
    ensures EpochsOf(config, []) == Epochs([], []) && EpochFrames(config, Epochs([], [])) == []
    ensures Decode(config, []) == Decoded(FRESH, [], false)
  {
  }

  lemma {:induction false} SliceErrPersists(rows: seq<Row>, ep81: Data, ep82: Data, k: nat)
    requires k <= |rows| && SliceRows(rows[..k], ep81, ep82).Err?
    ensures SliceRows(rows, ep81, ep82) == Err(SliceRows(rows[..k], ep81, ep82).error)
    decreases |rows| - k
  {
    if k < |rows| {
      assert rows[..k + 1][..k] == rows[..k];
      SliceErrPersists(rows, ep81, ep82, k + 1);
    } else {
      assert rows[..k] == rows;
    }
  }

  // How one packet changes the epochs, the frames and the decoder state.
  lemma {:induction false} OneMorePacket(config: Config, packets: seq<Packet>, packet: Packet)
    requires !Decode(config, EpochsOf(config, packets).current).failed
    ensures var before, after := EpochsOf(config, packets), EpochsOf(config, packets + [packet]);
            var (state, outcome) := Step(config, Decode(config, before.current).state, packet);
            && !Decode(config, after.current).failed
            && Decode(config, after.current).state == (if outcome.Err? then FRESH else state)
            && EpochFrames(config, after) == EpochFrames(config, before) + Emitted(outcome)
            && |after.failed| == |before.failed| + if outcome.Err? then 1 else 0
  {
    var before := EpochsOf(config, packets);
    var epoch := before.current + [packet];
    EpochsSnoc(config, packets, packet);
    assert epoch[..|before.current|] == before.current;
    var d := Decode(config, before.current);
    var (state, outcome) := Step(config, d.state, packet);
    hide Step, LayoutOf;
    Associate(FailedFrames(config, before.failed), d.frames, Emitted(outcome));
    if outcome.Err? {
      assert (before.failed + [epoch])[..|before.failed|] == before.failed;
      assert Decode(config, []).frames == [];
      assert EpochFrames(config, Epochs(before.failed + [epoch], []))
          == FailedFrames(config, before.failed) + (d.frames + Emitted(outcome));
    }
  }

  // Extract, then replay: the decoder is fed exactly the captured packets, so the
  // frames are those of the live packet sequence.
  lemma {:induction false} ExtractThenReplay(urbs: seq<Urb>, device: nat, endpoints: set<nat>)
    requires StreamEndpoints(endpoints) && ExtractAll(urbs, device, endpoints).Ok?
    requires FilesFit(ExtractAll(urbs, device, endpoints).value)
    ensures var t := ExtractAll(urbs, device, endpoints).value;
            SliceRows(t.rows, t.files[BOUNDARY_ENDPOINT], t.files[VIDEO_ENDPOINT]) == Ok(PacketsOf(urbs))
  {
    ExtractionRoundTrip(urbs, device, endpoints);
  }
}
