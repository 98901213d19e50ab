/** The camera clock across decoder resets: when frame times follow it, and when they go back. */
module EpochClock {
  import opened Bytes
  import opened Jpeg
  import opened Stream
  import opened Timeline

  // The packets of one epoch up to the first one the decoder rejects.
  function AcceptedPart(config: Config, epoch: seq<Packet>): (accepted: seq<Packet>)
    ensures !Decode(config, accepted).failed
    ensures Decode(config, accepted).frames == Decode(config, epoch).frames
    decreases |epoch|
  {
    if !Decode(config, epoch).failed then epoch
    else
      FailureAddsNothing(config, epoch);
      AcceptedPart(config, epoch[..|epoch| - 1])
  }

  lemma {:induction false} FailureAddsNothing(config: Config, epoch: seq<Packet>)
    requires Decode(config, epoch).failed
    ensures epoch != [] && Decode(config, epoch[..|epoch| - 1]).frames == Decode(config, epoch).frames
  {
    var before := Decode(config, epoch[..|epoch| - 1]);
    assert before.frames + [] == before.frames;
    hide Step;
  }

  function EpochRecords(config: Config, epoch: seq<Packet>): (records: seq<RawRecord>)
    ensures HeadsAreHeaders(records)
  {
    LayoutOf(AcceptedPart(config, epoch)).records
  }

  // An epoch emits frames as soon as it has three accepted headers.
  predicate Emits(config: Config, epoch: seq<Packet>) {
    |EpochRecords(config, epoch)| >= 3
  }

  lemma {:induction false} EpochIsBatch(config: Config, epoch: seq<Packet>)
    ensures var rs := EpochRecords(config, epoch);
            InnerEntropy(rs) && Decode(config, epoch).frames == BatchFrames(config, rs)
    ensures FramesTile(Decode(config, epoch).frames)
  {
    DecoderRefinesBatch(config, AcceptedPart(config, epoch));
    BatchFramesTile(config, EpochRecords(config, epoch));
    hide Decode, BatchFrames, StateOf, LayoutOf, AcceptedPart, HeadsAreHeaders;
  }

  // Headers 1 to `last` all carry the same 11-bit timestamp.
  ghost predicate Still(records: seq<RawRecord>, last: int)
    requires HeadsAreHeaders(records) && last < |records|
  {
    forall j :: 1 <= j <= last ==> Timestamp(records[j]) == Timestamp(records[1])
  }

  lemma {:induction false} StillIff(records: seq<RawRecord>, i: nat)
    requires HeadsAreHeaders(records) && i + 1 < |records|
    ensures UnwrappedAt(records, i) == 0 <==> Still(records, i + 1)
  {
    if i > 0 {
      StillIff(records, i - 1);
      assert Still(records, i + 1) <==> Still(records, i) && Timestamp(records[i + 1]) == Timestamp(records[1]);
    }
  }

  // The camera's clock stands still up to the header of the last emitted frame,
  // or, with `whole`, up to the header after it.
  ghost predicate StandsStill(config: Config, epoch: seq<Packet>, whole: bool) {
    var rs := EpochRecords(config, epoch);
    Still(rs, |rs| - if whole then 1 else 2)
  }

  function Last(frames: seq<CompressedFrame>): CompressedFrame
    requires frames != []
  {
    frames[|frames| - 1]
  }

  // Where the last frame starts, or ends, on its epoch's clock.
  function Reached(frame: CompressedFrame, whole: bool): nat {
    frame.unwrapped + if whole then frame.deltaToNext else 0
  }

  lemma {:induction false} ReachedIff(config: Config, epoch: seq<Packet>, whole: bool)
    ensures Decode(config, epoch).frames != [] <==> Emits(config, epoch)
    ensures Emits(config, epoch) ==>
              (Reached(Last(Decode(config, epoch).frames), whole) == 0 <==> StandsStill(config, epoch, whole))
  {
    EpochIsBatch(config, epoch);
    hide Decode, EpochRecords, StartsWithSync, HasEntropy, Reconstruct;
    var rs := EpochRecords(config, epoch);
    if |rs| >= 3 {
      BatchFrameAt(config, rs, |rs| - 3);
      StillIff(rs, |rs| - if whole then 2 else 3);
    }
  }

  // ---------------------------------------------------------------------
  // Epochs one after the other.

  function EpochFrames(config: Config, epochs: seq<seq<Packet>>): seq<CompressedFrame> {
    if epochs == [] then []
    else EpochFrames(config, epochs[..|epochs| - 1]) + Decode(config, epochs[|epochs| - 1]).frames
  }

  // Each frame starts where its predecessor ends.
  ghost predicate Follows(frames: seq<CompressedFrame>) {
    forall k {:trigger frames[k]} :: 0 < k < |frames| ==>
      frames[k].unwrapped == frames[k - 1].unwrapped + frames[k - 1].deltaToNext
  }

  ghost predicate NeverGoesBack(frames: seq<CompressedFrame>) {
    forall k {:trigger frames[k]} :: 0 < k < |frames| ==> frames[k - 1].unwrapped <= frames[k].unwrapped
  }

  ghost predicate Continues(frames: seq<CompressedFrame>, whole: bool) {
    if whole then Follows(frames) else NeverGoesBack(frames)
  }

  // Appending an epoch's frames, which start at zero again.
  lemma {:induction false} JoinIff(a: seq<CompressedFrame>, b: seq<CompressedFrame>, whole: bool)
    requires FramesTile(b) && a != [] && b != []
    ensures Continues(a + b, whole) <==> Continues(a, whole) && Reached(Last(a), whole) == 0
  {
    var all := a + b;
    assert all[|a|] == b[0] && all[|a| - 1] == Last(a);
    assert forall k :: 0 <= k < |a| ==> all[k] == a[k];
    assert forall k {:trigger all[k]} :: |a| < k < |all| ==> all[k] == b[k - |a|] && all[k - 1] == b[k - |a| - 1];
    if Continues(all, whole) {
      assert Continues(a, whole);
      assert all[|a|].unwrapped == 0;
    }
  }

  // Every epoch that emits, and is followed by one that does, stands still.
  ghost predicate StillBeforeLater(config: Config, epochs: seq<seq<Packet>>, whole: bool) {
    forall i, j :: 0 <= i < j < |epochs| && Emits(config, epochs[i]) && Emits(config, epochs[j]) ==>
      StandsStill(config, epochs[i], whole)
  }

  // The epoch that emitted the last frame.
  lemma {:induction false} LastEmitter(config: Config, epochs: seq<seq<Packet>>) returns (i: int)
    ensures i == -1 <==> EpochFrames(config, epochs) == []
    ensures i == -1 || (0 <= i < |epochs| && Emits(config, epochs[i]) && Decode(config, epochs[i]).frames != []
                        && Last(EpochFrames(config, epochs)) == Last(Decode(config, epochs[i]).frames))
    ensures forall j :: i < j < |epochs| ==> !Emits(config, epochs[j])
  {
    hide Decode, Emits;
    if epochs == [] {
      i := -1;
    } else {
      var init, last := epochs[..|epochs| - 1], epochs[|epochs| - 1];
      ReachedIff(config, last, false);
      if Emits(config, last) {
        i := |epochs| - 1;
      } else {
        i := LastEmitter(config, init);
        assert EpochFrames(config, init) + [] == EpochFrames(config, init);
        assert forall j :: 0 <= j < |init| ==> init[j] == epochs[j];
      }
    }
  }

  lemma {:induction false} StillBeforeOneMore(
    config: Config, epochs: seq<seq<Packet>>, last: seq<Packet>, i: int, whole: bool)
    requires Emits(config, last) && 0 <= i < |epochs| && Emits(config, epochs[i])
    requires forall j :: i < j < |epochs| ==> !Emits(config, epochs[j])
    ensures StillBeforeLater(config, epochs + [last], whole)
            <==> StillBeforeLater(config, epochs, whole) && StandsStill(config, epochs[i], whole)
  {
    hide Emits, StandsStill;
    var all := epochs + [last];
    assert forall j :: 0 <= j < |epochs| ==> all[j] == epochs[j];
    assert all[|epochs|] == last;
    if StillBeforeLater(config, all, whole) {
      assert Emits(config, all[i]) && Emits(config, all[|epochs|]);
      assert StillBeforeLater(config, epochs, whole);
    }
    if StillBeforeLater(config, epochs, whole) && StandsStill(config, epochs[i], whole) {
      forall m, n | 0 <= m < n < |all| && Emits(config, all[m]) && Emits(config, all[n])
        ensures StandsStill(config, all[m], whole)
      {
        if m < i {
          assert Emits(config, epochs[m]) && Emits(config, epochs[i]);
        }
      }
    }
  }

  lemma {:induction false} ContinuesIff(config: Config, epochs: seq<seq<Packet>>, whole: bool)
    ensures Continues(EpochFrames(config, epochs), whole) <==> StillBeforeLater(config, epochs, whole)
  {
    hide Decode, Emits, StandsStill, Reached;
    if epochs != [] {
      var init, last := epochs[..|epochs| - 1], epochs[|epochs| - 1];
      assert epochs == init + [last];
      ContinuesIff(config, init, whole);
      ReachedIff(config, last, whole);
      EpochIsBatch(config, last);
      var i := LastEmitter(config, init);
      var before, frames := EpochFrames(config, init), Decode(config, last).frames;
      if !Emits(config, last) {
        assert before + frames == before;
        NothingLater(config, init, last, whole);
      } else if i == -1 {
        assert before + frames == frames;
        TileContinues(frames, whole);
        NothingEarlier(config, init, last, whole);
      } else {
        JoinIff(before, frames, whole);
        StillBeforeOneMore(config, init, last, i, whole);
        ReachedIff(config, init[i], whole);
      }
    }
  }

  lemma {:induction false} TileContinues(frames: seq<CompressedFrame>, whole: bool)
    requires FramesTile(frames)
    ensures Continues(frames, whole)
  {
  }

  lemma {:induction false} NothingLater(config: Config, epochs: seq<seq<Packet>>, last: seq<Packet>, whole: bool)
    requires !Emits(config, last)
    ensures StillBeforeLater(config, epochs + [last], whole) <==> StillBeforeLater(config, epochs, whole)
  {
    hide Emits, StandsStill;
    var all := epochs + [last];
    assert forall j :: 0 <= j < |epochs| ==> all[j] == epochs[j];
  }

  lemma {:induction false} NothingEarlier(config: Config, epochs: seq<seq<Packet>>, last: seq<Packet>, whole: bool)
    requires forall j :: 0 <= j < |epochs| ==> !Emits(config, epochs[j])
    ensures StillBeforeLater(config, epochs + [last], whole)
  {
    hide Emits, StandsStill;
    var all := epochs + [last];
    assert forall j :: 0 <= j < |epochs| ==> all[j] == epochs[j];
  }

  // Frame times go back over the epochs unless, in every epoch followed by
  // frames of a later one, the headers up to the last frame's show one time.
  lemma {:induction false} NeverGoesBackIff(config: Config, epochs: seq<seq<Packet>>)
    ensures NeverGoesBack(EpochFrames(config, epochs)) <==> StillBeforeLater(config, epochs, false)
  {
    ContinuesIff(config, epochs, false);
  }

  // And they advance by each frame's delta throughout exactly when in those
  // epochs the header after the last frame's shows that time too.
  lemma {:induction false} FollowsIff(config: Config, epochs: seq<seq<Packet>>)
    ensures Follows(EpochFrames(config, epochs)) <==> StillBeforeLater(config, epochs, true)
  {
    ContinuesIff(config, epochs, true);
  }

  // Where epoch i's frames lie among all frames.
  lemma {:induction false} EpochFrameAt(config: Config, epochs: seq<seq<Packet>>, i: nat, j: nat)
    requires i < |epochs| && j < |Decode(config, epochs[i]).frames|
    ensures var k := |EpochFrames(config, epochs[..i])| + j;
            k < |EpochFrames(config, epochs)| && EpochFrames(config, epochs)[k] == Decode(config, epochs[i]).frames[j]
  {
    hide Decode;
    var init := epochs[..|epochs| - 1];
    if i < |init| {
      EpochFrameAt(config, init, i, j);
      assert init[..i] == epochs[..i];
    }
  }
}
