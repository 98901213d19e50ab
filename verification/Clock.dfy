/** Recovery of the camera's true clock from its 11-bit timestamps. */
module Clock {
  import opened Bytes
  import opened Jpeg
  import opened Stream

  // The camera's real millisecond clock at each accepted header: it never runs
  // backwards, and each header carries it modulo 2048.
  ghost predicate CarriesClock(records: seq<RawRecord>, clock: seq<int>)
    requires HeadsAreHeaders(records)
  {
    && |clock| == |records|
    && (forall k :: 0 <= k < |records| ==> clock[k] >= 0 && clock[k] % 2048 == Timestamp(records[k]))
    && (forall k :: 0 <= k < |records| - 1 ==> Gap(clock, k) >= 0)
  }

  function Gap(clock: seq<int>, k: nat): int
    requires k + 1 < |clock|
  {
    clock[k + 1] - clock[k]
  }

  // No gap from header 1 up to header `last + 1` reaches a full counter turn.
  ghost predicate NoFullTurn(clock: seq<int>, last: int)
    requires last + 1 < |clock|
  {
    forall k :: 1 <= k <= last ==> Gap(clock, k) < 2048
  }

  lemma {:induction false} DeltaIsGapModulo(before: int, after: int)
    requires 0 <= before <= after
    ensures WrappedDelta(before % 2048, after % 2048) == (after - before) % 2048
    ensures WrappedDelta(before % 2048, after % 2048) == after - before <==> after - before < 2048
  {
    var q := after / 2048 - before / 2048;
    assert after - before == 2048 * q + (after % 2048 - before % 2048);
  }

  lemma {:induction false} LostTurns(lost: int, gap: int)
    requires lost >= 0 && lost % 2048 == 0 && gap >= 0
    ensures var total := lost + gap - gap % 2048;
            total >= 0 && total % 2048 == 0 && (total == 0 <==> lost == 0 && gap < 2048)
  {
    assert lost + gap - gap % 2048 == 2048 * (lost / 2048 + gap / 2048);
  }

  // Unwrapping can only lose whole turns of the 11-bit counter.
  lemma {:induction false} UnwrappedLosesWholeTurns(records: seq<RawRecord>, clock: seq<int>, i: nat)
    requires HeadsAreHeaders(records) && CarriesClock(records, clock) && i + 1 < |records|
    ensures var lost := clock[i + 1] - clock[1] - UnwrappedAt(records, i);
            lost >= 0 && lost % 2048 == 0 && (lost == 0 <==> NoFullTurn(clock, i))
  {
    if i > 0 {
      UnwrappedLosesWholeTurns(records, clock, i - 1);
      var lost := clock[i] - clock[1] - UnwrappedAt(records, i - 1);
      assert Gap(clock, i) >= 0;
      DeltaIsGapModulo(clock[i], clock[i + 1]);
      assert Timestamp(records[i]) == clock[i] % 2048 && Timestamp(records[i + 1]) == clock[i + 1] % 2048;
      LostTurns(lost, Gap(clock, i));
      assert NoFullTurn(clock, i) <==> NoFullTurn(clock, i - 1) && Gap(clock, i) < 2048;
    }
  }

  ghost predicate ShowsTrueTime(frame: CompressedFrame, clock: seq<int>, i: nat)
    requires i + 2 < |clock|
  {
    frame.unwrapped == clock[i + 1] - clock[1] && frame.deltaToNext == Gap(clock, i + 1)
  }

  lemma {:induction false} FrameTimeIff(config: Config, records: seq<RawRecord>, clock: seq<int>, i: nat)
    requires HeadsAreHeaders(records) && CarriesClock(records, clock) && i + 2 < |records|
    requires HasEntropy(records[i + 1])
    ensures ShowsTrueTime(FrameAt(config, records, i), clock, i) <==> NoFullTurn(clock, i + 1)
  {
    UnwrappedLosesWholeTurns(records, clock, i);
    assert Gap(clock, i + 1) >= 0;
    DeltaIsGapModulo(clock[i + 1], clock[i + 2]);
    assert NoFullTurn(clock, i + 1) <==> NoFullTurn(clock, i) && Gap(clock, i + 1) < 2048;
  }

  // On every error-free run the emitted frames carry the true camera time,
  // across any number of wraps, exactly when no gap between two consecutive
  // headers after the first reaches a full turn of the counter.
  lemma {:induction false} TrueClockRecoveredIff(config: Config, packets: seq<Packet>, clock: seq<int>)
    requires !Decode(config, packets).failed
    requires CarriesClock(LayoutOf(packets).records, clock)
    ensures |Decode(config, packets).frames| == Max(0, |clock| - 2)
    ensures |clock| >= 3 ==>
              ((forall i :: 0 <= i < |clock| - 2 ==>
                              ShowsTrueTime(Decode(config, packets).frames[i], clock, i))
               <==> NoFullTurn(clock, |clock| - 2))
  {
    DecoderRefinesBatch(config, packets);
    var records := LayoutOf(packets).records;
    var frames := Decode(config, packets).frames;
    assert frames == BatchFrames(config, records);
    forall i | 0 <= i < |clock| - 2
      ensures ShowsTrueTime(frames[i], clock, i) <==> NoFullTurn(clock, i + 1)
    {
      BatchFrameAt(config, records, i);
      FrameTimeIff(config, records, clock, i);
    }
    if |clock| >= 3 {
      assert ShowsTrueTime(frames[|clock| - 3], clock, |clock| - 3) <==> NoFullTurn(clock, |clock| - 2);
    }
  }
}
