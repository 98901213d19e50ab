/** The ALSA capture worker: whole periods, and no sample from before a recovery. */
module AlsaWorker {
  import opened Bytes
  import opened Media
  import opened Audio

  const EAGAIN: int := 11

  type Sample = x: int | -0x8000 <= x < 0x8000

  // One stereo sample pair.
  datatype Frame = Frame(left: Sample, right: Sample)

  // What the device does: deliver frames, or recover from an overrun.
  datatype Happening = Got(frames: seq<Frame>) | Recovered

  datatype ReadResult = Count(frames: nat) | ReadError(errno: int)

  datatype Status = Status(htstampNs: U64, available: int)

  // The device and the rest of the process, call by call; a negative read is an
  // errno. The run ends because `running` is cleared at some call.
  datatype Environment = Environment(
    stopAt: nat,
    waitFails: nat -> bool,
    ready: nat -> bool,
    read: nat -> Result<seq<Frame>, int>,
    recovers: nat -> bool,
    status: nat -> Option<Status>,
    receiverAlive: nat -> bool)

  class PcmDevice {
    const env: Environment
    var calls: nat
    ghost var log: seq<Happening>
    ghost var statuses: seq<Status>

    constructor (env: Environment)
      ensures this.env == env && calls == 0 && log == [] && statuses == []
    {
      this.env, calls, log, statuses := env, 0, [], [];
    }

    predicate Running()
      reads this
    {
      calls < env.stopAt
    }

    method Wait() returns (r: Result<bool, ()>)
      modifies this`calls
      ensures calls == old(calls) + 1
    {
      r := if env.waitFails(calls) then Err(()) else Ok(env.ready(calls));
      calls := calls + 1;
    }

    // Fill `samples` from `offset` on with what the device delivers.
    method Readi(samples: array<Frame>, offset: nat) returns (r: ReadResult)
      requires offset <= samples.Length
      modifies this`calls, this`log, samples
      ensures calls == old(calls) + 1
      ensures r.ReadError? ==> samples[..] == old(samples[..]) && log == old(log)
      ensures r.Count? ==>
                && offset + r.frames <= samples.Length
                && samples[..offset] == old(samples[..offset])
                && log == old(log) + if r.frames == 0 then [] else [Got(samples[offset..offset + r.frames])]
    {
      var outcome := env.read(calls);
      calls := calls + 1;
      if outcome.Err? {
        return ReadError(outcome.error);
      }
      var n := Min(|outcome.value|, samples.Length - offset);
      forall i | 0 <= i < n {
        samples[offset + i] := outcome.value[i];
      }
      if n > 0 {
        log := log + [Got(samples[offset..offset + n])];
      }
      r := Count(n);
    }

    method TryRecover() returns (ok: bool)
      modifies this`calls, this`log
      ensures calls == old(calls) + 1
      ensures log == if ok then old(log) + [Recovered] else old(log)
    {
      ok := env.recovers(calls);
      if ok {
        log := log + [Recovered];
      }
      calls := calls + 1;
    }

    method ReadStatus() returns (s: Option<Status>)
      modifies this`calls, this`statuses
      ensures calls == old(calls) + 1
      ensures statuses == if s.Some? then old(statuses) + [s.value] else old(statuses)
    {
      s := env.status(calls);
      if s.Some? {
        statuses := statuses + [s.value];
      }
      calls := calls + 1;
    }

    method Send() returns (accepted: bool)
      modifies this`calls
      ensures calls == old(calls) + 1
    {
      accepted := env.receiverAlive(calls);
      calls := calls + 1;
    }
  }

  // ---------------------------------------------------------------------
  // What the chunks must be, read off the device's history.

  datatype Period = Period(frames: seq<Frame>, discontinuous: bool)

  datatype Progress = Progress(partial: seq<Frame>, recovered: bool, periods: seq<Period>)

  const START: Progress := Progress([], false, [])

  function Advance(p: Progress, h: Happening): Progress {
    match h
    case Recovered => p.(partial := [], recovered := true)
    case Got(frames) =>
      var collected := p.partial + frames;
      if |collected| == PERIOD_SAMPLE_FRAMES then Progress([], false, p.periods + [Period(collected, p.recovered)])
      else p.(partial := collected)
  }

  function ProgressOf(log: seq<Happening>): Progress {
    if log == [] then START else Advance(ProgressOf(log[..|log| - 1]), log[|log| - 1])
  }

  lemma {:induction false} ProgressSnoc(log: seq<Happening>, h: Happening)
    ensures ProgressOf(log + [h]) == Advance(ProgressOf(log), h)
  {
    assert (log + [h])[..|log|] == log;
  }

  function FramesOf(log: seq<Happening>): seq<Frame> {
    if log == [] then []
    else FramesOf(log[..|log| - 1]) + if log[|log| - 1].Got? then log[|log| - 1].frames else []
  }

  function JoinPeriods(periods: seq<Period>): seq<Frame> {
    if periods == [] then [] else JoinPeriods(periods[..|periods| - 1]) + periods[|periods| - 1].frames
  }

  // Without a recovery no sample is lost or repeated: the periods tile what was
  // read, up to the samples still waiting, and none is marked discontinuous.
  lemma {:induction false} PeriodsTile(log: seq<Happening>)
    requires Recovered !in log
    ensures var p := ProgressOf(log);
            && JoinPeriods(p.periods) + p.partial == FramesOf(log)
            && !p.recovered && forall k :: 0 <= k < |p.periods| ==> !p.periods[k].discontinuous
  {
    if log == [] {
      assert JoinPeriods([]) + [] == FramesOf(log);
    } else {
      var init, last := log[..|log| - 1], log[|log| - 1];
      assert last in log;
      PeriodsTile(init);
      var before := ProgressOf(init);
      Associate(JoinPeriods(before.periods), before.partial, last.frames);
      TileStep(before, last.frames);
    }
  }

  lemma {:induction false} TileStep(p: Progress, frames: seq<Frame>)
    requires !p.recovered && forall k :: 0 <= k < |p.periods| ==> !p.periods[k].discontinuous
    ensures var p' := Advance(p, Got(frames));
            && JoinPeriods(p'.periods) + p'.partial == JoinPeriods(p.periods) + (p.partial + frames)
            && !p'.recovered && forall k :: 0 <= k < |p'.periods| ==> !p'.periods[k].discontinuous
  {
    var collected := p.partial + frames;
    if |collected| == PERIOD_SAMPLE_FRAMES {
      assert (p.periods + [Period(collected, false)])[..|p.periods|] == p.periods;
      assert JoinPeriods(p.periods) + collected + [] == JoinPeriods(p.periods) + collected;
    }
  }

  // The first period after a recovery, and only it, is marked.
  function MarkFirst(periods: seq<Period>): seq<Period> {
    if periods == [] then [] else [periods[0].(discontinuous := true)] + periods[1..]
  }

  // The progress of a history cut by a recovery, from those before and after it.
  function Cut(before: Progress, after: Progress): Progress {
    Progress(after.partial, after.recovered || after.periods == [],
             before.periods + MarkFirst(after.periods))
  }

  // A recovery drops the samples waiting before it and starts afresh: whatever
  // came before has no effect on later periods but the mark on the first one.
  lemma {:induction false} RecoveryCutsHistory(before: seq<Happening>, after: seq<Happening>)
    ensures ProgressOf(before + [Recovered] + after) == Cut(ProgressOf(before), ProgressOf(after))
    decreases |after|
  {
    hide ProgressOf, Advance, Cut;
    if after == [] {
      NothingAfterRecovery(before);
      assert before + [Recovered] + after == before + [Recovered];
    } else {
      var init, last := after[..|after| - 1], after[|after| - 1];
      RecoveryCutsHistory(before, init);
      assert after == init + [last];
      Associate(before + [Recovered], init, [last]);
      ProgressSnoc(before + [Recovered] + init, last);
      ProgressSnoc(init, last);
      CutStep(ProgressOf(before), ProgressOf(init), last);
    }
  }

  lemma {:induction false} NothingAfterRecovery(before: seq<Happening>)
    ensures ProgressOf(before + [Recovered]) == Cut(ProgressOf(before), ProgressOf([]))
  {
    ProgressSnoc(before, Recovered);
    assert ProgressOf(before).periods + MarkFirst([]) == ProgressOf(before).periods;
  }

  lemma {:induction false} CutStep(p: Progress, q: Progress, h: Happening)
    ensures Advance(Cut(p, q), h) == Cut(p, Advance(q, h))
  {
    if h.Got? && |q.partial + h.frames| == PERIOD_SAMPLE_FRAMES {
      var collected := q.partial + h.frames;
      var done := Period(collected, q.recovered);
      if q.periods == [] {
        assert MarkFirst([done]) == [Period(collected, true)];
        assert p.periods + [] + [Period(collected, true)] == p.periods + [Period(collected, true)];
      } else {
        assert MarkFirst(q.periods + [done]) == MarkFirst(q.periods) + [done];
        Associate(p.periods, MarkFirst(q.periods), [done]);
      }
    }
  }

  // ---------------------------------------------------------------------
  // Bytes and timestamps.

  function SampleBytes(s: Sample): Data {
    [s % 256, s / 256 % 256]
  }

  function PcmBytes(frames: seq<Frame>): (pcm: Data)
    ensures |pcm| == 4 * |frames|
  {
    if frames == [] then []
    else
      var last := frames[|frames| - 1];
      PcmBytes(frames[..|frames| - 1]) + SampleBytes(last.left) + SampleBytes(last.right)
  }

  // Little-endian two's complement.
  function DecodeSample(low: Byte, high: Byte): Sample {
    var unsigned: int := low + 256 * (high as int);
    if unsigned >= 0x8000 then unsigned - 0x1_0000 else unsigned
  }

  function DecodePcm(pcm: Data): seq<Frame> {
    if |pcm| < 4 then []
    else
      var n := |pcm|;
      DecodePcm(pcm[..n - 4])
      + [Frame(DecodeSample(pcm[n - 4], pcm[n - 3]), DecodeSample(pcm[n - 2], pcm[n - 1]))]
  }

  lemma {:induction false} SampleRoundTrip(s: Sample)
    ensures |SampleBytes(s)| == 2 && DecodeSample(SampleBytes(s)[0], SampleBytes(s)[1]) == s
  {
    hide DecodeSample;
    var high, low := s / 256, s % 256;
    assert s == 256 * high + low && -128 <= high < 128;
    HighByte(high);
    DecodeBytes(low, high % 256);
  }

  lemma {:induction false} HighByte(high: int)
    requires -128 <= high < 128
    ensures high % 256 == if high < 0 then high + 256 else high
  {
  }

  lemma {:induction false} DecodeBytes(low: Byte, high: Byte)
    ensures DecodeSample(low, high) == 256 * (if high >= 128 then high - 256 else high) + low
  {
  }

  lemma {:induction false} DecodeSnoc(pcm: Data, left: Data, right: Data)
    requires |left| == 2 && |right| == 2
    ensures DecodePcm(pcm + left + right)
            == DecodePcm(pcm) + [Frame(DecodeSample(left[0], left[1]), DecodeSample(right[0], right[1]))]
  {
    hide DecodeSample;
    var all := pcm + left + right;
    assert all[..|all| - 4] == pcm;
  }

  lemma {:induction false} PcmRoundTrip(frames: seq<Frame>)
    ensures DecodePcm(PcmBytes(frames)) == frames
  {
    if frames != [] {
      var init, last := frames[..|frames| - 1], frames[|frames| - 1];
      PcmRoundTrip(init);
      SampleRoundTrip(last.left);
      SampleRoundTrip(last.right);
      assert PcmBytes(frames) == PcmBytes(init) + SampleBytes(last.left) + SampleBytes(last.right);
      hide SampleBytes, DecodeSample, DecodePcm, PcmBytes;
      DecodeSnoc(PcmBytes(init), SampleBytes(last.left), SampleBytes(last.right));
      assert frames == init + [last];
    }
  }

  function FirstSampleNs(status: Status): U64 {
    var behind := SaturatingAdd(Max(0, status.available), PERIOD_SAMPLE_FRAMES);
    SaturatingSub(status.htstampNs, SaturatingMul(behind, 1_000_000_000) / AUDIO_SAMPLE_RATE_HZ)
  }

  // ---------------------------------------------------------------------
  // The worker.

  datatype Terminal = Failed | Closed | ReceiverGone

  const CAMERA_FORMAT: AudioFormat := AudioFormat(AUDIO_SAMPLE_RATE_HZ, AUDIO_CHANNELS)

  // Chunk k carries period k, stamped from the k-th status.
  ghost predicate Carries(chunk: TimedAudioChunk, period: Period, status: Status, originNs: U64, k: nat) {
    && chunk == TimedAudioChunk(
                  SaturatingSub(FirstSampleNs(status), originNs) / 1_000, CAMERA_FORMAT,
                  AudioChunk(PcmBytes(period.frames), PERIOD_SAMPLE_FRAMES * k, PERIOD_SAMPLE_FRAMES),
                  period.discontinuous)
    && |period.frames| == PERIOD_SAMPLE_FRAMES
  }

  ghost predicate CarriesAll(chunks: seq<TimedAudioChunk>, periods: seq<Period>, statuses: seq<Status>, originNs: U64) {
    && |chunks| <= |periods| && |chunks| <= |statuses|
    && forall k :: 0 <= k < |chunks| ==> Carries(chunks[k], periods[k], statuses[k], originNs, k)
  }

  // The buffer holds what was read since the last period or recovery; `flagged`
  // is the recovery not yet reported.
  ghost predicate Buffered(log: seq<Happening>, read: seq<Frame>, flagged: bool, done: seq<Period>)
  {
    if |read| < PERIOD_SAMPLE_FRAMES then ProgressOf(log) == Progress(read, flagged, done)
    else ProgressOf(log) == Progress([], false, done + [Period(read, flagged)])
  }

  lemma {:induction false} BufferStep(
    log: seq<Happening>, read: seq<Frame>, flagged: bool, done: seq<Period>, h: Happening)
    requires Buffered(log, read, flagged, done) && |read| < PERIOD_SAMPLE_FRAMES
    requires h.Got? ==> |read| + |h.frames| <= PERIOD_SAMPLE_FRAMES
    ensures if h.Got? then Buffered(log + [h], read + h.frames, flagged, done)
            else Buffered(log + [h], [], true, done)
  {
    ProgressSnoc(log, h);
  }

  // Read one period into the buffer, starting over after every recovery.
  method FillPeriod(pcm: PcmDevice, samples: array<Frame>, flagged: bool, ghost done: seq<Period>)
    returns (framesRead: nat, discontinuity: bool, failed: bool)
    requires samples.Length == PERIOD_SAMPLE_FRAMES
    requires Buffered(pcm.log, [], flagged, done)
    modifies pcm`calls, pcm`log, samples
    ensures pcm.calls >= old(pcm.calls) && old(pcm.log) <= pcm.log
    ensures framesRead <= PERIOD_SAMPLE_FRAMES && Buffered(pcm.log, samples[..framesRead], discontinuity, done)
    ensures framesRead < PERIOD_SAMPLE_FRAMES && !failed ==> !pcm.Running()
    ensures failed ==> framesRead < PERIOD_SAMPLE_FRAMES
  {
    hide ProgressOf;
    framesRead, discontinuity, failed := 0, flagged, false;
    assert samples[..0] == [];
    while framesRead < PERIOD_SAMPLE_FRAMES && pcm.Running()
      invariant framesRead <= PERIOD_SAMPLE_FRAMES
      invariant pcm.calls >= old(pcm.calls) && old(pcm.log) <= pcm.log
      invariant Buffered(pcm.log, samples[..framesRead], discontinuity, done)
      decreases pcm.env.stopAt - pcm.calls
    {
      ghost var log, read := pcm.log, samples[..framesRead];
      var r := pcm.Readi(samples, framesRead);
      if r.Count? {
        if r.frames != 0 {
          ghost var got := samples[framesRead..framesRead + r.frames];
          BufferStep(log, read, discontinuity, done, Got(got));
          assert samples[..framesRead + r.frames] == read + got;
          assert pcm.log == log + [Got(got)];
        } else {
          assert samples[..framesRead] == read && pcm.log == log;
        }
        framesRead := framesRead + r.frames;
      } else if r.errno == EAGAIN {
        assert samples[..framesRead] == read;
        var waited := pcm.Wait();
        if waited.Err? {
          failed := true;
          return;
        }
      } else {
        assert samples[..framesRead] == read;
        var ok := pcm.TryRecover();
        if !ok {
          failed := true;
          return;
        }
        BufferStep(log, read, discontinuity, done, Recovered);
        discontinuity, framesRead := true, 0;
        assert samples[..0] == [];
      }
    }
  }

  lemma {:induction false} Untouched()
    ensures ProgressOf([]) == START
  {
  }

  method ToBytes(samples: array<Frame>) returns (pcm: Data)
    ensures pcm == PcmBytes(samples[..])
  {
    pcm := [];
    for i := 0 to samples.Length
      invariant pcm == PcmBytes(samples[..i])
    {
      pcm := pcm + SampleBytes(samples[i].left) + SampleBytes(samples[i].right);
      assert samples[..i + 1][..i] == samples[..i];
    }
    assert samples[..samples.Length] == samples[..];
  }

  // Whatever the pattern of short reads, busy reads and recoveries, the chunks
  // sent are the device's whole periods in order, each with its own status time.
  // Only a failure or a departed receiver can leave one period unsent.
  method RunAlsaCapture(pcm: PcmDevice, originNs: U64) returns (chunks: seq<TimedAudioChunk>, terminal: Terminal)
    requires pcm.calls == 0 && pcm.log == [] && pcm.statuses == []
    modifies pcm
    ensures var p := ProgressOf(pcm.log);
            && CarriesAll(chunks, p.periods, pcm.statuses, originNs)
            && |p.partial| < PERIOD_SAMPLE_FRAMES
            && |p.periods| <= |chunks| + 1
            && (terminal.Closed? ==> |p.periods| == |chunks| && !pcm.Running())
            && (terminal.ReceiverGone? ==> |p.periods| == |chunks| + 1)
  {
    Untouched();
    hide ProgressOf, PcmBytes, FirstSampleNs;
    chunks := [];
    var clock := new AudioClock();
    var discontinuity := false;
    ghost var done: seq<Period> := [];
    while pcm.Running()
      invariant Buffered(pcm.log, [], discontinuity, done)
                || (!pcm.Running() && |ProgressOf(pcm.log).partial| < PERIOD_SAMPLE_FRAMES)
      invariant ProgressOf(pcm.log).periods == done
      invariant |chunks| == |done| == |pcm.statuses| && CarriesAll(chunks, done, pcm.statuses, originNs)
      invariant fresh(clock) && clock.nextSampleFrame == PERIOD_SAMPLE_FRAMES * |chunks|
      decreases pcm.env.stopAt - pcm.calls
    {
      var ready := pcm.Wait();
      if ready.Err? {
        return chunks, Failed;
      }
      if !ready.value {
        continue;
      }
      var samples := new Frame[PERIOD_SAMPLE_FRAMES](_ => Frame(0, 0));
      var framesRead, flagged, failed := FillPeriod(pcm, samples, discontinuity, done);
      discontinuity := flagged;
      if failed {
        return chunks, Failed;
      }
      if framesRead != PERIOD_SAMPLE_FRAMES {
        continue;
      }
      assert samples[..framesRead] == samples[..];
      var status := pcm.ReadStatus();
      if status.None? {
        return chunks, Failed;
      }
      var observedUs := SaturatingSub(FirstSampleNs(status.value), originNs) / 1_000;
      var bytes := ToBytes(samples);
      var chunk := clock.PushPcm(bytes);
      var timed := TimedAudioChunk(observedUs, CAMERA_FORMAT, chunk.value, discontinuity);
      var sent := pcm.Send();
      if !sent {
        return chunks, ReceiverGone;
      }
      done := done + [Period(samples[..], discontinuity)];
      chunks, discontinuity := chunks + [timed], false;
    }
    terminal := Closed;
  }
}
