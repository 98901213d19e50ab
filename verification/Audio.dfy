/** The portable sample counter and the whole-run properties of its chunks. */
module Audio {
  import opened Bytes
  import opened Media
  import opened Sync

  const AUDIO_SAMPLE_RATE_HZ: NonZeroU32 := 16_000
  const AUDIO_CHANNELS: NonZeroU32 := 2
  const BYTES_PER_SAMPLE_FRAME: nat := 4
  const PERIOD_SAMPLE_FRAMES: nat := 640

  datatype PacketError = MisalignedLength(length: nat) | TooLarge(length: nat)

  function PushPcmSpec(next: nat, pcm: Data): (nat, Result<AudioChunk, PacketError>) {
    var frames := |pcm| / BYTES_PER_SAMPLE_FRAME;
    if |pcm| % BYTES_PER_SAMPLE_FRAME != 0 then (next, Err(MisalignedLength(|pcm|)))
    else if frames > U32_MAX then (next, Err(TooLarge(|pcm|)))
    else (next + frames, Ok(AudioChunk(pcm, next, frames)))
  }

  class AudioClock {
    var nextSampleFrame: nat

    constructor ()
      ensures nextSampleFrame == 0
    {
      nextSampleFrame := 0;
    }

    method Reset()
      modifies this
      ensures nextSampleFrame == 0
    {
      nextSampleFrame := 0;
    }

    method PushPcm(pcm: Data) returns (r: Result<AudioChunk, PacketError>)
      modifies this
      ensures (nextSampleFrame, r) == PushPcmSpec(old(nextSampleFrame), pcm)
    {
      if |pcm| % BYTES_PER_SAMPLE_FRAME != 0 {
        return Err(MisalignedLength(|pcm|));
      }
      var frames := |pcm| / BYTES_PER_SAMPLE_FRAME;
      if frames > U32_MAX {
        return Err(TooLarge(|pcm|));
      }
      r := Ok(AudioChunk(pcm, nextSampleFrame, frames));
      nextSampleFrame := nextSampleFrame + frames;
    }
  }

  // A whole run of the counter over packets, bad ones included.
  function Chunks(packets: seq<Data>): (r: (nat, seq<AudioChunk>)) {
    if packets == [] then (0, [])
    else
      var (next, chunks) := Chunks(packets[..|packets| - 1]);
      var (next', outcome) := PushPcmSpec(next, packets[|packets| - 1]);
      (next', if outcome.Ok? then chunks + [outcome.value] else chunks)
  }

  predicate Accepted(pcm: Data) {
    |pcm| % BYTES_PER_SAMPLE_FRAME == 0 && |pcm| / BYTES_PER_SAMPLE_FRAME <= U32_MAX
  }

  function AcceptedPcm(packets: seq<Data>): Data {
    if packets == [] then []
    else
      var last := packets[|packets| - 1];
      AcceptedPcm(packets[..|packets| - 1]) + if Accepted(last) then last else []
  }

  function PcmOf(chunks: seq<AudioChunk>): Data {
    if chunks == [] then [] else PcmOf(chunks[..|chunks| - 1]) + chunks[|chunks| - 1].pcm
  }

  // Each chunk starts where its predecessor ends.
  ghost predicate Contiguous(chunks: seq<AudioChunk>) {
    forall k :: 0 < k < |chunks| ==>
      chunks[k].startSampleFrame == chunks[k - 1].startSampleFrame + chunks[k - 1].sampleFrames
  }

  // The chunks tile `pcm`: they concatenate to it, the first starts at zero, none
  // overlaps or skips a sample frame, and `next` is where the following one starts.
  ghost predicate Tile(chunks: seq<AudioChunk>, pcm: Data, next: nat) {
    && PcmOf(chunks) == pcm
    && BYTES_PER_SAMPLE_FRAME * next == |pcm|
    && Contiguous(chunks)
    && (forall k :: 0 <= k < |chunks| ==>
                      |chunks[k].pcm| == BYTES_PER_SAMPLE_FRAME * chunks[k].sampleFrames)
    && (chunks != [] ==> chunks[0].startSampleFrame == 0)
    && next == if chunks == [] then 0
               else chunks[|chunks| - 1].startSampleFrame + chunks[|chunks| - 1].sampleFrames
  }

  lemma {:induction false} ChunksTile(packets: seq<Data>)
    ensures Tile(Chunks(packets).1, AcceptedPcm(packets), Chunks(packets).0)
  {
    if packets != [] {
      var init := packets[..|packets| - 1];
      ChunksTile(init);
      ChunkAppends(Chunks(init).0, Chunks(init).1, AcceptedPcm(init), packets[|packets| - 1]);
      hide Tile;
    }
  }

  lemma {:induction false} ChunkAppends(next: nat, chunks: seq<AudioChunk>, before: Data, pcm: Data)
    requires Tile(chunks, before, next)
    ensures var (next', outcome) := PushPcmSpec(next, pcm);
            && (outcome.Ok? <==> Accepted(pcm))
            && if outcome.Ok? then Tile(chunks + [outcome.value], before + pcm, next')
               else Tile(chunks, before + [], next')
  {
    assert before + [] == before;
    if Accepted(pcm) {
      var chunk := AudioChunk(pcm, next, |pcm| / BYTES_PER_SAMPLE_FRAME);
      assert (chunks + [chunk])[..|chunks|] == chunks;
    }
  }

  // ---------------------------------------------------------------------
  // Microsecond positions: floors that never accumulate.

  predicate Unsaturated(sampleFrames: nat) {
    sampleFrames * 1_000_000 <= U64_MAX
  }

  // What is lost by rounding `sampleFrames` down to whole microseconds.
  function Residue(sampleFrames: nat, rate: NonZeroU32): (r: nat)
    ensures r < rate
  {
    sampleFrames * 1_000_000 % rate
  }

  lemma {:induction false} FloorBounds(sampleFrames: nat, rate: NonZeroU32)
    requires Unsaturated(sampleFrames)
    ensures SamplesToUs(sampleFrames, rate) * rate + Residue(sampleFrames, rate) == sampleFrames * 1_000_000
  {
  }

  // The position of sample b relative to sample a is within one microsecond of
  // exact, however many chunks lie between them.
  lemma {:induction false} RoundingNeverAccumulates(a: nat, b: nat, rate: NonZeroU32)
    requires a <= b && Unsaturated(b)
    ensures var elapsed := SamplesToUs(b, rate) - SamplesToUs(a, rate);
            var exact := (b - a) * 1_000_000;
            var r: int := rate;
            -r < elapsed * r - exact < r
  {
    FloorBounds(a, rate);
    FloorBounds(b, rate);
    var x, y := SamplesToUs(a, rate), SamplesToUs(b, rate);
    Distribute(y, x, rate);
  }

  lemma {:induction false} DivisionParts(n: nat, d: nat)
    requires d >= 1
    ensures n == n / d * d + n % d && n % d < d
  {
  }

  lemma {:induction false} SumOfParts(q: nat, r: nat, p: nat, s: nat, d: nat)
    requires r < d && s < d
    ensures (q * d + r + (p * d + s)) / d == q + p + if r + s >= d then 1 else 0
  {
    Distribute(q, p, d);
    if r + s >= d {
      Distribute(q + p, 1, d);
      QuotientIs(q * d + r + (p * d + s), d, q + p + 1, r + s - d);
    } else {
      QuotientIs(q * d + r + (p * d + s), d, q + p, r + s);
    }
  }

  lemma {:induction false} FloorOfSum(a: nat, b: nat, rate: nat)
    requires rate >= 1
    ensures (a + b) / rate == a / rate + b / rate + if a % rate + b % rate >= rate then 1 else 0
  {
    DivisionParts(a, rate);
    DivisionParts(b, rate);
    SumOfParts(a / rate, a % rate, b / rate, b % rate, rate);
  }

  // The end predicted for a block of n frames at s is the next block's start,
  // or one microsecond before it; it is off exactly when the residues carry.
  lemma {:induction false} PredictedEndIff(s: nat, n: nat, rate: NonZeroU32)
    requires Unsaturated(s + n)
    ensures var end := SamplesToUs(s, rate) + SamplesToUs(n, rate);
            && end <= SamplesToUs(s + n, rate) <= end + 1
            && (end == SamplesToUs(s + n, rate) <==> Residue(s, rate) + Residue(n, rate) < rate)
  {
    FloorOfSum(s * 1_000_000, n * 1_000_000, rate);
    assert (s + n) * 1_000_000 == s * 1_000_000 + n * 1_000_000;
  }

  // At 16 kHz an even number of frames is a whole number of microseconds.
  lemma {:induction false} EvenIsExactAt16k(n: nat)
    requires n % 2 == 0
    ensures Residue(n, AUDIO_SAMPLE_RATE_HZ) == 0
    ensures Unsaturated(n) ==> 2 * SamplesToUs(n, AUDIO_SAMPLE_RATE_HZ) == 125 * n
  {
    assert n * 1_000_000 == 125 * (n / 2) * 16_000;
  }
}
