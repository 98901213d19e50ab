/** Timed-media values shared by the decoder, the synchronizer and the writer. */
module Media {
  import opened Bytes
  import opened Stream

  const U32_MAX: nat := 0xffff_ffff

  type NonZeroU32 = x: nat | 1 <= x <= U32_MAX witness 1

  // The encoding has one value in the source, signed 16-bit little endian.
  datatype AudioFormat = AudioFormat(sampleRateHz: NonZeroU32, channels: NonZeroU32)

  type SampleCount = x: nat | x <= U32_MAX

  datatype AudioChunk = AudioChunk(pcm: Data, startSampleFrame: nat, sampleFrames: SampleCount)

  datatype TimedVideoFrame = TimedVideoFrame(
    observedAt: U64, frame: CompressedFrame, sourceDiscontinuity: bool)

  datatype TimedAudioChunk = TimedAudioChunk(
    observedStart: U64, format: AudioFormat, chunk: AudioChunk, sourceDiscontinuity: bool)

  datatype MediaEvent = VideoEvent(video: TimedVideoFrame) | AudioEvent(audio: TimedAudioChunk) {
    function ObservedUs(): U64 {
      if VideoEvent? then video.observedAt else audio.observedStart
    }
  }

  datatype MediaTiming = MediaTiming(
    ptsUs: U64, durationUs: U64, observedDriftUs: int, discontinuity: bool)

  // Rust's saturating operations on u64.

  function SaturatingAdd(a: nat, b: nat): U64 {
    Min(a + b, U64_MAX)
  }

  function SaturatingSub(a: nat, b: nat): nat {
    if a >= b then a - b else 0
  }

  function SaturatingMul(a: nat, b: nat): U64
  {
    NonNegativeProduct(a, b);
    Min(a * b, U64_MAX)
  }

  lemma {:induction false} NonNegativeProduct(a: nat, b: nat)
    ensures a * b >= 0
  {
  }
}
