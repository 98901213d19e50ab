# Handycam verification

A Dafny model of the handycam driver, from the USB packets the camera sends to the bytes of the recorded Matroska file,
with proofs about whole runs. `dafny verify dfyconfig.toml` checks all of it.

- `Stream`, `Jpeg`, `Clock`: the two-endpoint frame assembler, JPEG reconstruction, and the 11-bit camera clock. The
  assembler is a class; a batch layout of records, read off the packet sequence alone, is its specification.
- `Sync`, `Audio`, `Timeline`: the synchronizer's anchored clocks and the sample counter, over any interleaving of events.
- `Ebml`, `Matroska`, `MatroskaWriter`: an EBML printer, an independent reader written from sections 4 to 6 of RFC 8794
  and section 10.2 of RFC 9559, and the incremental writer that seeks back to patch the duration.
- `EventOrder`, `AlsaWorker`, `Capture`: the stable sort, the ALSA worker, and the event loop that joins decoder,
  synchronizer and writer.
- `EpochClock`, `CaptureTimeline`, `ResetExample`: the camera clock across decoder resets, the end-to-end theorems about
  the recorded file, and a session in which its video time goes back.
- `Transport`: the libusb transfer lifecycle as steps over slots that are in flight, cancelled or freed.
- `Text`, `InitPlan`, `InitReplay`: the initialization plan's printer and parser, and its replay with condition polling.
- `ExtractStream`, `ReplayCapture`, `SplitRecords`, `Framing`, `UsbFrames`, `DependencyClosure`: the offline tools, and
  their agreement with the online decoder and replayer.

Code that updates state is a class or a method with loops, proved equal to a step function on values; the theorems are
about runs of those functions. Code written as expressions is functions.

Places where the code does less than one might expect, each with the exact condition and an input:

- A decoder reset restarts unwrapped time at zero while the synchronizer keeps its anchor, so video time in the file can
  go back. `CaptureTimeline.FileTimeNeverGoesBackIff` and `CaptureTimeline.FileStepsFollowCameraIff` say, over a whole
  session, exactly when it does not; `ResetExample.TimeGoesBackAfterReset` is a file that shows 0, 40 and again 0 ms.
- An output request without data is printed as `-`, which the plan parser rejects: `InitPlan.PlanRoundTripIff`, and the
  plans of `InitPlan.EmptyOutputIsLost`.
- Contiguous audio at a rate that does not divide evenly is flagged discontinuous exactly when two roundings carry:
  `Timeline.AudioDiscontinuityIff`, and four periods at 44 100 Hz in `Timeline.FalseDiscontinuityAt44100`.
- Sorting a batch by observed time keeps the order of a track exactly when the track's observed times do not go back in
  that batch: `EventOrder.SortKeepsTrackIff`, and the two frames of `EventOrder.SortMayReorder`.

The framing analysis takes a six-byte packet of 0xff for a header and the decoder does not
(`Framing.ShortHeaderDisagrees`); on headers of at least 8 bytes the two agree.
The camera clock is recovered exactly when no gap between headers reaches 2048 ms: `Clock.TrueClockRecoveredIff`.

## Model

| member | source | states |
|---|---|---|
| CaptureTimeline.VideoFollowsCamera | crates/handycam-cli/src/main.rs:881-953 | In every session, however it ended and whatever was reset or reordered, block k shows the first frame's observed millisecond plus the difference of the camera times the decoder counted for frame k and the first frame; no other arrival time matters (premise: no saturation) |
| CaptureTimeline.VideoShowsEpochs | crates/handycam-cli/src/main.rs:887-953 | With per-track video order kept, the blocks are the frames of the decoder's epochs in order, each at the first observation plus the camera time since its own epoch's start |
| CaptureTimeline.FileTimeNeverGoesBackIff | crates/handycam-core/src/stream.rs:77-82 | Over a whole session not cut short, video time in the file never goes back exactly when every epoch followed by frames of a later one carries one timestamp on all its headers from the second to that of its last frame |
| CaptureTimeline.FileStepsFollowCameraIff | crates/handycam-core/src/sync.rs:68-72 | And every step is the frame's camera delta exactly when each such epoch carries that timestamp on the header after its last frame too |
| CaptureTimeline.VideoAdvancesByDelta | crates/handycam-cli/src/main.rs:922-947 | Inside every epoch, with video order kept, successive block timestamps differ by exactly the frame's camera delta |
| CaptureTimeline.FileShowsCameraTime | crates/handycam-core/src/stream.rs:101-141 | With video order kept, in every epoch whose headers are never a full counter turn apart the file shows the camera's true milliseconds since the epoch's second header, across any number of wraps |
| ResetExample.TimeGoesBackAfterReset | crates/handycam-cli/src/main.rs:905-914 | One packet error between four and three headers: the session goes on, and the file shows 0, 40 and again 0 ms |
| EpochClock.NeverGoesBackIff | crates/handycam-core/src/stream.rs:77-82 | The same equivalence for the decoder's frame times over any list of epochs |
| EpochClock.FollowsIff | crates/handycam-core/src/stream.rs:107-141 | Frame times tile over a list of epochs exactly when each epoch before a later emitting one stands still to its end |
| EpochClock.EpochIsBatch | crates/handycam-core/src/stream.rs:84-158 | An epoch, rejected last packet included, emits the batch frames of its accepted part, tiling from zero |
| CaptureTimeline.AudioFollowsSamples | crates/handycam-cli/src/main.rs:949-977 | In every session, with any video errors, period k of 640 frames lies exactly 40 k ms plus one constant signed delay after the first observation, with its own samples (premises: no batch reorders chunks, no saturation) |
| CaptureTimeline.SessionPlaysEvents | crates/handycam-cli/src/main.rs:922-953 | Every session wrote exactly the blocks of the first of the sorted and timed events, in order; one not cut short wrote all of them |
| CaptureTimeline.CutShortAtARound | crates/handycam-cli/src/main.rs:876-920 | A session ended by a device or the audio worker wrote exactly what the rounds before the failing one wrote |
| CaptureTimeline.EventsCarryChunks | crates/handycam-cli/src/main.rs:871-922 | If no round's chunks go back in observed time, the sorted events carry exactly the worker's chunks in order |
| CaptureTimeline.EventsCarryEpochs | crates/handycam-cli/src/main.rs:887-922 | If no batch's frames go back in observed time, the sorted events carry exactly the frames of the decoder's epochs in order |
| CaptureTimeline.TakeUsbEpochs | crates/handycam-cli/src/main.rs:887-913 | Handling any USB events is decoding their epochs, cut at packet errors and rejected packets, each by a fresh decoder |
| CaptureTimeline.FileTrackIsTimed | crates/handycam-cli/src/main.rs:923-953 | Each block of a track in the file is its event placed at the timing that track alone determines |
| CaptureTimeline.FileTrackIsWhole | crates/handycam-cli/src/main.rs:923-953 | In a session not cut short a track has one block per event |
| CaptureTimeline.WorkerFeedsPeriods | crates/handycam-linux-audio/src/lib.rs:268-338 | What the ALSA worker sends meets the premise of the audio theorem |
| Capture.GatherUsb | crates/handycam-cli/src/main.rs:887-920 | The loop over USB events resets on errors, flags the next frame, back-dates each frame by its duration, and stops at an event that ends the session |
| Capture.GatherAudio | crates/handycam-cli/src/main.rs:871-880 | Queued chunks become events; the first failure or closing ends the session |
| Capture.WriteEvent | crates/handycam-cli/src/main.rs:944-953 | One event is one writer call, delayed if audio, with the file it leaves, rejections included |
| Capture.PlayBatch | crates/handycam-cli/src/main.rs:923-955 | A sorted batch is timed and written event by event until the first error, and the counters count what was written |
| Capture.RunRound | crates/handycam-cli/src/main.rs:870-964 | One turn of the loop, every early exit included, equals the specified round |
| Capture.RunCaptureSession | crates/handycam-cli/src/main.rs:836-966 | For any rounds the loop ends as specified and the file is the one rebuilt from the accepted calls, plus a stray cluster ID after an oversized block |
| Capture.RunCapture | crates/handycam-cli/src/main.rs:818-834 | After a stopped session and the final flush the file reads back as header, settings, final duration and exactly the accepted blocks |
| EventOrder.SortIsOrderedPermutation | crates/handycam-cli/src/main.rs:922 | The sort orders a batch by observed time and neither loses nor repeats an event |
| EventOrder.SelectSort | crates/handycam-cli/src/main.rs:922 | Sorting a batch sorts each track by itself |
| EventOrder.SortKeepsTrackIff | crates/handycam-cli/src/main.rs:922 | A track's order survives the sort exactly when its observed times never go back in the batch |
| EventOrder.SortMayReorder | crates/handycam-cli/src/main.rs:895-903 | Two frames of a batch change places when the second is observed first |
| Stream.DecoderRefinesBatch | crates/handycam-core/src/stream.rs:84-158 | On every packet sequence the decoder fails exactly when some record breaks a limit or an emitted record is empty; otherwise its state and frames are the batch ones, max(0, headers - 2) frames numbered from 0 |
| Stream.LayoutTilesVideo | crates/handycam-core/src/stream.rs:99-158 | Every video byte lies in the preamble or in exactly one record, in order |
| Stream.BatchFrameAt | crates/handycam-core/src/stream.rs:107-141 | Frame i is the reconstruction of record i + 1, with number i, its timestamp, unwrapped time, delta and flags |
| Stream.StreamDecoder.PushPacket | crates/handycam-core/src/stream.rs:84-97 | One packet changes the four fields as the step function says |
| Stream.StreamDecoder.PushVideo | crates/handycam-core/src/stream.rs:99-158 | An armed header closes the record and opens the next; other data continues the record or overflows it |
| Stream.StreamDecoder.Reset | crates/handycam-core/src/stream.rs:77-82 | Reset restores the state of a new decoder |
| Clock.TrueClockRecoveredIff | crates/handycam-core/src/stream.rs:101-141 | All frames of an error-free run show the camera's true time and gap exactly when no gap after the first header reaches 2048 ms |
| Clock.UnwrappedLosesWholeTurns | crates/handycam-core/src/stream.rs:107-118 | Unwrapped time differs from the true time by whole turns, none exactly when no gap reaches a turn |
| Jpeg.ReconstructJpeg | crates/handycam-core/src/jpeg.rs:61-82 | The loop yields header, stuffed entropy and end marker, or the empty-record error |
| Jpeg.StuffRoundTrip | crates/handycam-core/src/jpeg.rs:73-79 | Unstuffing recovers the entropy bytes |
| Jpeg.ScanIsFaithful | crates/handycam-core/src/jpeg.rs:61-82 | The scan unstuffs to the record without trailing zeros, holds no marker, and has the exact length |
| Jpeg.SameJpegIff | crates/handycam-core/src/jpeg.rs:61-82 | Two records give the same JPEG exactly when they differ only in trailing zeros |
| Jpeg.WrapAgreesWithReconstruct | reverse-engineering/tools/decode_sony_records.py:50-59 | The offline wrapper of a record gives the JPEG that the driver gives of its entropy |
| Timeline.TracksAreIndependent | crates/handycam-core/src/sync.rs:61-121 | In any interleaving each track is timed from its own first event alone |
| Timeline.FailsIffEarly | crates/handycam-core/src/sync.rs:123-130 | A run fails exactly when some event was observed before the stream start |
| Timeline.PtsFollowsPosition | crates/handycam-core/src/sync.rs:133-142 | PTS differences are media-position differences |
| Timeline.JitterFree | crates/handycam-core/src/sync.rs:61-111 | Two deliveries of the same media with the same first observation get the same PTS, durations and flags |
| Timeline.DecodedFramesTile | crates/handycam-core/src/stream.rs:107-141 | Each decoded frame starts, in unwrapped time, where its predecessor ends, from 0 |
| Timeline.VideoTimeline | crates/handycam-core/src/sync.rs:61-84 | Decoder into synchronizer: successive video PTS tile, and the discontinuity flag is the backend's |
| Timeline.AudioDiscontinuityIff | crates/handycam-core/src/sync.rs:87-111 | Contiguous audio is flagged exactly on the backend's word or when the two roundings carry, and then by one microsecond |
| Timeline.FalseDiscontinuityAt44100 | crates/handycam-core/src/sync.rs:87-111 | Four contiguous periods of 640 frames at 44 100 Hz are enough for a false flag |
| Timeline.NoFalseDiscontinuityAt16k | crates/handycam-core/src/sync.rs:87-111 | Contiguous 16 kHz chunks of even length are never flagged on their own |
| Timeline.PeriodTimeline | crates/handycam-core/src/sync.rs:87-111 | Periods of 640 frames get PTS exactly 40 ms apart |
| Sync.AvSynchronizer.VideoTiming | crates/handycam-core/src/sync.rs:61-84 | One video event updates anchor and last end as specified, and an early one changes nothing |
| Sync.AvSynchronizer.AudioTiming | crates/handycam-core/src/sync.rs:87-111 | The same for an audio event, in saturating sample arithmetic |
| Sync.AvSynchronizer.EventTiming | crates/handycam-core/src/sync.rs:113-121 | Dispatch to the event's track |
| Audio.ChunksTile | crates/handycam-core/src/audio.rs:52-66 | Chunks concatenate to the accepted input, are contiguous from 0, and rejected packets leave no trace |
| Audio.AudioClock.PushPcm | crates/handycam-core/src/audio.rs:52-66 | One packet gives the next chunk or one of two errors, and advances the counter only on success |
| Audio.RoundingNeverAccumulates | crates/handycam-core/src/sync.rs:145-147 | The distance between two positions is within one microsecond of exact, however far apart |
| Audio.PredictedEndIff | crates/handycam-core/src/sync.rs:87-111 | The predicted end is the next start or one microsecond before it, off exactly when residues carry |
| Audio.EvenIsExactAt16k | crates/handycam-core/src/sync.rs:145-147 | An even number of frames at 16 kHz is a whole number of microseconds |
| AlsaWorker.RunAlsaCapture | crates/handycam-linux-audio/src/lib.rs:253-343 | For any pattern of short reads, busy reads and recoveries chunk k is the k-th whole period of 640 frames at 640 k, flagged and stamped as the history says; only a failure or a departed receiver leaves one period unsent |
| AlsaWorker.FillPeriod | crates/handycam-linux-audio/src/lib.rs:280-307 | The inner loop fills the buffer in place, starting over after every recovery |
| AlsaWorker.ToBytes | crates/handycam-linux-audio/src/lib.rs:325-328 | Samples are written little endian |
| AlsaWorker.PcmRoundTrip | crates/handycam-linux-audio/src/lib.rs:325-328 | Reading the bytes as little-endian two's complement gives the samples back |
| AlsaWorker.PeriodsTile | crates/handycam-linux-audio/src/lib.rs:268-343 | Without recovery the periods tile what was read, and none is flagged |
| AlsaWorker.RecoveryCutsHistory | crates/handycam-linux-audio/src/lib.rs:296-299 | A recovery drops the waiting samples, flags the next period only, and nothing before it affects later periods |
| Ebml.SizeRoundTrip | crates/handycam-matroska/src/lib.rs:215-226 | A printed size is read back, whatever follows |
| Ebml.IdRoundTrip | crates/handycam-matroska/src/lib.rs:209-213 | A printed ID is read back, whatever follows |
| Ebml.EncodeIdIsMinimal | crates/handycam-matroska/src/lib.rs:209-213 | A valid ID is printed in exactly its own width, without leading zeros |
| Ebml.UintRoundTrip | crates/handycam-matroska/src/lib.rs:189-193 | A printed integer has its value, and one to eight bytes |
| Ebml.ReadPrintedNodes | crates/handycam-matroska/src/lib.rs:203-207 | Any list of elements is read back from its bytes |
| Matroska.ClusterRoundTrip | crates/handycam-matroska/src/lib.rs:177-187 | A cluster reads back as its timestamp and one key-frame SimpleBlock with track and payload |
| Matroska.SettingsRoundTrip | crates/handycam-matroska/src/lib.rs:142-172 | The nested video and audio settings read back |
| Matroska.FileRoundTrip | crates/handycam-matroska/src/lib.rs:116-187 | The whole file reads back: header, one unknown-size Segment, Info, two tracks, then exactly one cluster per block in order |
| MatroskaWriter.RunCalls | crates/handycam-matroska/src/lib.rs:35-99 | For every list of writes and flushes the file is the one rebuilt from scratch and reads back as exactly the accepted writes in call order, with the duration of the last flush; a block too large for EBML ends the run and leaves the specified stray bytes |
| MatroskaWriter.PatchIsRebuild | crates/handycam-matroska/src/lib.rs:106-113 | Overwriting the duration in place equals rebuilding the file, and changes nothing but those eight bytes |
| MatroskaWriter.OffsetIsRight | crates/handycam-matroska/src/lib.rs:130-139 | The computed duration offset is the length of everything before the duration |
| MatroskaWriter.DurationPosition | crates/handycam-matroska/src/lib.rs:130-139 | The duration's bytes sit between a fixed prefix and the rest, whatever the blocks |
| MatroskaWriter.FileGrows | crates/handycam-matroska/src/lib.rs:177-187 | One more block is one more cluster at the end |
| MatroskaWriter.MatroskaWriter.constructor | crates/handycam-matroska/src/lib.rs:35-43 | A new writer holds the file without clusters and a zero duration |
| MatroskaWriter.MatroskaWriter.WriteVideo | crates/handycam-matroska/src/lib.rs:45-60 | Accepts and appends one block, raising the maximum end, or leaves the specified stray bytes |
| MatroskaWriter.MatroskaWriter.WriteAudio | crates/handycam-matroska/src/lib.rs:62-93 | The same, and a wrong format or length leaves file, blocks and maximum unchanged |
| MatroskaWriter.MatroskaWriter.Flush | crates/handycam-matroska/src/lib.rs:95-113 | Overwrites the eight duration bytes, keeps the length, and returns the cursor to the end |
| MatroskaWriter.WriteElement | crates/handycam-matroska/src/lib.rs:203-207 | Appends ID, size and payload, or only the ID when the size does not fit |
| MatroskaWriter.WriteCluster | crates/handycam-matroska/src/lib.rs:177-187 | Appends one cluster exactly when the block fits, and says what a failure leaves |
| MatroskaWriter.WriteHeader | crates/handycam-matroska/src/lib.rs:116-175 | Writes the file without clusters and returns the duration's offset |
| Transport.RunSession | crates/handycam-libusb/src/transport.rs:263-440 | Under any environment that completes cancelled transfers, every allocated transfer is freed exactly once and none in flight, also after partial submission, failed polls, failed resubmission or a panic; polled batches and queue are exactly the events sent |
| Transport.RunPolls | crates/handycam-libusb/src/transport.rs:325-330 | Over any polls, failing ones included, the batches returned and the queue left are exactly the events sent |
| Transport.CallbackKeepsSound | crates/handycam-libusb/src/transport.rs:441-516 | A callback keeps flags equal to ownership, running never returns, and once stopped it removes its transfer for good |
| Transport.CallbackKeeps | crates/handycam-libusb/src/transport.rs:459-516 | Counters match events, and running stops only together with an event that ends the session |
| Transport.RoundReaps | crates/handycam-libusb/src/transport.rs:356-364 | Once nothing is running, every reported transfer leaves libusb |
| Transport.ReapStep | crates/handycam-libusb/src/transport.rs:356-364 | Every reaping round shrinks the set in flight or brings a promised report nearer |
| Transport.UsbSession.AllocateAndSubmit | crates/handycam-libusb/src/transport.rs:378-432 | All 64 slots are owned, or exactly those before the failing one, with the last allocated one not flagged |
| Transport.UsbSession.TransferCallback | crates/handycam-libusb/src/transport.rs:441-457 | The callback's whole effect, panics contained |
| Transport.UsbSession.HandleCallback | crates/handycam-libusb/src/transport.rs:459-516 | Counting, sending, resubmitting or clearing the flag, up to the point of a panic |
| Transport.UsbSession.Poll | crates/handycam-libusb/src/transport.rs:325-330 | Returns every event queued so far, or fails and leaves them queued; the session stays sound either way |
| Transport.UsbSession.Stop | crates/handycam-libusb/src/transport.rs:332-376 | Terminates if cancelled transfers complete, cancels all in flight, reaps them, frees each transfer once in order; a second stop changes nothing |
| Transport.UsbSession.Reap | crates/handycam-libusb/src/transport.rs:356-364 | The reaping loop ends with nothing in flight once everything in flight is cancelled |
| InitReplay.ReplayInitialization | crates/handycam-libusb/src/transport.rs:665-751 | On success the bus saw a replay of the plan and every performed operation's delay was slept; on failure the changes made and the delays slept are a prefix of those |
| InitReplay.LiteralReplaySleepsAll | crates/handycam-libusb/src/transport.rs:673 | Literal replay sleeps every planned delay, in order |
| InitReplay.ReplayPreservesChanges | crates/handycam-libusb/src/transport.rs:665-751 | Under every strategy a replay performs exactly the planned writes and interface changes, in order |
| InitReplay.LiteralReplayIsExact | crates/handycam-libusb/src/transport.rs:670-750 | Literal replay is the plan transfer by transfer, and nothing else |
| InitReplay.StrategiesAgreeWithoutScans | crates/handycam-libusb/src/transport.rs:753-761 | Without startup scans all strategies replay the same |
| InitReplay.RunIsMaximal | crates/handycam-libusb/src/transport.rs:777-783 | Only status polls are omitted, and all that follow in a row |
| InitReplay.EndOfStatusPollRun | crates/handycam-libusb/src/transport.rs:777-783 | Finds the end of the maximal run of status polls |
| InitReplay.UsbHandle.PollStatusAcknowledgement | crates/handycam-libusb/src/transport.rs:785-803 | At most fifty status reads, successful or not; on success the last and only the last shows the token |
| InitPlan.PlanRoundTripIff | crates/handycam-core/src/init.rs:156-219 | Parsing the printed plan returns the same operations exactly when every request is representable |
| InitPlan.RowRoundTripIff | crates/handycam-core/src/init.rs:162-216 | The same for one row, at any line |
| InitPlan.ExtractedPlanRoundTripsIff | reverse-engineering/tools/extract_sony_init.py:91-172 | What the extractor keeps of any capture round-trips exactly when it is representable |
| InitPlan.EmptyOutputIsLost | reverse-engineering/tools/extract_sony_init.py:166-170 | An output request without data does not survive |
| InitPlan.PlanDistributes | crates/handycam-core/src/init.rs:156-219 | Parsing distributes over concatenation of whole lines |
| InitPlan.AcceptedPlanIsSupported | crates/handycam-core/src/init.rs:181-214 | Every accepted plan stays inside the supported operation set and its bounds |
| InitPlan.ParseInitPlan | crates/handycam-core/src/init.rs:156-219 | The loop returns the operations of all rows, or the first row's error |
| InitPlan.Extract | reverse-engineering/tools/extract_sony_init.py:91-172 | The loop prints exactly the retained requests and counts them, or reports the first rejected row |
| Text.DecimalRoundTrip | crates/handycam-core/src/init.rs:124-135 | A decimal number is read back |
| Text.HexRoundTrip | crates/handycam-core/src/init.rs:124-135 | A zero-padded hexadecimal number is read back |
| Text.HexOfRoundTrip | crates/handycam-core/src/init.rs:191-204 | A hexadecimal payload is decoded back |
| ExtractStream.ExtractionRoundTrip | reverse-engineering/tools/extract_sony_stream.py:256-299 | The rows tile each endpoint file, and slicing by them gives exactly the non-empty packets in order without range error |
| ExtractStream.Extract | reverse-engineering/tools/extract_sony_stream.py:202-307 | The loop over URBs equals the specified extraction, first error included |
| ExtractStream.ExtractDescriptors | reverse-engineering/tools/extract_sony_stream.py:261-305 | The loop over descriptors writes each non-empty chunk and records its offset |
| ReplayCapture.ExtractThenReplay | crates/handycam-cli/src/main.rs:665-706 | Replaying an extracted capture feeds the decoder exactly the captured packets |
| ReplayCapture.RunReplayCapture | crates/handycam-cli/src/main.rs:659-727 | The replay emits the frames of all epochs, counts packets and errors, and stops at the first bad row |
| ReplayCapture.EpochsPartition | crates/handycam-cli/src/main.rs:707-726 | Resets cut any packet sequence into consecutive epochs, each decoded as by a fresh decoder and ended by its first rejected packet |
| ReplayCapture.EpochFramesAreBatchFrames | crates/handycam-cli/src/main.rs:707-726 | The frames of a failed epoch are the batch frames of its packets before the rejected one |
| SplitRecords.BatchToolsAgree | reverse-engineering/tools/split_sony_records.py:71-110 | When every header is armed, frame i of the decoder is the wrapped record i + 2 of the splitter, with its timestamp and delta |
| SplitRecords.HeadersMatchRecords | reverse-engineering/tools/split_sony_records.py:24-68 | The splitter sees at least the decoder's records, and exactly those exactly when every header is armed |
| SplitRecords.SliceIsRecord | reverse-engineering/tools/split_sony_records.py:78-85 | Cutting the video file at the headers gives the records' bytes |
| SplitRecords.SplitterSeesPacketHeaders | reverse-engineering/tools/split_sony_records.py:24-68 | On extracted files the splitter finds exactly the packets' headers, sorted and distinct |
| SplitRecords.LoadHeaderOffsets | reverse-engineering/tools/split_sony_records.py:24-68 | Headers in offset order, or the first error |
| SplitRecords.Split | reverse-engineering/tools/split_sony_records.py:71-110 | One record per header, cut at the next one |
| Framing.TokensAreConserved | reverse-engineering/tools/analyze_sony_framing.py:129-165 | Boundaries are candidates, overwritten or pending; headers are candidates or unmatched |
| Framing.CandidatesAreAcceptedHeaders | reverse-engineering/tools/analyze_sony_framing.py:115-151 | On headers of at least 8 bytes candidate k's header is the packet that opens the decoder's record k, there are no others, and the flag is the decoder's |
| Framing.TimelineShowsPackets | reverse-engineering/tools/analyze_sony_framing.py:188-231 | The marks met along the timeline of transfers are those of the packets in them, so the above is about the counted candidates |
| Framing.ShortHeaderDisagrees | reverse-engineering/tools/analyze_sony_framing.py:188-260 | A six-byte header is one to the tool and not to the decoder |
| Framing.SimulateOrdering | reverse-engineering/tools/analyze_sony_framing.py:115-151 | The loop's candidates and counters are those of the token account |
| UsbFrames.UnwrapIsNearest | reverse-engineering/tools/analyze_av_sync.py:35-39 | The result is congruent modulo 2048 and within 1024 of the expected frame |
| UsbFrames.UnwrapRecovers | reverse-engineering/tools/analyze_av_sync.py:35-39 | The true frame is recovered whenever the estimate is less than 1024 off |
| UsbFrames.AssignUnwrapped | reverse-engineering/tools/analyze_av_sync.py:28-39 | Every row is unwrapped in place against the first earliest row |
| UsbFrames.SignedDifferenceIff | reverse-engineering/tools/analyze_av_sync.py:99-102 | The one representative of the difference in [-1024, 1023] |
| DependencyClosure.Select | reverse-engineering/tools/fetch_cygwin_repo.py:63-79 | The least set with Base and the requested names that is closed under requires; fails exactly when some name in it has no metadata |

## Left out

- libusb, ALSA, V4L2, arecord, threads, channels and clocks as real I/O: their answers are parameters (schedules,
  environments, rounds). Callbacks run only inside `poll` and `stop`, as the transport assumes.
- I/O errors of the writer's sink, and the truncation they could leave in the file.
- The arecord fallback worker (crates/handycam-linux-audio/src/lib.rs:174-213); the ALSA worker is the harder of the two.
- The run-length scan `ff_run_offsets`, timestamp reports and capture segments of the framing analysis.
- Logging, capture statistics and drift maxima; reports appear only as the flush they cause.
- JPEG decoding, RGB to YUYV conversion, the live stream command, the sink thread and its closing during replay.
- The bytes of the constant JPEG header and of the embedded record-mode plan: parameters.
- The meaning of f64 values: the eight bytes are a parameter function of milliseconds or hertz.
- Python floats are reals; the tools' rounding to even is kept, float rounding is not.
- JSON, TSV column selection by tshark, and pcap parsing: the tools start from parsed rows. Negative JSON numbers do not
  occur in rows.
- u64 overflow of the unwrapped timestamp and of the sample counter, and usize overflow of buffer lengths: unbounded.
- Bit masks and shifts are written as division and remainder.
- Instants are integers relative to the session origin, so subtracting a frame's duration never fails.
- Failure of the audio worker's join after the session, which skips the final flush.
- Register tables, the scale-factor override and the transport command encoder: constants and single-field updates with
  no state beyond one plan entry or one counter. The backoff between attempts to open the camera is not modelled.
- CaptureTimeline.VideoFollowsCamera: needs the PTS of every frame to fit in 64 bits.
- CaptureTimeline.AudioFollowsSamples: needs the timeline and the delay not to saturate.
- CaptureTimeline.FileTimeNeverGoesBackIff: for sessions not cut short and with video order kept; a file cut short shows
  only the first of the frames the condition speaks about.
- CaptureTimeline.FileStepsFollowCameraIff: the same. With a single emitting epoch its condition always holds.
- InitReplay.ReplayInitialization: on failure it bounds the changes made and delays slept, not the reads before it.
- Transport.UsbSession.Stop: terminates for libusb implementations that complete every cancelled transfer eventually.
- DependencyClosure.Select: gives the set of names, not the sorted list; which missing name is reported is not fixed.
- Framing.SimulateOrdering: without the delay and per-second statistics derived from the candidate pairs.
- SplitRecords.LoadHeaderOffsets: without packet sequence numbers and USB frames, which no later step uses for cutting.
- SplitRecords.Split: without packet sequence numbers, USB frames, checksums and file names.
- ExtractStream.Extract: without per-endpoint counters, checksums and the summary.
