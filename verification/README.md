# Bilirec: a verified model of its stream repair, storage and scheduling

Bilirec records live streams. It takes FLV or HLS in arbitrary pieces, repairs them on the fly and cuts them into files.
This Dafny project models that logic and proves what it promises. `dafny verify dfyconfig.toml` checks everything.

The code that changes things step by step is modelled in that form: classes with the source's fields, loops and in-place
array updates, each proved against specification functions. What the source promises is then proved of these functions
over all inputs, all runs and all interleavings.

| files | what they model |
|---|---|
| `bytes.dfy`, `collections.dfy` | bytes, big-endian fields, wrapping int32 arithmetic; sequences, sets, an optional value |
| `flv_tag.dfy`, `flv_timestamp.dfy`, `flv_dedup.dfy`, `flv_fixer.dfy`, `flv_chunking.dfy`, `flv_repeats.dfy` | the FLV repair: parser and printer of tags (Annex E.3 and E.4.1 of Adobe's Video File Format Specification 10.1), timestamp repair, bounded dedup cache, the incremental fixer, its independence from how the stream is cut, and what it drops |
| `flv_video.dfy`, `flv_detector.dfy`, `flv_detection.dfy`, `flv_media.dfy`, `flv_file.dfy`, `flv_recording.dfy`, `flv_stream.dfy`, `flv_misreading.dfy`, `flv_strategy.dfy` | the split chain: header change detector, header writer, whole recordings with rotations, what their files hold of the stream, which streams are misread, and the objects at work together |
| `init_settle.dfy`, `fmp4_files.dfy`, `fmp4_strategy.dfy` | holding a changed fMP4 init until it settles, buffer ownership, box guard, rotation, normalised files and pending init |
| `iso_box.dfy`, `fmp4_fragment.dfy`, `fmp4_tree.dfy`, `fmp4_times.dfy` | ISO base media boxes (ISO/IEC 14496-12, sections 4.2 and 8.8.12): the in-place decode-time pass and its meaning on box trees |
| `ts_continuity.dfy` | continuity counters of MPEG-TS packets (ISO/IEC 13818-1, section 2.4.3.3) |
| `hls_sequence.dfy` | segment numbers under gaps, rollbacks, failed fetches and refreshes |
| `webhook_queue.dfy`, `webhook_safety.dfy`, `webhook_progress.dfy` | the per-room webhook queues as a protocol of atomic steps: what is always so, and who serves an event |
| `pending_txn.dfy`, `recording_limit.dfy` | the reservation coordinator and the limit on concurrent recordings |
| `round_robin.dfy` | the round-robin scheduler |
| `flush_buffer.dfy`, `cold_release.dfy`, `stream_writer.dfy` | the buffered writer over a short or failing sink, byte accounting, cold-cache release |
| `protowire.dfy`, `danmaku_gift.dfy` | the protobuf wire format and the gift broadcast |

## What the proofs found

- The timestamp repair is smooth, free of overflow and idempotent for segments of up to 4,294,968 tags and, by a concrete
  ramp, for no more. Its frame step at a jump is exact for one tag more, and so are its fixed points.
- The parse-buffer trim loses nothing, however the stream is cut, exactly if no tag claims more than 12 MiB with a
  waiting part beyond the buffer limit; for every other stream there is a cutting that loses bytes.
- A tag of type 'F' (0x46) whose size starts with the bytes of "LV" is taken for a file header by the change detector when
  a chunk starts with it, and can hide a change. Behind a rotation a PreviousTagSize that starts with "FLV" is taken for
  a file header by the fixer, which then loses the next tag. With distinct signatures, the streams that can be cut so that
  this happens are exactly those with such a tag, or with such a PreviousTagSize behind a change of the video header.
- After a failed write the writer drops the rest of that chunk and goes on with the next, which leaves a gap in the file;
  what is there is still in order.
- On a rotation the chunk in which the change was found is lost whole, before the change as well as after it, except for
  the headers that the next file injects. A comment says that the carried bytes are replayed into the next segment
  (`internal/services/recorder/recorder.go:322-328`); the code discards the result of the pipeline there, and the model
  follows the code.
- The AAC header is injected into the file behind one rotation only: the detector of the next file is seeded with the video
  header alone, so that behind a second rotation sound has no header unless the stream repeats it.
- A webhook event can be accepted and left alone: if the worker gives back the token of a queue it found empty just after a
  send found that queue claimed, nobody looks at it until the next sweep, which serves it.
- A media segment with a broken leading box counts as media seen although it is dropped, which can lose the init of a file
  that was not begun. With well-formed segments nothing is lost.
- A fragment whose `moof` has a 64-bit size keeps its decode times as they are.
- A rollback of the media sequence that first shows up as an empty playlist is never noticed.
- The recording limit is enforced but not tight: a room under recovery counts twice against a new room.
- A protobuf message cut off inside a tag parses without an error, as if it had ended before it; a cut inside a payload,
  and no other, is refused.
- The dedup compares timestamps in wrapping int32: two that are 2^31 ms apart or more count as closer than they are. This
  cannot happen to two that are not negative.
- While no init was confirmed, an empty fMP4 init is delivered on every fetch; with empty inits fragments still stand
  under the init last accepted. Media buffered while nothing is held would be lost; the runner never does that.

## Model

| member | source | states |
|---|---|---|
| FlvTag.PrintParse | pkg/flv/fixer.go:376-412 | Round trip: tags written one after another parse back to exactly themselves behind any PreviousTagSize, and only the last four bytes are left unparsed |
| FlvTag.PrintedPrevSizes | pkg/flv/fixer.go:376-412 | Every PreviousTagSize of a written stream is 11 plus the body length of the tag before it (Annex E.3 of the FLV specification) |
| FlvTag.TagLayout | pkg/flv/fixer.go:376-412 | Where each field of a written tag stands, in big-endian bytes: type, 24-bit size, the timestamp with its high byte last, stream id, body, and the size of the tag behind it (Annex E.4.1) |
| FlvTag.ParseAppend | pkg/flv/realtime_fixer.go:136-183 | Parsing what has arrived and then the rest with what follows gives the tags and the leftover of parsing everything at once |
| FlvTag.HeadAppend | pkg/flv/realtime_fixer.go:136-183 | Bytes that arrive later do not change a tag that is already complete |
| FlvTimestamp.TimestampStore.FixTimestamp | pkg/flv/realtime_fixer.go:353-408 | The in-place step writes the repaired timestamp and leaves exactly the state the specification functions describe, in wrapping int32 arithmetic |
| FlvTimestamp.TimestampStore.Reset | pkg/flv/fixer.go:131-136 | A reset store is a fresh one |
| FlvTimestamp.RepairIsSmooth | pkg/flv/realtime_fixer.go:353-408 | For every int32 input, a segment of up to 4,294,968 tags comes out starting at 0, non-negative, with neighbours at most 500 ms apart |
| FlvTimestamp.RepairIsRunningSum | pkg/flv/realtime_fixer.go:353-408 | The repair exactly, without offsets, for every int32 input up to the bound: the output is the running sum of the input's steps, 0 while that is negative, and at a step of more than 500 ms, or back from 0, goes on by 22 or 33 ms |
| FlvTimestamp.JumpContinues | pkg/flv/fixer.go:462-468 | At every detected jump of a segment of up to 4,294,969 tags the output is the previous output plus 22 after audio and plus 33 after anything else |
| FlvTimestamp.JumpContinuesExactly | pkg/flv/realtime_fixer.go:353-408 | In a segment of any length a jump continues the timeline if and only if the previous output plus one frame still fits int32; otherwise the output falls to 0 |
| FlvTimestamp.JumpContinuesUpToExactly | pkg/flv/realtime_fixer.go:353-408 | The exact bound: every jump of every segment of n tags continues the timeline if and only if n is at most 4,294,969 |
| FlvTimestamp.PeakFalls | pkg/flv/realtime_fixer.go:353-408 | The witness beyond the bound: a timeline that climbs near 2^31 and then restarts |
| FlvTimestamp.SmoothUpToExactly | pkg/flv/realtime_fixer.go:353-408 | The exact bound: all segments of n tags are repaired to a smooth timeline if and only if n is at most 4,294,968 |
| FlvTimestamp.RampBreaks | pkg/flv/realtime_fixer.go:353-408 | The witness beyond the bound: video tags 500 ms apart, one tag more, and int32 wraps the output back to 0 |
| FlvTimestamp.RepairIsIdempotent | pkg/flv/realtime_fixer.go:353-408 | Repairing a repaired segment of up to 4,294,968 tags with a fresh store changes nothing, and the fixed points are exactly the smooth timelines |
| FlvTimestamp.IdempotentUpToExactly | pkg/flv/realtime_fixer.go:353-408 | The exact bound: repairing twice is repairing once on all segments of n tags if and only if n is at most 4,294,968 |
| FlvTimestamp.RampIsRepairedTwice | pkg/flv/realtime_fixer.go:353-408 | The witness beyond the bound: the second pass turns the 0 of the ramp's output into 2,147,483,533 |
| FlvTimestamp.FixedPointsUpToExactly | pkg/flv/realtime_fixer.go:353-408 | The exact bound: among the segments of n tags the fixed points are the smooth timelines if and only if n is at most 4,294,969 |
| FlvTimestamp.PeakIsFixed | pkg/flv/realtime_fixer.go:353-408 | The witness beyond the bound: a timeline that repair leaves alone although it falls by 2,147,483,616 ms |
| FlvTimestamp.RepairIsShiftInvariant | pkg/flv/realtime_fixer.go:353-408 | A constant added to all timestamps of a segment, none negative before or after, changes no output |
| FlvTimestamp.NoOverflow | pkg/flv/realtime_fixer.go:353-408 | With non-negative input no int32 sum or difference overflows in a segment of up to 4,294,968 tags |
| FlvTimestamp.NoOverflowUpToExactly | pkg/flv/realtime_fixer.go:353-408 | The exact bound: no sum or difference overflows on any non-negative segment of n tags if and only if n is at most 4,294,968 |
| FlvTimestamp.RepairKeepsContent | pkg/flv/realtime_fixer.go:353-408 | Repair changes nothing of a tag but its timestamp |
| FlvDedup.DedupCache.IsDuplicate | pkg/flv/fixer.go:210-261 | The check answers whether an entry has equal hash, type and size and lies within the window by the int32 distance, and otherwise inserts the tag, evicting first when full |
| FlvDedup.DistanceExactly | pkg/flv/fixer.go:215-219 | The int32 distance of two timestamps is the true one if and only if that is below 2^31 ms, as between any two that are not negative; at 2^31 it is negative, which is within every window, and beyond it shrinks again |
| FlvDedup.DedupCache.EvictOldest | pkg/flv/fixer.go:307-319 | The oldest entries leave the order list and the map together |
| FlvDedup.DedupCache.CleanOldEntries | pkg/flv/fixer.go:321-343 | The in-place compaction removes exactly the entries whose int32 distance is more than twice the window, in both structures, keeping the order |
| FlvDedup.DedupCache.CleanHighWaterEntries | pkg/flv/fixer.go:292-305 | Cleaning above the high-water mark removes the expired entries and then, still above it, the oldest ones |
| FlvDedup.DedupCache.Reset | pkg/flv/fixer.go:346-352 | A reset cache is empty with the same limits |
| FlvDedup.InsertOk | pkg/flv/fixer.go:241-261 | Insertion keeps the order list duplicate-free, equal to the map's keys and within the capacity |
| FlvDedup.CleanOldOk | pkg/flv/fixer.go:321-343 | Cleaning by time keeps the order list and the map in step |
| FlvDedup.CleanHighWaterOk | pkg/flv/fixer.go:292-305 | Cleaning by fill level keeps the order list and the map in step |
| FlvDedup.RunLimits | pkg/flv/fixer.go:210-343 | After every run of operations the order list is duplicate-free with exactly the map's keys and at most maxSize entries |
| FlvDedup.LeavesOnlyIf | pkg/flv/fixer.go:210-343 | Over every run without a reset a signature is gone only if some cleaning found it, by the int32 distance, more than twice the window away, or enough newer insertions pushed it out |
| FlvDedup.RetainedInUse | pkg/flv/fixer.go:288-319 | At the capacity in use, enough is at least 700 newer insertions |
| FlvDedup.RepeatIsDropped | pkg/flv/fixer.go:210-238 | A tag that comes again after any run is dropped unless the cache had one of those reasons to forget it |
| FlvDedup.SecondOfferHits | pkg/flv/fixer.go:241-247 | A tag that comes twice in a row is dropped the second time, whatever the cache knew of its signature |
| FlvRepeats.OnlyRepeatsAreDropped | pkg/flv/fixer.go:210-238 | Over a whole recording only repeats are dropped: of a tag kept since the file being written was begun, with equal signature, type and size, at most 5 seconds away by the int32 distance |
| FlvRepeats.CleanUpExpires | pkg/flv/realtime_fixer.go:213-225 | When the clock has moved by more than 500 ms, 128 tags were parsed, or the cache is four fifths full, no entry more than 10 seconds away is left |
| FlvRepeats.CleanUpKeeps | pkg/flv/realtime_fixer.go:213-225 | Otherwise nothing within 10 seconds is forgotten, and in a cache four fifths full at most 100 such entries are |
| FlvFixer.RealtimeFixer.Fix | pkg/flv/realtime_fixer.go:104-244 | One call outputs the printed repair of the newly completed, not repeated tags and leaves the specified parse buffer, store and cache, or refuses a stream that is not FLV |
| FlvStream.RefusedExactly | pkg/flv/realtime_fixer.go:118-133 | For every cutting a recording is aborted, with nothing written, if and only if the first nine bytes are there and do not start with the bytes of 'FLV' |
| FlvFixer.RealtimeFixer.ParseCompleteTags | pkg/flv/realtime_fixer.go:136-207 | The parse loop consumes every complete tag and no byte more |
| FlvFixer.RealtimeFixer.TrimParseBufferToTail | pkg/flv/realtime_fixer.go:327-337 | The trim keeps exactly the trailing bytes asked for |
| FlvFixer.RealtimeFixer.ResetTimestampStore | pkg/flv/realtime_fixer.go:250-259 | A rotation restarts the timestamps and lets the stream go on without a file header |
| FlvFixer.RealtimeFixer.ResetDedupCache | pkg/flv/realtime_fixer.go:262-269 | A rotation empties the cache and nothing else |
| FlvChunking.HandedIsTagsOfStream | pkg/flv/realtime_fixer.go:104-244 | For every cutting the tags handed to the dedup are those of the whole stream, the leftover is what follows them, and the trim drops nothing |
| FlvChunking.OutputIsRepair | pkg/flv/realtime_fixer.go:104-244 | With distinct signatures the concatenated outputs are the printed repair of all handed tags |
| FlvChunking.ChunkingIndependence | pkg/flv/realtime_fixer.go:104-244 | Two cuttings of one stream hand over the same tags and leave the same bytes and, with distinct signatures, output the same bytes |
| FlvChunking.BoundedIsNeverStuck | pkg/flv/fixer.go:97-109 | Claims of at most 12 MiB are enough for no tag to get stuck |
| FlvChunking.KeepsAllBytesExactly | pkg/flv/realtime_fixer.go:209-243 | The exact condition under which the trim loses nothing: every cutting keeps every byte if and only if no tag claims more than 12 MiB with a waiting part beyond the buffer limit |
| FlvChunking.StuckIsCuttable | pkg/flv/realtime_fixer.go:327-337 | For every stream that breaks the condition, a concrete cutting that loses bytes |
| FlvChunking.BufferIsTail | pkg/flv/realtime_fixer.go:327-337 | Whatever is trimmed, the buffer holds the end of what was given, and after a trim exactly the buffer limit of it |
| FlvDetector.HeaderChangeDetector.DetectChange | pkg/flv/header_change_detector.go:160-223 | The in-place scan of pending and new bytes reports exactly what the specification scan finds and keeps exactly its leftover and memory |
| FlvDetector.HeaderChangeDetector.SeedVideoHeader | pkg/flv/header_change_detector.go:104-115 | Seeding remembers the payload of a full tag and ignores a short one |
| FlvDetector.HeaderChangeDetector.CheckVideoHeader | pkg/flv/header_change_detector.go:241-268 | A change is a video sequence header whose payload differs from the remembered one; the payload is remembered either way |
| FlvDetection.DetectIsScan | pkg/flv/header_change_detector.go:160-223 | Calls over any cutting see together what one scan of everything sees |
| FlvDetection.FirstChangeMeans | pkg/flv/header_change_detector.go:241-268 | Before the tag found all video headers carry the remembered payload; the tag found is a video header with another one |
| FlvDetection.DetectsFirstChange | pkg/flv/header_change_detector.go:160-268 | For every cutting of whole tags the first video header with another payload is reported, in the call that completes it, with 0 < tagEnd <= len(data) just past the tag and the last audio header before it; without one there is no report |
| FlvMedia.PrintedVideoIsClassified | pkg/flv/video_tag.go:38-71 | Every video body as an encoder writes it, in the old layout or the enhanced one, is classified by its codec, by whether it is a sequence start of AVC or HEVC, and by whether it is a key frame |
| FlvMedia.EveryVideoIsPrinted | pkg/flv/video_tag.go:38-71 | Any other bytes are too short and no header: so a body is a header if and only if it is such a sequence start |
| FlvMedia.PrintedAudioIsClassified | pkg/flv/header_change_detector.go:270-282 | A written audio body is taken for an AAC header if and only if it is AAC with packet type 0 |
| FlvMedia.ReportsOtherConfiguration | pkg/flv/header_change_detector.go:160-282 | For every cutting of a stream of written media nothing is reported if and only if all AVC and HEVC configurations in it are the same, whatever pictures, sequence ends, sound and scripts stand between; else the report carries the first that differs and the last AAC configuration before it |
| FlvDetection.LookalikeHidesChanges | pkg/flv/header_change_detector.go:172-180 | A chunk that starts with a tag of type 'F' whose size starts with the bytes of 'LV' can hide every change in it |
| FlvDetection.LookalikeExactly | pkg/flv/header_change_detector.go:172-180 | The exact condition: with a tag of type k and size n at the start of a chunk every report is right, whatever is remembered and follows, if and only if k and n are not the bytes of 'F' and of 'LV' |
| FlvFile.FlvHeaderWriter.Process | internal/processors/flv_header_writer.go:41-53 | The preamble goes once in front of the first data that is not empty |
| FlvFile.FlvHeaderWriter.Prepend | pkg/flv/header_writer.go:32-47 | File header, PreviousTagSize 0, the injected headers at timestamp 0, then the data |
| FlvFile.HeaderFields | pkg/flv/header_writer.go:32-47 | The bytes of the file header: signature, version 1, audio and video, header size 9, and PreviousTagSize 0 behind it (Annex E.2) |
| FlvFile.NormalizeTagTimestamp | pkg/flv/header_writer.go:15-28 | Only the four timestamp bytes of a copy of a long enough tag are zeroed |
| FlvFile.FileReparses | pkg/flv/header_writer.go:32-47 | Parsing a written file gives exactly the injected headers at timestamp 0 followed by the tags, leaves four bytes, and every PreviousTagSize matches |
| FlvRecording.FlvHeaderSplitDetector.Open | internal/processors/flv_header_split_detector.go:54-61 | The detector starts from the seed alone |
| FlvRecording.FlvHeaderSplitDetector.Process | internal/processors/flv_header_split_detector.go:63-96 | Data passes unchanged; on a change only the bytes behind the changed header are returned, behind a synthetic PreviousTagSize |
| FlvRecording.ReceiveKeepsShape | internal/record_strategies/flv.go:78-93 | Every chunk whose output the detector does not take for a file header keeps the file equal to its headers followed by the repair of its tags, and a rotation starts a file from the changed header |
| FlvRecording.SegmentIsGood | internal/record_strategies/flv.go:46-93 | A file re-parses, its video headers, injected and streamed, all carry one payload, and its timeline is smooth |
| FlvStream.RecordingReadsStream | internal/services/recorder/recorder.go:303-336 | Over every cutting and every run of rotations the tags handed to the dedup are those of the rest of the stream, and nothing is skipped as a file header, as long as no PreviousTagSize behind a change of the video header starts with the bytes of 'FLV' |
| FlvStream.FilesAreTheStream | internal/services/recorder/recorder.go:303-336 | For every recordable stream and every cutting of it the files hold, in order, consecutive stretches of what the dedup leaves of the stream's tags, each repaired from a fresh store, all of them if no two signatures are equal; the tags no file holds are exactly those of the chunks in which a rotation fell, of which the next file injects the changed video header and the last AAC header before it |
| FlvStream.EveryFileIsGood | internal/services/recorder/recorder.go:212-336 | For every recordable stream and every cutting of it each file re-parses with matching PreviousTagSizes, has one video configuration and a smooth timeline |
| FlvRecording.AacIsForgotten | internal/processors/flv_header_split_detector.go:54-61 | An AAC header that was injected is not injected again: unless the stream repeats it, the file behind the next rotation has none |
| FlvMisreading.RecordableExactly | internal/services/recorder/recorder.go:303-336 | The recordable streams are exactly those that are read right: for a stream with its file header, no tag stuck and distinct signatures, no cutting makes fixer or detector take a part of it for a file header if and only if no tag, and no PreviousTagSize behind a change of the video header, looks like one |
| FlvMisreading.Misreading | pkg/flv/realtime_fixer.go:118-133 | A cutting that is misread, for every other such stream |
| FlvMisreading.PrevSizeExactly | pkg/flv/realtime_fixer.go:118-133 | Behind a rotation every tag sequence is read behind a PreviousTagSize if and only if that does not start with the bytes of 'FLV' |
| FlvMisreading.LaterHeaderLosesTag | pkg/flv/realtime_fixer.go:118-133 | Otherwise it is skipped as a file header and the tag behind it is lost |
| FlvStrategy.FlvRecorder.ProcessChunk | internal/record_strategies/flv.go:46-52 | One chunk through the modelled objects, fixer, split detector and header writer, with the rotation or abort that follows an error, is exactly the specified step |
| FlvStrategy.FlvRecorder.Rotate | internal/record_strategies/flv.go:78-93 | The file is closed, the fixer's timestamps and cache are reset, and the next pipeline is seeded with the changed header |
| FlvStrategy.FlvRecorder.BuildPipeline | internal/record_strategies/flv.go:44-52 | A new detector, seeded with the video header, and a new header writer with both headers |
| FlvStrategy.FlvRecorder.Rev | internal/services/recorder/recorder.go:303-336 | The objects fed with any chunks end up as the specified recording, so what is proved of its files holds of theirs |
| InitSettle.InitSettle.BufferMedia | pkg/hls/fmp4_init_settle.go:42-47 | Media is appended while a change is held and ignored otherwise |
| InitSettle.InitSettle.AcceptMap | pkg/hls/fmp4_init_settle.go:111-147 | The new state and the answer of every branch: deliver the first init, drop a repeated one, hold a changed one, cancel on a return to the confirmed one |
| InitSettle.InitSettle.Settle | pkg/hls/fmp4_init_settle.go:152-164 | The pending init is confirmed and handed out with the buffered media in order |
| InitSettle.InitSettle.Cancel | pkg/hls/fmp4_init_settle.go:56-81 | Everything held is released and the holder is idle |
| InitSettle.InitSettle.Reset | pkg/hls/fmp4_init_settle.go:50-53 | Cancel, and no init is confirmed any more |
| InitSettle.DoKeepsOk | pkg/hls/fmp4_init_settle.go:42-164 | Inactive means nothing pending or buffered; active means one pending init that differs from the confirmed one |
| InitSettle.BuffersAreConserved | pkg/hls/fmp4_init_settle.go:42-164 | Over every run of calls each buffer is held, released, returned or dropped, by being buffered while nothing is held, exactly as often as it was handed over |
| InitSettle.OwnedExactlyOnce | pkg/hls/fmp4_init_settle.go:42-164 | A buffer handed over once is in exactly one place, pending, buffered, released or returned, if and only if it was not buffered while nothing was held |
| InitSettle.BufferedWhileInactiveIsLost | pkg/hls/fmp4_init_settle.go:42-47 | A fragment buffered while nothing is held is nowhere |
| InitSettle.DeliveryIsGoverned | pkg/hls/stream_loop.go:107-153 | Over every run of init fetches, media and timer firings with non-empty inits, each delivered fragment has as its latest preceding init the content last accepted when it arrived, and consecutive inits differ |
| InitSettle.DeliveryIsGovernedExactly | pkg/hls/stream_loop.go:107-153 | Over every run, whatever the inits: each delivered fragment stands under the content last accepted when it arrived, an init that repeats the one before it is empty, and what is sent is governed if and only if no step sends an empty init |
| InitSettle.EmptyInitIsRepeated | pkg/hls/fmp4_init_settle.go:127-140 | An empty init that is fetched twice at the start is delivered twice |
| InitSettle.RunIsHistory | pkg/hls/stream_loop.go:107-153 | Over every run exactly this is sent: the first init at once, media at once while nothing is held, and at a timer the init last fetched with all media that arrived since it was first fetched; fetching it again changes nothing, and another one lets its media go |
| InitSettle.TimerFollowsHold | pkg/hls/fmp4_init_settle.go:111-147 | The debounce timer is armed exactly while a change is held, and stopped exactly when a hold ends |
| Fmp4Files.Fmp4BoxGuard.Process | internal/processors/fmp4_box_guard.go:80-116 | The verdict on a segment, pass, drop or rotate, and the memory it leaves |
| Fmp4Files.GuardExactly | internal/processors/fmp4_box_guard.go:80-116 | On an arbitrary segment, by the letters of its leading box: sound media passes, and a sound init before any media; an init behind media rotates unless it repeats the last one; anything else, or broken, is dropped |
| Fmp4Files.Fmp4InitWriter.Process | internal/processors/fmp4_init_writer.go:34-48 | What is pending goes once in front of the first data that is not empty, and is not pending any more |
| Fmp4Files.NoInitAfterMedia | internal/processors/fmp4_box_guard.go:80-116 | For arbitrary segments no file has an init after media |
| Fmp4Files.EveryFileIsRun | internal/record_strategies/hls_fmp4.go:45-87 | For arbitrary segments each file is what the normaliser makes, from empty bases, of exactly its segments in order, behind the pending init that opened it, if one did, which is written as it came |
| Fmp4Files.FilesAreRuns | internal/processors/fmp4_timestamp_normalizer.go:36-59 | For well-formed segments each file is one normalised run of all its segments, the pending init among them, and every init is written as it came |
| Fmp4Files.NothingToNormalise | pkg/hls/fmp4_fragment.go:134-160 | An init without a moof leaves the normaliser unchanged, so it makes no difference that the pending init is written past it |
| Fmp4Files.EveryFileIsGoverned | internal/record_strategies/hls_fmp4.go:45-87 | From the reader through hold, guard, rotation, normaliser and init writer: in each file each fragment follows, as its latest init in that file, the content last accepted when it arrived, consecutive inits differ, no init follows media, and the bytes are those of one normalised run |
| Fmp4Files.EverythingIsInFiles | internal/record_strategies/hls_fmp4.go:45-87 | With well-formed segments the files, one behind the other, and the pending init behind them hold exactly what the runner sent |
| Fmp4Files.ReceiveAdds | internal/processors/fmp4_box_guard.go:80-116 | What an arbitrary segment adds: what passes goes into the current file behind the pending init, what is dropped into none, and a rotation replaces the pending init |
| Fmp4Files.LosesInitsExactly | internal/processors/fmp4_box_guard.go:96-116 | For arbitrary segments files and pending init hold exactly what the guard let on if and only if no rotation came before its file was begun, and each that did lost one init |
| Fmp4Files.BrokenMediaLosesInit | internal/processors/fmp4_box_guard.go:102-113 | It does happen: a media segment with a broken leading box is dropped but counts as media seen, so that the next init rotates while the pending one is in no file |
| Fmp4Files.PutJoins | internal/processors/fmp4_init_writer.go:34-48 | A segment past the guard appends the pending init, if there is one, and its normalised bytes to the file |
| Fmp4Strategy.Fmp4Recorder.ProcessSegment | internal/record_strategies/hls_fmp4.go:45-87 | One segment through the modelled objects, guard, normaliser and init writer, with the rotation that follows a discontinuity, is exactly the specified step |
| Fmp4Strategy.Fmp4Recorder.WriteSegment | internal/processors/fmp4_init_writer.go:34-48 | Past the guard the segment is normalised in place and appended behind the pending init |
| Fmp4Strategy.Fmp4Recorder.NextFile | internal/record_strategies/hls_fmp4.go:72-87 | The bases are forgotten, the last init stays, and the new init is pending for the next file |
| Fmp4Strategy.Fmp4Recorder.Rev | internal/services/recorder/recorder.go:303-336 | The objects fed with any segments end up as the specified recording, so what is proved of its files holds of theirs |
| Fmp4Fragment.Normalizer.NormalizeFragmentTimestamps | pkg/hls/fmp4_fragment.go:134-160 | For arbitrary bytes the in-place walk terminates in bounds and computes the specified bytes, bases and count |
| Fmp4Fragment.Normalizer.NormalizeTrafTfdt | pkg/hls/fmp4_fragment.go:96-132 | The same for one traf: first the track from the tfhd, then its decode times |
| Fmp4Fragment.Normalizer.NormalizeTfdtBox | pkg/hls/fmp4_fragment.go:66-94 | The same for one tfdt, with a 32-bit or a 64-bit time by its version |
| Fmp4Tree.SegmentIsTree | pkg/hls/fmp4_fragment.go:66-160 | On well-nested segments the in-place walk is the normalisation of the box tree, so the layout stays |
| Fmp4Tree.PrintedTfdt | pkg/hls/fmp4_fragment.go:66-94 | A written decode time, 64-bit in version 1 and 32-bit otherwise, is read back and rewritten as what it exceeds its track's base by, and nothing else of the box changes |
| Fmp4Tree.PrintedTfhd | pkg/hls/fmp4_fragment.go:54-64 | The track id of a written fragment header is read back |
| Fmp4Tree.ShortBodies | pkg/hls/fmp4_fragment.go:54-94 | A body too short for its field names no track and no time |
| Fmp4Tree.TrackOfIsFirst | pkg/hls/fmp4_fragment.go:96-115 | The track of a fragment is that of its first header that names one |
| Fmp4Tree.LargeFragmentIsUntouched | pkg/hls/fmp4_fragment.go:134-160 | A fragment whose size is written in 64 bits keeps all its decode times, since its children are looked for inside its header |
| Fmp4Times.RunIsTrees | pkg/hls/fmp4_fragment.go:134-160 | The same over all segments of a run, the bases carried along |
| Fmp4Times.TimesAreRelativeToRunningMinimum | pkg/hls/fmp4_fragment.go:66-94 | Over a run, the k-th decode time of a track comes out as its value minus the least of that track's first k + 1 values |
| Fmp4Times.OnlyTimesChange | pkg/hls/fmp4_fragment.go:66-160 | With the decode times blanked out, the trees before and after are equal |
| Fmp4Times.SecondPassChangesNothing | pkg/hls/fmp4_fragment.go:66-160 | A second pass over the output of a run, with empty bases, changes no byte |
| IsoBox.ReadersAgree | pkg/mp4/box.go:76-115 | The file reader of box headers and the segment reader accept the same headers and read the same size and type |
| IsoBox.HasTopLevelBox | pkg/mp4/box.go:47-74 | The search finds a type exactly if the segment walk steps over a box of that type |
| IsoBox.HeaderRoundTrip | pkg/hls/fmp4_fragment.go:12-41 | A header with a 32-bit size, a 64-bit size, or the size left open is read back, wherever the box stands |
| IsoBox.Reads64BigEndian | pkg/hls/fmp4_fragment.go:12-41 | A 64-bit size or time is read as a big-endian number |
| IsoBox.BrokenHeaderIsBad | pkg/hls/fmp4_fragment.go:12-41 | A box that claims more than there is, or less than its header, is refused, and no other |
| IsoBox.KindsAreNames | pkg/hls/fmp4_fragment.go:12-41 | The box types are the four letters of their names |
| TsContinuity.TsContinuityFixer.FixSegment | pkg/hls/ts_continuity_fixer.go:37-84 | In place, the whole packets become the specified ones, the tail stays, the counters are carried on, and the number of changed packets is returned |
| TsContinuity.TsContinuityFixer.FixPacket | pkg/hls/ts_continuity_fixer.go:44-80 | One packet is patched in place and nothing around it |
| TsContinuity.TsContinuityFixer.Reset | pkg/hls/ts_continuity_fixer.go:30-34 | After a reset no PID has been seen |
| TsContinuity.FixAppend | pkg/hls/ts_continuity_fixer.go:37-84 | Fixing packets a and then b is fixing a ++ b |
| TsContinuity.PacketsAppend | pkg/hls/ts_continuity_fixer.go:43-44 | When the length of a is a multiple of 188 the packets of a ++ b are those of a and then those of b |
| TsContinuity.PrintedPacketIsRead | pkg/hls/ts_continuity_fixer.go:44-80 | Of every packet as it is written (section 2.4.3.2) the fixer reads the PID, the counter, whether there is a payload, and the discontinuity bit |
| TsContinuity.OutputIsContinuous | pkg/hls/ts_continuity_fixer.go:70-80 | Whatever came before and whatever the input, each payload packet without a discontinuity follows its PID's previous one by 1 modulo 16 |
| TsContinuity.UntouchedIffContinuous | pkg/hls/ts_continuity_fixer.go:37-84 | A new fixer leaves a stream alone if and only if its counters are continuous |
| TsContinuity.SecondFixChangesNothing | pkg/hls/ts_continuity_fixer.go:37-84 | A new fixer patches nothing in a fixer's output |
| TsContinuity.OnlyCountersChange | pkg/hls/ts_continuity_fixer.go:74 | Only the low nibble of byte 3 of a packet ever changes |
| TsContinuity.RunIsContinuous | pkg/hls/ts_continuity_fixer.go:37-84 | Over a run of segments the counters continue across the boundaries |
| HlsSequence.StreamRunner.OnTick | pkg/hls/stream_loop.go:224-371 | One whole poll: the fetch with its immediate retry and the count of failed fetches, the refresh of the URL after every third failed round, and the work on the window do exactly what is specified, and it says when the runner ends |
| HlsSequence.StreamRunner.FetchPlaylist | pkg/hls/stream_loop.go:233-270 | Two failed fetches of one poll skip it, unless they bring the failures in a row to three; a fetch that works clears the count |
| HlsSequence.StreamRunner.RefreshAfterFailures | pkg/hls/stream_loop.go:272-305 | After failed rounds the poll backs off, and after every third one goes on with the playlist of the new URL, never with the stale one if that cannot be fetched |
| HlsSequence.StreamRunner.WorkOnWindow | pkg/hls/stream_loop.go:319-371 | The jump over a gap, the rollback reset, the sync wait at most once per base, and the delivery |
| HlsSequence.StreamRunner.DeliverWindow | pkg/hls/stream_loop.go:374-497 | The delivery loop takes, skips, prefetches and counts failures as specified, with every index into the window in bounds; a settling that is cancelled ends the runner at a skipped segment too |
| HlsSequence.StreamRunner.DeliverSegment | pkg/hls/stream_loop.go:405-486 | One round of that loop: the settle check first, then the skip, the init, the prefetch, the fetch and the send |
| HlsSequence.RunIsNumbered | pkg/hls/stream_loop.go:224-497 | Over every run of polls, with any windows, failed fetches, refreshes and cancellations, each taken segment is exactly nextSeq, and the log of taken, lost and reset numbers has no gap or overlap |
| HlsSequence.TakenPlusLostIsGrowth | pkg/hls/stream_loop.go:325-334 | Between rollback resets the segments taken plus those reported lost are the growth of nextSeq, and no number is taken twice |
| HlsSequence.TickTakesDue | pkg/hls/stream_loop.go:406-485 | A poll takes only due segments of its window, each under its own URI |
| HlsSequence.TickAsksInOrder | pkg/hls/stream_loop.go:380-467 | The prefetches of a poll are one contiguous range of the window from nextSeq on, and every taken segment is among them |
| HlsSequence.TickExactly | pkg/hls/stream_loop.go:374-497 | Exactly what a window yields: with n the first number that is not fetched and sent, the segments from nextSeq to n are taken, n too if it was fetched; up to two more are asked for ahead, none after a failed round; and the round goes on, ends or counts as failed by what happened at n |
| HlsSequence.WholeWindowIsTaken | pkg/hls/stream_loop.go:374-497 | A window all of whose segments are fetched and sent is taken to its end |
| HlsSequence.CancelledTakesNothing | pkg/hls/stream_loop.go:348-366 | A cancelled wait, or a settling cancelled at a skipped segment, ends the runner before anything is taken |
| HlsSequence.WaitsOncePerBase | pkg/hls/hls.go:163-171 | A window is waited for if and only if nextSeq stands at its base and no base as late was waited for before |
| HlsSequence.PollOutcomeExactly | pkg/hls/stream_loop.go:224-305 | When a poll ends the runner, when it is skipped, and with which playlist it works otherwise |
| HlsSequence.SecondFailedPollEnds | pkg/hls/stream_loop.go:233-267 | A poll that fails twice ends the runner if and only if the one before it failed twice as well |
| HlsSequence.RefreshedEveryThirdRound | pkg/hls/stream_loop.go:285-305 | What a refresh of the URL yields matters exactly after every third failed round |
| HlsSequence.WindowBehind | pkg/hls/hls.go:95-107 | A non-empty window wholly behind nextSeq is taken for a rollback exactly when its base is below the previous one; otherwise nothing happens, unless a settling is cancelled, which ends the runner |
| HlsSequence.EmptyWindowHidesRollback | pkg/hls/stream_loop.go:330-370 | A rollback that first shows up as an empty playlist is never noticed: nothing is taken, lost or reset while the following windows grow from there below nextSeq |
| WebhookQueue.RoomQueue.TrySend | internal/services/webhook/room_queue.go:39-53 | A send is refused by a closed or a full queue and otherwise appends the event and clears the idle mark |
| WebhookQueue.RoomQueue.ClaimSchedule | internal/services/webhook/room_queue.go:61-63 | The token is claimed exactly if nobody holds it |
| WebhookQueue.RoomQueue.CloseIfIdle | internal/services/webhook/room_queue.go:194-208 | Only an open, empty queue with the idle mark is closed |
| WebhookQueue.RoomQueue.ReleaseSchedule | internal/services/webhook/room_queue.go:65-67 | The token is given back and nothing else changes |
| WebhookQueue.RoomQueue.HasMore | internal/services/webhook/room_queue.go:182-187 | Work is left exactly if the queue is open and not empty; an open empty queue gets the idle mark |
| WebhookSafety.LocalStepRules | internal/services/webhook/room_queue.go:39-208 | What every step on one queue object does to the token, the event in flight and the contents |
| WebhookSafety.StepKeepsInv | internal/services/webhook/room_queue.go:39-208 | Every atomic step of producers, worker, deliveries, rescheduling, eviction and shutdown keeps the invariant |
| WebhookSafety.EveryReachableStateIsSafe | internal/services/webhook/room_queue.go:39-208 | In every reachable state of every interleaving: the scheduled flag of a queue is held by at most one producer, pending entry, worker or delivery; events finish one at a time in the order accepted; a closed queue is empty and a non-empty one is open and in the room map; at most 8 deliveries run |
| WebhookProgress.SendLeads | internal/services/webhook/room_queue.go:39-105 | A send to an open queue with fewer than 32 events appends and goes on to schedule it, to a full one is given up, and to a closed one is tried once more |
| WebhookProgress.GiveUpSteps | internal/services/webhook/room_queue.go:75-87 | With 64 queues pending the token is given back and the queue waits for the sweep |
| WebhookProgress.RecheckStep | internal/services/webhook/room_queue.go:176-190 | After a delivery the queue is scheduled again exactly if it is open and has more |
| WebhookProgress.SweepFinds | internal/services/webhook/room_queue.go:136-146 | The sweep finds exactly the open queues that have events |
| WebhookProgress.EvictStep | internal/services/webhook/room_queue.go:194-208 | Exactly an open, empty queue with the idle mark is closed, and then leaves the room map |
| WebhookProgress.RemoveStep | internal/services/webhook/room_queue.go:107-117 | The room's entry goes only if it still leads to that queue |
| WebhookProgress.MapLeadsToOpenQueues | internal/services/webhook/room_queue.go:107-117 | In every reachable state the room map leads to open queues, except for one that is being removed, and only empty queues carry the idle mark |
| WebhookProgress.QuietBacklogIsServed | internal/services/webhook/room_queue.go:119-192 | In every reachable state in which everybody rests, the sweep leads to the delivery of the first event of any queue that has one, and on from there until it is empty |
| WebhookProgress.CaredUnlessMissed | internal/services/webhook/room_queue.go:75-192 | As long as no token is given back while its queue has events, every such queue is held or about to be scheduled, and when everybody rests none has events |
| WebhookProgress.EventIsMissed | internal/services/webhook/room_queue.go:148-170 | A run of 26 steps in which that happens: an accepted event waits in its open queue, which nobody holds, until the sweep |
| PendingTxn.Txn.Reserve | pkg/tx/pending.go:51-70 | A key is granted exactly if the transaction is open and new, nobody holds the key and the validation accepts; every refusal leaves transaction and group as they were |
| PendingTxn.Txn.AbortWith | pkg/tx/pending.go:76-86 | An abort, with whatever key, ends an open reservation by one abort hook and is otherwise a no-op |
| PendingTxn.Txn.ConfirmWith | pkg/tx/pending.go:92-102 | A confirm, with whatever key, ends an open reservation by one confirm hook and is otherwise a no-op |
| PendingTxn.Txn.RunWithHooks | pkg/tx/pending.go:116-130 | On any transaction: a granted reservation ends in exactly one hook, a refused one in none, and the keys are afterwards what they were |
| PendingTxn.EndsOnce | pkg/tx/pending.go:51-102 | Over every run of calls with any keys a transaction runs at most one hook, once, and a closed one never changes again |
| PendingTxn.GrantedExactly | pkg/tx/pending.go:51-70 | A new transaction is granted a key if and only if nobody holds it and the validation accepts |
| PendingTxn.OneKeyAtATime | pkg/tx/pending.go:51-70 | One that holds a key, or is over, gets no other |
| RecordingLimit.StepKeepsKeysOwned | pkg/tx/pending.go:51-102 | After every step each pending key belongs to exactly one open transaction, and at most one is inside the lock |
| RecordingLimit.StepKeepsLimit | internal/services/recorder/recorder.go:110-126 | No step takes the recording and reserved rooms over the maximum, although the validation reads the recording map in several steps |
| RecordingLimit.LimitIsNeverExceeded | internal/services/recorder/recorder.go:110-195 | Over every interleaving of starts, recoveries, confirms, aborts, stops and lost streams the rooms recording or reserved never exceed the maximum |
| RecordingLimit.EndIsFinal | internal/services/recorder/start_internal.go:35-47 | A granted reservation is confirmed or aborted, never both, whatever follows |
| RecordingLimit.RecordsExactly | internal/services/recorder/start_internal.go:205-225 | After every run a room is recording, under the session of that start, if and only if its last confirmed user start came after its last stop; and a session has the status of its last confirm or loss |
| RecordingLimit.DeferredAbortEnds | internal/services/recorder/start_internal.go:47 | The deferred abort frees an unconfirmed key and changes nothing after a confirm |
| RecordingLimit.NewRoomPassesExactly | internal/services/recorder/recorder.go:116-123 | The check is stricter than the limit: a new room passes if and only if the busy rooms, it, and the rooms counted twice because they are being recovered fit |
| RecordingLimit.ValidationIsReserve | pkg/tx/pending.go:51-70 | Undisturbed, the steps of a reservation are one Reserve of the modelled coordinator with the recorder's limit check: same answer, same transaction, same keys |
| RecordingLimit.AbortIsAbort | pkg/tx/pending.go:76-86 | The abort step is the modelled coordinator's abort |
| RecordingLimit.ConfirmIsConfirm | pkg/tx/pending.go:92-102 | The confirm step is the modelled coordinator's confirm, and publishes a user's room or revives the session |
| RoundRobin.RoundRobin.Register | pkg/coordinator/round_robin.go:65-80 | A new id is appended and the cursor stays |
| RoundRobin.RoundRobin.Unregister | pkg/coordinator/round_robin.go:82-99 | The last participant takes the place of the one that leaves and the cursor stays in range |
| RoundRobin.RoundRobin.Tick | pkg/coordinator/round_robin.go:137-159 | The selection loop picks what the specification picks and advances the cursor behind it |
| RoundRobin.UnregisterRemovesOne | pkg/coordinator/round_robin.go:82-91 | Swapping with the last and shrinking removes exactly the one participant |
| RoundRobin.ChooseIsNearest | pkg/coordinator/round_robin.go:147-159 | The pick is the ready participant nearest behind the cursor, and there is none exactly when nobody is ready |
| RoundRobin.BoundedWaiting | pkg/coordinator/round_robin.go:137-159 | A participant that stays ready is picked within n ticks, whatever the others do |
| RoundRobin.EachExactlyOnce | pkg/coordinator/round_robin.go:137-159 | When all stay ready, n ticks pick each participant exactly once |
| FlushBuffer.FlushLockedBufferedWriter.Write | pkg/rw/flush_locked_buffered_writer.go:28-58 | Terminates for every short or failing sink in exactly the specified state; sink bytes followed by buffered bytes grow by exactly the accepted prefix, all of it unless the sink failed |
| FlushBuffer.FlushLockedBufferedWriter.Flush | pkg/rw/flush_locked_buffered_writer.go:60-77 | The sink is written to until it fails or nothing is buffered; nothing is lost or reordered |
| FlushBuffer.FlushLockedBufferedWriter.Shift | pkg/rw/flush_locked_buffered_writer.go:65-68 | The bytes left move down in place in order |
| FlushBuffer.FailedWriteLeavesGap | pkg/rw/flush_locked_buffered_writer.go:40-50 | The gap: where the sink takes m bytes of a large chunk with an error and works again, the rest of the chunk is missing and the next one follows |
| StreamWriter.BufferedStreamWriter.OnDisk | internal/processors/buffered_stream_writer.go:572 | bytesWritten minus Buffered is the exact file length |
| StreamWriter.BufferedStreamWriter.WriteChunk | internal/processors/buffered_stream_writer.go:410-425 | A chunk is written whole, or a sink error ends it early and the next chunk follows behind what was taken |
| StreamWriter.BufferedStreamWriter.HandleDataChunk | internal/processors/buffered_stream_writer.go:366-425 | The file is created exactly when the threshold is reached and creation works; file, buffered and pending bytes grow by the chunk unless the sink fails; and pending chunks are given up exactly when more than 100 MiB wait for a file that cannot be created |
| StreamWriter.BufferedStreamWriter.DoPeriodicFlush | internal/processors/buffered_stream_writer.go:459-479 | With the minimum buffered all of it goes to the file unless the sink fails, and otherwise nothing happens |
| StreamWriter.BufferedStreamWriter.CreateFileAndWritePending | internal/processors/buffered_stream_writer.go:684-699 | All pending chunks go to the new file in order; each sink error makes at most one chunk lose its end, and the later ones still follow |
| StreamWriter.BufferedStreamWriter.WritePeriodically | internal/processors/buffered_stream_writer.go:345-360 | Over every run of chunks, flush timers and release timers: without a sink error or a chunk given up nothing is lost or reordered; and whatever the sink does the file and its buffer are one beginning of each chunk, in order, whole but for at most one chunk per sink error or per chunk given up |
| StreamWriter.BufferedStreamWriter.Close | internal/processors/buffered_stream_writer.go:244-317 | The file ends up as exactly the stream, unless the sink failed, creation failed, or the stream stayed below the threshold; in any case it holds one beginning of each chunk, in order, with at most one incomplete per error |
| StreamWriter.BufferedStreamWriter.ReleaseColdPrefix | internal/processors/buffered_stream_writer.go:568-598 | Releases tile a prefix of the file that stays a hot window behind its end, and after a successful try less than the hot window and 32 MiB is unreleased |
| ColdRelease.PlannedRangeContinues | pkg/filecache/align.go:5-25 | A planned release is never empty after alignment, starts at the page where the last one ended and ends before the hot window |
| ColdRelease.PlannedExactly | internal/processors/buffered_stream_writer_cold_release.go:25-43 | A release is planned if and only if at least 32 MiB past the released prefix are colder than the hot window |
| ColdRelease.TilesCoverOnce | pkg/filecache/align.go:5-25 | Tiled releases cover each byte of the released prefix exactly once and no other byte |
| Protowire.Reader.ReadVarint | pkg/protowire/reader.go:49-65 | The accumulating loop reads at most ten bytes and returns the base-128 value modulo 2^64, for any input |
| Protowire.Reader.ReadBytes | pkg/protowire/reader.go:72-84 | A length beyond the data is refused; otherwise exactly that many bytes are taken |
| Protowire.Reader.TryReadTag | pkg/protowire/reader.go:32-41 | Field number and wire type of the next tag, or nothing |
| Protowire.Reader.SkipField | pkg/protowire/reader.go:94-119 | Skips a value by its wire type; groups and reserved types are refused |
| Protowire.Writer.WriteVarint | pkg/protowire/writer.go:18-24 | The loop appends the base-128 groups, least significant first |
| Protowire.Writer.WriteField | pkg/protowire/writer.go:26-65 | A field is its tag followed by its payload |
| Protowire.VarintRoundTrip | pkg/protowire/writer.go:18-24 | Every uint64 is read back from its varint, and exactly its bytes are consumed |
| Protowire.VarintOnWire | pkg/protowire/writer.go:18-24 | The bytes of a varint: groups of seven bits, least significant first, the high bit on all but the last, and no idle group |
| Protowire.FieldOnWire | pkg/protowire/writer.go:26-65 | The bytes of a field: the key with number and wire type, and a payload of that type |
| Protowire.ReservedIsRefused | pkg/protowire/reader.go:94-119 | Groups and reserved wire types are refused |
| Protowire.FieldRoundTrip | pkg/protowire/reader.go:32-119 | Number and wire type of every written field are read back, and the value of varint and length-delimited fields; a field of any kind, fixed-width ones among them, is skipped exactly |
| Protowire.NoTagExactly | pkg/protowire/reader.go:49-65 | A tag cannot be read if and only if all of the first ten bytes, or of what is left, are continuation bytes |
| DanmakuGift.ParseSendGiftBroadcast | internal/services/danmaku/parse_pb.go:77-90 | The loop terminates on any input and computes the specified message or failure |
| DanmakuGift.ParseSendGiftV2Item | internal/services/danmaku/parse_pb.go:128-141 | The same for a nested item |
| DanmakuGift.ApplySendGiftBroadcastField | internal/services/danmaku/parse_pb.go:92-126 | One field of the broadcast |
| DanmakuGift.ApplySendGiftV2ItemField | internal/services/danmaku/parse_pb.go:143-168 | One field of an item |
| DanmakuGift.ItemRoundTrip | internal/services/danmaku/parse_pb.go:128-168 | A written item with arbitrary unknown fields parses to the last value of each of its scalars |
| DanmakuGift.BroadcastRoundTrip | internal/services/danmaku/parse_pb.go:77-168 | Any list of well-typed fields, nested gifts and unknown fields parses to the last value of each scalar and all gifts in order, every byte consumed |
| DanmakuGift.SignedValueRoundTrip | internal/services/danmaku/parse_pb.go:92-126 | A signed 64-bit user id or guard level, written as a varint behind any other fields, comes out of the parse as itself, negative ones included |
| DanmakuGift.TruncatedTagIsAccepted | internal/services/danmaku/parse_pb.go:80-84 | Continuation bytes behind a written message, as many as there may be, are accepted and change nothing |
| DanmakuGift.BroadcastCutExactly | internal/services/danmaku/parse_pb.go:77-126 | The exact condition: a written message cut after n bytes is refused if and only if the cut lies inside a payload; cut between two fields or inside a tag it is accepted as the message of the entries before |
| DanmakuGift.ItemCutExactly | internal/services/danmaku/parse_pb.go:128-168 | The same for a nested item |
| Protowire.PayloadCut | pkg/protowire/reader.go:72-119 | No reader gets past a payload whose end is missing |

## Left out

- The signature of a tag is an arbitrary function parameter; the hash over parts of the body (`pkg/flv/fixer.go:165-194`) is not computed, so the properties that need distinct signatures say so.
- Logging, metrics, jump warnings and reporters, statistics getters and the jump reporter's throttling.
- Buffer capacities, pools and compaction (`pkg/flv/realtime_fixer.go:301-322`): they change no byte of any result.
- `CalculateNextTargetAdvanced`, `AccumulateFixer` and the getters of the last headers: not used by the recording chain.
- The wall clock: poll intervals, backoff, sync waits, debounce windows and flush periods are events that may happen at any step.
- Networks, playlists, fetching, decoding of JSON and base64, files, page cache and fsync: outcomes of these are parameters; file creation and writes are a sink that may fail.
- FlvStream.FilesAreTheStream: is for recordable streams; of the others `FlvMisreading.RecordableExactly` says that some cutting is misread, and not what its files hold.
- FlvStream.EveryFileIsGood: is for recordable streams as well.
- FlvStream.RecordingReadsStream: takes a tag that looks like a file header for a possible change, since the detector may report anything then.
- FlvRecording.ReceiveKeepsShape: has the condition on the first tag of a chunk's output; what the detector makes of a lookalike tag depends on that tag's body.
- Fmp4Files.EveryFileIsGoverned: is for inits that start with `ftyp` and have no top-level `moof`, and media that start with `styp` or `moof`; `NoInitAfterMedia` and `EveryFileIsRun` are for arbitrary segments.
- Fmp4Files.FilesAreRuns: is for the same segments as `EveryFileIsGoverned`.
- `InitSettle.Reset` as triggered by a refresh of the playlist: the governing-init property is for runs without cancel or reset; the ownership property covers both.
- `SegmentDedupProcessor`, `AccumulateFixer`, the fallback client and the asynchronous sink.
- Media sequence numbers are unbounded integers: sums next to the int64 limit are not modelled, and the bytes behind a reused number are not either.
- Fmp4Times.TimesAreRelativeToRunningMinimum: is for box trees with 32-bit headers and for tracks with a non-zero id; other boxes are covered by the walk over arbitrary bytes, and a `moof` with a 64-bit size by `LargeFragmentIsUntouched`.
- Webhook HTTP requests, retries of one delivery and the order of events across an eviction: the order is stated per queue object.
- Locked sections, compare-and-swap and channel operations are atomic steps; the validation of a reservation is split where a stop can fall between its reads, except that the status of a room is read in one step.
- The periodic I/O worker's unsynchronised reads: its releases are steps of the sequential writer.
- FlushBuffer.FlushLockedBufferedWriter.Write: the sink takes at least one byte or reports an error; for a sink that does neither the source's direct write would not end, and the short-write error of `Flush` cannot occur.
- Danmaku sessions, the parse of the JSON envelope, and which known field is read with an unexpected wire type.
- The round-robin's tick interval, signal channels and the restart of its loop.
