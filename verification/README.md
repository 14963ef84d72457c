# Verified model of the video pipeline

A pipeline of this system is a chain of nodes that hand frames to each other. Most nodes wrap a
foreign library; this project models the ones that carry an algorithm of their own, and the pieces of
bookkeeping around them, and proves what they are for. What foreign code answers (codec, muxer,
sound device, clock, memory, file system, threads that finish) is an input everywhere, so the
statements hold for all answers.

An object that the source updates in place is a class here, and its methods are proved against a
function on values (`View()` gives the value). The properties are lemmas about those functions, over
all states, all inputs and all runs.

| file | models |
|---|---|
| `JitterBuffer.dfy`, `JitterBufferOrder.dfy`, `JitterBufferGaps.dfy`, `JitterBufferReplay.dfy`, `JitterBufferReads.dfy` | the jitter buffer: ordering across pause and replay, filling of gaps, what the history holds and a pause brings back, when a read serves |
| `Recorder.dfy`, `RecorderRuns.dfy`, `RecorderRollover.dfy` | the recorder: deferred opening, keyframe gating, rollover without loss and exactly when |
| `Nalu.dfy` | scanning and splitting H.264 byte streams (Annex B of ITU-T H.264) |
| `Bits.dfy`, `Sps.dfy`, `SpsRoundTrip.dfy` | bit reader, Exp-Golomb codes and the sequence parameter set, with a writer after sections 7.3.2.1.1 and 9.1 of ITU-T H.264 |
| `FpsLimiter.dfy` | the frame rate limiter: long-run rate, rate per second, synchronisation |
| `Pipeline.dfy` | the chain of nodes on the heap and its reference counts |
| `AudioRenderer.dfy` | the two threads of the audio renderer, as steps |
| `FramePool.dfy`, `GrowableFrame.dfy` | the frame pool with deferred destruction; the growable frame buffer and its cost |
| `Decoder.dfy`, `DecoderFlow.dfy` | order of return and precise seek of the decoder node; what it reads, passes on and stops for |
| `UriMask.dfy` | masking of credentials and hosts, in place |
| `BufferedFile.dfy` | the chunked file in memory against a flat file |
| `InputIterator.dfy` | a list of files played as one stream |
| `ClipChain.dfy` | registration of recorded files while threads move them |
| `Media.dfy`, `Seqs.dfy` | shared types and facts about sequences |

`dafny verify dfyconfig.toml` checks everything.

## Where the code stops short

Each of these is stated exactly by a lemma, on all inputs, and where it is a failure, with an input
that the code can receive.

- A target rate above 1000 frames a second makes the jitter buffer serve one clone for ever, and a
  negative one reaches the frame behind its clones only by running them down to the pts 0
  (src/videolib/stream_jitter_buffer.cpp:247-257; `HeadIsReachedIff`, `TooHighRateGetsStuck`).
- Rollover is lossless up to one design limit: while the source lacks SPS or PPS, the recorder keeps
  frames only back to the last IDR frame and drops what it had saved before it
  (src/videolib/stream_ffmpeg_recorder.cpp:850-853; `IdrDropsSavedFrames`, `EarlyIdrLosesAFrame`).
- Frames saved before a file could be opened go into it whatever time they span, so such a file can outlast
  the maximum (src/videolib/stream_ffmpeg_recorder.cpp:1027-1034; `FilesDoNotOutlast`,
  `SavedFramesMayOutlast`); and a new file requested without a location closes the current one and waits
  for a URI (src/videolib/stream_ffmpeg_recorder.cpp:1260-1274; `RollsOverIff`).
- The parameter set parser skips four bytes without looking at them (src/svcore/nalu.cpp:269-273;
  `StartCodeIsNotChecked`, `ShortStartCodeFails`) and takes top and bottom crop offsets off the width and
  left and right ones off the height (src/svcore/nalu.cpp:363-364; `SizeIsStandardIff`).
- An insertion that fails to open the new node answers -1 and leaves the node in the chain
  (src/svcore/stream_api.cpp:366-433; `Pipeline.InsertBefore`).
- Closing the audio renderer can catch the playback thread between its critical section and its decision,
  and make it play a frame that it does not have
  (src/videolib/stream_audio_renderer_portaudio.cpp:247-278; `DerailsIff`, `ClosingCanDerail`).
- A seek that is not precise leaves an unfinished precise seek standing, and frames before the old target
  are withheld (src/videolib/stream_ffmpeg_decoder.cpp:898-901; `RoughSeek`).
- Saving a chunked file whose length is a positive multiple of the chunk size leaves out the last chunk
  (src/svcore/buffered_file.cpp:266; `SaveIsExactIff`).
- The file iterator takes a negative offset for a huge one and goes to the last file
  (src/videolib/stream_input_iterator.cpp:325-332; `SeekOutside`), and cannot be read again after its end
  (src/videolib/stream_input_iterator.cpp:370-372; `EndIsFinal`).
- The link of a clip misses the clip before it when that one's name has capitals
  (python/StreamReader.py:606-614; `ChainIsLinked`).

## Model

| member | source | states |
|---|---|---|
| JitterBuffer.JitterBufferStream.constructor | src/videolib/stream_jitter_buffer.cpp:119-140 | A new node has the default 300 ms windows, empty queues and an unsettled encoder delay. |
| JitterBuffer.JitterBufferStream.Append | src/videolib/stream_jitter_buffer.cpp:163-187 | Searching back from the tail puts the frame behind the last one that is not later; `Slot` pins that place down as the only one. |
| JitterBuffer.JitterBufferStream.Reduce | src/videolib/stream_jitter_buffer.cpp:189-204 | Exactly the leading frames older than the pause window are popped; the rest is kept as it was. |
| JitterBuffer.JitterBufferStream.SaveFrameForJumpstart | src/videolib/stream_jitter_buffer.cpp:206-238 | A served frame enters the history if and only if it is the first one, is not video, begins a new clock second or comes more than a replay interval after the last video frame saved. |
| JitterBuffer.JitterBufferStream.GenerateFrame | src/videolib/stream_jitter_buffer.cpp:240-262 | Either the head itself or, inside the prebuffer and too far from the last served frame, one copy of it an interval after that frame; nothing leaves the queue. |
| JitterBuffer.JitterBufferStream.ServeHead | src/videolib/stream_jitter_buffer.cpp:292-315 | A clone, or the head, which then leaves the queue and may enter the history, itself trimmed to the pause window. |
| JitterBuffer.JitterBufferStream.Get | src/videolib/stream_jitter_buffer.cpp:264-317 | One attempt: splice the history in when paused, mark the prebuffer, then trim, serve or wait, with the whole new state. |
| JitterBuffer.JitterBufferStream.Accept | src/videolib/stream_jitter_buffer.cpp:338-358 | An arriving frame first settles the encoder delay, which can only widen the window, and is then queued. |
| JitterBuffer.JitterBufferStream.ReadFrame | src/videolib/stream_jitter_buffer.cpp:320-362 | A read serves from the buffer or takes in upstream frames until it can; it reports the upstream error and how many answers it used. |
| JitterBuffer.JitterBufferStream.SetPaused | src/videolib/stream_jitter_buffer.cpp:143-160 | Pausing changes the flag and nothing else. |
| JitterBufferOrder.ReadIsARun | src/videolib/stream_jitter_buffer.cpp:320-362 | Every read is a run of arrivals and polls, so what is proved of all runs holds of all reads. |
| JitterBufferOrder.StepKeepsInv | src/videolib/stream_jitter_buffer.cpp:163-317 | Arrival, poll and pause each keep history and queue sorted, the tail the latest pts seen and the history out of reach of late frames. |
| JitterBufferOrder.RunKeepsInv | src/videolib/stream_jitter_buffer.cpp:163-317 | That invariant holds after any run whose frames are at most the buffer time late, across pauses and replays. |
| JitterBufferOrder.ReachableStatesAreOrdered | src/videolib/stream_jitter_buffer.cpp:163-317 | In every reachable state history followed by queue is sorted, the queue ends with the largest pts seen, and every history frame is below it by more than the buffer time. |
| JitterBufferOrder.RunSorts | src/videolib/stream_jitter_buffer.cpp:163-317 | What an unpaused run has served, clones aside, followed by what it still holds is the insertion sort of all that came in. |
| JitterBufferOrder.UnpausedRunServesInOrder | src/videolib/stream_jitter_buffer.cpp:281-317 | From any reachable state an unpaused run serves its original frames in nondecreasing pts order. |
| JitterBufferOrder.UnpausedRunIsStableSort | src/videolib/stream_jitter_buffer.cpp:163-317 | No frame is lost, repeated or reordered by an unpaused run. |
| JitterBufferOrder.SortFromIsSorted | src/videolib/stream_jitter_buffer.cpp:163-187 | The reference sort is sorted. |
| JitterBufferOrder.SortFromIsPermutation | src/videolib/stream_jitter_buffer.cpp:163-187 | The reference sort has the same frames as its input, each as often. |
| JitterBufferOrder.SortFromIsStable | src/videolib/stream_jitter_buffer.cpp:163-187 | Frames of equal pts stay in the order in which they arrived. |
| JitterBufferGaps.VideoIsServedInOrder | src/videolib/stream_jitter_buffer.cpp:240-317 | Clones included, an unpaused run serves video in nondecreasing pts order. |
| JitterBufferGaps.StepKeepsOwnFloor | src/videolib/stream_jitter_buffer.cpp:163-317 | Paused or not and at any target rate, a step leaves nothing in the queue that is earlier than the last video served. |
| JitterBufferGaps.ReachableStatesHaveAFloor | src/videolib/stream_jitter_buffer.cpp:163-317 | So every state a new node can reach, across pauses and replays, is one the ordering and gap theorems start from. |
| JitterBufferGaps.ReachableVideoIsInOrder | src/videolib/stream_jitter_buffer.cpp:240-317 | From any such state an unpaused run serves video, clones included, in nondecreasing pts order. |
| JitterBufferGaps.CloneIsBelowItsFrame | src/videolib/stream_jitter_buffer.cpp:240-261 | A clone's pts is strictly below that of the frame it copies. |
| JitterBufferGaps.RunFillsGaps | src/videolib/stream_jitter_buffer.cpp:240-317 | Over any unpaused run from any such state, every video frame served below the end of the prebuffer is at most one target interval after the video frame served before it; only a pts of 0, which the node takes for nothing served, is set aside. |
| JitterBufferGaps.ServedGapsAreFilled | src/videolib/stream_jitter_buffer.cpp:240-317 | Frame by frame the same bound for a node that has served video with a positive pts, with nothing set aside. |
| JitterBufferGaps.NewNodeFillsGaps | src/videolib/stream_jitter_buffer.cpp:240-317 | The same bound over the whole run of a new node that is fed positive timestamps. |
| JitterBufferGaps.StepKeepsFloor | src/videolib/stream_jitter_buffer.cpp:240-317 | Nothing earlier than the last served video frame can come into the queue or be served any more. |
| JitterBufferGaps.CloningProgressesIff | src/videolib/stream_jitter_buffer.cpp:240-261 | A clone moves towards the head if and only if the target rate is 1 to 1000 frames a second. |
| JitterBufferGaps.ClonesEndWithTheirHead | src/videolib/stream_jitter_buffer.cpp:240-317 | At such a rate repeated polls serve evenly spaced clones and then the head itself. |
| JitterBufferGaps.HeadIsReachedIff | src/videolib/stream_jitter_buffer.cpp:240-317 | For every rate: repeated polls reach the head if and only if no clone is due, the rate is 1 to 1000, or it is -1 to -1000 and the last served pts is a positive multiple of its interval. |
| JitterBufferGaps.TooHighRateGetsStuck | src/videolib/stream_jitter_buffer.cpp:240-317 | A new node at 2000 frames a second, fed with three frames in order and polled once, serves one clone for ever. |
| JitterBufferGaps.TooHighRateNeverReachesTheHead | src/videolib/stream_jitter_buffer.cpp:240-317 | Beyond 1000 (or below -1000) any number of polls serves the same clone and never the head. |
| JitterBufferReplay.PausedPollReplays | src/videolib/stream_jitter_buffer.cpp:272-302 | A poll of a paused node serves nothing and leaves the whole history followed by the queue, less exactly the frames in front that are further behind the last one than the pause window; the history is then empty, and if there was one, the memory of what was served last is cleared. |
| JitterBufferReplay.ReplayIsTheWindow | src/videolib/stream_jitter_buffer.cpp:272-302 | In a reachable paused state a frame is in the queue after the poll if and only if it was in history or queue and lies within the pause window. |
| JitterBufferReplay.ReplayServesTheHistory | src/videolib/stream_jitter_buffer.cpp:264-317 | After a pause with a poll in it, what an unpaused run serves, clones aside, followed by its queue is the stable sort of history and queue from the window on and all that comes in. |
| JitterBufferReplay.ServedFrameIsSavedIff | src/videolib/stream_jitter_buffer.cpp:303-315 | A frame served leaves the queue and joins the history exactly if the history is empty, it is not video, no video was saved last, its second is another, or the rate times the distance is more than 1000; what is older than the pause window then goes from the front. |
| JitterBufferReplay.PollKeepsHistory | src/videolib/stream_jitter_buffer.cpp:206-315 | A poll of an unpaused node keeps every recent frame it has served covered by the history. |
| JitterBufferReplay.HistoryHoldsWhatWasServed | src/videolib/stream_jitter_buffer.cpp:206-315 | Over any unpaused run, everything served that is recent enough is in the history, video at least by a video frame of the same second at most one replay interval before it. |
| JitterBufferReplay.NewNodeCanReplay | src/videolib/stream_jitter_buffer.cpp:206-315 | So a new node could replay everything recent that it has served. |
| JitterBufferReads.PollServesExactly | src/videolib/stream_jitter_buffer.cpp:240-317 | A poll of an unpaused node serves exactly when the delay is settled and the queue spans more than the buffer time; it serves the head, or exactly in a gap (within the prebuffer, more than one target interval after the last video) a clone one interval on. |
| JitterBufferReads.PrebufferEndsWithTheQueue | src/videolib/stream_jitter_buffer.cpp:281-297 | Until video has been served each poll moves the end of the prebuffer to the last frame of the queue, and from then on it stays. |
| JitterBufferReads.FirstAnswerDecides | src/videolib/stream_jitter_buffer.cpp:338-358 | Over any run the first definite answer to the delay query settles the delay: the buffer time is raised to a known delay, never lowered and never changed otherwise; until then nothing is served. |
| JitterBufferReads.ReadUsesAPrefix | src/videolib/stream_jitter_buffer.cpp:320-362 | A read uses up a prefix of what upstream gives, all of it frames but for the end it reports with its own code. |
| JitterBufferReads.ReadTakesNoMoreThanItMust | src/videolib/stream_jitter_buffer.cpp:320-362 | With any shorter prefix it would have served nothing. |
| JitterBufferReads.FailedReadLeavesNothingDue | src/videolib/stream_jitter_buffer.cpp:320-362 | A read that serves nothing leaves nothing that could be served. |
| Media.TruncDivLeavesRemainder | src/videolib/stream_jitter_buffer.cpp:206-262 | The division used for seconds and intervals is that of C++: what is left over is smaller than the divisor and has the sign of the dividend. |
| Recorder.RecorderStream.WriteOut | src/videolib/stream_ffmpeg_recorder.cpp:1362-1548 | A frame is submitted to the open file unless it precedes the first video keyframe or has no stream; its time is relative to that keyframe, or absolute for HLS. |
| Recorder.RecorderStream.FreeSavedFrames | src/videolib/stream_ffmpeg_recorder.cpp:1068-1079 | The saved frames are written in order or dropped, and the list is empty afterwards. |
| Recorder.RecorderStream.CloseFile | src/videolib/stream_ffmpeg_recorder.cpp:1082-1187 | Closing resets everything that belongs to one file and loses nothing already submitted. |
| Recorder.RecorderStream.GetSpsPps | src/videolib/stream_ffmpeg_recorder.cpp:799-857 | Parameter sets come from the source or else from the frame; while the source lacks one, a frame with an IDR slice empties the saved frames. |
| Recorder.RecorderStream.BeginFile | src/videolib/stream_ffmpeg_recorder.cpp:993-1034 | A new file is logged behind the others and begins with what was saved. |
| Recorder.RecorderStream.StartOut | src/videolib/stream_ffmpeg_recorder.cpp:978-1036 | The output opens completely, flushing what was saved, or not at all. |
| Recorder.RecorderStream.OpenSizedOutput | src/videolib/stream_ffmpeg_recorder.cpp:959-1036 | With the size known, the output opens once SPS and PPS are known and otherwise the frame is saved. |
| Recorder.RecorderStream.OpenOutput | src/videolib/stream_ffmpeg_recorder.cpp:874-1037 | Opening is put off, saving the frame, until URI, codec, size, SPS and PPS are all known. |
| Recorder.RecorderStream.FollowNextUri | src/videolib/stream_ffmpeg_recorder.cpp:1216-1232 | A pending URI closes the file and becomes the current one, or stops the recording. |
| Recorder.RecorderStream.RecordFrame | src/videolib/stream_ffmpeg_recorder.cpp:1237-1284 | One frame: rollover at a keyframe once a new file is due, deferred opening, or a plain write. |
| Recorder.RecorderStream.ReadFrame | src/videolib/stream_ffmpeg_recorder.cpp:1207-1289 | A read records what it read and passes it on, or reports the source's error or the muxer's. |
| Recorder.RecorderStream.RequestNewFile | src/videolib/stream_ffmpeg_recorder.cpp:282-285 | The request is remembered until a frame can start a file. |
| Recorder.RecorderStream.Restart | src/videolib/stream_ffmpeg_recorder.cpp:286-296 | The file is closed and its URI survives. |
| Recorder.RecorderStream.SetNextUri | src/videolib/stream_ffmpeg_recorder.cpp:297-298 | The new URI waits for the next read. |
| RecorderRuns.StepKeepsInv | src/videolib/stream_ffmpeg_recorder.cpp:874-1289 | Every event keeps each file starting with a keyframe, the first pts that of its first packet, and no frame saved while a file is open. |
| RecorderRuns.RunKeepsInv | src/videolib/stream_ffmpeg_recorder.cpp:874-1289 | So does every run, whatever source, muxer and caller do. |
| RecorderRuns.EveryFileStartsWithAKeyframe | src/videolib/stream_ffmpeg_recorder.cpp:1192-1205 | Over all runs every file with a packet starts with a video keyframe, all its packets are timed against that one (absolutely for HLS), and an open output means an empty list of saved frames. |
| RecorderRuns.WriteFrameRecords | src/videolib/stream_ffmpeg_recorder.cpp:1441-1452 | One write adds exactly the frame that is due next: none before the first keyframe, every recordable one after. |
| RecorderRuns.WriteAllRecords | src/videolib/stream_ffmpeg_recorder.cpp:1068-1079 | Flushing the saved frames records exactly those of them that are due. |
| RecorderRuns.DeferTracks | src/videolib/stream_ffmpeg_recorder.cpp:874-1037 | Putting off the opening keeps every frame either recorded or saved. |
| RecorderRuns.RolloverTracks | src/videolib/stream_ffmpeg_recorder.cpp:1249-1283 | At a rollover the old file is complete and the keyframe goes to the new one, neither lost nor repeated. |
| RecorderRuns.RecordTracks | src/videolib/stream_ffmpeg_recorder.cpp:1207-1289 | The same for every single frame that comes in. |
| RecorderRuns.RecordAllTracks | src/videolib/stream_ffmpeg_recorder.cpp:1207-1289 | The same for every run of frames and requests for new files. |
| RecorderRuns.RolloverIsLossless | src/videolib/stream_ffmpeg_recorder.cpp:1207-1289 | In location mode the files one after another are exactly the recordable frames from the first keyframe on, apart from those still waiting for an output. |
| RecorderRuns.IdrDropsSavedFrames | src/videolib/stream_ffmpeg_recorder.cpp:799-857 | While SPS or PPS is missing at the source, an IDR frame keeps the record complete if and only if nothing that is saved was due. |
| RecorderRuns.EarlyIdrLosesAFrame | src/videolib/stream_ffmpeg_recorder.cpp:850-853 | A new recorder that reads two IDR frames before its source has parameter sets saves the first and then drops it, although it is due. |
| RecorderRollover.RollsOverIff | src/videolib/stream_ffmpeg_recorder.cpp:1248-1283 | With a source that knows everything, a frame rolls over if and only if a packet was written, the frame is video with the key flag or an IDR, and either a location is set and it lies more than the maximum behind the first, or a new file was requested; in location mode it is then the first packet of a new file named after it, otherwise the file is closed and the frame saved. Any other frame extends the open file. |
| RecorderRollover.OpensIff | src/videolib/stream_ffmpeg_recorder.cpp:874-1037 | A file that is put off is opened by exactly the first frame at which URI or location, codecs, size and, for H.264, SPS and PPS are known and opening works; it is named by its URI or after the first frame saved, a request is met, and only a failed file is a critical error. |
| RecorderRollover.NextUriTakesOver | src/videolib/stream_ffmpeg_recorder.cpp:1216-1232 | A URI left behind is acted on by the next read even if that brings no frame: the open file is closed with all that belongs to it, and an empty URI does only that. |
| RecorderRollover.RestartStartsOver | src/videolib/stream_ffmpeg_recorder.cpp:286-296 | A restart leaves no file open, nothing saved and nothing counted, and keeps the URI and the request. |
| RecorderRollover.StepKeeps | src/videolib/stream_ffmpeg_recorder.cpp:1207-1289 | Each event keeps every file within its time, and the packets counted are those that the muxer accepted into the open file. |
| RecorderRollover.FilesDoNotOutlast | src/videolib/stream_ffmpeg_recorder.cpp:1248-1283 | Over every run in location mode: once a file is open and has an accepted packet, no frame that could begin another goes into it more than the maximum after its first. |
| RecorderRollover.SavedFramesMayOutlast | src/videolib/stream_ffmpeg_recorder.cpp:1027-1034 | What was saved before opening is exempt: a recorder that learns the picture size too late begins with a file that outlasts any maximum. |
| Nalu.ScanIsLeast | src/svcore/nalu.cpp:60-96 | The unit found is the first place that holds two or three zero bytes, a one and a further byte; nothing found means there is no such place. |
| Nalu.FindNextNal | src/svcore/nalu.cpp:60-96 | The scanning loop finds that least offset, the header length and the type. |
| Nalu.ContainsIdrFrame | src/svcore/nalu.cpp:151-177 | True if and only if the first unit of type 1 or 5 is of type 5. |
| Nalu.ExtractNalu | src/svcore/nalu.cpp:98-138 | The piece returned is the first unit of the wanted type before any slice, up to the next start code; nothing returned means that there is no such unit. |
| Nalu.AnyTypeTakesTheFirst | src/svcore/nalu.cpp:98-138 | With the wildcard type it is the first unit of the buffer. |
| Nalu.UnitsFollowEachOther | src/svcore/nalu.cpp:60-96 | Going on right behind each start code gives units that each are one and do not overlap. |
| Nalu.UnitsAreComplete | src/svcore/nalu.cpp:60-96 | There are no others: every start code of the buffer is that of a unit or lies within one, as the last three bytes of a long one do. |
| Nalu.SplitIsExhaustive | src/svcore/nalu.cpp:98-138 | Extracting from what remains until nothing is left gives pieces whose concatenation is the buffer from its first start code on. |
| Nalu.SplitPieceIsOneUnit | src/svcore/nalu.cpp:98-138 | Each piece begins with its start code, holds no other unit, and what follows it begins with a start code. |
| Bits.ReadBit | src/svcore/nalu.cpp:217-224 | The bit at the cursor, most significant first, and a cursor one further. |
| Bits.ReadBits | src/svcore/nalu.cpp:226-234 | The number that the next n bits denote. |
| Bits.ReadUnsignedGolomb | src/svcore/nalu.cpp:236-248 | The ue(v) code at the cursor; more than 30 leading zeros or a read past the end are reported as undefined. |
| Bits.ReadSignedGolomb | src/svcore/nalu.cpp:250-259 | The se(v) code at the cursor. |
| Bits.FieldRoundTrip | src/svcore/nalu.cpp:226-234 | Reading k bits inverts writing a number in k bits. |
| Bits.UnsignedRoundTrip | src/svcore/nalu.cpp:236-248 | Decoding inverts ue(v) of section 9.1 of ITU-T H.264 wherever the code stands and moves the cursor exactly past it. |
| Bits.SignedRoundTrip | src/svcore/nalu.cpp:250-259 | Decoding inverts se(v) of section 9.1.1 of ITU-T H.264. |
| Bits.UnsignedIsReadIff | src/svcore/nalu.cpp:236-248 | For every bit string: a number is read if and only if its ue(v) code of section 9.1 of ITU-T H.264 stands at the cursor and fits 31 bits, and the cursor moves exactly past it. |
| Bits.SignedIsReadIff | src/svcore/nalu.cpp:250-259 | The same for se(v) of section 9.1.1. |
| Sps.ReadScalingList | src/svcore/nalu.cpp:313-325 | A scaling list is skipped delta by delta for as long as the next scale is not zero. |
| Sps.ReadScalingLists | src/svcore/nalu.cpp:309-327 | Eight lists, each behind its flag. |
| Sps.ReadChroma | src/svcore/nalu.cpp:299-327 | Chroma format, depths, bypass flag and scaling lists are skipped. |
| Sps.ReadOrderCount | src/svcore/nalu.cpp:330-344 | The frame number and picture order fields of types 0, 1 and 2 are skipped. |
| Sps.ReadSize | src/svcore/nalu.cpp:345-364 | Size in macroblocks, frame flag and crop offsets give the size. |
| Sps.ReadCrop | src/svcore/nalu.cpp:354-360 | Crop offsets behind their flag, zero without it. |
| Sps.ReadBody | src/svcore/nalu.cpp:295-364 | Everything after the id, for the profiles with and without chroma information. |
| Sps.ParseSpsData | src/svcore/nalu.cpp:262-371 | Profile, level and size of the parameter set that begins four bytes into the buffer, or `Undefined` where the C++ leaves the buffer. |
| SpsRoundTrip.ListsRoundTrip | src/svcore/nalu.cpp:309-327 | Skipping scaling lists ends exactly behind what section 7.3.2.1.1.1 of ITU-T H.264 writes. |
| SpsRoundTrip.ChromaRoundTrip | src/svcore/nalu.cpp:299-327 | So does skipping the chroma information. |
| SpsRoundTrip.OrderRoundTrip | src/svcore/nalu.cpp:330-344 | So does skipping the picture order information of every type. |
| SpsRoundTrip.SizeRoundTrip | src/svcore/nalu.cpp:345-364 | The size fields are read back and give the parser's size. |
| SpsRoundTrip.BitsRoundTrip | src/svcore/nalu.cpp:269-371 | From the bits of a parameter set the parser recovers profile, level and size, whatever follows. |
| SpsRoundTrip.BitsOfPack | src/svcore/nalu.cpp:217-224 | Packing bits into bytes and reading them bit by bit are inverse. |
| SpsRoundTrip.ParameterSetRoundTrip | src/svcore/nalu.cpp:262-371 | From the bytes of any supported parameter set of section 7.3.2.1.1 of ITU-T H.264 behind a 4-byte start code the parser recovers profile, level and size. |
| SpsRoundTrip.StartCodeIsNotChecked | src/svcore/nalu.cpp:269-273 | For every buffer of four bytes or more: the first four are dropped, whatever they are, unless the 16-bit length is below four and they are no start code. |
| SpsRoundTrip.ShortStartCodeIsMisread | src/svcore/nalu.cpp:269-291 | Behind a 3-byte start code every set is read too far on or too early: the profile reported, if there is a result, is its byte of constraint flags, or 0 at lengths that look too short. |
| SpsRoundTrip.ShortStartCodeFails | src/svcore/nalu.cpp:269-291 | A baseline set of 640 by 480 is read correctly behind the long start code and never behind the short one. |
| SpsRoundTrip.SizeIsStandardIff | src/svcore/nalu.cpp:363-364 | The size is the one the standard defines if and only if the crop offsets, which the code takes off the wrong sides, balance; without cropping it always is. |
| FpsLimiter.Limiter.constructor | src/svcore/stream_api.cpp:714-731 | A new limiter has counted nothing and works on weighted averages. |
| FpsLimiter.Limiter.UseSecondIntervals | src/svcore/stream_api.cpp:734-737 | Switching to clock seconds changes nothing else. |
| FpsLimiter.Limiter.Weigh | src/svcore/stream_api.cpp:773-787 | The next accumulator and whether it stands for more than the desired rate. |
| FpsLimiter.Limiter.CheckSecond | src/svcore/stream_api.cpp:765-769 | Whether a frame of the same clock second comes sooner than its share of it. |
| FpsLimiter.Limiter.ReportFrame | src/svcore/stream_api.cpp:749-810 | Decision and new state for one reported timestamp, in both modes. |
| FpsLimiter.EveryFrameIsCounted | src/svcore/stream_api.cpp:789-804 | Accepted plus rejected is the number of frames reported, over any run. |
| FpsLimiter.RoundDivBounds | src/svcore/stream_api.cpp:710-713 | The rounded quotient is within half a divisor of the dividend, from both sides. |
| FpsLimiter.ReportKeepsWeighted | src/svcore/stream_api.cpp:771-804 | An accumulator, once stored, never stands for more than the desired rate. |
| FpsLimiter.AcceptedFrameCosts | src/svcore/stream_api.cpp:771-804 | Each accepted frame takes 1000/F - 1/2 ms out of the elapsed time and the accumulator. |
| FpsLimiter.LateFrameIsAccepted | src/svcore/stream_api.cpp:771-804 | A frame 1000/F + 1/2 ms or more after the last accepted one is accepted: the limit is not only kept but reached. |
| FpsLimiter.LongRunRate | src/svcore/stream_api.cpp:771-804 | k further accepted frames over the time T satisfy k(1000/F - 1/2) <= T + first accumulator - last accumulator. |
| FpsLimiter.AtMostRatePerSecond | src/svcore/stream_api.cpp:763-771 | In clock-second mode, on nondecreasing timestamps, no second accepts F + 1 frames or more, for any positive rate. |
| FpsLimiter.LimitersSynchronise | src/svcore/stream_api.cpp:763-771 | Two limiters with any past agree on every decision from the first frame of a second on. |
| FpsLimiter.LateStarterCatchesUp | src/svcore/stream_api.cpp:763-771 | Two limiters started at different frames of one stream agree from the first frame of the next second on. |
| FpsLimiter.FirstAndUnlimitedAreAccepted | src/svcore/stream_api.cpp:749-804 | The first frame is accepted, and without a limit every frame is. |
| FpsLimiter.InSecondAcceptedIff | src/svcore/stream_api.cpp:763-771 | By clock seconds a frame is accepted if and only if its second is another than that of the last accepted one or the rate times the time since is at least 1000. |
| FpsLimiter.EveryDueFrameIsAccepted | src/svcore/stream_api.cpp:763-804 | Over any run by clock seconds every single decision is that one, measured from the last frame accepted before. |
| FpsLimiter.SecondFrameAcceptedIff | src/svcore/stream_api.cpp:771-804 | In weighted mode with an empty accumulator a frame is accepted if and only if the rate times the time since the last one is at least 1000. |
| FpsLimiter.WeightedAcceptedIff | src/svcore/stream_api.cpp:771-804 | With a set one, if and only if the accumulator, decayed by one part in the number of frames to the nearest whole number and increased by the time since, is within the rate; that is then the new accumulator. |
| FpsLimiter.TimeCountsFromTheLastFrame | src/svcore/stream_api.cpp:755-762 | A timestamp given as a difference counts as time since the last accepted frame, and one before that frame as no time. |
| Pipeline.Ref | src/svcore/stream_api.cpp:122-129 | Taking a reference counts one up and does nothing else. |
| Pipeline.Unref | src/svcore/stream_api.cpp:131-143 | Dropping one empties the pointer, counts one down and destroys the node at zero. |
| Pipeline.Share | src/svcore/stream_api.cpp:145-153 | A pointer set to a node holds a reference to it. |
| Pipeline.SpliceHere | src/svcore/stream_api.cpp:366-431 | The new node takes the place of the first one, which becomes its source, and the count of that one is what it was. |
| Pipeline.InsertBefore | src/svcore/stream_api.cpp:366-431 | On the heap: the node ends up directly in front of the named one, or the chain is unchanged and the answer -1; a failing open is reported although the node stays in. |
| Pipeline.InsertElement | src/svcore/stream_api.cpp:366-431 | The same from the head pointer, with an empty chain accepting the node. |
| Pipeline.RemoveHere | src/svcore/stream_api.cpp:321-364 | The first node leaves the chain without a source and is handed to the caller or released. |
| Pipeline.RemoveElement | src/svcore/stream_api.cpp:321-364 | Exactly the named node leaves the chain; all other nodes keep their counts. |
| Pipeline.FindElement | src/svcore/stream_api.cpp:304-318 | The result is the first node of that name, or null if and only if there is none. |
| Pipeline.PositionIsFirst | src/svcore/stream_api.cpp:304-318 | A name leads to the first node that matches and to none exactly if none does. |
| Pipeline.RemovalUndoesInsertion | src/svcore/stream_api.cpp:321-431 | Taking the inserted node out by name gives the chain from before, as long as no node in front of it has the name. |
| Pipeline.CountedSpliced | src/svcore/stream_api.cpp:366-431 | After an insertion every count is the chain's pointer plus the references held elsewhere. |
| Pipeline.InsertAndRemove | src/svcore/stream_api.cpp:321-431 | Insertion followed by removal restores chain, sources and every reference count on the heap. |
| AudioRenderer.AudioStream.PushFrame | src/videolib/stream_audio_renderer_portaudio.cpp:453-486 | Unless muted, the frame is queued, its bytes are counted and the event is set. |
| AudioRenderer.AudioStream.SeekTo | src/videolib/stream_audio_renderer_portaudio.cpp:436-450 | Seeking empties queue and counters and touches neither event nor thread. |
| AudioRenderer.AudioStream.SetMuted | src/videolib/stream_audio_renderer_portaudio.cpp:178-197 | Muting for the first time, or to another value, flushes. |
| AudioRenderer.AudioStream.FlushQueue | src/videolib/stream_audio_renderer_portaudio.cpp:489-497 | The queue is empty and its byte count zero. |
| AudioRenderer.AudioStream.StopRunning | src/videolib/stream_audio_renderer_portaudio.cpp:500-542 | Closing first clears the running flag. |
| AudioRenderer.AudioStream.Signal | src/videolib/stream_audio_renderer_portaudio.cpp:500-542 | Closing then sets the event. |
| AudioRenderer.AudioStream.TestRunning | src/videolib/stream_audio_renderer_portaudio.cpp:200-247 | The thread leaves its loop exactly when it finds the flag cleared. |
| AudioRenderer.AudioStream.TakeFrame | src/videolib/stream_audio_renderer_portaudio.cpp:200-247 | Critical section: a frame if the queue is above its threshold, else the event is reset in the same section. |
| AudioRenderer.AudioStream.UseFrame | src/videolib/stream_audio_renderer_portaudio.cpp:228-288 | After the section: play, wait, end, or leave the protocol. |
| AudioRenderer.NextKeepsInv | src/videolib/stream_audio_renderer_portaudio.cpp:200-542 | Each step of each thread keeps the protocol's invariant. |
| AudioRenderer.RunKeepsInv | src/videolib/stream_audio_renderer_portaudio.cpp:200-542 | So does every interleaving. |
| AudioRenderer.NoLostWakeup | src/videolib/stream_audio_renderer_portaudio.cpp:200-542 | In every state of every interleaving a blocked playback thread has no more than its threshold queued, the byte count is that of the queue, and nobody is blocked once closing has set the event. |
| AudioRenderer.ShutdownProgress | src/videolib/stream_audio_renderer_portaudio.cpp:500-542 | After that the playback thread always has a step to take and each brings it nearer to its end. |
| AudioRenderer.ShutdownIsBounded | src/videolib/stream_audio_renderer_portaudio.cpp:500-542 | Whatever the other threads go on doing, it is done after at most four steps of its own. |
| AudioRenderer.DerailsIff | src/videolib/stream_audio_renderer_portaudio.cpp:228-288 | A thread without a frame goes on to play the missing one if and only if closing has begun. |
| AudioRenderer.ClosingCanDerail | src/videolib/stream_audio_renderer_portaudio.cpp:228-288 | An interleaving in which that happens. |
| AudioRenderer.TakesIff | src/videolib/stream_audio_renderer_portaudio.cpp:218-236 | The first frame of the queue is taken exactly if there is one while playing, or if there are three before playing. |
| AudioRenderer.TakenThenQueued | src/videolib/stream_audio_renderer_portaudio.cpp:200-497 | In every interleaving from any state: the frames taken since the last flush, followed by the queue, are the frames pushed while not muted since then, in order. |
| AudioRenderer.PlaysWhatWasPushed | src/videolib/stream_audio_renderer_portaudio.cpp:200-497 | So it is from the start of the playback thread on. |
| AudioRenderer.TakenIsWritten | src/videolib/stream_audio_renderer_portaudio.cpp:228-288 | What is taken is written to the device in that order, but for the frame in hand; only a device that cannot be started loses the one it was to be started for, and the thread ends. |
| AudioRenderer.NeverPlaysOnAStoppedDevice | src/videolib/stream_audio_renderer_portaudio.cpp:228-288 | In no interleaving is a frame written to a device that is not running. |
| AudioRenderer.EndsOnlyForACause | src/videolib/stream_audio_renderer_portaudio.cpp:200-247 | The thread ends only once closing has begun or the device could not be started. |
| AudioRenderer.SleepsUntilWoken | src/videolib/stream_audio_renderer_portaudio.cpp:228-260 | A thread that found nothing to take cannot wake before a frame is pushed or closing sets the event. |
| AudioRenderer.AudioStream.WakeUp | src/svcore/sv_os.cpp:854-932 | A wait ends when the event is set, and the event stays set. |
| FramePool.PooledFrame.Release | src/svcore/frame_allocator.cpp:76-88 | A freed frame is cut off its pool before its destructor runs, so it does not come back. |
| FramePool.FrameAllocator.ReduceList | src/svcore/frame_allocator.cpp:92-103 | One free frame is freed if and only if there are more than five and none was made for two seconds. |
| FramePool.FrameAllocator.Get | src/svcore/frame_allocator.cpp:106-124 | The head of the list, or null; the frame moves from free to outstanding and both counters follow. |
| FramePool.FrameAllocator.Register | src/svcore/frame_allocator.cpp:127-132 | A new frame is outstanding. |
| FramePool.FrameAllocator.Return | src/svcore/frame_allocator.cpp:150-170 | The frame moves back to the head of the list or is freed; a waiting destruction completes when it was the last one out. |
| FramePool.FrameAllocator.Destroy | src/svcore/frame_allocator.cpp:174-206 | With frames outstanding the destruction waits, else every free frame is freed. |
| FramePool.FrameAllocator.FreeAll | src/svcore/frame_allocator.cpp:197-204 | Every frame of the list is freed, in order. |
| FramePool.StepConserves | src/svcore/frame_allocator.cpp:76-206 | A call moves frames between free, outstanding and freed; only registering brings one in. |
| FramePool.CompletesExactlyWhen | src/svcore/frame_allocator.cpp:150-206 | The pool goes away if and only if it is destroyed with nothing out or a waiting destruction sees its last frame return. |
| FramePool.RunConserves | src/svcore/frame_allocator.cpp:76-206 | Over every run of calls each frame is in exactly as many places as it was registered. |
| FramePool.EachFrameIsFreedAtMostOnce | src/svcore/frame_allocator.cpp:76-206 | None is freed twice, freed while outstanding, or lost; when the pool is gone all have been freed. |
| FramePool.StepFrees | src/svcore/frame_allocator.cpp:92-206 | Exactly which frames a call frees, in order: one free frame if more than five remain and none was made for two seconds, with it the one being returned, and all the rest when the pool goes away. |
| FramePool.TakeUndoesReturn | src/svcore/frame_allocator.cpp:106-170 | The frame returned last is the first handed out again, and taking it undoes the return. |
| FramePool.ReturnUndoesTake | src/svcore/frame_allocator.cpp:106-170 | Returning a frame undoes taking it. |
| FramePool.AllocFrame | src/svcore/frame_basic.cpp:562-615 | Reusing a pooled frame or making a new one, the caller gets one reference to an outstanding frame. |
| FramePool.UnrefFrame | src/svcore/frame_basic.cpp:426-480 | Only the last reference sends the frame back. |
| GrowableFrame.BasicFrame.AllocMem | src/svcore/frame_basic.cpp:618-632 | A fresh buffer ends in 32 zero bytes. |
| GrowableFrame.BasicFrame.GrowTo | src/svcore/frame_basic.cpp:634-659 | Growing keeps or drops the data as asked, never shrinks, and leaves the frame alone when memory is refused. |
| GrowableFrame.BasicFrame.EnsureRoom | src/svcore/frame_basic.cpp:668-681 | Afterwards there is room for what is to come, or memory was refused. |
| GrowableFrame.BasicFrame.AppendBytes | src/svcore/frame_basic.cpp:684-694 | The data is followed by the new bytes, the padding stays zero. |
| GrowableFrame.AppendsConcatenate | src/svcore/frame_basic.cpp:684-694 | A run of appends holds the concatenation of those that succeeded. |
| GrowableFrame.RefusedOnlyWithoutMemory | src/svcore/frame_basic.cpp:684-694 | An append fails only if it had to grow and memory was refused. |
| GrowableFrame.AppendIsPaidFor | src/svcore/frame_basic.cpp:668-694 | A reallocating append leaves less than twice the data allocated and copies at most nine times what it adds. |
| GrowableFrame.RunIsPaidFor | src/svcore/frame_basic.cpp:668-694 | Over any run the bytes copied are at most nine times the growth of the buffer. |
| GrowableFrame.LinearCopying | src/svcore/frame_basic.cpp:668-694 | Building data up in a new frame copies less than eighteen bytes per byte of data. |
| GrowableFrame.AppendGrowsByAFifth | src/svcore/frame_basic.cpp:668-694 | An append that does not fit grows the buffer by a fifth, or by its own size if that is more; any other leaves the capacity and copies nothing. |
| GrowableFrame.GrowingKeepsOrDrops | src/svcore/frame_basic.cpp:634-659 | Growing succeeds if and only if memory is granted or not needed, never shrinks, and loses the data exactly if it must move it and is not told to keep it. |
| Decoder.Stream.constructor | src/videolib/stream_ffmpeg_decoder.cpp:340-390 | A new decoder seeks nothing and holds no frame. |
| Decoder.Stream.SeekTo | src/videolib/stream_ffmpeg_decoder.cpp:878-904 | A seek drops all held frames and the end-of-file mark; only a precise seek of a video decoder sets a target, and no seek clears one. |
| Decoder.Stream.TakeAnswer | src/videolib/stream_ffmpeg_decoder.cpp:1056-1151 | One answer of the codec: skipped if it goes back in time, withheld before the target, or returned with the neighbour saved. |
| Decoder.Stream.ReceiveFrame | src/videolib/stream_ffmpeg_decoder.cpp:1034-1151 | The codec is asked until a frame may be returned or it has none. |
| Decoder.Stream.SubmitPacket | src/videolib/stream_ffmpeg_decoder.cpp:1155-1268 | A packet is submitted, refused, or passed on when it belongs to another medium; the end of the source is remembered and flushes the codec. |
| Decoder.Stream.TryOnce | src/videolib/stream_ffmpeg_decoder.cpp:1280-1328 | Order of return: the frame read while opening, then the saved neighbour, then the codec, then the source. |
| Decoder.Stream.ReadFrame | src/videolib/stream_ffmpeg_decoder.cpp:1271-1339 | A call goes on until it has a frame or an error, and an error outside the end of file is final. |
| Decoder.DrainingPays | src/videolib/stream_ffmpeg_decoder.cpp:1034-1338 | Conservation over a whole run of reads: what was owed for the answers consumed is what was returned, in order, plus what is still owed. |
| Decoder.LandIsLanding | src/videolib/stream_ffmpeg_decoder.cpp:1118-1148 | Withholding output by output ends where a search of all kept outputs for the first at or after the target, or its predecessor, does. |
| Decoder.PreciseSeek | src/videolib/stream_ffmpeg_decoder.cpp:878-904 | After a precise seek, whatever the decoder did before, the frames returned are a suffix of the outputs kept since: from the first at or after the target, or with sfBackward and no exact hit from the one before it; none if the target is never reached. |
| Decoder.RoughSeek | src/videolib/stream_ffmpeg_decoder.cpp:878-904 | After a seek that is not precise every kept output is returned, for all inputs, if and only if no earlier precise seek was left unfinished (or the decoder had failed). |
| Decoder.KeptIsInOrder | src/videolib/stream_ffmpeg_decoder.cpp:1092-1107 | The outputs kept never go back in time, whatever the codec gives. |
| Decoder.InOrderAllAreKept | src/videolib/stream_ffmpeg_decoder.cpp:1092-1107 | Outputs that come in order are all kept. |
| DecoderFlow.DrainingFlows | src/videolib/stream_ffmpeg_decoder.cpp:1034-1338 | Over a run of reads: what is taken from codec and source, that every picture is either kept or skipped, and the one cause for which reading ends. |
| DecoderFlow.OtherMediaPassThrough | src/videolib/stream_ffmpeg_decoder.cpp:1162-1168 | The frames of other media that a run of reads returns are, in order, exactly those among the packets it has read. |
| DecoderFlow.SeekingReadsOn | src/videolib/stream_ffmpeg_decoder.cpp:1271-1339 | After any seek one packet is read for each time the codec has no frame or gives one too old, up to the end of the file and never beyond. |
| DecoderFlow.ReadingStopsForACause | src/videolib/stream_ffmpeg_decoder.cpp:1271-1339 | Reading ends when input runs out or at the first fatal answer or packet: a broken codec, a frame in time that cannot be exported, the 31st late one, a refused packet, a read error or a failed flush; the decoder has failed exactly if that came before the end of the file. |
| DecoderFlow.NegativeIsLate | src/videolib/stream_ffmpeg_decoder.cpp:1092-1107 | A negative 64-bit timestamp compares as later than all others, and -1 is the one that stands for none. |
| UriMask.SanitizeUri | src/svcore/sv_os.cpp:299-393 | The buffer ends up with the masked text, cut to its size, as a terminated string; without a buffer there is no result. |
| UriMask.MaskBuffer | src/svcore/sv_os.cpp:315-390 | The loop, whose length variable is always that of the string and whose measure is the length left, computes the declarative masking. |
| UriMask.ShortenUser | src/svcore/sv_os.cpp:339-375 | Credentials of three characters or more in front of the authority's end become `u:p` and the rest moves up. |
| UriMask.MoveUp | src/svcore/sv_os.cpp:363-370 | Moving within the buffer keeps the text before and after in place. |
| UriMask.SanitizingIsIdempotent | src/svcore/sv_os.cpp:299-393 | Masking a masked text changes nothing. |
| UriMask.OnlyTheAuthorityChanges | src/svcore/sv_os.cpp:299-393 | The result is never longer; what precedes the authority and what follows it stays. |
| UriMask.AuthorityFollowsSlashes | src/svcore/sv_os.cpp:319-336 | The authority begins at the first character that is no slash and follows two slashes in a row, with no question mark before it; there is none if and only if there is no such character. |
| UriMask.OnlyMarksShow | src/svcore/sv_os.cpp:380-387 | In place of the authority only punctuation, the masking letter and `u:p` show. |
| UriMask.CredentialsVanish | src/svcore/sv_os.cpp:339-375 | The result does not depend on what the credentials were, nor on their length. |
| UriMask.MasksExactly | src/svcore/sv_os.cpp:299-393 | The whole result, part by part: every character of the authority but slashes, dots, at-signs and colons becomes x, and credentials of three characters or more become `u:p` unless their at-sign is the last character of the text. |
| UriMask.NoAuthorityNoChange | src/svcore/sv_os.cpp:319-336 | A text in which nothing follows two slashes stays as it is. |
| BufferedFile.File.constructor | src/svcore/buffered_file.cpp:112-125 | A new file is empty. |
| BufferedFile.File.SeekTo | src/svcore/buffered_file.cpp:155-173 | A seek inside the file moves the position; any other, and any on a spoilt file, changes nothing and gives -1. |
| BufferedFile.File.AllocBuffer | src/svcore/buffered_file.cpp:204-216 | A chunk is added if and only if the ones there are come to less than the maximum, and the content does not change. |
| BufferedFile.File.FillChunk | src/svcore/buffered_file.cpp:234-245 | Writing inside one chunk is writing to the flat sequence, to the end of the chunk at most. |
| BufferedFile.File.WriteToBuffer | src/svcore/buffered_file.cpp:219-246 | Writes a non-empty prefix at the position, or nothing if and only if the file is full; there are always exactly as many chunks as the length needs. |
| BufferedFile.File.WriteBytes | src/svcore/buffered_file.cpp:177-200 | Writing chunk by chunk overwrites the flat file at the cursor; what does not fit spoils the file after filling it up. |
| BufferedFile.File.Save | src/svcore/buffered_file.cpp:262-270 | Every chunk but the last is emitted whole and of the last what the length leaves over; a stream that runs full takes a prefix of that, and the answer tells exactly whether it took all. |
| BufferedFile.File.SaveToFile | src/svcore/buffered_file.cpp:250-259 | A spoilt file is refused before the named file is opened. |
| BufferedFile.ChunkWriteIsFlat | src/svcore/buffered_file.cpp:234-245 | Replacing part of one chunk is overwriting that part of the concatenation of all chunks. |
| BufferedFile.SaveIsExactIff | src/svcore/buffered_file.cpp:262-270 | What is saved is the content if and only if it is empty or does not end with a full chunk; otherwise exactly the last chunk is missing. |
| BufferedFile.RunsAreFlat | src/svcore/buffered_file.cpp:155-246 | A run of seeks and writes succeeds if and only if an unbounded flat file takes it and the result fits; then both hold the same. |
| BufferedFile.SpoiltForGood | src/svcore/buffered_file.cpp:155-201 | A spoilt file refuses everything and keeps what it has. |
| BufferedFile.SeekReportsThePosition | src/svcore/buffered_file.cpp:155-173 | A seek gives the new position, or -1 and changes nothing. |
| BufferedFile.FailedWriteFillsTheFile | src/svcore/buffered_file.cpp:177-246 | A write that does not fit leaves the file full and spoilt, with as much of the data as fits. |
| BufferedFile.CapacityIsLeastMultiple | src/svcore/buffered_file.cpp:204-216 | The room there is is the least multiple of the chunk size that is not below the maximum. |
| InputIterator.ListStream.OpenCurrent | src/videolib/stream_input_iterator.cpp:271-308 | Opening restarts both media's packet counts and the source, and reports the outcome. |
| InputIterator.ListStream.OpenIn | src/videolib/stream_input_iterator.cpp:311-316 | Opening the list opens its first file. |
| InputIterator.ListStream.ReadFrame | src/videolib/stream_input_iterator.cpp:363-425 | A read gives the next packet moved to its file's offset, going on to further files as they end; the number of files left bounds the retries. |
| InputIterator.ListStream.SeekTo | src/videolib/stream_input_iterator.cpp:319-359 | The node ends up in the file found, reopened only if it is another one, at the place where the source lands; a failure leaves it in that file. |
| InputIterator.ReadKeepsOffsets | src/videolib/stream_input_iterator.cpp:403-421 | Once a packet of a medium was read from a file, that medium's offset is the file's, for both media. |
| InputIterator.SeekKeepsOffsets | src/videolib/stream_input_iterator.cpp:319-359 | A seek keeps that. |
| InputIterator.DrainIsAhead | src/videolib/stream_input_iterator.cpp:363-425 | Reading on returns exactly what lies ahead, up to the first fault or file that does not open. |
| InputIterator.PlaysEverything | src/videolib/stream_input_iterator.cpp:271-425 | With good files the list plays every packet of every file once, in order, each moved to its offset. |
| InputIterator.TimelineNeverGoesBack | src/videolib/stream_input_iterator.cpp:408-414 | With sorted offsets and files that fit their slots no medium ever goes back in time. |
| InputIterator.SeekFindsTheFile | src/videolib/stream_input_iterator.cpp:325-351 | The file sought in is the one whose slot holds the target, and only that one; it is asked for exactly what is left over. |
| InputIterator.SeekOutside | src/videolib/stream_input_iterator.cpp:325-351 | A target before the first file goes to its beginning; a negative one, taken as unsigned, to the last file. |
| InputIterator.SeekLandsOnTheTimeline | src/videolib/stream_input_iterator.cpp:319-425 | If the source lands where it is asked to, reading on after a seek plays the rest of the one timeline from the target on, whatever was read before. |
| InputIterator.EndIsFinal | src/videolib/stream_input_iterator.cpp:319-375 | Once the end was reached, seeking does not make the list readable again. |
| InputIterator.ReadingStopsForACause | src/videolib/stream_input_iterator.cpp:363-425 | A read brings nothing only at the end of the list, when a file does not open, or for a faulty packet; the files passed on the way are empty. |
| InputIterator.ReadCountsTheFrame | src/videolib/stream_input_iterator.cpp:403-425 | Each frame is counted once, for its medium, whose last timestamp is the frame's. |
| InputIterator.SeekSucceedsIff | src/videolib/stream_input_iterator.cpp:319-359 | A seek succeeds if and only if the list is empty, or the file found is open already or opens now and the source can seek in it; that file is the current one either way. |
| ClipChain.StreamReader.InitVariables | python/StreamReader.py:317-331 | The names of the session are forgotten; the thread and the database are not touched. |
| ClipChain.StreamReader.FinalizeMoverThread | python/StreamReader.py:624-636 | A finished thread's file is registered and the thread forgotten; an unfinished one is left alone unless waited for. |
| ClipChain.StreamReader.AddFileToDb | python/StreamReader.py:620-647 | A new thread starts only after the one before it has been registered. |
| ClipChain.StreamReader.CloseStream | python/StreamReader.py:509-538 | Closing registers what is being moved and what was being recorded, in that order. |
| ClipChain.StreamReader.OpenStream | python/StreamReader.py:434-480 | A stream that is still open is closed, and its files registered, before the new one is opened. |
| ClipChain.StreamReader.FollowFile | python/StreamReader.py:680-688 | A change of file name hands the file before over and starts a new one. |
| ClipChain.StreamReader.GetNewFrame | python/StreamReader.py:650-703 | A poll hands over a frame after following its file, finds nothing, or finds the stream stopped and closes it; finished threads are registered on the way. |
| ClipChain.BaseIsTheLastPart | python/StreamReader.py:684-685 | A file's name is the part of its path after the last slash. |
| ClipChain.StepAgrees | python/StreamReader.py:509-703 | Every call keeps registered plus moving equal to all finished files, each once, in order. |
| ClipChain.EveryFileOnce | python/StreamReader.py:509-703 | Whatever the threads do, at every moment each recorded file is registered, moving or being recorded exactly once, in the order of recording; once closed, all are registered. |
| ClipChain.TimingDoesNotMatter | python/StreamReader.py:624-636 | Two runs that differ only in when threads finish register the same. |
| ClipChain.ChainIsLinked | python/StreamReader.py:601-618 | Each clip has the directory, name and times of its own first and last frame, and its link names the clip registered before it if and only if that file's name has no capitals. |
| ClipChain.LowerMovesCapitals | python/StreamReader.py:601-618 | Lower case moves the 26 capitals of ASCII and nothing else. |
| ClipChain.DirIsLocationAndPrefix | python/StreamReader.py:680-688 | A clip is filed under its location and at most five characters of its name, in lower case. |
| ClipChain.FinishedThreadIsRegistered | python/StreamReader.py:624-703 | A thread found done when a frame is delivered has its file registered there and then; one still alive keeps it unless a new file has to be moved. |

## Left out

- Foreign libraries (ffmpeg, PortAudio, IPP, packet capture, memory maps, local cameras) and ctypes calls: only their answers appear, as inputs.
- Codec and device selection, filter strings, resizing, colour conversion, logging, parameter tables, statistics and simple getters: plumbing without an invariant of its own.
- Interpolation of bounding boxes and event frames: float rounding, or easy members only.
- Overflow of 32- and 64-bit integers: numbers are exact, except where a conversion between signed and unsigned or a truncation decides a branch (decoder and iterator timestamps, the 16-bit length of a parameter set, C++ division in the jitter buffer).
- Jitter buffer: the frame counter for tracing, reference counts of frames, and changing the windows while running; the ordering theorems assume that no frame is later than the window, as the node's design does.
- JitterBuffer.JitterBufferStream.ServeHead: a node that keeps history at a replay rate of 0 is excluded, and from `Get` and `ReadFrame` with it, because the C++ divides by that rate as soon as a second video frame of a clock second is served; without history a rate of 0 is covered.
- Recorder.RecorderStream.WriteOut: does not state dts or packet flags other than the keyframe's; `CloseFile` does not state the trailer.
- Recorder: rescaling of times to the muxer's time base, the bitstream filter, notifications, duration bookkeeping, and a node without a source.
- Bits.ReadUnsignedGolomb: a code of more than 30 leading zeros and a read past the end of the buffer have no defined value in the C++ and are reported as `Undefined`.
- SpsRoundTrip.ParameterSetRoundTrip: does not cover profiles 128, 134, 135, 138 and 139 or the twelve scaling lists of chroma_format_idc 3, because the parser does not know them; emulation-prevention bytes are not removed by the parser and not part of the writer.
- `videolibapi_contained_nalu` and the conversion of parameter sets to extradata.
- FpsLimiter.Limiter.ReportFrame: rates are exact reals where the C++ computes in single precision, timestamps are not negative, and wall-clock mode is not part of this model.
- Pipeline.Unref: does not model the recursive teardown of a node that still has a source when its last reference goes; such a call is excluded by a precondition.
- Pipeline.InsertElement: does not model inserting a node that already has a source, nor a name looked for in an empty chain, which the source asserts against; API tables and log callbacks carried along the chain are not modelled.
- Pipeline.InsertBefore: does not model a node that already has a source, which the insertion would release.
- Pipeline.Share: does not model a pointer that already holds a node, which the source releases first.
- Pipeline.RemoveHere: does not model handing the node to a pointer that already holds one.
- Pipeline.RemoveElement: likewise, and the call that closes the removed node is not modelled.
- AudioRenderer.AudioStream.UseFrame: the path on which the thread plays a frame it does not have ends the model (`Derailed`); what PortAudio does, clean-up after joining the thread and retrying the initialization are not modelled.
- FramePool.FrameAllocator.Register: one atomic step here, though the source runs it without the mutex; failure of malloc and what a frame carries are not modelled.
- GrowableFrame.BasicFrame.AllocMem: alignment of the buffer to 16 bytes is not modelled.
- Decoder.Stream.SubmitPacket: the count of packets without a frame, on which the source gives up at a keyframe, is part of the packet's outcome; hardware transfer and reopening of the codec likewise; pass-through decoders are not modelled.
- Decoder.Stream.ReadFrame: a call ends as `Blocked` where the list of the codec's answers ends.
- UriMask.SanitizeUri: characters are single bytes without locale.
- BufferedFile.File.Save: a stream goes bad only by running full; other device errors are not modelled.
- InputIterator.ListStream.SeekTo: where the source lands in a file is an input; parameters passed to the source are not modelled.
- ClipChain.StreamReader.OpenStream: stream options and the parameters of the memory map are not modelled.
- ClipChain.StreamReader.GetNewFrame: a frame delivered together with the news that the stream has stopped is not modelled, because the code reads that frame after freeing it; nor is a frame without a file name, a reader without a clip manager (which registers nothing), or the outcome of moving a file.
