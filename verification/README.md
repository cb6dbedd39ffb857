# CD audio extraction: a verified model

This project models how xmcd's CDDA library reads audio from a disc, passes it
from a reader thread to a writer thread, and turns it into track files, and how
several `cda` clients talk to one daemon. The properties hold for every input,
every schedule and every length of run unless a row says otherwise.

| files | part of the system |
|---|---|
| `Semaphores`, `Protocol`, `ProtocolInv`, `Progress`, `FifoRefinement`, `Completion`, `ModArith` | reader, writer and control thread around one ring and the semaphores LOCK, ROOM and DATA, as a state machine whose steps are single semaphore operations and accesses to shared fields |
| `Layout` | sizes and regions of the shared segment |
| `Jitter`, `ReaderSpec`, `RingSlots`, `Reader`, `Recovery`, `Drift`, `Seamless`, `ShortChunks`, `Coverage`, `Remaining`, `Tiling` | the reader's loops over the buffers, error recovery, jitter correction, and what whole runs put into the ring |
| `Stdio`, `GenFile`, `AudioFormats` | one file: the stdio buffer and the disk behind it, headers, what is left after a close |
| `Tracks`, `Shelves`, `TrackWriter`, `Samples`, `Outgoing`, `ReadBack` | the writer's output: which chunk goes to which track file, the files on the disk, sample processing, what a reader of the files finds |
| `Extraction`, `Example` | reader, ring, writer and track files together, and settings in which the theorems apply |
| `Pipe`, `PipeRuns`, `PipeAnswers`, `PipeOrder` | clients and daemon over the two pipes |
| `ProgramText`, `Program` | the track program: its text, its table, its commands |

Code that changes shared fields and buffers is modelled by classes
(`Layout.SharedSegment`, `Reader.CdReader`, `TrackWriter.Splitter`,
`GenFile.GenDesc`, `Program.Daemon`) whose methods keep the source's loops and are
proved equal to functions (`ReaderSpec`, `Stdio`, `GenFile`, `Tracks`, `Shelves`,
`ProgramText`); the theorems are about those functions. A device read, a write
to a file, a flush and an input or output error are oracles: arbitrary functions of
the call number.

## Where the code does less than its comments say

Members ending in `Iff` hold both the counterexample and the exact condition
under which the code does meet the property.

- The writer can end a run before the last chunk is deposited, because
  `cdda_done` is set before the last chunk is read and outside LOCK. Some schedule loses
  the last chunk exactly when the plan has more chunks than the ring
  (`Completion.DrainingIsCompleteIff`).
- The writer's error exits post LOCK without holding it. With counting
  semaphores LOCK is then 2, `play` does not reset it, and the next run has no
  mutual exclusion (`Completion.NextRunIsExclusiveIff`).
- With jitter correction on, the block address is sure to move forward only if
  chunks have at least three blocks (`Drift.AdvancesIff`), and runs are sure to
  be seamless only if they have at least two: with one, bytes of no read get
  into the overlap (`ShortChunks.AlwaysSeamlessIff`).
- The search takes the first match in the window, so it finds the true
  alignment exactly when the first 20 bytes of the read do not occur earlier in
  it (`Jitter.FindsAlignmentIff`).
- The track index is left over from the last run where no track is found, and a
  chunk in hand at a stop is filed under the track of the one before it
  (`Tracks.NeverFallsIff`, `Tracks.OwnTrackIff`).
- The errors counted in a run of the reader are not reset for the next one in the
  threads build: after a run that gave up, the next one gives up at its first failed
  request, unless some request before that forgives (`Recovery.GivesUpAtOnceIff`;
  `Recovery.RunGivesUpIff` is for any count left over).
- With jitter correction on, the read that reaches the end may have no frame left
  to read. It is sure to have one exactly for drives that stray by less than a
  quarter of a block (`Remaining.AlwaysRemainsIff`).
- Closing a file reports what fclose returns, and looks neither at the flush before
  it nor at the header. Its success means a finished file with all that was accepted,
  whatever the writes answer, exactly if the file has a stdio buffer with room for
  the header and the flush, fstat and seek are known to succeed
  (`GenFile.SuccessMeansFinishedIff`). Without a buffer a full disk leaves a header
  that no reader accepts (`GenFile.StaleHeader`); with one a failed flush can lose
  the end of the audio while close reports success (`GenFile.LostEnd`).
- With two clients, one can reject the response of the other until it is
  dropped, and the other then waits for a response that does not exist
  (`PipeRuns.NeverDropsIff`). After a failed call the next one can get the old
  response (`PipeRuns.StaleResponse`): a call under way is sure of its own exactly if
  no packet of an earlier call of the client is in a pipe, at the daemon, or in a
  hand with fewer than 200 rejections (`PipeAnswers.SureOfOwnIff`).
- A program that is refused leaves the text of the tracks in front of the
  unknown one (`Program.RefusedLeavesText`).  The parser prints the tracks it
  entered anew into a buffer that it throws away: the text that stays is that
  list exactly when it was printed from tracks of the disc that all fit
  (`Program.TextIsTableIff`; `Program.SkippedStays` is one unknown track).

## Model

| member | source | states |
|---|---|---|
| Semaphores.PostAlwaysLeavesAToken | cdda_d/sysvipc.c:1566-1632 | under both implementations a post that returns leaves the value at least 1 and adds at most one; the ERANGE reset and retry gets closer to returning |
| ProtocolInv.StartInv | cdda_d/pthr.c:868-894 | what play sets up satisfies the invariant |
| ProtocolInv.StepKeepsInv | cdda_d/wr_fp.c:113-256 | every step of reader, writer and control thread, also a write error, keeps the whole invariant: lock ownership, ring contents, progress of the reader, tokens, what is written, how the run ends |
| ProtocolInv.ReachableInv | cdda_d/rd_linux.c:62-428 | the invariant holds in every state of every interleaving |
| Progress.RunsAreFinite | cdda_d/rd_linux.c:249-428 | no schedule, however it pauses, stops or fails, has more than 80 times the plan's chunks plus 96 steps of the two threads |
| Progress.NeverStuck | cdda_d/wr_fp.c:113-256 | in every reachable state that is not paused, one of the threads can move or both have left |
| Progress.NoLostWakeup | cdda_d/rd_linux.c:372-378 | a reader asleep on ROOM faces a full ring and a writer asleep on DATA an empty one, unless the token is there or the other is about to post it; neither sleeps once the other has left |
| Progress.StoppedRun | cdda_d/pthr.c:1003-1082 | after COMPLETED every own step of a thread brings it nearer to its exit, no step of the other brings it further, and the remaining deposits are known |
| Progress.ExitBounds | cdda_d/pthr.c:1003-1082 | bounds of these distances in every state |
| Progress.StopTakesEffect | cdda_d/pthr.c:1012-1073 | once COMPLETED is set it stays; the reader leaves within 12 own steps (5 more for each chunk left to fill), the writer within 14; neither stays blocked; nothing is deposited after COMPLETED was seen under LOCK |
| Progress.PauseTakesEffect | cdda_d/wr_fp.c:248-249 | from a pause to the next resume or stop the writer writes at most the chunk it is about to write, none once it waits in its delay loop |
| FifoRefinement.RefinesFifo | cdda_d/rd_linux.c:386-398 | every step leaves an abstract queue alone, appends the next chunk of the plan while it is not full, or hands its first chunk to the writer |
| FifoRefinement.StartsEmpty | cdda_d/pthr.c:881-884 | play starts with the empty queue |
| FifoRefinement.ContentsAre | cdda_d/wr_fp.c:138-150 | the occupied slots in ring order are the deposited chunks that were not taken |
| FifoRefinement.IndicesAgree | cdda_d/wr_fp.c:138-150 | 0 <= occupied <= ring size, the indices differ by occupied outside the update sections, the written chunks are a prefix of the plan |
| Completion.DrainedRun | cdda_d/wr_fp.c:117-122 | when the writer ends the run, every deposited chunk is written and at most the last one of the plan is missing, none if the plan fits into the ring |
| Completion.LastChunkCanBeLost | cdda_d/rd_linux.c:281-294 | for every plan longer than the ring there is a schedule without stop or error that ends without the last chunk |
| Completion.DrainingIsCompleteIff | cdda_d/wr_fp.c:117-122 | all drained runs write the whole plan if and only if the plan fits into the ring |
| Completion.UndisturbedRunEnds | cdda_d/wr_fp.c:113-256 | a run without stop and write error, taken as far as it goes and not left paused, is finite and ends with both loops left, the end set by the writer, and the plan written but for a last chunk that only a plan longer than the ring can lose |
| Completion.MutualExclusion | cdda_d/wr_fp.c:115-173 | reader and writer are never both between acquiring and releasing LOCK, also after the extra post of an error exit |
| Completion.LockAfterRun | cdda_d/wr_fp.c:199-243 | LOCK after a run is 1, but 2 after a write error with counting semaphores |
| Completion.TwoTokensBreakExclusion | cdda_d/sysvipc.c:920-950 | from LOCK 2 both threads get into their sections |
| Completion.NextRunIsExclusiveIff | cdda_d/pthr.c:890-894 | every next run keeps exclusion if and only if the semaphores are binary or this run had no write error |
| Layout.SharedSegment.GetShm | cdda_d/pthr.c:268-358 | the six regions tile the allocated segment; the ring holds at least 5 seconds and less than a chunk more; the sizes agree with each other |
| Layout.SharedSegment.InitIpc | cdda_d/pthr.c:1400-1422 | a thread that attaches computes the same six regions |
| Layout.SlotsTile | cdda_d/rd_linux.c:192-199 | the slots addressed by nextin lie in the ring's region one after the other and fill it |
| Jitter.NaiveScan | cdda_d/common.c:70-86 | the search as a plain scan: the result is a hit, and no offset before it is |
| Jitter.SkipTo | cdda_d/common.c:75-84 | offsets that memchr passes over, and odd ones, are no hits |
| Jitter.Search | cdda_d/common.c:70-86 | the memchr/memcmp loop terminates and finds exactly what the plain scan finds below 2 * search_bytes - 1 |
| Jitter.CorrJitter | cdda_d/common.c:57-105 | returned position and memory are those of the specification; with the three rows below: the first hit of the window decides, and without one, or with correction off, the read is taken as it was delivered |
| Jitter.NoMatchStays | cdda_d/common.c:88-98 | if no offset of the window is a hit, the chunk is the read as it was delivered and no byte of the memory changes |
| Jitter.FirstMatchDecides | cdda_d/common.c:70-95 | the least hit i puts the chunk i - 4704 bytes in front of where the read was placed |
| Jitter.MemoryIsRegion | cdda_d/pthr.c:268-358 | the memory of the search is the overlap region and the data region of the segment, one behind the other, with the read in the middle of the margins |
| Jitter.Correct | cdda_d/common.c:97-104 | chunk and overlap refill stay inside the memory for every displacement that can be found |
| Jitter.AllCopiesFitIff | cdda_d/common.c:97-102 | splice, chunk and refill stay in their regions for every displacement if and only if the margins are at least twice the search distance |
| Jitter.CorrectedBytes | cdda_d/common.c:97-102 | byte for byte, the splice puts idx bytes of the overlap in front of a late read and changes nothing else |
| Jitter.FindsAlignmentIff | cdda_d/common.c:70-95 | the true alignment is found if and only if the first bytes of the read do not occur earlier in the window at an even offset |
| Jitter.SpliceIsSeamless | cdda_d/common.c:70-104 | with the alignment found, the chunk is the disc from the byte due on, whether the read came late or early, and so is what follows it |
| Jitter.LastSplice | cdda_d/common.c:70-104 | the same for the read that ends in zeroed memory: the chunk is the disc up to the last byte read and zeros behind |
| ReaderSpec.FramesInBytes | cdda_d/rd_linux.c:300-303 | the division by the limit in bytes comes to all frames that remain or 13, whichever is less, also for negative numbers |
| Reader.CdReader.Request | cdda_d/rd_linux.c:129-149 | up to four attempts, numbers 0 to 3: the answer is that of the first attempt that succeeds, and there is none exactly if all four fail; success at once is told apart |
| ReaderSpec.AnswerIsFirst | cdda_d/rd_linux.c:129-149 | the specification of a request is the first success of four attempts |
| Reader.CdReader.TransferOne | cdda_d/rd_linux.c:305-347 | bytes, error count and error address after one request, with the skip, the limit of 20 and the forgetting of old errors |
| Reader.CdReader.TransferAll | cdda_d/rd_linux.c:300-352 | the do-while loop ends and leaves what request after request leaves, also for no or a negative number of frames |
| Reader.CdReader.FetchOne | cdda_d/rd_linux.c:275-352 | one read with the clearing of the buffer and the setting of cdda_done at the end of the segment |
| Reader.CdReader.AlignOne | cdda_d/rd_linux.c:174-178 | only the first read of a run is taken as it is |
| ReaderSpec.PutSlot | cdda_d/rd_linux.c:192-199 | a chunk copied to chunk_bytes * nextin of the ring's bytes changes that slot and no other |
| Reader.CdReader.PlaceOne | cdda_d/rd_linux.c:180-209 | refill of the overlap, then the copy into the ring, nextin and the rounded lba, as in the specification; where the chunks lie and what nextin is then is stated by counting under `RingSlots.RunFillsRing` |
| Reader.CdReader.ReadOne | cdda_d/rd_linux.c:99-210 | one pass of either loop: the whole new shared state |
| Reader.CdReader.ReadFillBuf | cdda_d/rd_linux.c:62-233 | lxcd_read_fillbuf leaves the state of the specification or gives up with it |
| Reader.CdReader.ReadOn | cdda_d/rd_linux.c:249-428 | the same for lxcd_read_cont, stopped at any loop test |
| Reader.CdReader.Read | cdda_d/rd_linux.c:461-505 | the same for a whole run, across the hand-over; in the end nextin is the number of chunks modulo the ring, and the bytes of slot i modulo the ring are chunk i, for as many last chunks as the ring has slots |
| RingSlots.RunFillsRing | cdda_d/rd_linux.c:202-203 | in every state that a run reaches, stopped anywhere: nextin is k modulo the ring after k chunks, and chunk i is in slot i modulo the ring until a ring of chunks has followed it |
| Recovery.GivesUpIff | cdda_d/rd_linux.c:317-347 | counting as the source does, from any count and block left over, the reader gives up exactly at the twentieth error that nothing has forgiven |
| Recovery.GivesUpAtOnceIff | cdda_d/rd_linux.c:45-46 | from a count of nineteen or more left over, and without forgiving, the reader gives up if and only if a request fails |
| Recovery.RunGivesUpIff | cdda_d/rd_linux.c:62-428 | a whole run gives up if and only if some request fails for good and the count is twenty with it: the failures since the last request that forgives (one answered at once, in cont, more than 1500 blocks behind the last failure), and, if none has forgiven yet, those that earlier runs of the session left |
| Recovery.SkippedStays | cdda_d/rd_linux.c:147-171 | after a read that did not give up, the place of each request holds its answer, or, if it was skipped, what was there before the read |
| Recovery.LeavesErrors | cdda_d/rd_linux.c:305-347 | what a run leaves for the next: a run that gave up did so at a failed request, with twenty errors or more, and leaves the block of the failure before that one |
| Recovery.FillNeverForgives | cdda_d/rd_linux.c:105-172 | no request of fillbuf forgives earlier errors |
| Drift.RoundsToNearest | cdda_d/rd_linux.c:206-209 | the rounding of lba is off by at most half a block; for a negative length, which C divides towards zero, it is up and by less than a block |
| Drift.TurnForgets | cdda_d/rd_linux.c:400-403 | after one turn the old displacement has dropped out of the new one |
| Drift.HandOverForgets | cdda_d/rd_linux.c:267 | at the hand-over only the drive's jitter is left |
| Drift.DriftIsBounded | cdda_d/rd_linux.c:206-209 | for every read of a run of any length the displacement is at most 2J + 1176 bytes, also across the hand-over |
| Drift.SteadyLba | cdda_d/rd_linux.c:206-209 | with a drive that strays by less than a quarter of a block lba is exactly k chunks from the start, and the displacement is the difference to the jitter of the first read |
| Drift.LbaStaysNear | cdda_d/rd_linux.c:206-209 | lba never strays from its place by more than 2J + 1176 bytes |
| Drift.DisplacementIsEven | cdda_d/rd_linux.c:400-403 | displacements stay whole samples |
| Drift.AdvancesIff | cdda_d/rd_linux.c:400-403 | lba moves forward behind every read, whatever bytes it brings, if and only if chunks have at least three blocks |
| Seamless.TransfersDeliver | cdda_d/rd_linux.c:300-352 | transfers of at most 13 frames, laid end to end, are one contiguous read |
| Seamless.AlignedRead | cdda_d/rd_linux.c:354-367 | in every read of a run that does not reach the end, the correction finds the displacement the arithmetic predicts |
| Seamless.UnmatchedRead | cdda_d/common.c:88-98 | in a run, a read without a match is placed as the drive delivered it, and lba moves on by exactly a chunk |
| Seamless.RunIsSeamless | cdda_d/rd_linux.c:62-428 | for runs of any length with chunks of two or more blocks, stopped anywhere: all chunks before the one that reaches the end join to one contiguous run of disc bytes, across the hand-over |
| ShortChunks.AlwaysSeamlessIff | cdda_d/rd_linux.c:62-428 | every run under the conditions of the theorem, whatever the fresh memory, disc, drive and segment, is seamless if and only if chunks have at least two blocks |
| ShortChunks.TwoReads | cdda_d/rd_linux.c:180-190 | a run with chunks of one block that takes memory in front of the first read for the disc and skips two blocks |
| Coverage.RunCoversSegment | cdda_d/rd_linux.c:249-428 | a jitter-corrected run left alone ends, and its full chunks are contiguous disc bytes as long as the segment, give or take a chunk and 2J + 1176 bytes; the last chunk, if it has a frame to read and can be aligned, is the disc from there to the end and zeros behind |
| Coverage.SteadyRunIsSegment | cdda_d/rd_linux.c:249-428 | with a drive that strays by less than a quarter of a block a jitter-corrected run makes exactly ceil(length / chunk length) chunks, and all of them together are the disc from where the first read began up to the end, with zeros behind |
| Remaining.AlwaysRemainsIff | cdda_d/rd_linux.c:281-294 | the read that reaches the end is sure to have a frame to read, for every disc and segment, if and only if the bound on the jitter is less than a quarter of a block |
| Coverage.WriterGetsDisc | cdda_d/wr_fp.c:138-150 | with jitter correction, at every moment of every schedule the writer has written one contiguous run of disc bytes, up to the chunk that reaches the end |
| Coverage.DrainedRunWritesDisc | cdda_d/wr_fp.c:117-122 | a drained run has written all full chunks, and the last one as above unless it was lost |
| Coverage.DrainedSteadyRun | cdda_d/wr_fp.c:117-122 | with a drive that strays by less than a quarter of a block all that a drained run has written is the disc up to the end with zeros behind; only the last chunk can be missing |
| Tiling.RequestsPartition | cdda_d/rd_linux.c:123-172 | the requests of a read partition it in order into pieces of 13 frames and a last one of 1 to 13 |
| Tiling.TransfersAskOnly | cdda_d/rd_linux.c:123-172 | a read makes no other requests than these |
| Tiling.SomethingRemains | cdda_d/rd_linux.c:107-117 | without jitter correction at least one frame remains before every read, and the read that reaches the end is the last one needed |
| Tiling.RunTiles | cdda_d/rd_linux.c:99-210 | a run stopped after n tests in cont has placed the first chunks of the padded segment, and how many |
| Tiling.WholeRunIsSegment | cdda_d/rd_linux.c:62-428 | a run left alone places ceil(length / chunk length) chunks: the sectors asked for, then less than a chunk of zeros |
| Tiling.WriterGetsSegment | cdda_d/wr_fp.c:138-150 | at every moment of every schedule the writer has written the padded segment up to some chunk and nothing else |
| Tiling.DrainedRunWritesSegment | cdda_d/wr_fp.c:117-122 | a drained run wrote the whole segment, or all but its last chunk, the latter only if there are more chunks than slots |
| Tracks.OnlyTrack | cdda_d/common.c:133-139 | a track that contains the block is the one the plain search finds, so the cached index may be tried first |
| Tracks.InsideIff | cdda_d/common.c:140-147 | the search finds a track if and only if the block lies between the first track and the lead-out |
| Tracks.NeverFallsIff | cdda_d/common.c:130-147 | the index never falls, in runs of any length, if and only if a run that starts before the first track does not find a later track's index left over |
| Tracks.OwnTrackIff | cdda_d/common.c:127-128 | the chunk in hand at a stop, for which the lookup is left out, is filed under its own track if and only if it is not the first to start in it |
| Tracks.FilesHoldParts | cdda_d/wr_fp.c:196-217 | if no index returns, no file is opened twice, every file holds exactly the pieces of its track, and other files stay as they were |
| Tracks.PartsJoin | cdda_d/wr_fp.c:189-231 | with indices that never fall the files in the order of the tracks are the stream |
| Tracks.NothingLostIff | cdda_d/wr_fp.c:196-217 | every file holds all that was written for its track if and only if no index returns, as every open truncates |
| TrackWriter.Splitter.SetCurTrk | cdda_d/common.c:119-162 | index after the cached lookup is that of the plain search, and the length is 2352 bytes for each block from the track's address to that of the next, and one more, as the source counts |
| TrackWriter.Splitter.SwitchFile | cdda_d/wr_fp.c:196-224 | a file is closed and opened only when the index changes; the open file, the files on the disk and what was accepted, after success, a failed close, a failed open, and an open that fails behind the truncation; a file just opened is the header for the length of its track |
| TrackWriter.Splitter.WriteAll | cdda_d/wr_fp.c:113-256 | for any failure and any stop: what was accepted for each track is what writing the accepted pieces under the looked-up indices leaves; behind the header of every file closed so far there is a beginning of it, the whole finished file if nothing failed and close can be relied on; nothing fails on systems without errors |
| TrackWriter.Splitter.Record | cdda_d/wr_fp.c:113-423 | with the close of the last file: on the disk every track's file is a header and a beginning of its part, and exactly the finished file of its part if the run and every close succeeded and close can be relied on; all other files are as before |
| Shelves.PassKeepsOk | cdda_d/wr_fp.c:196-231 | what one chunk keeps and adds, with the switch of files and every failure in it: closed files hold beginnings of their audio, other files stay, and a piece of the chunk is accepted, all of it exactly if nothing failed |
| Shelves.OnDiskIs | cdda_d/wr_fp.c:196-231 | with every file closed, the disk holds the parts of the tracks in files of their own |
| TrackWriter.FilesAreTheStream | cdda_d/wr_fp.c:189-231 | whatever fails, no file is opened twice and the files in order are the stream as far as it was written |
| Extraction.FilesHoldChunks | cdda_d/wr_fp.c:175-231 | for any chunks, formats and changes of volume and routing on the way: on the disk the file of each track is its part behind a header; if all went well and it fits into 32 bits, a reader that takes samples in the byte order of its format finds every processed frame of every chunk in its place; the parts in order are the processed chunks; other files are as before |
| ReadBack.FrameIsFound | cdda_d/wr_fp.c:175-191 | frame i of a chunk, attenuated and routed, is what a reader of the track file gets behind the samples of the earlier chunks of that track |
| Extraction.RecordChunks | cdda_d/wr_fp.c:284-423 | the run of the writer that leads there, from the first open to the last close, which succeeds on systems without errors |
| Extraction.PlainFiles | cdda_d/wr_fp.c:175-191 | with the volume up, no routing and WAV files the chunks go out as they are |
| Extraction.TrackFilesHoldTheSegment | cdda_d/wr_fp.c:113-256 | from the drive to the files on the disk without jitter correction: a drained run leaves the requested sectors, zero-padded and processed, in the track files with their headers, except for a last chunk that may be lost |
| Extraction.TrackFilesHoldTheDisc | cdda_d/wr_fp.c:113-256 | the same with jitter correction: the track files begin with contiguous disc bytes that cover the segment but for the jitter and a chunk, processed, even if the last chunk was lost; if it was not, it is the disc up to the end and zeros behind, as far as it has a frame and can be aligned |
| Example.NumberedDiscMeetsSetting | cdda_d/common.c:70-104 | for all sizes with chunks of two blocks, every segment and every jitter within the bound there is a disc and a drive that meet the conditions of the seam theorem |
| Example.SetupExists | cdda_d/wr_fp.c:284-360 | a setup of the writer that the theorems about the files admit |
| Example.RecordedExists | cdda_d/wr_fp.c:196-231 | for any chunks there are files on the disk as those theorems demand |
| Example.SegmentRunExists | cdda_d/rd_linux.c:62-428 | for every disc, sizes and segment longer than the ring, a run to which `TrackFilesHoldTheSegment` applies |
| Example.DiscRunExists | cdda_d/rd_linux.c:62-428 | for every drive within the bound and segment longer than the ring, a run to which `TrackFilesHoldTheDisc` applies |
| AudioFormats.FinishedReadsIff | cdda_d/wr_gen.c:283-425 | a finished AU, WAV or AIFF file, read by its own chunk lengths and with the samples in the order of its format (WAV little-endian, AU and AIFF big-endian), gives stereo 16-bit sound at 44100 with byte rate and block size to match, and exactly the audio, if its lengths fit into 32 bits, and is refused otherwise |
| AudioFormats.FinishedWavReads | cdda_d/wr_gen.c:283-338 | the same for WAV, with its bound |
| AudioFormats.FinishedAiffReads | cdda_d/wr_gen.c:351-425 | the same for AIFF, with the number of sample frames |
| AudioFormats.FinishedAuReads | cdda_d/wr_gen.c:221-270 | the same for AU with any comment |
| AudioFormats.Rate80Reads | cdda_d/wr_gen.c:408-409 | the ten bytes of the sample rate are 44100 |
| AudioFormats.NamesSpell | cdda_d/wr_gen.c:283-425 | the names of the files and of their chunks as they are spelled |
| Stdio.AllEmittedIff | cdda_d/wr_gen.c:1776-1799 | the whole buffer is accepted if and only if none of its calls fails |
| Stdio.EmitExtends | cdda_d/wr_gen.c:1776-1799 | whatever the calls answer, appending changes nothing on the disk, what is there and pending is a beginning of what was accepted, and all of it if the whole buffer was |
| Stdio.EmitOver | cdda_d/wr_gen.c:262-270 | writing a header over the beginning of a file leaves a beginning of it there and the rest of the file alone |
| Stdio.FlushExtends | cdda_d/wr_gen.c:1081-1085 | a flush that fails can lose pending bytes, never others; one that succeeds brings all of them to the disk |
| GenFile.GenDesc.WriteChunk | cdda_d/wr_gen.c:1776-1799 | under any short writes, true exactly if all was accepted; disk and buffer are those of the specification |
| GenFile.GenDesc.WriteHeader | cdda_d/wr_gen.c:283-338 | which length is announced, where and how much of the header is written, and what a failed fstat, flush or seek leaves |
| GenFile.GenDesc.Open | cdda_d/wr_gen.c:889-1030 | what an open that fails, before the truncation or behind it, and one that succeeds leave on the disk and in the buffer |
| GenFile.OpenedIsHeader | cdda_d/wr_gen.c:956-1030 | after an open that succeeded the file is the header for the estimate, also 0, and nothing else; after one that failed behind the truncation, a beginning of it |
| GenFile.GenDesc.Close | cdda_d/wr_gen.c:1070-1151 | the return value, and the whole file on the disk behind a close |
| GenFile.CloseKeepsAudio | cdda_d/wr_gen.c:1070-1135 | whatever fails, what the closed file holds behind its header is a beginning of the audio that was accepted: no byte is altered or added |
| GenFile.BufferedCloseFinishes | cdda_d/wr_gen.c:1070-1135 | a buffered file with room for its header, whose first flush, fstat and seek succeed, is finished whenever close reports success |
| GenFile.CloseReportsIff | cdda_d/wr_gen.c:1124-1135 | close reports success exactly if the close went well and everything pending behind the header reached the disk |
| GenFile.SuccessMeansFinishedIff | cdda_d/wr_gen.c:1070-1151 | that success of a close means a finished file with all that was accepted, whatever the writes answer, holds if and only if the file is buffered with room for the header and the flush at close, fstat and seek are known to succeed |
| GenFile.LostEnd | cdda_d/wr_gen.c:1081-1085 | a failed flush at close that loses audio which was accepted, while close reports success |
| GenFile.StaleHeader | cdda_d/wr_gen.c:1087-1122 | without a stdio buffer (a device, or no fdopen): a full disk, a close that reports success, and a header that no reader accepts |
| GenFile.GenDesc.WriteAudio | cdda_d/wr_gen.c:1776-1799 | chunk after chunk: success exactly if all was accepted; what is there and pending is a beginning of it, all of it on success |
| GenFile.GenDesc.WriteFile | cdda_d/wr_gen.c:707-1151 | for any chunks, estimate and failures: the disk in the end holds a beginning of the accepted audio behind the header; the finished file with all of it if no write failed, close succeeds and can be trusted; without errors everything succeeds |
| Samples.ChrouteAtt | cdda_d/wr_gen.c:1971-2090 | in place, on the attenuated channels of each frame: LeftMono and RightMono put one channel on both sides, Reverse exchanges them, Mono makes both sides their average rounded down, Normal keeps them, and an unknown routing changes nothing; a sample behind the last frame stays |
| Samples.OneFrame | cdda_d/wr_gen.c:1992-2088 | the branches for the routings are attenuation of both channels followed by routing, whose outcome is spelled out under `Samples.ChrouteAtt` |
| Samples.AttenuateIs | cdda_d/wr_gen.c:2001-2008 | for 0..100 the size is the exact share rounded down and the sign is kept, so the cast cuts nothing off |
| Samples.AttenuateMonotone | cdda_d/wr_gen.c:2001-2008 | a lower setting is never louder |
| Samples.NeverLouder | cdda_d/wr_gen.c:1971-2090 | no output exceeds the larger input channel |
| Samples.ByteSwap | cdda_d/wr_gen.c:1896-1908 | the target holds the swapped bytes and is otherwise untouched |
| Samples.SwapKeepsSamples | cdda_d/wr_gen.c:1896-1908 | a reader of the other byte order finds the same samples; swapping twice is the identity |
| Outgoing.OutputFrame | cdda_d/wr_fp.c:175-191 | a reader of the file's byte order finds in every frame the processed frame of the chunk |
| Outgoing.PlainOutput | cdda_d/wr_fp.c:175-191 | at full volume, without routing and swapping a chunk goes out as it is |
| Pipe.StepConserves | cda_d/cda.c:7332-7383 | every step keeps each command in exactly one place |
| Pipe.StepKeepsInv | cda_d/cda.c:7332-7383 | every step of clients and daemon, also an error, keeps the invariant |
| Pipe.PacketsAreAccountedFor | cda_d/cda.c:7332-7383 | a command is in one pipe, hand or the daemon, or its packet was taken by its own client, dropped after 200 rejections, in hand at a retry overflow, or lost to an error |
| Pipe.SuccessIsOwn | cda_d/cda.c:7344-7356 | a reported success holds a response to a command of that client, to the very command unless an earlier call failed; no response is taken twice |
| PipeRuns.BouncesAreBounded | cda_d/cda.c:7364-7377 | over any interleaving, N responses are passed on at most 200 N times |
| PipeRuns.CallIsBounded | cda_d/cda.c:7338-7380 | over any interleaving a client makes at most 401 steps of a call, whatever it was doing, and none when it is in no call |
| PipeRuns.StaleResponse | cda_d/cda.c:7331-7334 | a run in which a call gets the response to the failed call before it |
| PipeAnswers.SureOfOwnIff | cda_d/cda.c:7331-7383 | in every reachable state, a call under way is sure to get the response to its own command, if it succeeds, if and only if no packet of an earlier call of the client is in a pipe, at the daemon, or in a hand with fewer than 200 rejections |
| PipeOrder.AnswersInOrder | cda_d/cda.c:7600-7627 | the daemon answers the commands in the order they were sent, each once |
| PipeOrder.ResponsesInOrder | cda_d/cda.c:7344-7383 | over any run, what was in the response pipe and what was written to it, packets put back included, is what was read from it and what is left, in the same order |
| PipeRuns.TwoCanDrop | cda_d/cda.c:7364-7377 | a run of two clients in which a response is dropped while its client still waits |
| PipeRuns.NeverDropsIff | cda_d/cda.c:7350-7377 | no response is ever dropped for too many rejections or tries if and only if there are not two clients |
| ProgramText.DecimalBack | cda_d/cda.c:2199 | atoi undoes the printing of a number |
| ProgramText.PlaceValue | cda_d/cda.c:184-205 | atoi counts digits by their places |
| ProgramText.RefusedIff | cda_d/cda.c:184-205 | the parser refuses a text only if a number runs into a character that is no comma, and always while the table has room |
| ProgramText.ParseJoin | cda_d/cda.c:184-223 | the printed list is parsed into the table entries of its tracks |
| ProgramText.NumbersOfJoin | cda_d/cda.c:184-205 | the numbers of a printed list are the list |
| ProgramText.ParseFinds | cda_d/cda.c:184-223 | for every text the table gets exactly those of its numbers that are tracks, as far as there is room |
| Program.ParseUndoesPrint | cda_d/cda.c:161-245 | parsing the text of a defined program changes neither table nor length |
| Program.RefusedLeavesText | cda_d/cda.c:2187-2195 | what a refused list leaves behind |
| Program.DefinedIff | cda_d/cda.c:2167-2219 | a list is accepted exactly if the disc has all its tracks; otherwise program mode is off, and table and text hold the tracks in front of the first one it does not have; later entries of the table stay |
| Program.SignedIs | cda_d/cda.c:2173 | the sign of the first argument in two's complement, and the count as the low byte of its negation |
| Program.TextIsTableIff | cda_d/cda.c:225-242 | the text the parser leaves is the list of its table if and only if it was printed from tracks of the disc that fit into the table |
| Program.SkippedStays | cda_d/cda.c:220-242 | a text with one unknown track stays as it is while the table is empty |
| Program.Daemon.Define | cda_d/cda.c:2167-2219 | table, count, mode and text after a list, up to the first unknown track if there is one; the count is a byte |
| Program.Daemon.Query | cda_d/cda.c:2107-2121 | the tracks of the program, or a refusal when they exceed a packet |
| Program.Daemon.DoProgram | cda_d/cda.c:2099-2223 | invalid exactly without a disc, while busy, for a query of more than 99 entries, and for clear, save and define while shuffling; what each of the other commands does |
| Program.Daemon.PgmParse | cda_d/cda.c:161-245 | the parser's loop leaves the table of the specification, also for texts it refuses |
| Program.Daemon.DefineParseQuery | cda_d/cda.c:2107-2219 | for up to 99 tracks of the disc, define, parse and query give the list back |

## Left out

- Device ioctls, SCSI commands, spin-up delays and heartbeats: a read is an oracle that returns bytes or fails.
- The other readers (`rd_scsi.c`, `rd_fbsd.c`, `rd_sol.c`): the same producer loops with other calls; `rd_aix.c`: its loops differ.
- The sound card writers: the ring loop of `wr_fp.c` with driver calls.
- The end of the threads by cancellation and signals, and a reader that gives up: in Protocol the reader delivers its plan.
- Pause and resume after COMPLETED: they write `state` without a check; here COMPLETED stays for the rest of a run.
- A reader and writer of the first run before LOCK is set up, and calls of play from two threads.
- Reader.CdReader.ReadFillBuf: the semaphores are in Protocol, not here.
- Reader.CdReader.ReadOn: waiting for room and the stop under LOCK are in Protocol, not here; the two models share the list of chunks, the plan.
- Seamless.RunIsSeamless: the chunk that reaches the end is in `Coverage.RunCoversSegment`; with chunks of one block the statement fails (`ShortChunks.AlwaysSeamlessIff`).
- Coverage.RunCoversSegment: the last chunk of a read that has no frame left, or that shows an earlier look-alike, is whatever the search makes of it.
- Tiling.WholeRunIsSegment: for a device that answers every request, if need be after retries; with jitter correction on, the last read may have no frames left.
- TrackWriter.Splitter.WriteAll: one file per track; the single file for all tracks and the pipe to a program go through `GenFile` alone. A stale index beyond the tracks of a new disc is not modelled.
- TrackWriter.Splitter.Record: after a close that failed the source closes the freed descriptor again, and fp_wdone drops the result of the last close; here nothing more happens to a closed file, and `done` tells of every close.
- GenFile.GenDesc.Open: directory checks, memory failures and the switch of user ids.
- GenFile.GenDesc.Close: what a flush does not bring to the disk stays in the buffer or is gone as a whole, no matter which; a seek changes no bytes.
- AudioFormats.Header: no AIFF-C, whose COMM chunk states a length of 18 with 38 bytes behind it.
- Outgoing.OutputFrame: drives that deliver big-endian samples.
- Samples.ChrouteAtt: samples as numbers; the swap on hosts of the other byte order is not modelled.
- Pipe.SuccessIsOwn: packets are whole; client ids are not reused while a packet of the old client is on its way; the daemon does not exit.
- Program.Daemon.DoProgram: more than 100 tracks that the disc all has, with which the source reads behind the arguments; memory failures, and the storing and removing of programs on disk.
- Encoders, CDDB, the graphical interface, argument parsing and the daemon's lock file.
