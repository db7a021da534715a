# Verified model of the middleware player

This project models the parts of the player library whose correctness only shows across several functions or
a whole run, and proves properties of that model with Dafny 4.11. `dafny verify dfyconfig.toml` checks everything.

## What is modelled

**Boxes and walkers.** `Boxes` is the grammar: a tree of ISO BMFF boxes (ISO/IEC 14496-12 sections 4.2, 8.1.2, 8.7.8,
8.8.7, 8.8.8, 8.8.12 and ISO/IEC 23001-7 section 7.2) with its serializer, on the byte fields of `Bytes`. Three
independent walkers of the repository are written as imperative code over it: `Mp4Demux` (samples of a fragment),
`Restamp` (moves the decode time in the caller's buffer) and `IsoBmffBox` to `IsoBmffBuffer` (objects over the buffer
that truncate boxes in place). Each is proved against a recursive specification; `RestampLaws`, `IsoBmffLaws` and
`TruncateDemux` prove that editing and parsing commute, also between parsers. Times are ticks beside their timescale.
`ByteLayout` reads and restamps once more, straight on the bytes and without the grammar (types by their characters,
fields by their offsets); `ByteLaws` proves that grammar, walkers and laws agree with it.

**Protocols.** `Scheduler` holds the fields of `PlayerScheduler` with its critical sections as methods, and a state
machine over the two mutexes, the worker and any number of client threads; `SchedulerLedger` abstracts it to a ledger
of tasks, `SchedulerLaws` proves the invariant, `SchedulerRuns` the promises over runs, `SchedulerStop` what becomes of a
stop that waits; `SchedulerSteps` ties the protocol to the class: a call that nobody interferes with does what the
method does. `HandlerControl` holds the count and the move semantics of `ScopeHelper`, `HandlerDrain` the protocol
between guarded handlers and `waitForDone`.
A step is what one thread does between two points where another can interfere; actions form sequences, and every
statement is about all of them.

**DRM.** `DrmSessions` is `getDrmSession` with its slot arrays (the states of `DrmStates`), `DrmRuns` its runs, `DrmLru`
the refinement to a least-recently-used list.
`ClearKey` is the subsample decryption (ISO/IEC 23001-7 section 9.5) over an abstract keystream.

**Codecs.** `Base64`, `Base64Laws` and `Base64Url` (RFC 4648 sections 4 and 5), `Descriptors` (the MPEG-4 descriptors of
`esds`) and `WidevinePssh` (Widevine's pssh data).

Where the code does not do what one would expect, the model follows the code, a lemma gives an input or a contract
that shows it, and the exact condition is proved: restamping several `tfdt` boxes, a decode time that does not fit its
field, truncating a `saiz` without a table or a `senc` by a size beyond its table, re-parsing boxes shorter than their
header, a purge without suspension, a stop that races a start, a stop after EnableScheduleTask during a suspension, an
enable during a drain, and the eviction of a primary slot. The base64 table also decodes `-` as `/` and an interior `=` as `A`, and `Mp4Sample.duration` stays 0 without the
duration flag; both are kept.

## Model

| member | source | states |
|---|---|---|
| Mp4Demux.Demuxer.constructor | mp4demux/mp4demux.hpp:647-653 | running the demuxer on the bytes of any well-formed box tree (the bodies of `esds`, `tkhd`, `mfhd` and `mehd` taken to be long enough and well-formed) consumes exactly the buffer and leaves the state and the sample list of the recursive fold over the tree |
| Mp4Demux.Demuxer.DemuxHelper | mp4demux/mp4demux.hpp:479-644 | between any cursor and `fin` whose bytes are a list of well-formed boxes (`esds`, `tkhd`, `mfhd` and `mehd` are opaque, taken to be long enough and well-formed inside): terminates with measure `fin - ptr`, ends exactly at `fin`, and the parse state is the fold over those boxes from the state before |
| Mp4Demux.Demuxer.parseTrackFragmentRunBox | mp4demux/mp4demux.hpp:214-280 | the cursor advances by the exact length the flags imply (up to trailing bytes), and the run's samples are appended: sample i at moof + data offset + earlier lengths, dts base + earlier durations, pts moved by the signed composition offset |
| Mp4Demux.Demuxer.ReadRun | mp4demux/mp4demux.hpp:237-279 | the sample loop equals the closed form per index, with defaults where a flag is absent and the reported duration 0 when the duration flag is absent |
| Mp4Demux.Demuxer.parseTrackFragmentHeaderBox | mp4demux/mp4demux.hpp:174-204 | each optional default is overwritten exactly when its flag is set, all else is kept, and the cursor moves by the length the flags imply |
| Mp4Demux.Demuxer.parseTrackExtendsBox | mp4demux/mp4demux.hpp:305-313 | the four sample defaults become those of the box |
| Mp4Demux.Demuxer.parseTrackFragmentBaseMediaDecodeTimeBox | mp4demux/mp4demux.hpp:206-212 | the base time is the 4- or 8-byte field, by version |
| Mp4Demux.Demuxer.parseTimeHeader | mp4demux/mp4demux.hpp:282-288 | the timescale becomes that of the header, behind 4- or 8-byte times; what follows it is passed over |
| Mp4Demux.Demuxer.ReadBytes | mp4demux/mp4demux.hpp:129-138 | the big-endian value of the next n bytes, and the cursor moves by n; no 64-bit overflow for n up to 8 |
| Mp4Demux.TotalsSnoc | mp4demux/mp4demux.hpp:237-279 | adding one row adds its duration and its length, or the defaults, to the running totals |
| ByteLaws.DemuxIsReading | mp4demux/mp4demux.hpp:479-653 | the fold is the independent reading: boxes by the four characters of their type, each field at its offset, every sample from its row, for any well-formed boxes |
| ByteLaws.DemuxBuffer | mp4demux/mp4demux.hpp:479-653 | the same for the code: its samples are those of the reading of the buffer |
| ByteLaws.SampleOnBytes | mp4demux/mp4demux.hpp:214-280 | sample i on the bytes of its `trun`: count in bytes 4 to 7; with row i at r, duration at r, size and signed composition offset behind the columns before them, each exactly if its flag is set |
| ByteLaws.SampleRunsOn | mp4demux/mp4demux.hpp:237-279 | the first sample is at moof plus the signed word at byte 8 and at the base time; each next one a length and a duration further |
| ByteLaws.TrunHead | mp4demux/mp4demux.hpp:214-236 | flags in bytes 1 to 3, count at 4, data offset at 8, first flags at 12 (at 8 without a data offset), rows behind them |
| ByteLaws.TfhdRead | mp4demux/mp4demux.hpp:174-204 | what `tfhd` sets, read at the offsets its flags imply |
| ByteLaws.TrexFields | mp4demux/mp4demux.hpp:305-313 | the four defaults are the words at 8, 12, 16 and 20 |
| ByteLaws.TimescaleAt | mp4demux/mp4demux.hpp:282-288 | the timescale is the word at 12, or at 20 with 64-bit times |
| ByteLaws.ShapeByName | mp4demux/mp4demux.hpp:479-644 | which types hold boxes, and where inside them those start, by the four characters |
| ByteLaws.KindNames | mp4demux/mp4demux.hpp:484-640 | the type constants are their four characters |
| ByteLaws.FlagMasks | mp4demux/mp4demux.hpp:217-260 | a flag test by division is the mask operation, for each flag and every three bytes of flags |
| ByteLaws.NumberOfBytes | mp4demux/mp4demux.hpp:129-138 | the most significant byte comes first, in numbers of one to four bytes |
| ByteLaws.NumberOfWords | mp4demux/mp4demux.hpp:129-138 | and in those of eight |
| Restamp.WriteBytes | mp4demux/mp4demux.cpp:24-31 | writes the big-endian image of the value modulo 256^n and nothing outside the n bytes |
| Restamp.ReadBytes | mp4demux/mp4demux.cpp:33-42 | the big-endian value of n bytes |
| Restamp.StampTfdt | mp4demux/mp4demux.cpp:59-70 | rewrites the time field to time + delta modulo its width and reports the 64-bit sum |
| Restamp.AdjustMediaDecodeTime | mp4demux/mp4demux.cpp:51-94 | in place, on any well-formed list of boxes: the buffer becomes the boxes with the first reachable `tfdt` stamped (going on behind a subtree whose adjusted time is 0), the 64-bit time is returned, nothing outside is touched |
| ByteLaws.RestampIsMoving | mp4demux/mp4demux.cpp:51-94 | restamped boxes and reported time are what the independent walk on the bytes gives, which stores time + delta in the bytes from 12 of a `tfdt` |
| ByteLaws.RestampBuffer | mp4demux/mp4demux.cpp:44-94 | the same for the code, on a buffer |
| ByteLaws.BytesOfNumber | mp4demux/mp4demux.cpp:24-31 | what is stored for any integer, byte by byte |
| RestampLaws.RestampAdds | mp4demux/mp4demux.cpp:51-94 | with one reachable `tfdt`, adjusting by a and then b is adjusting by a + b (modulo the width of the field) |
| RestampLaws.RestampUndone | mp4demux/mp4demux.cpp:51-94 | with one reachable `tfdt`, adjusting by d and then -d restores the boxes and the bytes |
| RestampLaws.TwoTracksNotUndone | mp4demux/mp4demux.cpp:51-94 | with two `tfdt` boxes the inverse fails: times 5 and 7, adjusted by -5 and then by 5, end as 5 and 2 |
| RestampLaws.RestampUndoneIff | mp4demux/mp4demux.cpp:51-94 | with any number of `tfdt` boxes: adjusting by d and then -d restores the fragment, for every non-zero 64-bit d, if and only if the walk has no second one to come to, or stops at the first both ways, or d is a multiple of 2^32 and the second has 32-bit times |
| RestampLaws.WalkEffect | mp4demux/mp4demux.cpp:51-94 | what one walk does to the first two `tfdt` boxes it can come to: the first is stamped, the second only if the first reports 0 |
| RestampLaws.RestampIsSplice | mp4demux/mp4demux.cpp:59-69 | with one reachable `tfdt`, the new bytes are the old ones with exactly its 4 or 8 time bytes replaced |
| RestampLaws.RestampCommutesWithDemux | mp4demux/mp4demux.hpp:214-280 | demuxing the restamped boxes: same number of samples, those before the `tfdt` equal, and every later one keeps place, length and duration while dts and pts move by exactly delta (modulo 2^64) if and only if the new time fits the field or there is no later sample |
| RestampLaws.RestampMovesAllSamples | mp4demux/mp4demux.cpp:51-94 | with the `tfdt` before every run and a time that fits, all samples move by exactly delta |
| RestampLaws.DemuxAroundRestamp | mp4demux/mp4demux.cpp:44-94 | the same for the code: demux, restamp the buffer in place, demux again; and only the time field of the buffer differs |
| RestampLaws.FoldDrift | mp4demux/mp4demux.hpp:479-644 | two parse states whose base times differ by e stay so along any boxes without a `tfdt`, and their new samples differ by e in dts and pts alone |
| IsoBmffBox.ConstructBox | playerisobmff/playerisobmffbox.cpp:161-269 | on any bytes without a zero-size header, truncated ones included: offset, size and type as getSize and getType report them; children exactly for a box of more than 8 bytes that ends inside its container and says `moov`, `trak`, `mdia`, `moof` or `traf`, and then they lie without gap from 8 to its end |
| IsoBmffBox.ParseReads | playerisobmff/playerisobmffbox.cpp:161-269 | the parse satisfies a relation on the bytes, types spelt out, that determines offset, size, type and children at every level |
| IsoBmffBox.ChildrenIff | playerisobmff/playerisobmffbox.cpp:215-218 | exactly which boxes are reported with children, and that these tile the box |
| IsoBmffBox.ConstructContainer | playerisobmff/playerisobmffbox.cpp:340-353 | the child loop finds exactly the boxes of the byte-level specification, with running offsets from 8 |
| IsoBmffBox.ParseOfSer | playerisobmff/playerisobmffbox.cpp:161-353 | parse of print: for every well-formed list of boxes the parser reports the boxes themselves, with offsets that tile the container |
| IsoBmffBox.ReadU32 | playerisobmff/playerisobmffbox.h:41-42 | the big-endian 32-bit value |
| IsoBmffBox.WriteU32 | playerisobmff/playerisobmffbox.h:47-48 | stores the value modulo 2^32 and changes no other byte |
| IsoBmffAux.ReadU64 | playerisobmff/playerisobmffbox.cpp:78-83 | two 32-bit reads give the big-endian 64-bit value |
| IsoBmffAux.WriteU64 | playerisobmff/playerisobmffbox.cpp:88-93 | two 32-bit writes store the 64-bit value, and no other byte changes |
| IsoBmffEdit.TrunIsoBmffBox.constructor | playerisobmff/playerisobmffbox.cpp:913-993 | the object describes the track run at its base: count, flags, total of the durations present, size of the first sample; each as the bytes at its offset |
| IsoBmffEdit.TrunColumns | playerisobmff/playerisobmffbox.cpp:913-993 | on the bytes: the first size is the word behind the duration column of row 0, the total duration the sum of the duration column |
| IsoBmffEdit.TrunIsoBmffBox.setSizeAndSkip | playerisobmff/playerisobmffbox.h:183-185 | setSize followed by a skip header over what the box no longer covers |
| IsoBmffEdit.WriteSkip | playerisobmff/playerisobmffbox.h:374-378 | writes an 8-byte skip header of the given size and nothing else |
| IsoBmffEdit.TrunIsoBmffBox.truncate | playerisobmff/playerisobmffbox.cpp:999-1026 | the bytes become a well-formed one-sample run, followed by a skip box when 8 or more bytes are freed; only the count, the size and the skip header change, and nothing outside the box |
| IsoBmffEdit.TrunTruncation | playerisobmff/playerisobmffbox.cpp:999-1026 | on the bytes: the writes of truncate applied to a serialized run give the serialization of the one-sample run and the skip box, whose sizes sum to the old size |
| IsoBmffEdit.TrunCut | playerisobmff/playerisobmffbox.cpp:999-1026 | the new size is the old one less a row width for every sample but the first, if that is 8 or more; only count, size and skip header differ, the skip box says the bytes freed |
| IsoBmffLaws.TruncatedTrunFits | playerisobmff/playerisobmffbox.cpp:999-1026 | the boxes a truncated run leaves are well-formed and fill exactly its old extent |
| IsoBmffLaws.TruncatedTrunView | playerisobmff/playerisobmffbox.cpp:999-1026 | what the parser reports for them: a run that keeps its first row, and the freed bytes as one skip box directly behind it |
| IsoBmffLaws.ReplaceChild | playerisobmff/playerisobmffbox.cpp:340-353 | replacing one child by boxes of the same total length: the parser reports the same earlier and later siblings at the same offsets |
| IsoBmffLaws.TruncateTrunThenParse | playerisobmff/playerisobmffbox.cpp:913-1026 | end to end in one buffer: load a run, truncate it, load it again (count 1, same first size), parse the container again: the same children with the run replaced |
| IsoBmffLaws.TruncateSencThenParse | playerisobmff/playerisobmffbox.cpp:1387-1433 | the same for `senc`, for every first sample size for which truncating is sound |
| IsoBmffLaws.TruncateSaizThenParse | playerisobmff/playerisobmffbox.cpp:1458-1514 | the same for `saiz`, for every count for which truncating is sound |
| TruncateDemux.TruncateCommutesWithDemux | mp4demux/mp4demux.hpp:214-280 | between the two parsers: with a run truncated at any depth, the demuxer reports of that run its first sample, of every run before and after it the same samples, and ends in the same state |
| TruncateDemux.FoldKeeps | mp4demux/mp4demux.hpp:479-644 | two parse states that differ only in samples dropped from one stay so along any boxes |
| TruncateDemux.CutIsSplice | playerisobmff/playerisobmffbox.cpp:999-1026 | at any depth, the bytes with that run truncated are the old ones with exactly the extent of the run rewritten |
| TruncateDemux.CutFits | playerisobmff/playerisobmffbox.cpp:999-1026 | they are the bytes of well-formed boxes of the same total length |
| TruncateDemux.DemuxAroundTruncation | playerisobmff/playerisobmffbox.cpp:913-1026 | the same for the code, in one buffer: demux, load and truncate a run at any depth in place, demux again; only the bytes of the run differ |
| IsoBmffAux.SencIsoBmffBox.truncate | playerisobmff/playerisobmffbox.cpp:1409-1433 | the exact byte edit for every 32-bit first size, the difference of sizes wrapping as the source's does; when truncating is sound, new box plus skip box cover the old extent and the frame is the three header fields |
| IsoBmffAux.SencTruncation | playerisobmff/playerisobmffbox.cpp:1409-1433 | the sound case as an equation between the edited bytes and the serialized boxes |
| IsoBmffAux.SencCut | playerisobmff/playerisobmffbox.cpp:1409-1433 | on the bytes: a count of 1, a size of 16 plus the first, a skip box over the rest, and nothing else changed |
| IsoBmffAux.SencTruncationExact | playerisobmff/playerisobmffbox.cpp:1409-1433 | for every count and first size: the writes stay in the box and leave well-formed boxes, a `senc` of one sample first, if and only if there is at most one sample, or the first lies inside the table, or its size wraps to less than 8 freed bytes |
| IsoBmffAux.LongFirstSencCorrupted | playerisobmff/playerisobmffbox.cpp:1409-1433 | and it can fail: two samples, a table of one byte, a first size of two |
| IsoBmffAux.TruncatedSencFits | playerisobmff/playerisobmffbox.cpp:1409-1433 | the resulting boxes are well-formed and fill the old extent |
| IsoBmffAux.SaizIsoBmffBox.constructor | playerisobmff/playerisobmffbox.cpp:1458-1481 | reads count and first information size, behind the optional type words; without a default size the byte behind the count, table or not |
| IsoBmffAux.SaizIsoBmffBox.truncate | playerisobmff/playerisobmffbox.cpp:1495-1514 | the exact byte edit for every 32-bit count, table or not, the new size wrapping as the source's does; when truncating is sound, the boxes that result and the frame |
| IsoBmffAux.SaizTruncation | playerisobmff/playerisobmffbox.cpp:1495-1514 | in the sound case the edit gives a one-sample `saiz`, and a skip box if bytes are freed, that fill the old extent |
| IsoBmffAux.SaizCut | playerisobmff/playerisobmffbox.cpp:1495-1514 | on the bytes: a count of 1, the size less count - 1, a skip box over the rest, and nothing else changed |
| IsoBmffAux.SaizTruncationExact | playerisobmff/playerisobmffbox.cpp:1495-1514 | for every count: the writes stay in the box and leave well-formed boxes, a `saiz` of one sample first, that fill it if and only if the count is 1 to 8, or 9 to one more than the table has bytes; so a constant-size `saiz` of nine samples or more is always corrupted |
| IsoBmffAux.ConstantSaizCorrupted | playerisobmff/playerisobmffbox.cpp:1495-1514 | and it can fail: nine samples of four bytes each, and no table |
| IsoBmffAux.TruncatedSaizFits | playerisobmff/playerisobmffbox.cpp:1495-1514 | the resulting boxes are well-formed and fill the old extent |
| IsoBmffAux.TfdtIsoBmffBox.constructor | playerisobmff/playerisobmffbox.cpp:533-550 | reads the 4- or 8-byte time by version |
| IsoBmffAux.TfdtIsoBmffBox.setBaseMDT | playerisobmff/playerisobmffbox.cpp:506-520 | the box then says the new time, cut to the width of its field |
| IsoBmffAux.RestampThroughBox | playerisobmff/playerisobmffbox.cpp:506-550 | the two restampers agree: setBaseMDT(getBaseMDT() + d) leaves the same bytes as the walker does for that box |
| IsoBmffLaws.DurationIsSpan | playerisobmff/playerisobmffbox.cpp:961-992 | the two parsers agree: with durations present, the duration of the run object is the dts span the demuxer computes for the run |
| IsoBmffBuffer.PlayerIsoBmffBuffer.parseBuffer | playerisobmff/playerisobmffbuffer.cpp:66-81 | terminates without zero-size headers; the box list, the corrected bytes, the untouched rest of the buffer, and `chunkedBox`, set to the last box exactly when it overruns or fewer than 4 bytes are left |
| IsoBmffBuffer.TopReads | playerisobmff/playerisobmffbuffer.cpp:66-81 | list and bytes satisfy a relation that determines them: each box read from what is left, its size field rewritten only if it says more than that and correction is asked for |
| IsoBmffBuffer.TopBoxesTile | playerisobmff/playerisobmffbuffer.cpp:66-81 | the boxes start at offset 0 and leave no gap; only the last may reach beyond the end, and it reaches at least the end |
| IsoBmffBuffer.CorrectedEndsExactly | playerisobmff/playerisobmffbox.cpp:183-194 | with size correction the last box ends exactly where the buffer ends |
| IsoBmffBuffer.ReparseIsStable | playerisobmff/playerisobmffbuffer.cpp:66-81 | parsing the corrected buffer again, with or without correction, gives the same list if and only if, in the buffer before, wherever the size field to be rewritten overlaps the header of a complete box the new size says what is there; then no byte changes either, and no zero-size header is met |
| IsoBmffBuffer.FullHeadersAreKept | playerisobmff/playerisobmffbuffer.cpp:66-81 | which is so whenever every complete box has room for its header |
| IsoBmffBuffer.ShortHeaderNotStable | playerisobmff/playerisobmffbuffer.cpp:66-81 | and it is not always so: a complete box that says 5 bytes changes its type on the second parse |
| IsoBmffBuffer.TopBoxesOfSer | playerisobmff/playerisobmffbuffer.cpp:66-81 | on well-formed boxes the list is the boxes, and correction changes nothing |
| Scheduler.PlayerScheduler.ScheduleTask | PlayerScheduler.cpp:71-100 | refuses when not running or locked out; otherwise the task is appended under the current id and the id counter wraps to 1 at INT_MAX |
| Scheduler.PlayerScheduler.RemoveTask | PlayerScheduler.cpp:218-240 | erases the first queued task with the id unless the id is invalid or current, and returns whether it did |
| Scheduler.PlayerScheduler.RemoveAllTasks | PlayerScheduler.cpp:156-168 | empties the queue and nothing else |
| Scheduler.PlayerScheduler.TakeTask | PlayerScheduler.cpp:126-147 | the worker's critical section: front task out, current id set, nothing to run for an invalid id |
| Scheduler.PlayerScheduler.SuspendScheduler | PlayerScheduler.cpp:198-203 | throws, changing nothing, exactly when mExLock owns its mutex already; otherwise owns it and locks scheduling out |
| Scheduler.PlayerScheduler.ResumeScheduler | PlayerScheduler.cpp:208-213 | throws exactly when mExLock does not own its mutex; otherwise gives it up and lets scheduling in |
| Scheduler.PlayerScheduler.EnableScheduleTask | PlayerScheduler.cpp:245-249 | clears the lock-out flag and nothing else, mExLock included |
| Scheduler.PlayerScheduler.StopScheduler | PlayerScheduler.cpp:173-190 | goes through exactly when the lock-out flag agrees with mExLock, leaving an empty, stopped, open scheduler; otherwise a call throws, and what is left then |
| SchedulerSteps.ScheduleAccepted | PlayerScheduler.cpp:71-100 | a call of a running, open scheduler, undisturbed: the task is appended under the next id, the id wraps, a sleeping worker is woken |
| SchedulerSteps.ScheduleRefused | PlayerScheduler.cpp:71-100 | and of one that is stopped or locked out: nothing changes |
| SchedulerSteps.NothingAccepted | PlayerScheduler.cpp:77-93 | over any run of all threads: while scheduling is locked out nothing is accepted |
| SchedulerSteps.RemoveErases | PlayerScheduler.cpp:218-240 | an undisturbed RemoveTask takes out the first task with the id |
| SchedulerSteps.RemoveFindsNone | PlayerScheduler.cpp:218-240 | and nothing for the invalid id, the current one, or one that no task has |
| SchedulerSteps.SuspendLocks | PlayerScheduler.cpp:198-203 | an undisturbed suspend owns mExLock and locks scheduling out, or throws and changes nothing |
| SchedulerSteps.ResumeUnlocks | PlayerScheduler.cpp:208-213 | an undisturbed resume undoes both, or throws and changes nothing |
| SchedulerSteps.StartLaunches | PlayerScheduler.cpp:59-66 | an undisturbed start makes a worker and sets the flag |
| SchedulerSteps.StopGoesThrough | PlayerScheduler.cpp:173-193 | with lock-out flag and mExLock in agreement an undisturbed stop gets to its join, leaving an empty, stopped, open scheduler and its worker awake |
| SchedulerSteps.StopThrows | PlayerScheduler.cpp:173-190 | without, it throws after two steps, or after emptying the queue |
| SchedulerSteps.RoundRuns | PlayerScheduler.cpp:105-149 | a round of the worker: the front task leaves the queue and becomes current, its body runs with mExMutex held and mQMutex free, and the worker is back at its test |
| SchedulerSteps.RoundSkips | PlayerScheduler.cpp:128-146 | a task with the invalid id is dropped without becoming current |
| SchedulerSteps.RoundRests | PlayerScheduler.cpp:107-113 | an empty queue makes it sleep with mQMutex free, the flag unset makes it end |
| SchedulerSteps.CallAlone | PlayerScheduler.cpp:59-249 | every operation: what an undisturbed call leaves in the protocol is what the method leaves in the object, results included |
| SchedulerLedger.StepMoves | PlayerScheduler.cpp:59-249 | refinement: every step of the protocol, by any thread, is one of five moves of a ledger of tasks or leaves it alone |
| SchedulerLedger.MoveKeeps | PlayerScheduler.cpp:71-168 | every move keeps order, conservation and ids |
| SchedulerLaws.StepKeeps | PlayerScheduler.cpp:59-249 | every step of any client or the worker, spurious wake-ups included, keeps the whole invariant |
| SchedulerRuns.TasksConserved | PlayerScheduler.cpp:71-151 | in every reachable state each accepted task is in exactly one of: begun, taken, queued, removed; bodies begin in acceptance order, none twice; the running one is the last begun; ids are 1 to INT_MAX - 1 |
| SchedulerRuns.RemovedNeverBegins | PlayerScheduler.cpp:156-240 | a removed task never begins, in any continuation |
| SchedulerRuns.SuspendedIsQuiet | PlayerScheduler.cpp:105-213 | from a completed suspend to the next resume no body is running and none begins |
| SchedulerRuns.PurgeSafety | PlayerScheduler.cpp:156-213 | under suspension: whatever was accepted before RemoveAllTasks and has not begun never begins |
| SchedulerRuns.PurgeLeavesOnlyTaken | PlayerScheduler.cpp:156-168 | without suspension the only earlier task that can still begin is the one the worker had already taken |
| SchedulerRuns.PurgeIsCleanIff | PlayerScheduler.cpp:156-168 | no task accepted before a purge begins after it, in any continuation, if and only if the worker holds no taken task at that moment |
| SchedulerRuns.UnsuspendedPurgeIsLate | PlayerScheduler.cpp:159-162 | and it can: a reachable state in which a purge is followed by the body of an earlier task |
| SchedulerRuns.RemoveTaskExact | PlayerScheduler.cpp:218-240 | with fewer than INT_MAX accepted tasks: RemoveTask takes a task out exactly when a queued task has the id, it is that task, and it never begins afterwards |
| SchedulerRuns.SleepMeansEmpty | PlayerScheduler.cpp:107-113 | no lost wake-up: a sleeping worker with no notification pending has an empty queue |
| SchedulerRuns.ExitsOnlyWhenStopped | PlayerScheduler.cpp:59-109 | a worker sees the flag unset only after a stop, never because it was started too early |
| SchedulerRuns.StopEndsWorker | PlayerScheduler.cpp:173-193 | after a stop has notified, and while no start has set the flag again, the worker is not asleep and every step of its own brings it nearer to its end; no other step takes it away |
| SchedulerRuns.RacingStopCanHang | PlayerScheduler.cpp:173-193 | without that condition it fails: a stop that races a start can wait to join a sleeping worker |
| SchedulerStop.StrandedIff | PlayerScheduler.cpp:173-203 | exactly when: in any reachable state of a stop that waits to join, a run without its own steps and without a further start can leave it waiting for a sleeping worker if and only if the flag is set and no start is about to make a thread, or the worker sleeps, or it has read the flag set beside an empty queue; and then a start set the flag after the stop cleared it |
| SchedulerStop.StrandedWithFlagUnset | PlayerScheduler.cpp:173-203 | a reachable state in which it waits so with the flag unset: a second stop has cleared the flag again and thrown in SuspendScheduler |
| SchedulerStop.ThrowingStopLeavesWorkerAsleep | PlayerScheduler.cpp:173-203 | a reachable state after EnableScheduleTask during a suspension: the stop has thrown and left its worker asleep, unnotified and unjoined, with the flag unset |
| SchedulerRuns.NoLockCycle | PlayerScheduler.cpp:105-213 | nobody waits for the execution mutex while holding the queue mutex, and whoever holds the queue mutex can go on |
| HandlerControl.GstHandlerControl.getScopeHelper | GstHandlerControl.cpp:54-59 | one more count, owned by a new helper |
| HandlerControl.GstHandlerControl.handlerEnd | GstHandlerControl.cpp:36-46 | one count less, for the helper that owned it; the count stays the number of owning helpers, so it never goes negative |
| HandlerControl.ScopeHelper.Move | GstHandlerControl.h:68-72 | the count passes from one helper to the other; the total is unchanged |
| HandlerControl.ScopeHelper.Assign | GstHandlerControl.cpp:25-34 | the helper's own count is given up and the other's taken over, also across two controllers and for self-assignment |
| HandlerControl.ScopeHelper.Destroy | GstHandlerControl.h:85-91 | the destructor gives up exactly this helper's count |
| HandlerDrain.CountIsOwners | GstHandlerControl.cpp:36-59 | in every reachable state the count is the number of handlers between getScopeHelper and handlerEnd, so the repair of a negative count is never used |
| HandlerDrain.BodiesOnlyShrink | GstHandlerControl.h:30-31 | from a disable to the next enable the set of running bodies only shrinks |
| HandlerDrain.ZeroIsQuietIffDisabled | GstHandlerControl.cpp:61-85 | a zero count means that nothing is past its guard until the next enable if and only if the flag is clear at that moment |
| HandlerDrain.AnswerIsTrue | GstHandlerControl.cpp:61-85 | in every reachable state: waitForDone answers true exactly when no handler owns a count; at its deadline false exactly when one does; otherwise it goes on waiting |
| HandlerDrain.HandlerAlone | GstHandlerControl.h:68-111 | a handler runs its body exactly if the flag is set, and gives its count back in either case |
| HandlerDrain.GuardFollowsFlag | GstHandlerControl.h:30-31 | one that comes after a disable turns round, one after an enable runs its body |
| HandlerDrain.DrainSafety | GstHandlerControl.cpp:61-85 | drain safety over all interleavings, from the answer: if a run from waitForDone's disable has no enable and ends with that thread told true, nothing is past its guard there and until the next enable |
| HandlerDrain.EnableWhileDraining | GstHandlerControl.cpp:61-85 | an enable between the two defeats it: waitForDone reports success and a body runs afterwards |
| DrmSessions.DrmSessionManager.IsKeyIdProcessed | drm/DrmSessionManager.cpp:319-336 | true exactly when some slot caches the key; the status is that of the first such slot |
| DrmSessions.DrmSessionManager.clearFailedKeyIds | drm/DrmSessionManager.cpp:142-158 | every failed slot becomes unused and no slot is primary any more |
| DrmSessions.DrmSessionManager.FindSlot | drm/DrmSessionManager.cpp:573-597 | the first free slot, then the leftmost of the oldest from there on, ignoring the primary mark |
| DrmSessions.DrmSessionManager.SelectSlot | drm/DrmSessionManager.cpp:552-632 | hit, refusal of a failed key, eviction or no slot, and the slots after the stamp |
| DrmSessions.DrmSessionManager.getDrmSession | drm/DrmSessionManager.cpp:519-721 | result, slot, error, slots and contexts in every branch, stated on the old arrays: a session of the requested system with a key of the group answers by its state (ready KEY_READY, initial KEY_INIT, pending KEY_READY exactly if the wait succeeds, any other KEY_ERROR and the slot failed), every other selected slot gets a new session |
| DrmSessions.OpenedOutcome | drm/DrmSessionManager.cpp:634-721 | what becomes of a request in its slot, by system, key and state of the session there; a reused one leaves the context as it was |
| DrmSessions.SelectedBy | drm/DrmSessionManager.cpp:550-632 | refused exactly when the first slot with the key has failed, or none has it and all are primary; otherwise the slot, its group, its stamp and its marks |
| DrmRuns.ReadyWasAskedFor | drm/DrmSessionManager.cpp:519-721 | after any run of requests, state changes, deletions, failures and clearings in which each key is among the keys that come with it: a KEY_READY names a slot that has not failed and holds the key, with a ready session of the requested system that some request for that system and a key of the same group made |
| DrmRuns.RunFits | drm/DrmSessionManager.cpp:142-721 | over such a run every session was asked for, and its key is in the group of its slot unless that was cleared |
| DrmRuns.EventThenRequest | drm/DrmSessionManager.cpp:142-721 | what the next request for a slot's key is told after its session changed state, was deleted, or failed, and what clearing then leaves |
| DrmLru.RequestRefines | drm/DrmSessionManager.cpp:550-632 | one request, hit, refusal or miss, does to the time-stamped slots what it does to a least-recently-used list |
| DrmLru.RunRefines | drm/DrmSessionManager.cpp:550-632 | for every sequence of requests, failures and clearings with an advancing clock and no primary session, the slots select what the list selects |
| DrmLru.ClearRefines | drm/DrmSessionManager.cpp:142-158 | clearing failed keys drops their groups and puts unused slots first, by number, the others keep their order; no slot is lost or renamed |
| DrmLru.UnusedFirst | drm/DrmSessionManager.cpp:590-597 | a miss takes an unused slot while there is one |
| DrmLru.NewManager | drm/DrmSessionManager.cpp:62-63 | a new manager is a list of unused slots |
| DrmLru.FailedUntilEvicted | drm/DrmSessionManager.cpp:600-608 | a failed slot stays failed, and its keys refused, until it is evicted or failed keys are cleared |
| DrmLru.PrimaryEvictedIff | drm/DrmSessionManager.cpp:573-597 | a miss evicts a primary slot exactly when a slot before it is free and it is the oldest from the first free slot on |
| DrmLru.PrimaryCanBeEvicted | drm/DrmSessionManager.cpp:591-597 | and it happens: two slots, the second primary and older |
| ClearKey.ClearKeySession.decryptPayload | drm/ClearKeyDrmSession.cpp:508-592 | succeeds exactly with a ready key, an IV of 8 or 16 bytes and three successful EVP calls; what each byte of the payload is after every outcome, on success the old one combined with its keystream byte for that counter block |
| ClearKey.ClearKeySession.decrypt | drm/ClearKeyDrmSession.cpp:343-503 | with subsamples: success exactly when all entries can be read and something is protected; then the clear ranges and the tail are kept and each protected byte is the old one combined with its keystream byte; after every failure the buffer is unchanged; without subsamples: every byte after each outcome |
| ClearKey.GatherRanges | drm/ClearKeyDrmSession.cpp:404-431 | the gather loop collects the protected ranges in order, or finds the map too short |
| ClearKey.ScatterRanges | drm/ClearKeyDrmSession.cpp:447-474 | the scatter loop puts the decrypted ranges back in place |
| ClearKey.PlainAt | drm/ClearKeyDrmSession.cpp:397-475 | every byte on its own: clear bytes and the tail are kept, the j-th protected byte counted across all subsamples meets keystream byte j |
| ClearKey.PlainBytes | drm/ClearKeyDrmSession.cpp:397-475 | the same by the ranges of the map, six bytes an entry: a 16-bit clear and a 32-bit protected length |
| ClearKey.OrdinalsAreExact | drm/ClearKeyDrmSession.cpp:410-431 | the protected bytes use up the keystream without gap or overlap |
| ClearKey.TwiceIsIdentity | drm/ClearKeyDrmSession.cpp:343-503 | decrypting twice is the identity |
| ClearKey.DecryptTwice | drm/ClearKeyDrmSession.cpp:343-503 | the same for two calls of the code on one buffer |
| Base64.base64_Encode | baseConversion/_base64.cpp:36-59 | fills its allocation of 4 * ceil(n / 3) + 1 exactly, with the encoding and a terminating 0 |
| Base64.base64_Decode | baseConversion/_base64.cpp:65-123 | fails exactly when a character left after stripping trailing = is outside the table; never writes at or past srcLen * 3 / 4 |
| Base64.DecodedLength | baseConversion/_base64.cpp:95-120 | n characters give exactly floor(3 n / 4) bytes |
| Base64.LettersAreAlphabet | baseConversion/_base64.cpp:39 | the letters are the alphabet of RFC 4648, in order |
| Base64.DigitTable | baseConversion/_base64.cpp:67-85 | the decoding table takes exactly the letters, and besides them - as 63 and = as 0 |
| Base64Laws.EncodedGroup | baseConversion/_base64.cpp:46-55 | characters 4i to 4i + 3 spell the 24-bit word of bytes 3i to 3i + 2 (RFC 4648 section 4) |
| Base64Laws.EncodedCharacter | baseConversion/_base64.cpp:36-59 | character c is the letter for bits 6c to 6c + 5, ceil(4n / 3) of them, and then the padding |
| Base64Laws.DecodedByte | baseConversion/_base64.cpp:95-120 | each byte of the decoding from its two characters, for every valid text |
| Base64Laws.EncodedForm | baseConversion/_base64.cpp:46-55 | the encoding is letters that do not end in = followed by 0, 1 or 2 padding characters |
| Base64Laws.RoundTrip | baseConversion/_base64.cpp:36-123 | decoding an encoding gives the bytes back, for every byte string |
| Base64Laws.EncodeThenDecode | baseConversion/_base64.cpp:36-123 | the same for the code |
| Base64Url.base64_URL_Encode | PlayerUtils.cpp:52-78 | as a C string, the letters of the encoding in the URL alphabet, unpadded |
| Base64Url.base64_URL_Decode | PlayerUtils.cpp:86-119 | decodes what precedes the first 0, in the URL alphabet; fails exactly when that holds an invalid character after stripping |
| Base64Url.UrlCharacter | PlayerUtils.cpp:52-78 | character c of a URL encoding is that of the URL alphabet for bits 6c to 6c + 5 |
| Base64Url.UrlDigitTable | PlayerUtils.cpp:86-119 | what the decoder takes each character for: its place in that alphabet, and + as 62, / as 63, an inner = as 0 |
| Base64Url.TempText | PlayerUtils.cpp:91-111 | the appended == changes nothing: it is cut off with what follows a 0, or stripped again |
| Base64Url.UrlRoundTrip | PlayerUtils.cpp:52-119 | decoding a URL encoding gives the bytes back |
| Base64Url.UrlEncodeThenDecode | PlayerUtils.cpp:52-119 | the same for the code |
| Descriptors.CodecConfigParser.readLen | mp4demux/mp4demux.hpp:395-405 | for every number of octets, the value modulo 2^32 and the advance of the cursor |
| Descriptors.LenRoundTrip | mp4demux/mp4demux.hpp:395-405 | reading inverts printing for every number of octets and any continuation (ISO/IEC 14496-1 section 8.3.3) |
| Descriptors.CodecConfigParser.parseCodecConfigHelper | mp4demux/mp4demux.hpp:407-458 | on every well-formed descriptor list: each descriptor ends on its boundary (the source's own assertion), the cursor ends at `next`, and the fields are those of a reading of the bytes, tag by tag |
| Descriptors.FoldIsReading | mp4demux/mp4demux.hpp:407-458 | the fold over the descriptors is that reading: which bytes give which field, the innermost and last winning |
| Descriptors.LenOfOctets | mp4demux/mp4demux.hpp:395-405 | seven bits an octet, the most significant first |
| WidevinePssh.ParseMultiInt | drm/helper/WidevineDrmHelper.cpp:40-57 | value (as a signed 32-bit word, the fifth octet losing its top bits) and advance for every integer of at most five octets, also when cut off by the end of the box |
| WidevinePssh.MultiIntRoundTrip | drm/helper/WidevineDrmHelper.cpp:40-57 | reading inverts printing |
| WidevinePssh.WidevineDrmHelper.parsePssh | drm/helper/WidevineDrmHelper.cpp:62-171 | accepts exactly a box of the right size, type and system with at least one key id; which ids are stored under which numbers, and the protection scheme |
| WidevinePssh.StoredAt | drm/helper/WidevineDrmHelper.cpp:127-158 | ids are stored from number 0 upwards in order, and other numbers keep what they had |
| WidevinePssh.FieldOnBytes | drm/helper/WidevineDrmHelper.cpp:102-148 | which tags are numbers, ids and texts, what each field adds to the ids and the scheme, and where the next one starts |
| WidevinePssh.Identifiers | drm/helper/WidevineDrmHelper.cpp:62-100 | the box type and the system id |
| WidevinePssh.FieldsRoundTrip | drm/helper/WidevineDrmHelper.cpp:102-148 | the fields of a version 0 box come back: non-empty key and content ids in order, and the last protection scheme |
| WidevinePssh.ParseOfV0 | drm/helper/WidevineDrmHelper.cpp:62-149 | parsing a built version 0 box recovers its ids and scheme |
| WidevinePssh.ParseOfV1 | drm/helper/WidevineDrmHelper.cpp:150-162 | parsing a built version 1 box recovers its ids in order |

## Left out

- Malformed media in the demuxer and the restamper: boxes of size 0 or below 8, 64-bit sizes, sizes that wrap 32 bits
  and reads past a leaf (the fixed fields of `tkhd`, `mfhd` and `mehd`, the descriptors of `esds`) are outside the
  grammar. The object parser is modelled on all bytes without a zero-size header.
- Demuxer members that no sample depends on: `mfhd`, `mehd`, `tkhd`, movie rate, matrix, language, stream format fields
  and codec configuration blobs other than `esds`; the descriptors are a class of their own because they touch
  disjoint members of the same object.
- Seconds as doubles: dts, pts and duration are integer ticks beside the timescale.
- Fields the C++ constructor leaves uninitialised are parameters of the demuxer's constructor.
- Objects of leaf boxes other than `trun`, `senc`, `saiz` and `tfdt`, whose members are modelled apart from the tree.
- Buffers of 4 GiB or more.
- IsoBmffAux.SaizIsoBmffBox.truncate: requires that the addresses it writes lie in the buffer, as they need not when
  the new size wraps.
- IsoBmffAux.SencIsoBmffBox.truncate: requires the same.
- IsoBmffAux.SaizIsoBmffBox.constructor: requires that the byte it reads behind the count lies in the buffer.
- IsoBmffBox.ConstructBox: offset, size, type and children of every box; not the members of leaf objects, whose reads
  may leave a leaf that is cut off, nor track-id rewriting.
- IsoBmffBuffer.PlayerIsoBmffBuffer.parseBuffer: without track-id rewriting (`newTrackId` is -1).
- Mp4Demux.Demuxer.parseTimeHeader: not the duration, rate, volume, matrix and language behind the timescale, which no
  sample depends on.
- Scheduler: each access to `mSchedulerRunning` and `mLockOut` outside the mutex is one atomic step, and mExLock may be
  unlocked by another thread than the one that locked it. Task bodies are opaque; one that schedules or removes tasks
  behaves as another client. Bodies that suspend or stop their own scheduler are not modelled. A start that is about to
  assign to a joinable std::thread, which ends the program, waits with the queue mutex instead.
- Scheduler.PlayerScheduler.ScheduleTask: the payload is a number; the task's function pointer and name are not modelled.
- SchedulerRuns.StopEndsWorker: a bound on the worker's own steps, not a liveness claim under a fair scheduler.
- Handlers that count themselves without checking the flag (`HANDLER_CONTROL_HELPER_CALLBACK_VOID`); wall-clock
  deadlines, which are a step that may happen at any time.
- DrmSessions.DrmSessionManager.getDrmSession: session creation, the wait for a pending session and the clock are
  parameters; watermark sessions, output protection and callbacks are not modelled. `mDrmSessionLock` makes requests
  sequential, so they are.
- Mapping of GStreamer buffers and memory allocation succeed, or, for `decrypt`, fail as one parameter says; AES is the
  abstract keystream.
- ClearKey.ClearKeySession.decrypt: requires a subsample map that fits the buffer; the source copies without a check.
- WidevinePssh.WidevineDrmHelper.parsePssh: requires that the source's unchecked reads stay inside the box, and
  integers of at most five octets.
- WidevinePssh.ParseMultiInt: not a sixth octet, whose shift count leaves the int; signed shifts are those of two's
  complement, as C++20 defines them.
- Descriptors.CodecConfigParser.readLen: signed shifts likewise.
- Descriptors with unknown tags, on which the source asserts.
- Logging, OpenSSL, OCDM, JSON, curl and GStreamer code, base16, URL resolution, and the DRM helper factories.
