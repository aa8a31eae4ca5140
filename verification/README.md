# A Dafny model of varc's sparse range cache

varc keeps a sparse file per object and remembers which byte ranges of it are
valid. Readers ask for ranges; downloaders fill the holes in the background; a
cleaner throws contents away; buffers and chunked streams sit in between. This
project models those parts and proves that a reader nevertheless sees the
origin's bytes, and under which conditions.

`dafny verify dfyconfig.toml` checks the whole project.

| module | what it models |
|---|---|
| `Common` | bytes, options and the errors that the modules tell apart |
| `Ranges`, `RangeQueries` | the sorted list of ranges, updated in place, against plain sets of byte positions |
| `Item` | the write side of one sparse file under short and failing writes |
| `Version` | the fingerprint that decides whether cached bytes belong to an object |
| `CacheProtocol`, `CacheProtocolProofs`, `CacheProtocolService`, `CacheProtocolLimits` | one item under every interleaving of opens, reads, releases, downloads, the grace timer and a cleaner; what every schedule keeps; what each caller gets from any state; the schedules that break it |
| `Scheduler` | the downloaders and waiters of one item, as the methods that run under its lock |
| `Closing` | the closing of a scheduler, which gives up that lock while it stops the downloaders |
| `RetryReader`, `SequentialReader`, `ParallelReader` | the origin readers, each against the flat bytes of the object |
| `StreamBuffer`, `StreamBufferProofs`, `StreamBufferService` | the producer and consumer around an asynchronous buffer, one channel operation a step; what every run keeps; what each call does |
| `Delivery` | one downloader from end to end: sequential or parallel reader, the asynchronous buffer if there is one, and the scheduler's Write together |
| `PagedBuffer` | the paged byte FIFO between one writer and one reader at lock granularity |
| `BufferPool` | the pool's accounting under failing allocations |
| `Cleaning` | one cleaning pass with quotas, ages and failed resets |
| `Startup` | the reconciliation of metadata and data files when a cache is opened |

Objects that the program updates in place are classes here, with methods proved
against specification functions. Concurrent parts are state machines: `Step`
gives the state after one action, or None when the action would have to wait, and
`Run` folds a schedule. Theorems about runs hold for every schedule. Where the
environment decides (how far a write gets, whether an open works, in which order
a map is listed), the answer is a parameter or chosen without restriction. What a
read, a write or a reset achieves is stated both ways: what it may not do whatever
the environment answers, and what it must do when the environment helps.

## What the proofs found

- Cache transparency holds exactly under three assumptions
  (`CacheProtocolLimits.TransparencyCondition`), and each is necessary.
  1. `lonelyReset`: two opens of a changed object in its grace period race. The
     first gives up the item lock to stop the old scheduler
     (cache/item.go:215-225); the second resets the item and gets a reader; the
     first then empties the file under that reader, whose read returns zeros.
  2. `deadStreams`: the version check looks at the cached size only
     (cache/item.go:98), so a download of the old version that is still live when
     nothing has been cached yet writes into the new version.
  3. `sameUnvalidated`: two empty fingerprints compare equal
     (cache/item.go:94-97), so a second unvalidated open of another object joins
     the first one's bytes.
- A plain seek of the sequential reader does not clear the mark left by a ranged
  seek (internal/engine/chunkstream/sequential.go:115-122), so the first size is
  used twice; `SequentialReader.DoublingCondition` gives the exact condition for
  the doubling schedule.
- After a sink has failed on the last buffer, the end of the source is forgotten
  and the next call reports an abandoned stream that nobody abandoned
  (`StreamBufferProofs.EndForgotten`). The exact condition, for a stream that has
  not been stopped (`StreamBufferProofs.AbandonedExactlyWhenLost`): the failing
  write has taken everything it was offered, the offer was the buffer that carried
  the end, and nothing has been skipped back into it since
  (internal/engine/streambuf/reader.go:136-141). A failure earlier in the stream or
  a partial last write costs nothing.
- A sequential reader whose next chunk cannot be opened keeps the old stream, which
  has ended, with the bounds of the new chunk
  (internal/engine/chunkstream/sequential.go:45-62). Until a seek it hands out no byte
  and opens no stream, and a read may report the end of the file in the middle of the
  object (`SequentialReader.EarlyEnd`). The exact condition
  (`SequentialReader.Reader.Read`): the reader is `Stranded` when the read begins and the
  old stream reports its end. It becomes stranded exactly when a chunk has been used up
  short of the end of the object and the open of the next one fails
  (`SequentialReader.Reader.ReadPiece`), and the read that does it returns that failure.
  A downloader is not affected, since it does not read on after an error
  (`Delivery.Fetch`, `Delivery.CopyRound`).
- `Downloaders.Close` ranges over the list of downloaders and gives up the lock around
  each stop (internal/engine/scheduler/scheduler.go:206-213). A call of
  `ensureDownloader` in between filters that very list in place, so that the range can
  miss a downloader, which is then neither stopped nor closed (`Closing.SecondSkipped`);
  and it may start one after the range, which nobody stops (`Closing.NewcomerLeft`). The
  exact conditions (`Closing.ClosingCondition`): all that were found are sure to be
  closed if and only if there is at most one or nobody calls `ensureDownloader`
  meanwhile; it is sure that none is left running if and only if nobody does. Without waiters the
  ticker and ending downloaders do not call it.
- The comment on `FindMissing` says that an absent range gives an empty answer;
  the code returns the range unchanged (ranges/ranges.go:260-283). The model
  follows the code.
- `Downloaders.Close(nil)` answers leftover waiters with nil whether or not their
  bytes are there (internal/engine/scheduler/scheduler.go:219). In the protocol
  this is the action `DispatchClosed`; under the three assumptions it is never
  possible, since nobody closes a scheduler while a read waits in it
  (`CacheProtocolProofs.NoWaiterClosed`).
- A failed attempt of the pool puts newly allocated buffers back without looking
  at the pool's size (internal/engine/bufferpool/pool.go:187-188), so `poolSize`
  is no bound on the cache (`BufferPool.Overfilled`). A cache within the size is
  overfilled exactly by an attempt that is granted memory, fails, and has allocated
  more than fits (`BufferPool.Pool.TryGetN`); it stays within the size as long as no
  attempt has failed after allocating (`BufferPool.Pool.Others`). A failed attempt
  for one buffer allocates nothing, and more than one are asked for only by
  `RW.Reserve` (internal/engine/bufferpool/reader_writer.go:60-66), which nothing in
  the repository calls.

## Assumptions

- At least one low-level retry; one cleaning pass at a time; no closing of the
  whole cache during reads; a reader is not used after its release has begun.
- The reset of an unused item is one step and does not race with an open.
- A validator identifies the bytes of an object; hashing is injective, so a
  fingerprint is the triple of size, strong tag and modification time.
- The origin returns exactly the requested half-open range; integers are
  mathematical; positions are not negative.
- An `io.Writer` that takes less than it is given returns an error.
- Waits that the program ends by a timer or by cancelling a context end after
  some number of rounds.
- While a cleaning pass runs, the free space of the disk depends only on how much
  the cache holds, and no item changes but by the pass.
- At startup removing and renaming files works, the hash of a key is injective,
  and only files, not directories, stand where data is expected.

## Model

| member | source | states |
|---|---|---|
| Ranges.Range.Clip | ranges/ranges.go:28-37 | the clipped range holds exactly the bytes below the offset; one that begins beyond it becomes empty |
| Ranges.Range.Intersection | ranges/ranges.go:43-49 | holds exactly the bytes both ranges hold |
| Ranges.Merge | ranges/ranges.go:61-72 | joins exactly when the ranges touch or overlap, into their hull |
| Ranges.RangeList.Coalesce | ranges/ranges.go:75-95 | merging one element with its neighbours in place restores the canonical form and keeps the byte set |
| Ranges.Search | ranges/ranges.go:101-105 | the first range that does not begin before the position |
| Ranges.RangeList.Insert | ranges/ranges.go:109-128 | the list stays canonical and holds exactly the union of its bytes and the new range |
| Ranges.CanonicalUnique | ranges/ranges.go:52-57 | two canonical lists with the same bytes are the same list |
| Ranges.InsertOrderIrrelevant | ranges/ranges.go:109-128 | the same inserts in any order give the same list |
| RangeQueries.Find | ranges/ranges.go:141-177 | the current piece starts the request, is not empty and stays inside it, and the rest is what remains, so repeated use ends |
| RangeQueries.FindExact | ranges/ranges.go:141-177 | the current piece is wholly present or wholly absent, and the byte after it differs |
| RangeQueries.FindAll | ranges/ranges.go:193-200 | splits the range into its maximal alternating present and absent runs |
| RangeQueries.RunsUnique | ranges/ranges.go:193-200 | there is only one such split |
| RangeQueries.PresentExact | ranges/ranges.go:203-215 | Present holds exactly when every byte of the range is in the set |
| RangeQueries.Intersection | ranges/ranges.go:219-232 | set intersection in canonical form; on a list in any order still canonical, inside the range and made of its bytes |
| RangeQueries.Equal | ranges/ranges.go:235-248 | decides equality of lists and, on canonical ones, of byte sets |
| RangeQueries.Size | ranges/ranges.go:251-256 | the cardinality of the byte set |
| RangeQueries.FindMissingExact | ranges/ranges.go:270-283 | the answer keeps the end, everything before it is present, and a non-empty answer starts with a missing byte |
| Item.Item.HasRange | cache/item.go:477-481 | true exactly when every byte of the range is cached |
| Item.Item.FindMissing | cache/item.go:484-490 | starts at the request's first missing byte inside the object and keeps the request's end, clipped; empty exactly when no byte is missing |
| Item.DataFile.WriteAt | cache/item.go:508-509 | a positional write gets as far as the system lets it, with the system's error |
| Item.Item.WritePiece | cache/item.go:500-513 | a present piece changes nothing; a missing one is written and recorded exactly as far as the write got |
| Item.Item.WriteAtNoOverwrite | cache/item.go:493-524 | present bytes are untouched, exactly [off, off+n) is added with the input's bytes in the new part, the size grows by n-skipped; n is all when the file is open and its writes work, and an error is that of one of the writes; the offset mismatch never happens |
| Version.WeakTagIsNoValidator | cache/item.go:526-537 | a weak entity tag, padded or not, leaves the fingerprint of no tag at all (RFC 9110, section 8.8.1) |
| Version.FingerprintTells | cache/item.go:526-537 | equal fingerprints mean equal size, tag and time of change, for tags that are not weak and not padded |
| Version.PaddingIgnored | cache/item.go:527 | blanks around a tag change nothing |
| Version.NoValidator | cache/item.go:526-533 | there is no fingerprint exactly when there is no time of change and the tag is blank or weak |
| CacheProtocolProofs.OpenerKeeps | cache/item.go:75-148 | every step of an open, a release or the grace timer keeps the protocol invariant |
| CacheProtocolProofs.DecideOpenKeeps | cache/item.go:93-146 | deciding an open, with a reset that works or fails, a joint open or a refusal, keeps it |
| CacheProtocolProofs.ResumeOpenKeeps | cache/item.go:215-238 | coming back from stopping the old scheduler, and failing to reset after it, keeps it |
| CacheProtocolProofs.HalfResetKeeps | cache/item.go:226-234 | a reset that gives up with the descriptor closed or the data file gone leaves an item nobody relies on |
| CacheProtocolProofs.ForgottenKeeps | cache/item.go:111-115 | forgetting the ranges of a missing data file keeps it |
| CacheProtocolProofs.StillFits | cache/item.go:93-101 | when no reset is called for, the cached bytes are bytes of the version being opened |
| CacheProtocolProofs.DoReleaseKeeps | cache/item.go:341-395 | giving up a handle, by grace period or by stopping the scheduler, keeps it |
| CacheProtocolProofs.FireGraceKeeps | cache/item.go:362-375 | the grace timer keeps it |
| CacheProtocolProofs.CheckRangeKeeps | cache/item.go:430-474 | looking a range up and choosing a scheduler keeps it |
| CacheProtocolProofs.AnswerKeeps | internal/engine/scheduler/scheduler.go:236-308 | being answered, failed or told on closing keeps it |
| CacheProtocolProofs.ReadFileKeeps | cache/item.go:446-447 | a granted read of the file returns the bytes of the reader's version |
| CacheProtocolProofs.WriteDownloadKeeps | internal/engine/scheduler/scheduler.go:333-380 | a downloader's write keeps it |
| CacheProtocolProofs.StartResetKeeps | cache/item.go:266-289 | the cleaner takes hold of an item only when nobody is inside |
| CacheProtocolProofs.FinishResetKeeps | cache/item.go:290-330 | every way a reset for space can end keeps it |
| CacheProtocolProofs.StepKeeps | cache/item.go:75-474 | every step of the protocol keeps the invariant |
| CacheProtocolProofs.TransparentWhenSafe | cache/item.go:413-448 | on every schedule a read that succeeds returns exactly the origin's bytes of the version its reader opened |
| CacheProtocolProofs.ResetExcludesAccess | cache/item.go:263-289 | an item being reset has no pending access and is open |
| CacheProtocolProofs.GrantedStaysCached | cache/item.go:397-474 | a range found present stays present until its reader has read the file |
| CacheProtocolProofs.NoWaiterClosed | internal/engine/scheduler/scheduler.go:201-221 | no waiting read is ever told nil by a closing scheduler |
| CacheProtocolProofs.DownloadersCovered | internal/engine/scheduler/scheduler.go:165-189 | everything between a live downloader's start and its offset is cached |
| CacheProtocolProofs.VersionsIsolated | cache/item.go:93-146 | bytes under a fingerprint are those of that version in the data file and lie inside [0, size) |
| CacheProtocolProofs.UnvalidatedBytesDoNotSurvive | cache/item.go:98-101 | a first open without a validator on either side starts with an empty cache |
| CacheProtocolProofs.ResumedOpenStartsEmpty | cache/item.go:215-238 | so does an open that had to stop the old scheduler |
| CacheProtocolProofs.WriteMatchesItem | cache/item.go:493-524 | the protocol's file write is the one that WriteAtNoOverwrite performs |
| CacheProtocolService.GrantedReads | cache/item.go:446-447 | a granted read of an open file gets min(len, size - off) bytes of its reader's version, none beyond the end |
| CacheProtocolService.CachedRead | cache/item.go:430-474 | from any reachable state a read of cached bytes through an open reader ends, without help, with exactly those bytes and leaves the item as it was |
| CacheProtocolService.MissingRead | cache/item.go:430-474 | a read that lacks a byte can be served by one download, and then gets exactly its bytes |
| CacheProtocolService.NegativeRead | cache/item.go:436-439 | a read before the object gets no bytes, which counts as its end |
| CacheProtocolService.WaiterAnswered | internal/engine/scheduler/scheduler.go:293-308 | a waiter can be told nil if and only if all it asked for is cached |
| CacheProtocolService.DownloadWrites | internal/engine/scheduler/scheduler.go:333-380 | a download caches exactly the bytes it writes |
| CacheProtocolService.FailuresReported | cache/item.go:430-474 | a file that is not open and every error of the scheduler end the read with an error |
| CacheProtocolService.OpenJoins | cache/item.go:93-97 | an open of the version that is open is let in and nothing cached is lost |
| CacheProtocolService.OpenRefused | cache/item.go:94-97 | an open of another version than the one open is refused and changes nothing |
| CacheProtocolService.OpenKeeps | cache/item.go:98-146 | the first open of the version on disk keeps everything that is cached of it |
| CacheProtocolService.OpenResets | cache/item.go:98-146 | the first open of any other version, or without a validator, is let in to an empty cache |
| CacheProtocolService.FailedOpen | cache/item.go:75-148 | an open that fails leaves no handle |
| CacheProtocolService.ReleaseEnds | cache/item.go:341-395 | a release gives up its handle and nothing cached; the last one closes the item at once or after the grace period |
| CacheProtocolService.GraceEnds | cache/item.go:362-375 | the end of the grace period closes the file and the scheduler and keeps what is cached |
| CacheProtocolService.ResetBegins | cache/item.go:246-273 | an open item can be reset exactly when nobody is inside, it is not in grace and there is something to reset |
| CacheProtocolService.ResetEnds | cache/item.go:266-330 | a reset empties the item and keeps its readers; it holds callers off exactly when it has failed for lack of space after closing the file |
| CacheProtocolService.DropEmpties | cache/item.go:246-265 | an unused item loses its ranges, its file and its identity |
| CacheProtocolLimits.RacingOpensReadZeros | cache/item.go:215-226 | without the first assumption a schedule makes a read return zeros |
| CacheProtocolLimits.StaleStreamMixesVersions | cache/item.go:98-101 | without the second a read returns bytes of an older version |
| CacheProtocolLimits.UnvalidatedOpensShareBytes | cache/item.go:93-97 | without the third a read returns another object's bytes |
| CacheProtocolLimits.TransparencyCondition | cache/item.go:75-474 | transparency holds if and only if all three hold |
| Scheduler.Downloaders.CountErrors | internal/engine/scheduler/scheduler.go:145-157 | the counter is the number of errors since the last success, and the last error kept is the last of them |
| Scheduler.ErrorsSinceSuccess | internal/engine/scheduler/scheduler.go:145-157 | that number is the count of failures after the last download that brought bytes |
| Scheduler.LastErrorLogged | internal/engine/scheduler/scheduler.go:145-157 | the last error is one in the log behind which nothing has failed or brought bytes; there is one exactly while the counter is positive |
| Scheduler.Downloaders.RemoveClosed | internal/engine/scheduler/scheduler.go:191-199 | the in-place filter keeps exactly the downloaders that are not closed |
| Item.MissingExact | cache/item.go:484-490 | the request's first missing byte inside the object is found, with the request's end |
| Scheduler.Downloaders.Target | internal/engine/scheduler/scheduler.go:245-262 | what is looked for is that missing part, or an empty range when nothing is missing |
| Scheduler.Downloaders.EnsureDownloader | internal/engine/scheduler/scheduler.go:243-285 | when it returns nil with a byte missing, some unclosed downloader has its offset at most a window before the first missing byte and goes on at least to the end of the request; it fails exactly when none was near and no stream can be opened, and a failure is logged once; none is started when one was near; no open downloader is moved or dropped |
| Scheduler.Downloaders.Reuse | internal/engine/scheduler/scheduler.go:267-273 | a downloader is found exactly when one is close enough behind; it is extended and nothing else changes |
| Scheduler.Downloaders.Download | internal/engine/scheduler/scheduler.go:223-234 | the waiter is queued once behind a downloader that will serve it, or not at all |
| Scheduler.FilterSplits | internal/engine/scheduler/scheduler.go:293-308 | filtering the waiters loses and duplicates nobody |
| Scheduler.Downloaders.FilterWaiters | internal/engine/scheduler/scheduler.go:297-307 | the in-place filter computes who is served and who is left, in order |
| Scheduler.Downloaders.DispatchWaiters | internal/engine/scheduler/scheduler.go:293-308 | exactly the waiters whose clipped range is present are answered, the others stay in order |
| Scheduler.ServedReady | internal/engine/scheduler/scheduler.go:298-303 | a dispatched waiter is told nil and its clipped range is cached |
| Scheduler.UnreadyLacks | internal/engine/scheduler/scheduler.go:298-303 | whoever is not served lacks a byte of its clipped range |
| Scheduler.Downloaders.CloseWaiters | internal/engine/scheduler/scheduler.go:236-241 | everyone left is told the error and nobody stays |
| Scheduler.Downloaders.GiveUp | internal/engine/scheduler/scheduler.go:322-330 | the waiters are to be failed exactly when the last error since a success was no space or there have been more than 10, and with that last error |
| Scheduler.Downloaders.KickWaiters | internal/engine/scheduler/scheduler.go:310-331 | who is served, who stays and who is failed, each told at most once; they are failed if and only if the log says so, with its last error; whoever stays has a downloader that will serve it if streams can be opened |
| Scheduler.Downloaders.Close | internal/engine/scheduler/scheduler.go:201-221 | when nobody calls meanwhile, afterwards all downloaders are closed, nobody is queued and everyone ever queued has been told exactly once |
| Scheduler.Downloaders.TellEveryone | internal/engine/scheduler/scheduler.go:216-220 | whatever state the calls of others have left, the last section tells everyone queued exactly once |
| Closing.ClosingCondition | internal/engine/scheduler/scheduler.go:201-221 | with calls of ensureDownloader while the lock is free, every downloader found is sure to be closed if and only if there is at most one; without such calls all are closed and none is left behind |
| Closing.SecondSkipped | internal/engine/scheduler/scheduler.go:191-199 | with two or more downloaders, one call makes the range miss the second |
| Closing.NewcomerLeft | internal/engine/scheduler/scheduler.go:214-217 | a downloader started while Close waits for the ticker is dropped from the list and not closed |
| Scheduler.Downloaders.Store | internal/engine/scheduler/scheduler.go:368-374 | the bytes are filed at the downloader's offset, which moves by what was accepted; the run of skipped bytes is counted; coverage is kept |
| Scheduler.Downloaders.File | internal/engine/scheduler/scheduler.go:343-380 | the same after waiting for a target; too long a run of skipped bytes stops the downloader, and a stopped one without a buffer is told to abandon its stream |
| Scheduler.Downloaders.Write | internal/engine/scheduler/scheduler.go:333-380 | all of it is filed when the file's writes work; if anything was, every waiter whose bytes are there is told nil and the others stay, provided for, or are failed; nobody is lost or told twice |
| Scheduler.Downloader.SetRange | internal/engine/scheduler/scheduler.go:446-457 | the target only grows |
| RetryReader.Reader.SpanResumes | internal/engine/objectio/retry_reader.go:62-75 | the reopened span resolves to exactly the bytes not handed out yet |
| RetryReader.Reader.Open | internal/engine/objectio/retry_reader.go:79-91 | the source is opened at most maxTries times, and never beyond |
| RetryReader.Reader.Read | internal/engine/objectio/retry_reader.go:108-130 | whatever fails in between, the output grows by the next bytes of the range; full unless the end or an error is reported; an error means that it was not to be retried, that a reopening failed, or that the tries are used up; without failures no try is spent; it ends |
| RetryReader.OpenRetrying | internal/engine/objectio/retry_reader.go:39-60 | a reader exactly when a try is allowed, the origin lets it open and the span resolves, and then for that range |
| RetryReader.Drain | internal/engine/objectio/retry_reader.go:108-130 | reads of any sizes together give the flat bytes, nothing repeated or lost |
| SequentialReader.Reader.constructor | internal/engine/chunkstream/reader.go:28-42 | sizes are normalised: no chunking below one, the limit not below the first size |
| SequentialReader.ChunkSizes | internal/engine/chunkstream/sequential.go:46-58 | from a plain seek the k-th chunk has min(initial * 2^k, limit) bytes |
| SequentialReader.ChunksTile | internal/engine/chunkstream/sequential.go:46-58 | without a limit a chunk is as long as all before it plus the first |
| SequentialReader.DoublingCondition | internal/engine/chunkstream/sequential.go:115-122 | the schedule is the doubling one exactly when the mark of a ranged seek is clear or there is no room to grow |
| SequentialReader.Reader.RangeSeek | internal/engine/chunkstream/sequential.go:99-128 | fails exactly outside the object; otherwise the next byte is the one at the offset and the chunk schedule starts again |
| SequentialReader.Reader.OpenRange | internal/engine/chunkstream/sequential.go:139-177 | a range is opened exactly when the origin lets it and it begins inside the object, and is that of the current chunk; a failure leaves the old stream in place |
| SequentialReader.Reader.NextChunkSize | internal/engine/chunkstream/sequential.go:45-58 | the next chunk begins where the last one ended, with the size the schedule prescribes |
| SequentialReader.Reader.Read | internal/engine/chunkstream/sequential.go:36-83 | whatever chunks it takes, the bytes are the next bytes of the object; min(k, size - position) of them when the origin helps, and nil exactly with all of them; the end is reported short of the end if and only if the reader was stranded and its old stream reports its end |
| SequentialReader.Reader.ReadPiece | internal/engine/chunkstream/sequential.go:42-81 | a pass of the loop hands out what there is of the chunk as far as the stream gets, and leaves the reader stranded if and only if it was, or its chunk was used up short of the end and the next one does not open, and then it returns that failure |
| SequentialReader.EarlyEnd | internal/engine/chunkstream/sequential.go:59-80 | for every object longer than its first chunk: a read after a failed open reports the end of the file where the first chunk ends |
| SequentialReader.Reader.Prepare | internal/engine/chunkstream/sequential.go:43-65 | moving on to the next chunk keeps the position, and strands the reader exactly when the chunk is used up short of the end and the open fails |
| SequentialReader.MarkedSeek | internal/engine/chunkstream/sequential.go:115-122 | a ranged seek followed by a plain one leaves the mark set |
| SequentialReader.Reader.FewOpens | internal/engine/chunkstream/sequential.go:36-83 | m opened ranges mean more than initial * (2^(m-1) - 1) requested bytes |
| ParallelReader.RoundedIsCeiling | internal/engine/chunkstream/parallel.go:109-118 | the chunk size is the smallest whole number of buffers that holds the request, and one buffer for a negative request |
| ParallelReader.Stream.Read | internal/engine/chunkstream/parallel.go:62-85 | the bytes are the next of the chunk, all wanted that the fetch has brought or brings; the end is reported exactly at the end of the chunk, and an error only when the fetch stays behind |
| ParallelReader.Reader.Open | internal/engine/chunkstream/parallel.go:120-146 | streams are only added behind the last, still tile without gap or overlap, and number at most the configured count |
| ParallelReader.Reader.PopStream | internal/engine/chunkstream/parallel.go:148-157 | dropping the head keeps the tiling and leaves the next stream at its beginning |
| ParallelReader.Reader.Read | internal/engine/chunkstream/parallel.go:167-196 | returns source[offset..offset+n], all of it unless an error is reported, and the end only at the end; min(k, size - offset) bytes when the streams are fetched, and at once what the first one holds |
| ParallelReader.Reader.Seek | internal/engine/chunkstream/parallel.go:208-258 | succeeds exactly inside the object, and then offset and tiling fit the new position; it is stuck only when the fetch of the stream it lands in never gets there |
| ParallelReader.Reader.DropBefore | internal/engine/chunkstream/parallel.go:228-235 | exactly the streams that end at or before the position go |
| StreamBufferProofs.TokensConserved | internal/engine/streambuf/reader.go:50-109 | tokens, queued, current and producer's buffers, owed refills and those given up make up `buffers` in every reachable state, and no channel send can wait |
| StreamBufferProofs.BuffersReturnedOnce | internal/engine/streambuf/reader.go:222-242 | no borrowing is given back twice, and after an abandon each has been given back exactly once |
| StreamBufferProofs.StreamPosition | internal/engine/streambuf/reader.go:111-152 | what a call hands out is the source from its position on, and everything before it has been handed out |
| StreamBufferProofs.WritesAtOffset | internal/engine/streambuf/reader.go:126-152 | a sink that counts what it takes is offered the object's bytes at just that offset, partial writes included |
| StreamBufferProofs.EndMeansAll | internal/engine/streambuf/reader.go:126-152 | a reported end, and a copy that ends without error, mean the whole source |
| StreamBufferProofs.AbandonedExactlyWhenLost | internal/engine/streambuf/reader.go:99-104 | on a stream nobody has stopped, a call that finds the queue closed is told that the stream was abandoned if and only if a failing write has taken the last of the buffer that carried the end; otherwise it gets the source's error |
| StreamBufferProofs.EndForgotten | internal/engine/streambuf/reader.go:136-141 | that happens: a reachable state without any stop in which the end is reported as abandoned |
| StreamBufferProofs.ReceiverIsServed | internal/engine/streambuf/reader.go:62-82 | a waiting consumer can receive or the producer can move |
| StreamBufferProofs.StopEnds | internal/engine/streambuf/reader.go:212-220 | after a stop, also inside the consumer's own write, the producer makes at most 3 * buffers + 3 steps and can move until it has exited |
| StreamBufferProofs.StepConserves | internal/engine/streambuf/reader.go:154-210 | every step, the rounds and failures of a skip included, conserves the tokens |
| StreamBufferProofs.StepPositioned | internal/engine/streambuf/reader.go:92-210 | every step keeps the buffers contiguous between consumer and producer |
| StreamBufferProofs.StepEnds | internal/engine/streambuf/reader.go:99-152 | every step keeps errors at the end of the line and accounted for |
| StreamBufferProofs.StepAccounts | internal/engine/streambuf/reader.go:85-90 | every step keeps each borrowing in exactly one place |
| StreamBufferService.SoftStart | internal/engine/streambuf/reader.go:62-74 | of the k-th buffer min(4 KiB * 2^k, 1 MiB) is filled |
| StreamBufferService.CopyCompletes | internal/engine/streambuf/reader.go:126-152 | with one buffer or more a copy can be completed, and passes the whole source |
| StreamBufferService.ReadHandsOut | internal/engine/streambuf/reader.go:111-124 | a read hands out as much as it wants of the current buffer, and with the last of it reports its error |
| StreamBufferService.SinkIsOffered | internal/engine/streambuf/reader.go:136-150 | a sink may take any part of the current buffer, a smaller one only with an error; the copy ends with its error or with the buffer's, the end being none |
| StreamBufferService.ResultsAreSaid | internal/engine/streambuf/reader.go:98-152 | every result of a call is nil, the sink's error, abandoned, or an error that the source has reported |
| StreamBufferService.SkipLands | internal/engine/streambuf/reader.go:154-210 | a skip that succeeds has moved the position by just so much |
| StreamBufferService.SkipInside | internal/engine/streambuf/reader.go:166-203 | a skip inside the current buffer, forwards or backwards, succeeds |
| StreamBufferService.SkipQueued | internal/engine/streambuf/reader.go:173-210 | a skip over bytes that have been queued already succeeds without the producer |
| StreamBufferService.StopIsSeen | internal/engine/streambuf/reader.go:79-80 | an idle producer can leave exactly after a stop |
| StreamBufferService.AbandonCompletes | internal/engine/streambuf/reader.go:222-233 | once the producer has left, an abandon can be completed and keeps no buffer |
| Delivery.NewSource | internal/engine/chunkstream/reader.go:28-42 | the source serves the object from its beginning, in parallel exactly when more than one stream is asked for |
| Delivery.ReadSource | internal/engine/chunkstream/reader.go:15-21 | either kind of source hands out the next bytes of the object and, as long as no error came before, reports the end only there |
| Delivery.BuffersFit | internal/engine/scheduler/scheduler.go:82-94 | the stream gets as many whole buffers as fit the object and the configured size, and none if that is less than one |
| Delivery.Open | internal/engine/scheduler/scheduler.go:382-394 | opening works exactly inside the object, and then source, buffer and offset are in step, or source and offset when no whole buffer fits |
| Delivery.Fetch | internal/engine/streambuf/reader.go:62-78 | filling a buffer from either source, up to any error, keeps them in step, and fills it up to the end of the object when the origin helps |
| Delivery.CopyRound | internal/engine/scheduler/scheduler.go:106-114 | without a buffer each round files origin[offset..] as far as the scheduler takes it, a whole stretch when origin and file help, goes on when all was taken, and ends without error only at the end of the object |
| Delivery.OffersOrigin | internal/engine/streambuf/reader.go:136-138 | what the sink is offered is the origin at the downloader's offset |
| Delivery.Deliver | internal/engine/scheduler/scheduler.go:333-394 | each Write gets origin[offset..offset+len(p)), files just that, and keeps them in step for every accepted count and every error |
| Delivery.StaysLinked | internal/engine/streambuf/reader.go:50-152 | every other step of a buffer that is only copied to its sink keeps them in step |
| PagedBuffer.FlatPage | internal/engine/bufferpool/reader_writer.go:73-83 | the k-th page is the k-th stretch of the flat bytes |
| PagedBuffer.GetWritePageKeeps | internal/engine/bufferpool/reader_writer.go:126-143 | taking the page to write to, old or new, keeps the invariant |
| PagedBuffer.CopyInKeeps | internal/engine/bufferpool/reader_writer.go:173-180 | the unlocked copy, which may scribble over all free space, disturbs no committed byte |
| PagedBuffer.CommitKeeps | internal/engine/bufferpool/reader_writer.go:154-157 | committing makes exactly the writer's data readable |
| PagedBuffer.FindPageKeeps | internal/engine/bufferpool/reader_writer.go:73-83 | a reader that is behind finds a page with committed bytes |
| PagedBuffer.CopyOutKeeps | internal/engine/bufferpool/reader_writer.go:101-104 | what is copied out is the committed stretch at the read position |
| PagedBuffer.ReadsWhatWasWritten | internal/engine/bufferpool/reader_writer.go:91-124 | in every run a finished call delivered exactly the committed bytes from where it began: all it asked for, or all that had been committed when it looked at the size for the last time, only the writer having moved since; only a copy to a sink can fail |
| PagedBuffer.SizesAgree | internal/engine/bufferpool/reader_writer.go:73-89 | size = (pages-1) * bufferSize + lastOffset = what was committed, and a reader below it finds a non-empty page |
| PagedBuffer.WriterAdds | internal/engine/bufferpool/reader_writer.go:126-180 | from any reachable state a writer can add any data that fits a page, and exactly that |
| PagedBuffer.SeekThenRead | internal/engine/bufferpool/reader_writer.go:221-244 | a seek works exactly within what has been committed, and the next read begins there |
| PagedBuffer.ReadCompletes | internal/engine/bufferpool/reader_writer.go:91-124 | a read alone gets the committed bytes from its position on, as many as it wants or all there are |
| PagedBuffer.WholePage | internal/engine/bufferpool/reader_writer.go:73-104 | a reader finds all that is committed of its page and takes all that it wants of it |
| BufferPool.Pool.TryGetN | internal/engine/bufferpool/pool.go:164-196 | one attempt succeeds exactly when memory is granted and enough can be allocated; otherwise nothing is handed out and the cache only grows; a cache within the pool's size is overfilled exactly by an attempt that fails after allocating too much |
| BufferPool.Overfilled | internal/engine/bufferpool/pool.go:187-188 | an attempt for two buffers leaves one cached in a pool of size zero |
| BufferPool.Pool.Others | internal/engine/bufferpool/pool.go:153-240 | over any sequence of calls the cache stays within the pool's size as long as no attempt for more than one buffer fails after allocating |
| BufferPool.Pool.GetN | internal/engine/bufferpool/pool.go:153-201 | n distinct buffers that nobody holds, with any calls of others between the attempts; it fails only if no attempt met memory enough |
| BufferPool.Pool.Put | internal/engine/bufferpool/pool.go:209-229 | a returned buffer is cached below the pool's size and freed at it |
| BufferPool.Pool.PutN | internal/engine/bufferpool/pool.go:231-240 | the same for many |
| BufferPool.Pool.UpdateMinFill | internal/engine/bufferpool/pool.go:132-136 | the watermark is the smallest cache length at any unlock since the last flush |
| BufferPool.LowWaterLeast | internal/engine/bufferpool/pool.go:132-136 | that value occurs among those lengths and none is smaller |
| BufferPool.Collected | internal/engine/bufferpool/pool.go:173-182 | cached and new buffers together are distinct and handed out to nobody |
| BufferPool.Pool.FlushAged | internal/engine/bufferpool/pool.go:96-104 | frees exactly the buffers nobody needed since the last flush, and never more than are there |
| BufferPool.Pool.Flush | internal/engine/bufferpool/pool.go:90-94 | the cache is empty and only what is in use stays allocated |
| Cleaning.Cache.Snapshot | cache/cache.go:297-320 | notes of every item in any order, and their total |
| Cleaning.Cache.RemoveUnused | cache/cache.go:341-352 | an unused item is gone with its size freed, or nothing happened |
| Cleaning.Cache.RetryFailedResets | cache/cache.go:364-395 | refines the specification of the retries |
| Cleaning.Cache.AgePass | cache/cache.go:401-412 | refines the age part |
| Cleaning.Cache.EvictPass | cache/cache.go:417-430 | refines the eviction of unused items |
| Cleaning.Cache.ResetPass | cache/cache.go:435-461 | refines the emptying of open items |
| Cleaning.Cache.Clean | cache/cache.go:397-474 | the whole pass is its specification on some oldest-first order of the items and any order of the failed resets, and ends within the quotas or with nothing left but items in grace, being accessed or failing to be reset |
| Cleaning.TotalAnyOrder | cache/cache.go:305-319 | the total does not depend on the order in which items are listed |
| Cleaning.AgeOutItems | cache/cache.go:401-412 | exactly the unused items last used before the cutoff go |
| Cleaning.EvictIsShortestPrefix | cache/cache.go:417-430 | unused items are evicted along the shortest prefix after which the quotas hold, or all of them |
| Cleaning.EvictAllItems | cache/cache.go:417-430 | along a prefix exactly the removable items go and no other item changes |
| Cleaning.EvictsOldest | cache/cache.go:415-430 | no removable item that stays is older than one that goes |
| Cleaning.OpenOnlyAfterUnused | cache/cache.go:432-461 | open items are emptied only after all removable unused ones are gone |
| Cleaning.ResetOpenClears | cache/cache.go:435-461 | short of the quotas, every item listed ends up empty, spared or failing |
| Cleaning.ResetOpenStops | cache/cache.go:435-461 | open items are emptied, spared or fail along the list up to the first place at which the quotas hold; nothing behind it is touched |
| Cleaning.YoungerUntouched | cache/cache.go:435-438 | an item goes untouched when the resets of older ones have met the quotas |
| Cleaning.ResetAllItems | cache/item.go:246-330 | what a reset leaves of each item listed, and which failures are remembered |
| Cleaning.PassOutcome | cache/cache.go:397-461 | up to the retries `used` is the real total, and the pass is within the quotas or has nothing left but items in grace, being accessed or failing to be reset |
| Cleaning.WholePass | cache/cache.go:397-466 | the same for what is really cached after the retries, if emptying the cache takes no free disk space away |
| Cleaning.RetryShrinks | cache/cache.go:364-395 | the retries let no item grow |
| Cleaning.PassSpares | cache/item.go:260-265 | an item in its grace period or being accessed goes through a pass unchanged |
| Cleaning.PassRemembers | cache/cache.go:358-395 | a reset begun and not finished is never forgotten |
| Cleaning.RetryLeaves | cache/cache.go:364-395 | what stays remembered is still there and has just failed again for lack of space |
| Cleaning.RetryItems | cache/cache.go:364-395 | what a retry leaves of each item, and that it stays remembered exactly when the disk is still full |
| Startup.Cache.LoadExistingMeta | cache/cache.go:149-226 | one metadata file is handled as specified, its ranges clipped to the object |
| Startup.Cache.LoadExisting | cache/cache.go:106-147 | the whole start is its specification |
| Startup.HomeStays | cache/cache.go:183-195 | an item once loaded is not touched by any later file |
| Startup.StartIsTidy | cache/cache.go:106-226 | a start leaves exactly one metadata and one data file for each loaded item, at its place, and nothing else |
| Startup.ItemsAsDescribed | cache/cache.go:149-226 | each item has the size, ranges and age that its files say, both those found and those left, and its data file is regular and of that size |
| Startup.GoodPairsLoad | cache/cache.go:149-226 | a regular data file with legible metadata of its size, at its place or alone with its place free, is loaded with that size, those ranges and that age whatever the order |
| Startup.RestartChangesNothing | cache/cache.go:106-226 | a second start leaves the files and the items as they are |

## Left out

- HTTP, Caddy and proxy plumbing, configuration parsing and header copying: shallow claims only.
- JSON encoding, temporary files, fsync and chmod in saveLocked and loadLocked: saving is one step that works or fails, and the reload of metadata by loadLocked is the starting state of the protocol.
- Sparse files, memory mapping, free-space queries and error classification: platform calls, replaced by unrestricted answers.
- Timers, tickers, sleeps and idle timeouts: steps that may happen at any time.
- KickCleaner, the cleaner's wake-ups and liveness of waiters: the source sends on a channel while it holds a lock (cache/cache.go:485-488), and no liveness is claimed.
- Concurrent cleaning passes, closing the cache during reads, and removing an item from the item map while it is being opened.
- An open that fails while opening the data file may already have forgotten the ranges of a missing one, and one that fails while sizing it leaves the descriptor open (cache/item.go:111-131); the outcome `FileFailed` of the protocol leaves ranges and descriptor as they were.
- The offset that `Reader.Read` keeps on top of `ReadAt` (cache/item.go:550-562): one addition.
- The retry loops around opens and reads (cache/cache.go:254-276, cache/item.go:413-428): each attempt is a read or an open of its own in the protocol.
- ParallelReader.Reader.Seek: when the fetch never reaches the position the source waits forever (internal/engine/chunkstream/parallel.go:250-252); the model then says so and promises nothing further.
- ParallelReader.Stream.Read: the source's wait ends only when the context is cancelled (internal/engine/chunkstream/parallel.go:66-83); here that is the end of the list of what the waits bring.
- The range-seeking shortcut and the other whence values of the sequential reader (internal/engine/chunkstream/sequential.go:144-150): the scheduler does not use them.
- SequentialReader.Reader.Read: the error at the very end of an object whose size is a multiple of the chunks is some error, not always the end of file, since the adapter refuses an empty range (cache/source_object.go:48).
- Reserve, the write observer, WaitWrite and Close of the paged buffer (internal/engine/bufferpool/reader_writer.go:60-71, 246-264): a reserved page is a page like any other, and closing waits for calls that have begun.
- Startup.Cache.LoadExisting: files in the metadata directory without the metadata extension are removed first (cache/cache.go:115-117), and a failing removal or rename ends the start; neither is modelled.
- CacheProtocolLimits.TransparencyCondition: the reset of an unused item does not race with an open there, so the condition is relative to that assumption; Cache.Open takes the item lock before it gives up the map lock, and the cleaner's removal from the map is not part of this model.
- Scheduler.Downloaders.Close: one critical section, the case that nobody calls meanwhile; what calls of others do to the list of downloaders while the source has given up its lock is `Closing`, where downloaders are numbers and what they write is not modelled.
- Scheduler.Downloaders.Write: what other goroutines do while the downloader waits for a kick is given only by the new targets it is woken with.
