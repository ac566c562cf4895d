# Verification of the external-memory algorithms

This project models the external-memory sorting library and the Plaidlay primitives built on it, and proves that their
results do not depend on scheduling. Threads, io_uring completions and drive choices are nondeterministic: wherever the
program leaves an order open, the model takes any enabled step, and every theorem holds for every choice. Loops of the
form `while { case ... }` stand for all interleavings; that they terminate, and terminate only when the work is done, is
the proof that no thread gets stuck. Where writes may complete at any time and nobody waits for them yet, an arbitrary number
of them completes between any two steps.

The main results, hardest first:

* **External sample sort** (`SortFiles.SortInputs`, `SampleSort.Sort`). For every interleaving of reader threads, scatter
  threads, I/O threads and gather workers, and every random choice for duplicated pivots, reading the result files back in
  bucket order by their end markers gives a sorted permutation of the input files; each holds exactly the elements routed to
  its bucket and is reported with its true size. `Sampling.SortSampled` adds the choice of the pivots, which are evenly spaced
  in a sorted random draw. It rests on the duplicate-aware routing (`Routing`), the bucketed writer (`WriterState`,
  `OrderedFileWriter`), the buffers of the scatter threads (`Shares`, `ScatterState`, `ScatterGather`) and the software pipeline of the
  gather phase (`PipelineState`, `PipelineRuns`, `Pipeline`).
* **Prime sieves** (`PrimeNumbers`, `PrimeSieve`, `ExternalPrimes`, `InMemorySieve`). The segmented sieve on disk and the
  recursive blocked sieve both return exactly the ascending list of primes up to n, so they agree.
* **Chunk engine** (`EngineState`, `ChunkEngine`, `EngineOperators`). A sequence on disk denotes its blocks in index order;
  `ExternalMap` and `ExternalFilter` commute with that denotation whatever slots and regions the tasks obtain.
* **External shuffle** (`ShuffleLabels`, `ShuffleScatter`, `ShuffleGather`, `FisherYates`, `ExternalShuffle`). Every element
  goes to the bucket that its label draws, every bucket is shuffled in place with picks of its own, buckets occupy contiguous
  ranges given by prefix sums, no two blocks overlap on disk, and the in-place shuffle can produce every permutation.
* **Readers, reordering and file operators** (`ReaderFiles`, `ReaderState`, `UnorderedFileReader`, `ChunkReader`,
  `ReorderQueue`, `OutputFormat`, `ElementStream`, `AppendWriter`, `FileOperators`, `FileScan`, `ReadChunks`, `ScanFiles`).
  Chunks are delivered exactly once and the end sentinel is seen only after all of them; filtering and the two-pass scan over
  them compute the sequential results, and `OutputFormat` says for which element sizes the output files hold them.
* **Index and search loops** (`Flatten`, `BlockScan`, `FindIf`, `RandomRead`).

`Sequences`, `Arithmetic`, `Numbers`, `Ordering`, `Disk` and `BlockDisk` hold what these share. `Words` shows that 32-bit
unsigned integers satisfy what is required of an element type: a layout in memory, wrap-around addition, an order and a sort.

In `SortFiles.SortInputs` the reader runs to completion before the scatter threads take their first chunk. This loses no
behaviour: the scatter phase sees the reader only through the queue, so all that matters is the order in which chunks arrive,
and `SampleSort.Sort` is proved for every order. The same holds for the other operators that read through a queue.

## Where the code does not do what it is for

* The pivot walk reads past the samples exactly when there are fewer than two samples per pivot (`Routing.PivotWalk`); with
  the sample count that the code draws this is the case exactly for fewer than four pivots or fewer than twice as many
  elements as pivots (`Routing.OversampleSuffices`, `Sampling.GetPivots`). With one pivot it reads past any number of samples
  that can be drawn (`Routing.OnePivotOutOfRange`).
* `FilterFile` and the scan push their last block as a number of elements, so what does not amount to a whole element is cut
  off. The end marker is lost exactly when the size of the last block is not a multiple of the element size
  (`OutputFormat.RecoverableIffKept`); no stream loses it exactly when the element size divides the alignment
  (`OutputFormat.FitsAlwaysIffDividing`). With elements of 8192 bytes, the library's buffers and an alignment of 4096 a stream
  of one element loses it although no check fails (`OutputFormat.MarkerLost`). The reported true size is right exactly when no
  full buffer was written or the element size divides the buffer size (`OutputFormat.TrueSizeRight`).
* The file size that `FilterFile` reports counts the last block as a full buffer. It is right exactly when what is pushed of
  the last block makes up for the difference (`FileOperators.FilterSizeIff`), which for elements that divide the alignment means
  that it is as large as a buffer (`FileOperators.FilterSizeDividing`); for an empty result with elements of eight bytes
  it is 1024 times too large (`FileOperators.FilterSizeAt`).
* The external `find_if` computes positions as if every chunk but the last were full. It is right for all contents of
  chunks of given sizes exactly when every non-empty chunk begins where its index says (`FindIf.AlwaysRightIffAligned`).
  The output of a filter need not satisfy this: `FindIf.FilterOutputMisplaced` gives one on which it is wrong.
* `block_flatten_in_dram` writes out of range exactly for fewer than two sequences (`Flatten.BlockFlatten`), the search it
  uses wraps around exactly when even the first value is too large (`Flatten.PredecessorSearch`), and the sequential
  `scan` writes out of range exactly for the empty input (`BlockScan.Scan`).
* The external shuffle counts the elements of its input per index, the last header of an index counting. The output is a
  permutation exactly if that count is positive or the input is empty (`ExternalShuffle.ExternalShuffle`), which distinct
  indices guarantee (`ExternalShuffle.DistinctPermutes`); `ExternalShuffle.RepeatedIndexLosesInput` is an input it loses.
* A request of size zero ends the worker of the append writer: what is pushed after it is not written
  (`AppendWriter.AppendWorker.RunToCompletion`). Nothing is lost exactly when everything from the first empty push on is empty
  (`AppendWriter.NothingLostIff`); `AppendWriter.LostPush` is a run that loses a block.

## Model

| member | source | states |
|---|---|---|
| SortFiles.SortInputs | scatter_gather_algorithms/sample_sort.h:167-190 | the whole sort, reader included: for every interleaving and random choice the result files, read back in bucket order, are a sorted permutation of the input files' elements; each has exactly the elements routed to its bucket, all of them between the pivots around it, and is reported with its true size |
| SortFiles.ComputeBeforeSize | utils/file_utils.cpp:225-231 | the index of a file's first element is the number of bytes in the files before it |
| SortFiles.ArrivalsIndexed | scatter_gather_algorithms/scatter_gather.h:74-82 | however the files are cut into chunks and in whatever order these arrive, the elements keep the indices they have in whole files |
| Sampling.SortSampled | scatter_gather_algorithms/sample_sort.h:46-190 | the sort with its pivots: it succeeds exactly for at least four pivots and twice as many elements; the pivots are then those chosen from the samples, sorted, and the result files are those of the sort with these pivots |
| Sampling.GetPivots | scatter_gather_algorithms/sample_sort.h:46-73 | the walk stays in range exactly for at least four pivots and twice as many elements; the pivots are then taken at evenly spaced positions of the sorted samples, which are min(n, k * floor(sqrt(k))) elements at drawn positions of the input |
| Sampling.DrawSamples | scatter_gather_algorithms/sample_sort.h:46-61 | the samples are the elements at the drawn positions, sorted |
| SampleSort.Sort | scatter_gather_algorithms/sample_sort.h:167-190 | the sort from any arrival order of chunks on: every result file stores its bucket with a valid marker and is reported with its true size, each bucket has exactly the elements that the assigner routes to it, all between the pivots around it, and the buckets concatenated are sorted and a permutation of the chunks' elements |
| SampleSort.BucketsInOrder | scatter_gather_algorithms/sample_sort.h:151-161 | buckets whose elements lie between the pivots around them do not precede one another in the wrong order |
| SampleSort.SortPrefixOf | scatter_gather_algorithms/scatter_gather.h:113-126 | sorting the whole elements within the true size of a bucket's buffer sorts the bucket's elements and leaves padding and marker in place |
| SampleSort.ProcessedPart | scatter_gather_algorithms/scatter_gather.h:262-273 | a processed buffer still stores its bucket behind a valid end marker, now sorted |
| SampleSort.PartsAreShares | scatter_gather_algorithms/scatter_gather.h:64-103 | what the bucket files store after the scatter phase is, bucket by bucket, exactly what was routed there |
| SampleSort.SharesInBucket | scatter_gather_algorithms/sample_sort.h:151-161 | everything routed to a bucket lies between the pivots around it |
| Shares.SharesTotal | scatter_gather_algorithms/scatter_gather.h:64-103 | every element belongs in exactly one bucket: the shares of the buckets together are all elements |
| Shares.FromShare | scatter_gather_algorithms/scatter_gather.h:80-85 | an element in a bucket's share is one of the input that the assigner sends to that bucket for its index |
| Shares.SameShares | scatter_gather_algorithms/scatter_gather.h:74-85 | the same elements with the same indices make the same buckets, in whatever order they arrive |
| SampleSort.CollectBuckets | utils/ordered_file_writer.h:173-199 | after the scatter phase each bucket file decodes, by its reported sizes, to the elements its threads flushed to it |
| SampleSort.ReadResult | utils/file_utils.cpp:62-80 | a consumer that knows only file size and marker recovers exactly the stored elements of all files in order |
| Routing.PivotWalk | scatter_gather_algorithms/sample_sort.h:62-72 | the walk stays in range exactly if there are two samples per pivot, with unsigned 64-bit wrap-around; it then takes increasing positions such that as many samples, up to one more, are skipped before, between and after all of them |
| Routing.EvenPosition | scatter_gather_algorithms/sample_sort.h:62-72 | with q samples to a gap, position j lies between (j + 1) * q + j and (j + 1) * (q + 1) + j |
| Routing.EvenStep | scatter_gather_algorithms/sample_sort.h:66 | one step of the walk skips q or q + 1 samples and leaves what the other gaps need |
| Routing.StepBounds | scatter_gather_algorithms/sample_sort.h:66 | one step in unsigned arithmetic keeps two samples per remaining pivot, or keeps the shortage or leaves the range at once |
| Routing.OnePivotOutOfRange | scatter_gather_algorithms/sample_sort.h:54-66 | for one pivot at most one sample is drawn and the first step is out of range |
| Routing.OversampleSuffices | scatter_gather_algorithms/sample_sort.h:54 | the number of samples drawn is two per pivot exactly for at least four pivots and twice as many elements |
| Routing.SubsequenceSorted | scatter_gather_algorithms/sample_sort.h:62-72 | samples at increasing positions of a sorted list are sorted |
| Routing.UpperBound | scatter_gather_algorithms/sample_sort.h:100-104 | binary search: no pivot before the result is greater than the value, and the pivot at the result is |
| Routing.FindRuns | scatter_gather_algorithms/sample_sort.h:129-149 | the constructor's loop records the first maximal run of every value that occurs in adjacent pivots, and nothing else |
| Routing.RunsAreMultiplicities | scatter_gather_algorithms/sample_sort.h:129-149 | the map holds exactly the values occurring at least twice, each with its first position and its multiplicity |
| Routing.DeduplicatingAssigner.constructor | scatter_gather_algorithms/sample_sort.h:129-149 | establishes that description of the map |
| Routing.DeduplicatingAssigner.GetAssigner | scatter_gather_algorithms/sample_sort.h:151-161 | a value with a pair of equal adjacent pivots goes to a position of its first run, cycling through the run with the random number; any other value goes before the first pivot that is greater |
| Routing.RoutedOnce | scatter_gather_algorithms/sample_sort.h:151-161 | a value and a random number determine the bucket |
| Routing.SingleRouted | scatter_gather_algorithms/sample_sort.h:151-161 | a value that does not occur twice among the pivots goes before the first pivot that is greater |
| Routing.DuplicatesSpread | scatter_gather_algorithms/sample_sort.h:151-161 | a value that occurs twice or more goes exactly to the positions at which it occurs, to each of them for some random number |
| Routing.RoutedWithin | scatter_gather_algorithms/sample_sort.h:151-161 | the pivot before a value's bucket is not greater than the value, and the pivot after it is not smaller |
| Routing.BucketOrder | scatter_gather_algorithms/sample_sort.h:151-161 | between the pivots around them, values in an earlier bucket do not come after values in a later one |
| Routing.RoutingMonotone | scatter_gather_algorithms/sample_sort.h:151-161 | a smaller value never goes to a later bucket, whatever the random choices |
| WriterState.AddKeepsInv | utils/ordered_file_writer.h:256-261 | adding an aligned block to a bucket's request keeps the bucket, pool and flight invariants |
| WriterState.DetachKeepsInv | utils/ordered_file_writer.h:214-218 | detaching a bucket's request keeps the invariants: extents still tile the file and every byte accepted so far is on disk or on its way |
| WriterState.SubmitKeepsInv | utils/ordered_file_writer.h:132-134 | submitting a detached request, after the bucket's lock has been released, keeps the invariants whatever other threads did in between |
| WriterState.NewRequestKeepsInv | utils/ordered_file_writer.h:125-130 | taking a free request for a bucket keeps the invariants |
| WriterState.PutAsideKeepsInv | utils/ordered_file_writer.h:207-212 | putting a misaligned block aside keeps the invariants |
| WriterState.IssueKeepsInv | utils/ordered_file_writer.h:89-117 | moving the oldest pending request to a ring keeps the invariants |
| WriterState.CompleteKeepsInv | utils/ordered_file_writer.h:69-87 | any completion keeps the invariants: the request's bytes are now on disk and the request is free again |
| WriterState.RequestsTile | utils/ordered_file_writer.h:201-220 | the requests of a bucket tile what has been submitted without gap or overlap, and none exceeds the vector limit |
| WriterState.TilesExactly | utils/ordered_file_writer.h:201-220 | consecutive extents contain every byte below the size exactly once and no other |
| WriterState.PoolPartition | utils/ordered_file_writer.h:143-167 | every pool request is in exactly one place: the free queue, a bucket, the hands of a thread that has detached it, the pending queue or a ring |
| WriterState.NeverStuck | utils/ordered_file_writer.h:125-130 | with nothing on its way a free request is available, so a waiting writer is always woken up |
| WriterState.DrainedContents | utils/ordered_file_writer.h:173-199 | a closed bucket with nothing on its way has exactly the accepted bytes on disk |
| OrderedFileWriter.GatherMisaligned | utils/ordered_file_writer.h:299-323 | the tail block holds the misaligned blocks in order, has an aligned size with room for the marker, and a marker that gives their total size |
| OrderedFileWriter.TargetSize | utils/ordered_file_writer.h:306-310 | the size of the tail is a multiple of the alignment and the least that leaves two bytes for the marker |
| OrderedFileWriter.Initialize | utils/ordered_file_writer.h:143-167 | ten requests per bucket, one held by each bucket, nothing written |
| OrderedFileWriter.OrderedFileWriter.constructor | utils/ordered_file_writer.h:143-167 | a writer starts valid with every bucket open and empty |
| OrderedFileWriter.OrderedFileWriter.Write | utils/ordered_file_writer.h:201-220 | an aligned block is appended to its bucket, a misaligned one is put aside, no other bucket changes; the bucket's request is handed over exactly when the block brings it to the threshold or the vector limit |
| OrderedFileWriter.OrderedFileWriter.HandOver | utils/ordered_file_writer.h:214-219 | a full request is detached and replaced by a free one that continues at the end of the file |
| OrderedFileWriter.OrderedFileWriter.SubmitOne | utils/ordered_file_writer.h:132-134 | a request that a thread has detached moves to the end of the pending queue, and nothing else changes |
| OrderedFileWriter.OrderedFileWriter.IssueNext | utils/ordered_file_writer.h:89-117 | the oldest pending request moves to a ring, and nothing else changes |
| OrderedFileWriter.OrderedFileWriter.CompleteOne | utils/ordered_file_writer.h:69-87 | any request in a ring may complete: its bytes are written at its offset in its bucket's file and it becomes free |
| OrderedFileWriter.OrderedFileWriter.CloseBucket | utils/ordered_file_writer.h:173-199 | closing appends the tail of misaligned blocks with its marker and reports true and file size |
| OrderedFileWriter.OrderedFileWriter.Delivered | utils/ordered_file_writer.h:173-199 | once closed and drained the file is the aligned blocks, then the misaligned ones, then padding that ends in the marker, with the reported sizes |
| ScatterState.PollKeepsInv | scatter_gather_algorithms/scatter_gather.h:74-79 | taking a chunk keeps buffers and conservation: for each bucket, what the writer and the threads have and what is still to be polled is what belongs there |
| ScatterState.RouteKeepsInv | scatter_gather_algorithms/scatter_gather.h:80-85 | moving one element to the buffer of the bucket it is assigned to keeps them, the buffer having room |
| ScatterState.FlushKeepsInv | scatter_gather_algorithms/scatter_gather.h:86-92 | handing a full buffer to the writer keeps them |
| ScatterState.AdvanceKeepsInv | scatter_gather_algorithms/scatter_gather.h:95-102 | moving on to the next buffer during clean-up keeps them |
| ScatterState.AllWithWriter | scatter_gather_algorithms/scatter_gather.h:64-103 | when all threads are done the writer has for every bucket exactly the elements routed there |
| ScatterGather.Scatter.Poll | scatter_gather_algorithms/scatter_gather.h:74-79 | a thread takes the next chunk with the index of its first element |
| ScatterGather.Scatter.Route | scatter_gather_algorithms/scatter_gather.h:80-92 | a thread moves its next element to the buffer of the bucket assigned to it and its index, and hands the buffer over exactly when it becomes full |
| ScatterGather.Scatter.Clean | scatter_gather_algorithms/scatter_gather.h:95-102 | a thread flushes or frees its next partial buffer |
| ScatterGather.Scatter.RunToCompletion | scatter_gather_algorithms/scatter_gather.h:313-338 | every interleaving of scatter and I/O threads terminates with all chunks consumed, all buckets closed and nothing outstanding |
| ScatterGather.Scatter.NoStepLeft | scatter_gather_algorithms/scatter_gather.h:64-103 | when no step is enabled all threads have finished: there is no deadlock over the request pool |
| PipelineState.RotateKeepsInv | scatter_gather_algorithms/scatter_gather.h:227-240 | moving the stages on and reaping the read keeps the pipeline invariant |
| PipelineState.FetchKeepsInv | scatter_gather_algorithms/scatter_gather.h:241-259 | drawing a bucket index and submitting its read into fresh memory keeps it |
| PipelineState.ProcessKeepsInv | scatter_gather_algorithms/scatter_gather.h:261-274 | processing the current buffer keeps it |
| PipelineState.ReapWriteKeepsInv | scatter_gather_algorithms/scatter_gather.h:275-285 | reaping the write of the previous buffer and freeing it keeps it: no buffer is freed or reused before its write is reaped |
| PipelineState.SubmitWriteKeepsInv | scatter_gather_algorithms/scatter_gather.h:286-296 | submitting the write of the processed buffer keeps it |
| PipelineState.AllWritten | scatter_gather_algorithms/scatter_gather.h:204-298 | when every worker has stopped, every bucket has its result recorded and its processed contents in its output file, and no buffer is left |
| PipelineRuns.EventsInOrder | scatter_gather_algorithms/scatter_gather.h:227-296 | a block moves a bucket on only by the event it stands for, and only after all earlier events: read submitted, read reaped, processed, write submitted, write reaped and recorded |
| PipelineRuns.TimesByStage | scatter_gather_algorithms/scatter_gather.h:227-296 | over any run an event happens to a bucket once if it lies between the first and the last stage of the bucket, and otherwise never |
| PipelineRuns.EachOnce | scatter_gather_algorithms/scatter_gather.h:204-298 | over a run from the beginning to the end every bucket is read, processed, written and recorded exactly once |
| PipelineRuns.OneReadOneWrite | scatter_gather_algorithms/scatter_gather.h:227-296 | at any time a worker has at most one read and at most one write outstanding |
| PipelineRuns.OutstandingByStage | scatter_gather_algorithms/scatter_gather.h:227-296 | a read or a write is outstanding exactly from its submission until it is reaped |
| PipelineState.BlockKeepsInv | scatter_gather_algorithms/scatter_gather.h:227-296 | whichever block a worker executes next, the pipeline invariant holds again |
| PipelineState.Progress | scatter_gather_algorithms/scatter_gather.h:227-296 | every block of a live worker makes progress, so the loop ends only when drained |
| Pipeline.Gather.Fetch | scatter_gather_algorithms/scatter_gather.h:241-259 | one worker draws the next index and starts its read |
| Pipeline.Gather.Process | scatter_gather_algorithms/scatter_gather.h:261-274 | one worker processes the buffer it has read |
| Pipeline.Gather.ReapWrite | scatter_gather_algorithms/scatter_gather.h:275-285 | one worker reaps its write and frees the buffer |
| Pipeline.Gather.RunToCompletion | scatter_gather_algorithms/scatter_gather.h:204-298 | every interleaving of the workers ends with every output file holding the processed bucket; it is a run in which each of the five events happened to every bucket exactly once |
| Disk.MakeFileEndMarker | utils/file_utils.cpp:233-238 | the last two bytes receive the number of bytes that are not payload, low byte first, and nothing else changes |
| Disk.MarkerRoundTrip | utils/file_utils.cpp:62-80 | decoding the marker gives the payload size back and the payload is untouched |
| Disk.ReadPart | utils/file_utils.cpp:62-80 | the elements of a padded file are recovered from its size and marker alone |
| Disk.DecodeEncode | scatter_gather_algorithms/scatter_gather.h:115-122 | elements laid out in memory are read back, and trailing bytes short of an element are ignored |
| Disk.AlignUpBounds | utils/file_utils.h:46-48 | rounding up gives a multiple of the alignment less than one alignment above |
| PrimeNumbers.PrimeIffNotCrossed | Plaidlay/examples/external/primes.h:109-125 | a number is prime exactly if no prime up to its square root divides it |
| PrimeNumbers.PrimesInAscend | Plaidlay/examples/external/primes.h:17-31 | the list of primes in a range is strictly ascending |
| PrimeNumbers.PrimesInMembers | Plaidlay/examples/external/primes.h:17-31 | that list contains exactly the primes of the range |
| PrimeSieve.BaseSieve | Plaidlay/examples/external/primes.h:17-31 | the simple sieve returns exactly the primes up to m |
| PrimeSieve.CrossOff | Plaidlay/examples/external/primes.h:23 | the inner loop clears exactly the multiples of p from p squared on |
| PrimeSieve.IntegerSqrt | Plaidlay/examples/external/primes.h:40-42 | from any estimate the two correction loops give the exact integer square root |
| PrimeSieve.FirstStrike | Plaidlay/examples/external/primes.h:109-119 | the computed start is a value to strike and no value of the chunk before it is |
| PrimeSieve.StrikePrime | Plaidlay/examples/external/primes.h:109-125 | one base prime clears exactly the values it must: multiples from its square on, odd ones only unless it is 2 |
| PrimeSieve.UnstruckOddIsPrime | Plaidlay/examples/external/primes.h:109-125 | with the primes up to the root an odd number is left exactly if it is prime |
| PrimeSieve.SieveChunk | Plaidlay/examples/external/primes.h:106-139 | a chunk of flags yields exactly the primes of its range in ascending order |
| PrimeSieve.ScanOdd | Plaidlay/examples/external/primes.h:131-139 | emitting 2 explicitly and looking at odd indices only misses no prime |
| ExternalPrimes.BoolCreate | Plaidlay/ExternalBoolean.h:34-168 | the created sequence denotes n equal flags, in chunks with the right valid counts that fill a block, in disjoint regions, whatever slots and files the tasks of each batch obtain |
| ExternalPrimes.FlagBatch | Plaidlay/ExternalBoolean.h:87-134 | a batch produces one consecutive chunk per drive as far as there are chunks |
| ExternalPrimes.SieveRound | Plaidlay/examples/external/primes.h:98-150 | the tasks of a batch produce the primes of the chunks polled |
| ExternalPrimes.SieveBatches | Plaidlay/examples/external/primes.h:81-162 | the batch loop polls and sieves every chunk, whatever their order and whatever files each batch draws |
| ExternalPrimes.SievedDenote | Plaidlay/examples/external/primes.h:81-170 | the sieved chunks in index order hold exactly the primes up to n |
| ExternalPrimes.Primes | Plaidlay/examples/external/primes.h:35-170 | for every order of arrivals and slots and every draw of files in every batch the result denotes the ascending primes up to n, with dense indices and disjoint regions; the blocks stay within their regions exactly if no chunk of flags has more primes than a block has room for |
| BatchRounds.ClaimSlots | Plaidlay/examples/external/primes.h:147-149 | the tasks of a batch obtain different slots in any order |
| BatchRounds.PlaceBlocks | Plaidlay/examples/external/primes.h:152-160 | the loop over the drives gives every block a region of its own, in a file drawn anew each time, while the writer completes queued writes |
| BatchRounds.RunRound | Plaidlay/examples/external/primes.h:81-162 | a batch adds exactly its blocks to what is laid out |
| InMemorySieve.FirstInBlock | Plaidlay/examples/in_memory/in_memory_primes.h:35 | with truncating division, the first multiple in a block that is not the prime itself |
| InMemorySieve.SieveBlock | Plaidlay/examples/in_memory/in_memory_primes.h:28-41 | one block's flags tell which numbers no prime crosses off, and other blocks are untouched |
| InMemorySieve.SieveBlocks | Plaidlay/examples/in_memory/in_memory_primes.h:28-41 | the blocks, in any order, cover all numbers up to n |
| InMemorySieve.Primes | Plaidlay/examples/in_memory/in_memory_primes.h:16-49 | the recursive sieve returns the ascending primes up to n, as the external one does |
| ExternalSequence.SortedHeadersDenote | Plaidlay/external_engine/external_engine.h:123-128 | sorting the headers by index puts blocks that arrived in any order into the order of increasing keys |
| ExternalSequence.SortedUnique | Plaidlay/external_engine/external_engine.h:124-128 | with distinct keys the sorted order is determined |
| ExternalSequence.DensifyDenotes | Plaidlay/external_engine/external_engine.h:129-131 | rewriting the indices to 0, 1, 2, ... keeps the denotation |
| EngineState.ClaimKeepsInv | Plaidlay/external_engine/external_engine.h:52 | a claimed slot is within the result's capacity and different from all others |
| EngineState.ReserveKeepsInv | Plaidlay/external_engine/external_engine.h:53-61 | a reserved region overlaps no other, and the header describes it |
| EngineState.PushKeepsInv | Plaidlay/external_engine/external_engine.h:63 | a queued block does not disturb any other slot's block |
| EngineState.CompleteKeepsInv | Plaidlay/external_engine/external_engine.h:121 | writes may complete in any order |
| EngineState.NextBatchKeepsInv | Plaidlay/external_engine/external_engine.h:109-119 | polling the next chunks keeps the invariant |
| EngineState.SlotsSuffice | Plaidlay/external_engine/external_engine.h:99-101 | there is a slot for every emission |
| ChunkEngine.FinishedHeaders | Plaidlay/external_engine/external_engine.h:121-123 | when all is written the claimed headers describe exactly the emitted blocks, in disjoint regions |
| ChunkEngine.RunBatch | Plaidlay/external_engine/external_engine.h:110-117 | every interleaving of the tasks' atomic steps, and of the writer's completions before, between and after them, completes the batch; queued writes may outlive it |
| ChunkEngine.ExpectedReads | Plaidlay/external_engine/external_engine.h:89 | the number of rounds suffices for all chunks, and one fewer would not |
| ChunkEngine.RunBatches | Plaidlay/external_engine/external_engine.h:108-119 | the batch loop polls every chunk |
| ChunkEngine.SortResult | Plaidlay/external_engine/external_engine.h:123-131 | trimming, sorting and re-densifying yield headers that stand for the items in key order |
| ChunkEngine.ExternalTransform | Plaidlay/external_engine/external_engine.h:75-133 | for every arrival order and interleaving the result stands for the blocks of a sequential run, in disjoint regions, with at most the promised number of headers and dense indices if asked |
| EngineOperators.FanoutSuffices | Plaidlay/external_engine/ExternalMap.h:24-31 | a full input block needs at most FANOUT output blocks, which cover it without an empty one |
| EngineOperators.MapBodyMeans | Plaidlay/external_engine/ExternalMap.h:28-41 | a chunk's blocks hold its mapped elements in order under keys of a range of its own |
| EngineOperators.MapChunk | Plaidlay/external_engine/ExternalMap.h:28-41 | the loops of the map body compute those blocks |
| EngineOperators.KeysIncrease | Plaidlay/external_engine/ExternalMap.h:37-39 | keys index * FANOUT + s are distinct and follow the input order |
| EngineOperators.ExternalMap | Plaidlay/external_engine/ExternalMap.h:20-43 | the result denotes the mapped input, is dense and has at most FANOUT headers per chunk |
| EngineOperators.FilterChunk | Plaidlay/external_engine/ExternalFilter.h:22-29 | the compacting loop computes the survivors in order |
| EngineOperators.ExternalFilter | Plaidlay/external_engine/ExternalFilter.h:17-32 | the result denotes the filtered input, dense, with one header per chunk, in disjoint regions of blocks that the survivors of a chunk fit into |
| BlockDisk.AppendKeepsValid | Plaidlay/examples/Extern_random_shuffle.h:161-167 | a region drawn from the file's counter overlaps no other |
| BlockDisk.Wait | Plaidlay/examples/Extern_random_shuffle.h:195 | queued writes may complete in any order |
| ShuffleScatter.PollKeepsInv | Plaidlay/examples/Extern_random_shuffle.h:176-179 | taking a chunk keeps buffers and, bucket by bucket, conservation |
| ShuffleScatter.RouteHolds | Plaidlay/examples/Extern_random_shuffle.h:180-183 | routing moves one element to the bucket that its label draws: what a worker holds for each bucket stays the same |
| ShuffleScatter.FlushKeepsInv | Plaidlay/examples/Extern_random_shuffle.h:160-173 | a flushed buffer becomes a block with a header tagged by its bucket, and no other worker is affected |
| ShuffleScatter.RunScatter | Plaidlay/examples/Extern_random_shuffle.h:148-195 | every interleaving ends with exactly the elements whose labels draw a bucket in the blocks tagged with it, and no two blocks overlap |
| ShuffleScatter.AllSeparate | Plaidlay/examples/Extern_random_shuffle.h:161-167 | the regions of the headers of all workers are pairwise disjoint |
| ShuffleLabels.ComputeLabels | Plaidlay/examples/Extern_random_shuffle.h:101-116 | the label of a chunk's first element is the number of elements of the chunks with smaller indices; an index out of range is refused |
| ShuffleLabels.LabelsDistinct | Plaidlay/examples/Extern_random_shuffle.h:101-116 | with distinct indices no two elements have the same label, and labels are below the number of elements |
| ShuffleLabels.ElemsTotal | Plaidlay/examples/Extern_random_shuffle.h:101-116 | the number of elements is then computed as it is |
| ShuffleGather.GroupByBucket | Plaidlay/examples/Extern_random_shuffle.h:197-203 | each bucket receives exactly the headers tagged with it, each as often as it occurs, in order |
| ShuffleGather.GroupingConserves | Plaidlay/examples/Extern_random_shuffle.h:197-203 | every block belongs to exactly one bucket |
| ShuffleGather.GatherBucket | Plaidlay/examples/Extern_random_shuffle.h:231-243 | the blocks of a bucket are read back to back |
| ShuffleGather.Layout | Plaidlay/examples/Extern_random_shuffle.h:208-219 | block counts and their exclusive prefix sums |
| ShuffleGather.SlotsDisjoint | Plaidlay/examples/Extern_random_shuffle.h:215-219 | the slots of different buckets are different and all are below the total |
| ShuffleGather.WriteKeepsOutput | Plaidlay/examples/Extern_random_shuffle.h:254-273 | writing one block fills its own slot and disturbs no other |
| ShuffleGather.OutputDenotes | Plaidlay/examples/Extern_random_shuffle.h:254-273 | the slots in order hold the buckets one after the other |
| ShuffleGather.OutputDense | Plaidlay/examples/Extern_random_shuffle.h:282-283 | every slot is filled and slot k holds index k |
| ShuffleGather.OutputApart | Plaidlay/examples/Extern_random_shuffle.h:254-273 | the regions of different slots are disjoint |
| FisherYates.Shuffle | Plaidlay/examples/Extern_random_shuffle.h:245-250 | the in-place rounds permute the bucket as the picks say |
| FisherYates.FirstPick | Plaidlay/examples/Extern_random_shuffle.h:245-250 | the round for i elements exchanges the last of them with the one picked, and the later rounds leave it there |
| FisherYates.EveryPermutation | Plaidlay/examples/Extern_random_shuffle.h:245-250 | every permutation is produced by some picks |
| ExternalShuffle.ExternalShuffle | Plaidlay/examples/Extern_random_shuffle.h:92-284 | each bucket receives exactly the elements whose labels draw it and is then the result of the shuffle rounds on them with its own picks; the output is the buckets in ranges given by the prefix sums, with dense indices and disjoint regions, and a permutation of the input exactly unless the input is wrongly taken for empty |
| ExternalShuffle.DistinctPermutes | Plaidlay/examples/Extern_random_shuffle.h:101-117 | for input chunks with distinct indices the output is always a permutation |
| ExternalShuffle.RepeatedIndexLosesInput | Plaidlay/examples/Extern_random_shuffle.h:105-117 | two headers with the same index, the second of an empty chunk: the input is taken for empty |
| ReaderFiles.AdvanceToActive | utils/unordered_file_reader.h:266-273 | skips only chunks whose flag is clear, and succeeds exactly if a chunk with its flag set is left |
| ReaderFiles.CountActive | utils/unordered_file_reader.h:300-311 | the number of chunks the worker plans to read: those whose flag is set |
| ReaderFiles.ActiveChunks | utils/unordered_file_reader.h:253-273 | the chunks to read are exactly those whose flag is set, each once with its own offset and size |
| ReaderFiles.ActiveIffFlagged | utils/unordered_file_reader.h:257-262 | a chunk is active exactly if there is no bitmap, or flag idx of the words laid end to end, lowest first, is set |
| ReaderFiles.ListedIffFlagged | utils/unordered_file_reader.h:253-273 | a chunk is listed once if its flag is set, and otherwise never |
| ReaderState.ReapKeepsInv | utils/unordered_file_reader.h:330-353 | reaping a completion keeps the file, request, closing and conservation invariants |
| ReaderState.IssueKeepsInv | utils/unordered_file_reader.h:356-396 | issuing the next active chunk keeps them |
| ReaderState.DropKeepsInv | utils/unordered_file_reader.h:360-365 | dropping a file without active chunks keeps them |
| ReaderState.DecrementKeepsClose | utils/unordered_file_reader.h:408 | decrementing the thread counter keeps the closing invariant |
| ReaderState.CheckKeepsClose | utils/unordered_file_reader.h:409-411 | the separate check closes the queue only when no worker can push any more |
| ReaderState.ClosedMeansDelivered | utils/unordered_file_reader.h:176-183 | a consumer that finds the queue empty and closed has received every active chunk exactly once |
| ReaderState.ActiveIffFlagged | utils/unordered_file_reader.h:257-273 | over all files, a chunk is to be delivered as often as it is a chunk of a file whose flag is set |
| ReaderState.NotStuck | utils/unordered_file_reader.h:328-397 | a worker that is not done can issue a read or waits for one |
| UnorderedFileReader.SimpleQueue.Push | utils/simple_queue.h:24-31 | appends at the end and respects the size limit |
| UnorderedFileReader.SimpleQueue.Poll | utils/simple_queue.h:33-57 | returns the head, or the end code exactly when the queue is closed and empty |
| UnorderedFileReader.SimpleQueue.Close | utils/simple_queue.h:59-63 | closes and keeps the contents |
| UnorderedFileReader.SimpleQueue.Reopen | utils/simple_queue.h:67-71 | succeeds exactly on a drained queue |
| UnorderedFileReader.Deal | utils/unordered_file_reader.h:143-147 | every file goes to exactly one worker, the files being dealt out in turn |
| UnorderedFileReader.FileReader.constructor | utils/unordered_file_reader.h:139-153 | the started reader has all active chunks ahead of it |
| UnorderedFileReader.FileReader.Reap | utils/unordered_file_reader.h:330-353 | a completed read is pushed to the queue |
| UnorderedFileReader.FileReader.Submit | utils/unordered_file_reader.h:356-396 | a worker takes its first available file: it issues the first active chunk that is left, or drops the file if there is none |
| UnorderedFileReader.FileReader.Leave | utils/unordered_file_reader.h:398-412 | the steps by which a worker leaves: it leaves its loop, decrements the counter, and in a separate step reads the counter and closes the queue at zero |
| UnorderedFileReader.FileReader.Poll | utils/unordered_file_reader.h:176-179 | the end sentinel comes only after all active chunks have been returned |
| UnorderedFileReader.FileReader.RunToCompletion | utils/unordered_file_reader.h:282-412 | every interleaving terminates, with exactly the chunks delivered whose flags are set, each as often as it occurs in the files |
| ChunkReader.AllDealt | utils/unordered_file_reader_modified.h:155-169 | every chunk is dealt to exactly one worker |
| ChunkReader.ReapHolds | utils/unordered_file_reader_modified.h:277-294 | a completed read delivers its own chunk |
| ChunkReader.SkipHolds | utils/unordered_file_reader_modified.h:300-310 | an empty chunk is delivered without a read |
| ChunkReader.Submit | utils/unordered_file_reader_modified.h:312-341 | a read is submitted, or refused because the submission queue is full and put back without a trace |
| ChunkReader.ClosedMeansDelivered | utils/unordered_file_reader_modified.h:185-192 | the end sentinel comes only after every chunk |
| ChunkReader.ReadChunks | utils/unordered_file_reader_modified.h:155-357 | for every interleaving the consumers receive every block of the sequence exactly once with its index |
| ReorderQueue.Queue.Ready | sequence_algorithms/filter.h:46-50 | the least waiting index is the next one exactly if the next chunk has arrived |
| ReorderQueue.Queue.Take | sequence_algorithms/filter.h:51-52 | chunks are taken in index order |
| ReorderQueue.Queue.Drained | sequence_algorithms/filter.h:41-44 | at the sentinel the heap is empty and all chunks have been taken |
| ElementStream.Stream.Emit | sequence_algorithms/filter.h:56-65 | a full buffer is pushed and no element is lost |
| ElementStream.Stream.Finish | sequence_algorithms/filter.h:71-83 | the last block is aligned and marked, and pushed as whole elements; what is pushed in all is the content of an output file, and the true size counts whole buffers |
| OutputFormat.FitsAlwaysIffDividing | sequence_algorithms/filter.h:71-83 | every stream keeps its marker and passes the checks of the writer exactly when the element size divides the alignment |
| OutputFormat.RecoverableIffKept | sequence_algorithms/filter.h:71-83 | the elements can be found by the marker exactly when the last block is a whole number of elements |
| OutputFormat.MarkerLost | sequence_algorithms/filter.h:80 | elements of 8192 bytes: one element in the last buffer, or none, and the marker is not written |
| OutputFormat.TrueSizeRight | sequence_algorithms/filter.h:71-83 | the reported true size is right exactly when no full buffer was written or the element size divides the buffer size |
| OutputFormat.ContentSize | utils/unordered_file_writer.h:276-287 | the bytes written, computed from the number of elements |
| AppendWriter.AppendWorker.Poll | utils/unordered_file_writer.h:251-300 | a request is issued at the end of the file whose turn it is, an empty one ends the worker |
| AppendWriter.AppendWorker.RunToCompletion | utils/unordered_file_writer.h:206-309 | for every order of completions file f holds the blocks f, f + n, f + 2n, ... of the pushes up to the first empty one, for n files |
| AppendWriter.DealtAreShares | utils/unordered_file_writer.h:279-281 | dealing blocks in turn gives file f every n-th block from block f on |
| AppendWriter.TurnIsRemainder | utils/unordered_file_writer.h:279-281 | the counter that wraps around at n is the number of blocks modulo n |
| AppendWriter.NothingLostIff | utils/unordered_file_writer.h:251-300 | everything pushed is written exactly if all pushes from the first empty one on are empty |
| AppendWriter.LostPush | utils/unordered_file_writer.h:251-300 | an empty push followed by a block: the block is not written |
| FileOperators.FilterFile | sequence_algorithms/filter.h:15-85 | for every arrival order the writer accepts the pushes exactly if they are aligned, and then the file begins with the filtered input, which can be read back exactly if the marker was not cut off; the reported sizes are the stated functions of the number of survivors, right exactly under the condition on it |
| FileOperators.FilterSizeIff | sequence_algorithms/filter.h:82-84 | the reported file size, all buffers full, is the written one exactly when the pushed part of the last block makes up for the difference |
| FileOperators.FilterSizeDividing | sequence_algorithms/filter.h:82-84 | when the element size divides the alignment, the reported file size is right exactly if the last block is as large as a buffer |
| FileOperators.FilterSizeAt | sequence_algorithms/filter.h:82-84 | elements of eight bytes: the reported size is wrong for an empty result and right for 524287 survivors |
| ReadChunks.DeliveriesAreBlocks | utils/unordered_file_reader.h:335-342 | the chunks a reader delivers are the blocks of the file, each once |
| ReadChunks.ReadAndFilter | sequence_algorithms/filter.h:15-85 | the same with reader and writer threads included |
| FileScan.SumFile | Plaidlay/NaiveExternalScan.h:231-316 | the first pass computes the sum of a file for every arrival order |
| FileScan.Offsets | Plaidlay/NaiveExternalScan.h:331-332 | exclusive prefix sums in size_t arithmetic |
| FileScan.OffsetIsSum | Plaidlay/NaiveExternalScan.h:320-339 | the offset of a file is the wrap-around sum of everything before it, although it went through size_t |
| FileScan.ScanFile | Plaidlay/NaiveExternalScan.h:137-227 | for every arrival order the second pass leaves the outcome for the prefix sums of the file from its offset, with the exact sizes and conditions of acceptance and marker |
| FileScan.ScanSizeIff | Plaidlay/NaiveExternalScan.h:204-226 | the reported file size is right exactly when the marker was not cut off and the buffers were whole |
| FileScan.DividingResult | Plaidlay/NaiveExternalScan.h:137-227 | when the element size divides the alignment, the file stores the prefix sums behind a valid marker and both sizes are right |
| FileScan.Scan | Plaidlay/NaiveExternalScan.h:320-341 | for every arrival order in either pass the output files are the outcomes for parts that together are the exclusive prefix sums of the whole input |
| ScanFiles.ScanInputs | Plaidlay/NaiveExternalScan.h:320-341 | the same with the readers' threads included |
| ScanFiles.DividingResults | Plaidlay/NaiveExternalScan.h:320-341 | when the element size divides the alignment, every file stores its part behind a valid marker with right sizes |
| BlockScan.Scan | Plaidlay/NaiveExternalScan.h:46-66 | the sequential scan is the exclusive scan with wrap-around, and out of range exactly for the empty input |
| BlockScan.TotalsAdd | Plaidlay/NaiveExternalScan.h:99-108 | the block totals before a block, added up in 64 bits, convert back to the wrap-around sum of the elements before it |
| BlockScan.BlockedScan | Plaidlay/NaiveExternalScan.h:71-129 | the blocked scan is the exclusive scan with wrap-around whatever the order of the blocks, although the totals go through 64 bits |
| Flatten.PredecessorSearch | Plaidlay/flatten.h:129-141 | the last position whose value is at most the target; fails exactly if there is none |
| Flatten.Starts | Plaidlay/flatten.h:27-33 | the exclusive prefix sums of the sizes; out of range exactly for fewer than two sequences |
| Flatten.CopyRange | Plaidlay/flatten.h:55-69 | the walk copies the right elements, empty sequences included, and terminates |
| Flatten.BlockFlatten | Plaidlay/flatten.h:24-98 | the result is the concatenation whatever the order of the blocks |
| FindIf.FindIf | Plaidlay/examples/in_memory/find_if.h:13-31 | the first satisfying position or the length, after looking at no more than 2 * r + 1000 positions |
| FindIf.SearchChunks | Plaidlay/extern_find_if.h:252-275 | the batch loop polls every chunk and keeps the least place of a match |
| FindIf.ExternalFindIf | Plaidlay/extern_find_if.h:228-278 | for every arrival order, and chunks that begin where their indices say, the first satisfying position of the sequence |
| FindIf.FullChunksAligned | Plaidlay/extern_find_if.h:263 | chunks 0, 1, 2, ... that are full except for the last begin where their indices say |
| FindIf.AlwaysRightIffAligned | Plaidlay/extern_find_if.h:228-278 | the program is right for all contents of chunks of given sizes exactly if they begin where their indices say |
| FindIf.FilterOutputMisplaced | Plaidlay/extern_find_if.h:263 | on the output of a filter, a chunk with one of two elements before a full one, the program returns the wrong position |
| RandomRead.PrepareRead | utils/random_read.h:77-88 | the aligned read of a request contains the element at its global position, and fails exactly beyond the last file |
| RandomRead.ElementInBlock | utils/random_read.h:77-79 | an element lies within one aligned block |
| RandomRead.Segment.PrepareNext | utils/random_read.h:75-97 | a request takes a free buffer and is submitted in full batches or at the end |
| RandomRead.Segment.RingBusy | utils/random_read.h:98-105 | with requests left and no free buffer some read is in the ring, so waiting cannot stall |
| RandomRead.Segment.Run | utils/random_read.h:72-122 | the loop ends with nothing pending, all buffers free and every requested element returned once |
| RandomRead.RandomBatchRead | utils/random_read.h:27-124 | the segments together return every requested element exactly once, and it fails exactly if a position is out of range |
| Words.WordNumIsInteger | Plaidlay/NaiveExternalScan.h:320-339 | 32-bit unsigned addition satisfies what the scan requires of its element type |
| Words.WordLayoutIsLayout | utils/ordered_file_writer.h:201-206 | 32-bit words satisfy what is required of an element's layout in memory |
| Words.WordsAreSortable | scatter_gather_algorithms/sample_sort.h:167-190 | the order of 32-bit words is a strict weak order, and there is a sort by it |

## Left out

- io_uring, O_DIRECT, file descriptors, aligned allocation, mutexes and condition variables: they appear as sets of outstanding requests, atomic steps and steps that wait until they are enabled.
- Quality of randomness: sample positions, hashing to drives and the seeds of the shuffles are arbitrary choices; uniformity is not stated.
- Choosing the number of pivots and buckets: these counts are parameters; the integer square root in the sample count is given by its specification.
- Library sorts, `std::upper_bound` and `std::priority_queue`: taken by their specification (a sorting function, the first greater position, the least key).
- The map of duplicated pivots (`absl::btree_map`) finds keys by `operator<`; the model finds them by equality, by which the constructor compares pivots, so the two are taken to agree.
- The 32-bit counters of the duplicate-aware assigner: fewer than 2^32 pivots are assumed.
- OrderedFileWriter.OrderedFileWriter.HandOver: adding a block, detaching a full request and obtaining a new one are one step, since the bucket's lock is held throughout; a thread that would have to wait for a free request does so before the step.
- The limit on requests in one ring and the batching of submissions in the I/O threads: any number may be in flight, which allows more interleavings.
- The phase-2 variants other than the one `Run` uses, timers and benchmark mode.
- Headers in the engine are written in one step with the reservation of their region; in the batch loops of the sieve and of `BoolCreate` the code writes part of the header earlier, which nobody reads before the end.
- Blocks of the chunk engine hold their valid elements only; the padding that is written behind them and the `used` field in bytes are not represented there. Padding is represented in the bucket files and in the outputs of the file operators.
- The shuffle draws a region and pushes the block to the writer in one step.
- A bound on the primes in a chunk of flags: whether they fit into the sieve's output buffer is stated as the exact condition of `ExternalPrimes.Primes` and not proved for the block size of the source.
- 64-bit overflow of n + 1, p * p and the squares in the integer square root for n close to 2^64; the chunk size must be even and at least four, as the constant in the source is.
- Floating point: the square root estimates of both sieves are arbitrary numbers that the correction loops repair; the in-memory sieve is modelled with an exact square root.
- Early destruction of a reader while it runs, and the branch of the file reader that finds no submission queue entry; the chunk reader's handling of that case is modelled, with finitely many refusals.
- Words of the active-chunk bitmap are rows of 64 flags, and what counts is whether the pointer to them is null: an empty vector without storage has a null pointer and makes all chunks active.
- Timeouts of `SimpleQueue::Poll`, and waking up waiting threads: a push or poll that would wait is a step that is not enabled yet.
- SortFiles.ComputeBeforeSize: the 64-bit overflow of the total size of all files.
- The append writer with explicit file indices and offsets or with more than one thread; its users here have one thread and one file, or write blocks at explicit addresses as the engine does.
- The memory alignment of a buffer that the file operators enlarge with `realloc`; a block is as large as the code computes it and is written from any address.
- BlockScan.BlockedScan: block totals wrap around in 64 bits; that signed overflow of `long` is undefined is not represented.
- Random reads on files whose sizes are not multiples of the alignment.
- Unfinished or superseded files of Plaidlay, its easy primitives, command line tools, plots and the ray tracer.
