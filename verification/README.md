# Verified model of the compressor, the message matcher and the chunk writer

This project models three parts of the repository in Dafny and proves what they
are for:

- **The parallel compressor** (`examples/pgz.c`, `examples/yarn.c`). The main
  thread cuts the input into jobs in place, with block boundaries that survive
  edits and a preset dictionary for each job; compress threads work on the jobs
  out of order; one thread writes the results in order, between a header and a
  trailer with the combined check value. Around it: the counted buffer pool,
  the coded list of block lengths, the combination of CRC-32 and Adler-32
  values, the Unix `compress` decoder, headers and trailers of gzip, zlib and zip
  streams, the read-ahead thread, and the list of threads.
- **The message matcher** (`src/fdmi.c` over `src/fdmi_queue.c`). Arrived
  messages and posted receives are matched by communicator, rank and tag, with
  wildcards.
- **The chunk writer** (`examples/ibio_server.c`, `examples/ibio_client.c`).
  Detached threads append the chunks of a write to a file.

Code that works step by step on buffers, lists and arrays is modelled by
methods over the same structures, each proved against a function or a predicate
on sequences. What several threads do together is modelled by a state machine:
`Can` says when a thread can take a step, `Next` what the step does, and the
results are about every run.

Verify with `dafny verify dfyconfig.toml`.

## How the files fit together

| files | what they hold |
|---|---|
| `Crc`, `Adler`, `Checks` | check values and their combination |
| `RollingHash`, `Splitter`, `Spaces`, `Blocks`, `Compressor` | how the input is cut into jobs |
| `Pipeline` | the state machine of main, compress and write threads |
| `PipelineClaims`, `PipelineShape`, `PipelineData`, `PipelineOutput` | use counts, job lists, buffer contents, output: what every step keeps |
| `PipelineProgress`, `PipelineEnd`, `PipelineStuck`, `SplitExample` | no deadlock, termination, and how many buffers that needs |
| `EndToEnd` | input to stream: `Compressor` and `Pipeline` together |
| `Pool`, `Threads`, `ParallelLoad` | the pool's locks, the thread list, reading ahead |
| `Streams`, `LzwSpec`, `LzwBits`, `Lzw`, `LzwRoundTrip` | buffered input and output, the `compress` decoder, and what encoders write |
| `Headers`, `HeaderReader`, `HeaderWriter`, `ExtraFields`, `Trailers` | headers and trailers |
| `Queue`, `Matcher`, `QueryPairs` | the linked queue, the matcher as a state machine, its functions on the queues |
| `ChunkWriter` | client, server and writer threads |
| `Basics` | numbers, sequences, options and finite sets |

## What the proofs found

- **How many input buffers are needed.** The program has `2 * procs + 3`. With
  four or more no run gets stuck (`PipelineEnd.NoRunIsStuck`). With three, a run
  that goes on as long as it can completes the stream if and only if no job
  splits its buffer while the buffer of the job before is the dictionary
  (`PipelineStuck.ThreeExactly`). Without block boundaries no job ever splits
  its buffer (`EndToEnd.PlainNeedsThree`), so that three are enough; with them
  there is an input for which three are too few (`SplitExample.StuckRun`).
- **Short first jobs.** With block boundaries not only the first job but each of
  the first two can be shorter than 32K; together they fill a buffer
  (`EndToEnd.TwoJobsFill`), and that is what keeps the dictionary copy within
  the old dictionary (`EndToEnd.NextDictRight`).
- **The hash forgets after twelve bytes**, where the comment allows nineteen
  (`RollingHash.Forgets`).
- **The `prev > end` test of the decoder** that "must be retained" never decides
  (`Lzw.PrevInTable`).
- **Old epochs.** Only the epoch of the second argument is compared, so an
  arriving message of an old epoch still matches a posted receive
  (`Matcher.StaleArrival`, `Matcher.StaleIsPaired`).
- **The failure filter** joins `FDMI_FORCE` to the operation with `|`, so it
  filters nothing (`Matcher.Filtered`).
- **The queue's iterator** survives removal of the element it has just returned,
  and of any other except the head when it is at the head itself
  (`Queue.Queue.Removed`).
- **An empty write** through the server is never acknowledged
  (`ChunkWriter.CompletedRun`).
- **Data descriptors.** The one that the program writes is always read right. One
  without a signature is misread exactly when all three values equal the
  signature, and one with 64-bit lengths exactly when the high half of the
  compressed length equals the low half of the other (`Trailers.UnsignedIsRead`,
  `Trailers.SignedLongIsRead`). Nothing is accepted that is not a descriptor of
  the data in one of the four forms (`Trailers.AcceptedIsDescriptor`).
- **Files of the Unix `compress` format.** Whatever codes an encoder chooses to
  spell its data, in either mode and with clear codes anywhere, `unlzw` gives the
  data back, with one exception: a clear code at the very start of the file is
  refused (`LzwRoundTrip.RoundTrip`).
- **Zip offsets** lead to the directory exactly when it starts below 4 GB
  (`Trailers.ArchiveIsConsistent`).

## Model

| member | source | states |
|---|---|---|
| Crc.CombineSpec | examples/pgz.c:594-645 | The CRC-32 of a concatenation is that of the first part, carried through the zero bits of the second's length, plus that of the second; for all byte strings |
| Crc.SquareOperator | examples/pgz.c:585-592 | Squaring the matrix of an operator on n zero bits gives that of 2n zero bits |
| Crc.TimesCompose | examples/pgz.c:572-592 | The product of matrices acts as one after the other, on all vectors |
| Crc.OneBitOperator | examples/pgz.c:609-615 | The columns set up at the start are the operator for one zero bit |
| Crc.Gf2MatrixTimes | examples/pgz.c:572-583 | The loop computes the product of a matrix and a vector over GF(2) |
| Crc.Gf2MatrixSquare | examples/pgz.c:585-592 | In place on the other array, the square: an operator for twice as many zero bits |
| Crc.Crc32Comb | examples/pgz.c:594-645 | The ping-pong of squarings computes the combination for every length |
| Crc.CombConcat | examples/pgz.c:594-645 | `crc32_comb(crc(A), crc(B), len(B))` is the CRC of A followed by B, for all byte strings |
| Crc.CrcIs | examples/pgz.c:554-565 | The CRC-32 that the pipeline works with is, for every byte string, the one that section 8 of RFC 1952 computes with its table |
| Crc.KnownValue | examples/pgz.c:554-565 | The CRC-32 of the one byte 0x61 is 0xe8b7be43 |
| Adler.CombHalves | examples/pgz.c:650-668 | The word arithmetic is done in 32-bit words without leaving their range, and the conditional subtractions leave both halves below 65521 and right |
| Adler.Adler32Comb | examples/pgz.c:650-668 | The method on 32-bit words computes the combination |
| Adler.CombWords | examples/pgz.c:650-668 | `adler32_comb(adler(A), adler(B), len(B))` is the Adler-32 of A followed by B, for all byte strings |
| Adler.AdlerIs | examples/pgz.c:554-565 | The Adler-32 of any byte string: the low half is one and the sum of the bytes, the high half the sum of the running sums, each modulo 65521 |
| Checks.CombineConcat | examples/pgz.c:554-565 | CHECK and COMB agree for either kind of check value |
| Checks.CheckIs | examples/pgz.c:554-558 | CHECK is the Adler-32 value for zlib, in terms of the sums of the bytes, and the CRC-32 value otherwise |
| RollingHash.Forgets | examples/pgz.c:96-115 | After twelve bytes the hash does not depend on what was before them |
| RollingHash.HitIs | examples/pgz.c:96-127 | A block ends where the last twelve bytes, each shifted once for every byte behind it, combine to 0x7ff in their low twelve bits |
| RollingHash.Resynchronises | examples/pgz.c:96-127 | Two inputs that share twelve bytes or more hit at the same place behind them, whatever precedes |
| RollingHash.Spacing | examples/pgz.c:116-127 | Two hits are at least five bytes apart |
| RollingHash.HitAtStart | examples/pgz.c:1478-1485 | The start of the input counts as a hit, and the first one is five bytes in or later |
| RollingHash.SpacingTight | examples/pgz.c:116-120 | Five bytes do occur |
| Blocks.GrowIncreases | examples/pgz.c:754-774 | Growing saturates, or makes room for three more bytes, and never returns the old size except the largest |
| Blocks.ThreeGrowsDouble | examples/pgz.c:754-774 | Three applications double any power of two from 16 up, short of overflow |
| Blocks.GrowSpace | examples/pgz.c:776-790 | The buffer grows and keeps its contents, or failure is reported exactly at the largest size |
| Blocks.AppendLen | examples/pgz.c:1201-1224 | A length is added to the list in its code; growing the buffer once makes room for it if and only if three more bytes can be addressed |
| Blocks.NextLen | examples/pgz.c:1026-1042 | Decoding gives the next length of the list and the place of the rest, for every length from 1 to 4227135 |
| Blocks.CompressBlocks | examples/pgz.c:1025-1080 | The blocks decoded partition the job's input in order, no length exceeds what is left, the loop ends with nothing left, and only the last block of the last job finishes the stream |
| Blocks.FillSum | examples/pgz.c:1029-1080 | The block lengths add up to the length of the input |
| Spaces.Space.DropFront | examples/pgz.c:1519-1520 | Moving the rest of a buffer down in place keeps it |
| Spaces.Space.Append | examples/pgz.c:1517-1518 | Copying to the end of a buffer that has room for it |
| Splitter.BoundariesAreHits | examples/pgz.c:1465-1510 | The ends of a job's blocks are exactly the hash hits inside it |
| Splitter.NoHitAfterLast | examples/pgz.c:1474-1509 | No hit follows the last boundary within the scanned part |
| Compressor.Scan | examples/pgz.c:1474-1509 | Scanning one buffer extends the block list by exactly the hits in it, with the bytes carried over from the buffer before |
| Compressor.ScanJob | examples/pgz.c:1465-1510 | Over both buffers: the hits of the next `size` bytes or of all that is left, terminated |
| Compressor.Settle | examples/pgz.c:1512-1540 | The three ways to end a job keep every byte, in order, and end the job at its last hit, or at a full buffer without one, or with its buffer when no input follows; the next buffer, the held one and the scan position stay consistent, and no copy overruns a buffer |
| Compressor.NextDict | examples/pgz.c:1549-1563 | The dictionary for the next job ends with the last 32K bytes before it; the old one is long enough for the copy |
| Compressor.NextJob | examples/pgz.c:1444-1567 | One pass of the main loop: a right job with the end that the buffers and hits give, the bytes that are then in each buffer, and the state for the next pass |
| Compressor.ParallelCompress2 | examples/pgz.c:1409-1591 | The jobs are the whole input, in order; each has exactly the end that what is buffered and the last hit determine, and the right block list and dictionary; `more` is false for the last one only |
| Compressor.JobIs | examples/pgz.c:1409-1591 | What that says of a job: its data is the slice of the input, `more` is true if and only if input follows, and its dictionary ends with the last 32768 bytes before it (or all, if fewer) |
| Compressor.JobEndIs | examples/pgz.c:1512-1540 | And of its end: a full buffer or the end of the input without block boundaries; with them, where more follows, a hit with no other hit behind it in a buffer's length, or a full buffer without a hit |
| PipelineShape.InsertOrdered | examples/pgz.c:1090-1100 | The insertion loop of the compress thread keeps the write list in order and adds the job |
| PipelineShape.ListsCompress | examples/pgz.c:993-1100 | Taking and inserting jobs keep both lists sorted, their locks equal to length and first number, and each job in the list of its stage |
| PipelineShape.ListsWriter | examples/pgz.c:1153-1159 | Likewise for the write thread |
| PipelineClaims.JobBuffered | examples/pgz.c:1451-1540 | Each job lies within the two buffers at hand; it splits its buffer only if another job follows; and the next buffer is empty afterwards only if none does |
| PipelineShape.ShapeMain | examples/pgz.c:1444-1584 | The main thread's buffers at each point of its loop |
| PipelineClaims.UsersAtLeast | examples/pgz.c:793-818 | A buffer with one user has a count of one or more, with two users of two or more |
| PipelineClaims.FreeIsUnclaimed | examples/pgz.c:715-737 | A buffer in the pool is used by nobody |
| PipelineClaims.CountedMain | examples/pgz.c:1433-1590 | Every step of the main thread keeps each use count equal to the number of users |
| PipelineClaims.CountedCompress | examples/pgz.c:990-1121 | Likewise for the compress threads |
| PipelineClaims.CountedWriter | examples/pgz.c:1148-1186 | Likewise for the write thread |
| PipelineData.HeldMain | examples/pgz.c:1433-1590 | Every step of the main thread -- reading into recycled buffers, filling up `curr`, moving `next` down, saving the rest -- leaves each buffer in use with the contents its users rely on; each job gets exactly its bytes, and the dictionary built while others work is the specified one |
| PipelineData.MainSees | examples/pgz.c:1512-1547 | Where the main thread decides by the lengths in its buffers, they are what the cut of the input calls for; `more` is right |
| PipelineData.HeldCompress | examples/pgz.c:1011-1121 | Likewise for the compress threads; what they compute is what the job calls for |
| PipelineData.HeldWriter | examples/pgz.c:1148-1186 | Likewise for the write thread |
| PipelineOutput.WriterWriter | examples/pgz.c:1131-1197 | Each step of the write thread keeps output, lengths and check value equal to those of the jobs so far |
| PipelineOutput.NothingLeft | examples/pgz.c:1191-1197 | After the last job both lists are empty: the asserts at the end hold |
| PipelineOutput.RunSafe | examples/pgz.c:967-1197 | All of this in every reachable state, for any number of threads |
| PipelineOutput.PoolSafe | examples/pgz.c:709-818 | In every reachable state a buffer is free exactly when nobody uses it, and each user finds what it expects |
| PipelineOutput.NoOverrun | examples/pgz.c:1434-1534 | In every reachable state no input buffer holds more than its size |
| PipelineOutput.OutputInOrder | examples/pgz.c:1145-1187 | At any time the output is the header and the first jobs, each once, in order |
| PipelineOutput.EveryRunWritesTheStream | examples/pgz.c:1131-1197 | For every interleaving, the finished output is header, jobs in order, and the trailer with length and check of the whole input, where the check is what `Checks.CheckIs` says |
| PipelineProgress.UnfinishedGoes | examples/pgz.c:990-1186 | While a job is unfinished, some compress thread or the writer can go on |
| PipelineProgress.MainGoes | examples/pgz.c:1433-1590 | With four input buffers, or with three where the job does not need a fourth, the main thread never waits for ever |
| PipelineProgress.PoolsMain | examples/pgz.c:1433-1563 | The main thread takes each buffer from the pool it should, the dictionary from the input pool exactly when it is shared |
| PipelineEnd.StepAlive | examples/pgz.c:967-1591 | Every step keeps the invariant and decreases a measure |
| PipelineEnd.EveryRunEnds | examples/pgz.c:1409-1591 | No run is longer than 20 steps a job and a few |
| PipelineEnd.NoRunIsStuck | examples/pgz.c:129-133 | No deadlock, with the buffers that INBUFS gives |
| PipelineEnd.ThreeAreEnough | examples/pgz.c:129-133 | Nor with three input buffers, if no job needs a fourth |
| PipelineEnd.CompletedRun | examples/pgz.c:820-840 | A run that can go no further has written the stream, left both job lists empty with their locks at 0 and -1, and returned every buffer to its pool, as `free_pool` asserts |
| PipelineStuck.HoldsThree | examples/pgz.c:1524-1534 | Where a job needs a fourth input buffer, the main thread itself has all three |
| PipelineStuck.ThreeAreTooFew | examples/pgz.c:1524-1534 | Then, with three, no run comes to its end |
| PipelineStuck.ThreeExactly | examples/pgz.c:129-133 | With three input buffers, a run that goes on as long as it can completes the stream if and only if no job needs a fourth |
| PipelineStuck.RunToItsEnd | examples/pgz.c:1409-1591 | Every run can be continued until nobody can go on |
| SplitExample.OnlyHit | examples/pgz.c:1478-1485 | The input of the example has exactly one hit |
| SplitExample.StuckRun | examples/pgz.c:1468-1534 | On that input, with block boundaries, dictionaries and three input buffers, there is a run in which nobody can go on before the stream is complete |
| EndToEnd.JobsAreInput | examples/pgz.c:1409-1591 | The jobs' data concatenate to the input |
| EndToEnd.PlanIsLayout | examples/pgz.c:1451-1540 | The main thread of the pipeline has the same bytes in its buffers as the one that cuts the input |
| EndToEnd.CompressesSound | examples/pgz.c:1409-1591 | What `ParallelCompress2` promises is what the pipeline relies on |
| EndToEnd.PlainNeedsThree | examples/pgz.c:1465-1540 | Without block boundaries no job splits its buffer |
| EndToEnd.TwoJobsFill | examples/pgz.c:1549-1563 | If more follows the first two jobs, they are at least a full buffer |
| EndToEnd.NextDictRight | examples/pgz.c:1553-1562 | The copy never asks for bytes before the old dictionary, and the result has the right last 32K bytes |
| EndToEnd.Dictionaries | examples/pgz.c:1549-1563 | Every dictionary ends with exactly the last 32K bytes (or all bytes) before its job |
| EndToEnd.ProducedIs | examples/pgz.c:1011-1080 | A job's output depends only on the last 32768 bytes before it, its data, its block list, and whether it is the last |
| EndToEnd.CompressionIsRight | examples/pgz.c:1409-1591 | Input to stream, for every interleaving that runs to its end, with four input buffers (three without block boundaries): header, jobs in order, and a trailer with the length modulo 2^64 and the check of the whole input -- for zlib the two sums of the bytes modulo 65521, otherwise the CRC-32 of RFC 1952 |
| EndToEnd.SharedBoundaries | examples/pgz.c:96-127 | Inputs that share a run of bytes have the same block boundaries in it |
| Pool.StepInv | examples/pgz.c:715-818 | Every step under the locks keeps the list, the counts and the locks consistent |
| Pool.NoDeadlock | examples/pgz.c:715-818 | Taking (pool, then buffer) and dropping (buffer, then pool) cannot deadlock in spite of the opposite orders |
| Pool.OperationsEnd | examples/pgz.c:715-818 | Every operation under way ends, or comes to its wait |
| Pool.StepRefines | examples/pgz.c:715-818 | The locking refines `get_space`, `use_space` and `drop_space` as single steps on the use counts |
| Pool.PoolAccounts | examples/pgz.c:693-752 | The lock's value is the list's length, made and limit add up, both asserts hold, and a buffer handed out has no other user |
| Pool.WaiterIsWoken | examples/pgz.c:719-722 | A waiting `get_space` goes on exactly when some buffer is unused |
| Pool.FreePoolCounts | examples/pgz.c:820-840 | When every use is dropped, the list holds as many buffers as were made |
| Threads.Registry.Launch | examples/yarn.c:260-293 | The new thread is put at the head of the list, not done; the list and lock are those after the step of the state machine |
| Threads.Registry.Reenter | examples/yarn.c:205-234 | The search finds the thread, marks it and moves it to the head, and the count grows, as in the state machine; it fails exactly when that does |
| Threads.Registry.Join | examples/yarn.c:295-321 | The thread is taken off the list, and counted off if done, as in the state machine |
| Threads.Registry.JoinDone | examples/yarn.c:336-359 | The first thread that is done is taken off the list, as by two steps of the state machine |
| Threads.CountRemove | examples/yarn.c:205-364 | How removing, or marking and moving, changes the number of done threads |
| Threads.StepInv | examples/yarn.c:205-364 | Every step keeps list, count and joined threads consistent |
| Threads.PickReap | examples/yarn.c:336-359 | A round of `join_all` in the state machine joins the thread that the method on the list takes off |
| Threads.ThreadsAccounted | examples/yarn.c:205-364 | In every run no search fails, the lock's value is the number of done threads listed, no thread is joined twice, and `join_all` returns how many were not joined (so that `finish_jobs` catches them all) |
| Threads.JoinAllGoesOn | examples/yarn.c:327-364 | `join_all` never waits for nobody |
| Threads.JoinAllEnds | examples/yarn.c:327-364 | It takes finitely many steps |
| ParallelLoad.StepInv | examples/pgz.c:1796-1886 | Every step of `load` and the reader keeps buffers and lock consistent |
| ParallelLoad.SameAsUnthreaded | examples/pgz.c:1823-1886 | Each call gives the bytes that the same call of `Input.Load` gives without the thread, and they stay put while in use |
| ParallelLoad.ReaderKeepsAway | examples/pgz.c:1796-1813 | The reader never stores into the buffer in use |
| ParallelLoad.LoadGoesOn | examples/pgz.c:1842-1848 | While `load` waits, main or reader can go on |
| ParallelLoad.LoadEnds | examples/pgz.c:1842-1848 | A call of `load` waits finitely long |
| Streams.Input.Load | examples/pgz.c:1815-1886 | Refilling the buffer: no byte of the file is lost, the end is noticed, and the k-th call gives the k-th 32K bytes of the file |
| Streams.Input.Get | examples/pgz.c:1902-1903 | The next byte, or the end, across buffer boundaries |
| Streams.Input.Skip | examples/pgz.c:1906-1916 | Passing over any number of bytes |
| Streams.Output.PutReversed | examples/pgz.c:2851-2864 | The stack is put out from the top down, whatever its height and the room in the buffer |
| LzwSpec.StepValid | examples/pgz.c:2767-2869 | The format's state stays well-formed and each code uses up input |
| LzwSpec.NumberAppend | examples/pgz.c:2779-2803 | Bytes one behind the other are one number with the low byte first |
| LzwBits.CodeFromBytes | examples/pgz.c:2779-2803 | A code of any width is the kept bits and one or two more bytes |
| LzwBits.BitsKept | examples/pgz.c:2801-2803 | The bits kept are those of the last byte that the code did not use |
| Lzw.ReadCode | examples/pgz.c:2779-2803 | Bit extraction: the code read is the next `bits` bits of the group, low first, with `chunk` and `left` in step |
| Lzw.FlushCode | examples/pgz.c:2691-2712 | The rest of the group is passed over, or all there is |
| Lzw.Expand | examples/pgz.c:2831-2839 | The walk over the prefix chain ends, stays within `match`, and stacks the string of the code in reverse |
| Lzw.PrevInTable | examples/pgz.c:2815-2829 | `prev > end` never decides |
| Lzw.LinkEntry | examples/pgz.c:2841-2849 | The new entry is the previous string and the first byte of this one |
| Lzw.WidenCodes | examples/pgz.c:2769-2775 | The code width grows when the table is full for it, at the start of a group |
| Lzw.Unlzw | examples/pgz.c:2714-2870 | For every file: accepted exactly when it is well-formed, and then the output is its meaning |
| LzwRoundTrip.RoundTrip | examples/pgz.c:2714-2870 | For every list of codes that spells some data -- each a byte, or an earlier text since the last clear code and the first byte of the next, the one just being made included -- with either mode and any maximal width: the file means the data, except that it is refused if it starts with a clear code. Codes are laid out in bits, low first, in groups of eight that are filled up where the width changes and after a clear code |
| LzwRoundTrip.UncompressIsRight | examples/pgz.c:2714-2870 | `unlzw` puts out that data |
| LzwRoundTrip.NextIs | examples/pgz.c:2767-2869 | One step of the decoder takes the next code written and gives its text, and then knows every entry the encoder has made |
| LzwRoundTrip.WidthFacts | examples/pgz.c:2769-2775 | The width grows by one exactly when the entries made fill it, up to the maximum |
| LzwRoundTrip.BytesMeanThemselves | examples/pgz.c:2805-2812 | Bytes written one by one, with clear codes between them in block mode, mean themselves |
| LzwRoundTrip.FirstEntry | examples/pgz.c:2745-2756 | With bit 7 of the flags clear, code 256 is the first two bytes |
| LzwRoundTrip.Repeated | examples/pgz.c:2817-2829 | A byte and the code being made, 257 or 256 by the mode, are three times the byte |
| LzwRoundTrip.FourTimes | examples/pgz.c:2737-2766 | The bytes 90 61 02 86 01 (hexadecimal) mean "aaaa" |
| Headers.Pull4Low4 | examples/pgz.c:415-418 | A 32-bit integer is read as it was put |
| HeaderReader.ReadExtra | examples/pgz.c:1950-1998 | Exactly the announced bytes are consumed, whatever is in them, and the lengths and time they give are found |
| HeaderReader.ReadString | examples/pgz.c:2112-2140 | The name up to its zero, wherever buffer boundaries fall |
| HeaderReader.GetGzip | examples/pgz.c:2087-2155 | Any gzip header of the format, with any optional fields, is read to its end |
| HeaderReader.GetZip | examples/pgz.c:2035-2079 | Any local header (except unknown flags) is read to its end, with its extra field |
| HeaderReader.GetHeader | examples/pgz.c:2005-2155 | All forms; of an unknown stream the second byte is given back |
| ExtraFields.LongLengths | examples/pgz.c:1965-1977 | Of the two lengths, exactly those that are all ones are replaced by the Zip64 field, in its order, and nothing else changes |
| ExtraFields.UnixTimes | examples/pgz.c:1979-1984 | The modification time of the two older Unix fields is taken if wanted |
| ExtraFields.Timestamp | examples/pgz.c:1985-1993 | That of the extended timestamp is taken if wanted and if its flag says it is there |
| ExtraFields.OtherField | examples/pgz.c:1955-1998 | Any other field is passed over, with no effect on the fields behind it |
| ExtraFields.PlainHeaders | examples/pgz.c:2049-2079 | Check, lengths, name, time and form as the fields of the header give them |
| HeaderWriter.PutHeader | examples/pgz.c:421-480 | What is written is a header of the format, with the level coded for zlib, and its length is returned |
| HeaderWriter.HeaderSurvives | examples/pgz.c:421-480 | Reading back what was written, with anything behind it: method 8, the form, the name, the time modulo 2^32 as a signed 32-bit number, and the place just past the header |
| Trailers.SignedIsRead | examples/pgz.c:2603-2640 | The descriptor written is resolved right for all values |
| Trailers.UnsignedIsRead | examples/pgz.c:2603-2640 | Without signature: right if and only if not all three values equal the signature |
| Trailers.SignedLongIsRead | examples/pgz.c:2603-2640 | With 64-bit lengths: right if and only if two halves differ |
| Trailers.UnsignedLongIsRead | examples/pgz.c:2603-2640 | Likewise without signature |
| Trailers.CheckDescriptor | examples/pgz.c:2603-2640 | Reading through the buffer decides as specified, and stops just past the descriptor; what is accepted is the check and lengths of the data with or without a signature, with 32-bit or 64-bit lengths |
| Trailers.AcceptedIsDescriptor | examples/pgz.c:2603-2640 | Only a descriptor of the data in one of its four forms is accepted |
| Trailers.RefusedFor | examples/pgz.c:2603-2615 | The check is found wrong if and only if it is neither the first word nor the second behind a signature; nothing is missing where 24 bytes follow |
| Trailers.PutZipTrailer | examples/pgz.c:483-544 | Descriptor, central directory and end record are written |
| Trailers.CentralFields | examples/pgz.c:497-531 | The central header repeats the values, and gives the name's length and place |
| Trailers.CentralLikeLocal | examples/pgz.c:497-531 | Version, flags, method, time, lengths of name and extra field, and these themselves, are byte for byte those of the local header; the remaining fields have their fixed values |
| Trailers.ArchiveIsConsistent | examples/pgz.c:533-543 | The end record tells of one entry on one disk, and leads to the central directory, and that to the local header, for every name whose directory entry stays below 4 GB; the directory is found if and only if it starts below 4 GB |
| Trailers.TrailerIsAccepted | examples/pgz.c:488-495 | The trailer begins with a descriptor that is accepted |
| Queue.Queue.Enq | src/fdmi_queue.c:58-74 | Adds at the tail; length and tail stay right |
| Queue.Queue.Deq | src/fdmi_queue.c:84-101 | Takes the head, if there is one |
| Queue.Queue.Iterate | src/fdmi_queue.c:150-181 | Returns the elements in order |
| Queue.Queue.Remove | src/fdmi_queue.c:193-233 | Takes out the first occurrence, and keeps the iterator at its place except in one case |
| Matcher.Filtered | src/fdmi.c:909-914 | The failure filter lets everything through |
| Matcher.StepKeepsInv | src/fdmi.c:916-934 | Arrival, posting and flushing keep the queues in order and without a match between them |
| Matcher.RunKeepsInv | src/fdmi.c:769-934 | In every reachable state the queues are in order and hold nothing that could be paired |
| Matcher.NothingWaitsForItsMatch | src/fdmi.c:769-850 | In every reachable state no waiting message and waiting receive have the same communicator, ranks equal or one of them -1, and tags equal or one of them -1 |
| Matcher.AnyReceiveNeverWaits | src/fdmi.c:800-826 | A receive for any rank and any tag never waits while a message of its communicator does |
| Matcher.RunAccounted | src/fdmi.c:916-1278 | Every message and every receive waits, is discarded, or is in exactly one pair |
| Matcher.PairsAgree | src/fdmi.c:769-850 | The two of each pair have the same communicator, and rank and tag equal up to -1 on either side |
| Matcher.MessageFate | src/fdmi.c:903-934 | A message that has arrived waits, or was discarded, or is paired: exactly one of these |
| Matcher.ReceiveFate | src/fdmi.c:1241-1278 | And so for a receive that was posted |
| Matcher.PairedOnce | src/fdmi.c:916-1278 | Nothing is in two pairs |
| Matcher.FlushKeepsPreserved | src/fdmi.c:1844-1874 | After a flush exactly those wait that did and whose operation has bit 2 set |
| Matcher.GoneFor | src/fdmi.c:916-934 | Nothing is discarded but messages of an old epoch, and in a flush what does not have bit 2 set |
| Matcher.MessagesDoNotOvertake | src/fdmi.c:1241-1278 | When a receive gets a message, every earlier message that it matches (wildcards included) has been paired or discarded before |
| Matcher.ReceivesDoNotOvertake | src/fdmi.c:916-934 | And when a message goes to a receive, every earlier receive that matches it has been paired or discarded |
| Matcher.StaleArrival | src/fdmi.c:782-794 | A message of an old epoch is paired if and only if a receive waits that agrees in communicator, rank and tag (up to -1), and is discarded otherwise |
| Matcher.StaleIsPaired | src/fdmi.c:782-794 | An example |
| Matcher.ProbeThenReceive | src/fdmi.c:2434-2455 | A receive of what was probed takes that very message if and only if no message waiting before it is compatible; other arrivals do not matter |
| Matcher.ProbeAnyThenReceive | examples/ibio_server.c:412-439 | After a probe for anything, as the server makes it, it always does |
| Matcher.ProbeWithoutWildcards | src/fdmi.c:2434-2455 | And after any probe when no waiting message has wildcards |
| QueryPairs.GetMatched | src/fdmi.c:769-850 | The first query of the queue that is not of an old epoch and agrees in communicator, rank and tag, up to -1 |
| QueryPairs.FlushQueue | src/fdmi.c:1844-1857 | The walk removes under its own iterator: what is to be preserved (bit 2 of the operation) stays, in order, and all else goes to the free queue, none lost or doubled |
| QueryPairs.QueryPair.OnRecv | src/fdmi.c:903-934 | An arrival is matched with the first waiting receive that agrees with it in the fields, if there is one, and changes the linked queues as the model's step does |
| QueryPairs.QueryPair.PostRecv | src/fdmi.c:1241-1278 | So is a posted receive, with the first waiting message |
| QueryPairs.QueryPair.IProbe | src/fdmi.c:2420-2459 | Reports rank and tag of the first waiting message of the communicator that is not of an old epoch and has the rank and tag asked for (-1 for any), if there is one, and changes no queue |
| QueryPairs.QueryPair.Flush | src/fdmi.c:1830-1874 | Both queues are flushed as in the model |
| ChunkWriter.ChunkReceived | examples/ibio_server.c:254-262 | The chunk that arrives is the one the server is ready for, of the same size, and fits the cache |
| ChunkWriter.ThreadHasWork | examples/ibio_server.c:174-199 | Whichever thread gets the mutex, there is a chunk to write, and it has been received |
| ChunkWriter.StepInv | examples/ibio_server.c:155-270 | Every step of client, server and threads keeps the invariant |
| ChunkWriter.FileInOrder | examples/ibio_server.c:174-203 | In every reachable state of a write the file is the earlier writes and then `cache[0..current_write_count]`, with the counters in order |
| ChunkWriter.ReplyMeansWritten | examples/ibio_server.c:263-268 | The reply is sent only when all is in the file, in order |
| ChunkWriter.CompletedRun | examples/ibio_client.c:176-220 | Every run ends; it has written everything if and only if no write is empty |

## Left out

- Pipeline.Produced: `deflate` is an unknown function of dictionary, data, block list and last-job flag; its flushing to byte boundaries (`deflatePending`, `deflatePrime`) is not modelled.
- Pipeline.DoCut: the scan for hits is in module Compressor only, on buffers that are taken fresh; the state machine is given where it ends the jobs and does the reading, copying and moving on recycled buffers, each in one step since nobody else uses them.
- Pipeline.PutJob: the block list of a job is part of the job; its own pool is not in the state machine, since only one thread at a time has it. The job structure's allocation is not modelled either.
- Compressor.ParallelCompress2: one call with a fresh `offset`; the loop for inputs above 4 MB a block (MAXP2) is never entered with the permitted sizes. `parallel_compress`, which reads from a file instead of memory, is the same code otherwise.
- Streams.Output: the output file takes everything; the parallel writing and checking in `outb` is not modelled.
- Blocks.AppendLen: where growing once saturates without making room, the method adds nothing and says so, while the source goes on; that `malloc` and `realloc` can fail is not modelled.
- Headers: the trailers of gzip and zlib, and the conversion between Unix and MS-DOS time (a parameter here), would add easy members only. Names of 64K and more in a zip header do not fit their length field and are excluded from the round trip; the program takes names from paths of at most PATH_MAX bytes.
- HeaderReader.ReadString: the growth of the name buffer.
- Lzw.Unlzw: listing and testing modes, which only leave out the writing.
- Matcher: the epoch is constant, as in the code shown; the transfer of the data (eager copy, RDMA read), completion, and receive credits are not modelled.
- Queue: freeing of nodes; a removed node is only no longer reachable from the head.
- QueryPairs.GetMatched: the two matching functions of the source are one here, since they make the same tests.
- ChunkWriter: `write` is complete and does not fail; `fsync`, reading, opening and closing, several clients, and the older `ibvio_swrite` are left out. Messages of one client arrive in order, as the matcher's results say.
- Threads: cancelling a thread (`destruct`), the calls of the thread library, and the relinking of the list, which is a sequence here.
- PipelineEnd.CompletedRun: the shutdown in `finish_jobs` (the job numbered -1) and further streams over the same threads and pools; the state it starts from is what the lemma gives.
- ParallelLoad: read errors; a short read means the end of the file, as `readn` makes sure.
- Everything else in the repository: connections, memory registration, process management, the hash table, options and messages.
