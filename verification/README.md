# Solenix storage, verified

A Dafny model of the storage core of Solenix, a small two-tier time-series engine, with proofs of
what it promises. Pushes go to a write-ahead log and to a sharded buffer in memory; a flush seals
the open log segment, writes its points to Gorilla-compressed chunk files, one per metric, removes
the segment, and moves a watermark; a query reads chunk files first and then the part of memory
after the watermark.

Check everything with `dafny verify dfyconfig.toml`.

## How it is put together

The project has two layers that meet.

* **Programs.** Methods and classes with the loops and fields of the Go code: the bit writer and
  reader and the codec (`Gorilla`), the log records and their replay (`Wal`), the chunk files
  (`Chunk`), hashing (`SeriesKey`), point lists (`Points`), window aggregation (`Aggregate`,
  `AggValues`, `QueryWindow`), names on disk (`Names`), the directory operations of one metric
  (`ChunkStore`, `ChunkQuery`, `ChunkRewrite`, `FlushWriter`), the metric index
  (`Index.MetricIndex`), the segment manager (`WalManager.Manager`), the shards (`Shards`), the
  database object (`Database.Db`) and a session that serves requests with it (`Session`).
* **Specifications and theorems.** What the programs compute is stated by functions and relations
  (`GorillaSpec`, `WalFormat`, `ChunkFormat`, `EngineState`), and the properties are proved about
  those: `GorillaProofs` for the codec, the format modules for the files, and for the engine
  `EngineInvariant`, `EngineSound`, `EngineSteps`, `EngineMaintenance`, `EngineOpen`,
  `EngineLimits`, `EngineRuns`, `EngineQueries`, `EngineOrder`, `EngineSafety` and `EngineViews`.
  `GorillaCodes`, `Layouts`, `Corruption` and `EngineEffects` say once more what codes, bytes,
  checksums and the effects on files and memory are, by bit positions, byte positions and points
  and not by the functions that make them; the contracts of the programs state both.

`Db` holds its segments and chunk files as bytes; it writes and reads them with the encoders and
decoders above. The state of `EngineState` is what those bytes decode to (`DiskContent`,
`DiskState`), and each method of `Db` is proved to make exactly the step of `EngineState` that the
run theorems are about. `Session` joins the two ends: the contracts of `Serve`, `ServeWindow` and
`ServeMetrics` speak of requests and of the answer alone.

`Durability` and `DurableRuns` are a separate state machine for what `Db` cannot show: pushers that
write to the log while the background loop is in the middle of a flush or a compaction, error
returns between any two steps, and crashes. Its segments are partly written byte files
(`SegmentFile`), and a flush in it replays bytes.

Reading order: `Model`, `EngineState`, `EngineInvariant`, `EngineRuns`, `EngineQueries`,
`EngineEffects`, `Database`, `Requests`, `Session`, `Durability`, `DurableRuns`, `DurableFlush`; the
codec is `BitStream`, `GorillaSpec`, `GorillaCodes`, `GorillaProofs`, `Gorilla`.

### Main results

* A database object that starts empty and serves any sequence of pushes, flushes, compactions,
  drops and reopenings answers a query with exactly the matching series of a plain map from series
  to multisets of points, each once, with exactly its points in range, sorted (`Session.Serve`); a
  query with a window with the group-by of exactly those points (`Session.ServeWindow`); and lists
  exactly the metrics that have a point (`Session.ServeMetrics`). The conditions are on the requests
  alone (`Requests.Proper`): series in use, at most 65535 points in a push, timestamps above 0, a
  push after a flush or drop later than all pushed before it, at most 2^27 points pushed to a
  series, and fewer than 999998 requests. `Requests.ProperExample` meets them. Without a compaction
  a series whose pushes never step back in time is answered in push order (`Session.Serve`,
  `EngineOrder.RunInserts`).
* From any valid state a drop removes exactly the series that lack no label of the filter
  (`EngineEffects.DropExactly`); retention leaves exactly the files and series with a point at or
  after the cutoff, and a metric that showed only older points shows nothing
  (`Database.Db.EnforceRetention`); a compaction leaves one file in exactly the directories with
  more than the threshold (`Database.Db.Compact`).
* The same holds of the state machine for runs that also crash inside a flush or lose the end of
  the open segment (`EngineRuns.RunRefines`, `EngineQueries.QueryRefines`), and after each such run
  every chunk file reads back from its bytes as exactly what it holds (`EngineRuns.RunReadsBack`).
* Whatever the order of timestamps, chunk files and the open segment hold exactly what was pushed,
  and a flush makes all of it visible (`EngineRuns.RunConserves`, `EngineRuns.FlushShowsAll`). A late
  push is visible at once exactly when it is after the watermark (`EngineQueries.PushShowsExactly`).
* After any run without retention, with late points, crashes, and drops while segments left behind
  by a crash are on disk, queries see exactly what a small machine over multisets shows; in it the
  points of such segments come back after a drop and a reopening (`EngineViews.RunViews`,
  `EngineViews.DroppedComesBack`).
* Over every run of every operation, retention included, queries see nothing that was not pushed
  (`EngineSafety.NothingInvented`).
* In every state that interleaved pushes, flushes, compactions, failures, crashes and restarts can
  reach, every point whose record reached a segment file is in a segment or a readable chunk file,
  as often as it was written (`DurableRuns.NeverLost`); and a push that was followed by a sync of
  the write buffer is on disk in every later state (`DurableRuns.PushSynced`). Crashes, failures
  and pushes can happen at any moment (`DurableFlush.AnyMoment`), and a flush that is not
  interrupted puts all points of its segment into chunk files (`DurableFlush.FlushMoves`,
  `FlushCanFinish`).
* The codec is lossless for all timestamps and all 64-bit patterns, detects every truncation, and
  has exact size bounds (`GorillaProofs.RoundTrip`, `TruncationDetected`, `SizeBound`,
  `RegularSize`); which code every point gets is said by bit positions (`GorillaCodes.PointCodes`).
* A chunk file reads back if and only if every label block is shorter than 2^16 bytes; one that is
  not makes the whole file unreadable (`ChunkFormat.ReadsBackExactly`). A log prefix replays if and
  only if it ends at a record boundary (`WalFormat.ReplayPrefix`).
* The checksum is a remainder (`Corruption.FoldIsShift`) and tells all bytes apart that differ only
  within four neighbouring ones (`BurstDetected`). So damaged, a chunk file or a log is not read
  (`DamagedFile`, `DamagedLog`), but for the number of series in a chunk file, which no checksum
  covers: a smaller one there silently hides the series at the end (`CountUnchecked`).
* The bucket loop of window aggregation ends with the group-by of its points if and only if the end
  of the last window fits int64, and the group-by determines its result
  (`Aggregate.AggregatePoints`, `WindowWrap.GroupsExactly`, `Aggregate.GroupByUnique`).

### Conventions and assumptions

* A Go string is its bytes; a value is its IEEE 754 bit pattern; machine integers are subset types
  and wrap-around is written out (`Words.Wrap`).
* `universe` is the set of series in use, and `EngineLemmas.Usable` what is assumed of it: fewer
  than 2^32 series, no `HashSeries` collision between two of them, and of each that its metric is
  the name of its own directory (so valid UTF-8 without unsafe characters), of at most 255 bytes
  and without NUL, that its label names and
  values fit 16-bit lengths, and that its label block is shorter than 2^16 bytes.
  `SeriesKey.IdentityInjective`, `Names.SharedDirectory`, `Names.OwnDirectory` and
  `ChunkFormat.ReadsBackExactly` say what the code does otherwise.
* A push of the run theorems has 1 to 65535 points with timestamps above 0 (`GoodRecord`);
  `WalFormat.RecordRoundTrip` shows that a record with more points loses some.
  `Database.Db.PushBatch` takes any record and says what it does to log, memory and index.
* `EngineLimits.Limits` holds the bounds that a state must keep: at most 2^27 points of a series in
  a directory and the open segment together, since a compaction may bring them all into one file,
  and file and segment numbers below one million. From there on the code does not read numbers back
  from names: `Names.NumberReadBack`, `ChunkStore.NextNumberUsed` and `WalManager.ReopenedNumber`
  give the exact conditions.
* A query needs the watermark to be below the largest int64.
* A flush and `DropMetric` are sequential with pushes in `Db`; interleaving is in `Durability`.

### Where the documentation and the code differ

* `docs/gorilla-compression.md` gives a value at most 68 bits; the code writes up to 77
  (`GorillaProofs.SizeBound` follows the code).
* `docs/wal-and-sharding.md` says that data survives a crash right after `Write`. The record may
  still be in the write buffer: `DurableRuns.AcknowledgedLost` gives the run, and
  `SegmentFile.SurvivesExactly` the exact condition; after a sync it can no longer be lost
  (`DurableRuns.PushSynced`).
* A comment in `internal/chunk/writer.go:20` calls the magic "PULS"; written little-endian its bytes
  spell "SLUP" (`Layouts.FileLaidOut`).
* `docs/wal-and-sharding.md` describes reopening as an idempotent replay; what makes it so is the watermark
  that `Open` takes from the chunk headers (`EngineOpen.CrashKeeps`).

## Model

| member | source | states |
|---|---|---|
| Words.WrapBack | internal/chunk/gorilla.go:317-358 | adding a wrapped int64 difference gives the second operand back, for all pairs |
| Words.XorInvolutive | internal/chunk/gorilla.go:207-259 | applying the same XOR mask twice restores a value |
| BitStream.BitWriter.WriteBits | internal/chunk/gorilla.go:31-35 | appends exactly the n low bits of the value, most significant first, to the bits written |
| BitStream.BitWriter.Bytes | internal/chunk/gorilla.go:37-44 | the bytes are the bits written followed by fewer than eight zeros |
| BitStream.PackBits | internal/chunk/gorilla.go:19-44 | packing loses no bit: the bytes spell the bits and their zero padding |
| BitStream.PackUnique | internal/chunk/gorilla.go:37-44 | bytes that spell the bits and fewer than eight zeros are the packed bytes and no others |
| BitStream.BitReader.ReadBits | internal/chunk/gorilla.go:68-81 | reads the next n bits as a number, or fails exactly when fewer than n are left |
| Gorilla.EncodeDod | internal/chunk/gorilla.go:98-124 | appends the code of the delta of deltas, of 1, 9, 12, 16 or 68 bits by the range that it lies in, with the prefix of the range and the distance from its lower end or the 64-bit word |
| Gorilla.DecodeDod | internal/chunk/gorilla.go:126-172 | reads what the code of a delta of deltas stands for, with sign extension, or fails at the end of the stream |
| GorillaProofs.DodRoundTrip | internal/chunk/gorilla.go:98-172 | every int64 delta of deltas is read back from its code and nothing more is consumed |
| Gorilla.EncodeValue | internal/chunk/gorilla.go:175-205 | appends 1 bit for the value before; 2 bits and the bits of the block when there is one and every changed bit lies inside it; otherwise 13 bits and those of a new block that reaches from the highest changed bit, or bit 32 when that is lower, to the lowest; and moves the XOR state accordingly |
| GorillaCodes.NewBlockExactly | internal/chunk/gorilla.go:188 | a new block is opened if and only if there is none or some bit that changes lies outside of it |
| GorillaCodes.ValueCodes | internal/chunk/gorilla.go:175-205 | the code of every value after every state, and the state after it, said by the positions of the bits that change |
| GorillaCodes.DodCodes | internal/chunk/gorilla.go:98-124 | the size of the code of a delta of deltas is 1, 9, 12, 16 or 68 if and only if it lies in the range of that size; prefix and payload say which value it is |
| Gorilla.DecodeValue | internal/chunk/gorilla.go:207-260 | reads a value from its XOR code, moves the XOR state, and refuses to reuse a block before there is one |
| GorillaProofs.ValueRoundTrip | internal/chunk/gorilla.go:175-260 | every value is read back from its code, decoder and encoder state stay equal, and the state keeps its invariant despite the cap on leading zeros |
| Gorilla.EncodePoints | internal/chunk/gorilla.go:271-302 | the loop writes the specified compressed form of any list of points |
| GorillaCodes.PointCodes | internal/chunk/gorilla.go:271-302 | one more point adds exactly its code to the bits of a list: two words for the first, the difference as a word for the second, then the code of its delta of deltas; and from the second on the code of its value after the values before |
| Gorilla.DecodePoints | internal/chunk/gorilla.go:305-363 | the loop computes the specified decoding of any bytes, errors included |
| GorillaProofs.RoundTrip | internal/chunk/gorilla.go:271-363 | decoding the compressed form of any list of points gives the list back |
| GorillaProofs.TruncationDetected | internal/chunk/gorilla.go:305-363 | decoding n points from a strict prefix of their compressed bytes fails |
| GorillaProofs.SizeBound | internal/chunk/gorilla.go:98-205 | n points take between 193 + 2(n - 2) and 145n - 21 bits, so the 32-bit length cannot overflow up to 2^27 points |
| GorillaProofs.RegularSize | internal/chunk/gorilla.go:271-302 | the least size is met if and only if the series is evenly spaced and constant; 100 such points take 49 bytes |
| Binary.LabelsRoundTrip | internal/chunk/reader.go:365-398 | labels written in any order of their keys are read back as the same map, leaving the rest of the bytes |
| Binary.CutLabels | internal/chunk/reader.go:365-398 | a label block that is cut short anywhere is not read as labels: the reader runs out of bytes |
| Binary.RepeatedKey | internal/chunk/reader.go:365-398 | of two values stored for one key the later one is kept |
| Crc.UpdateAppend | internal/chunk/writer.go:95-98 | summing header and body one after the other equals summing them together |
| Crc.Digest.Write | internal/chunk/writer.go:95-98 | the incremental digest is the checksum of everything written to it |
| Corruption.CheckValues | internal/wal/wal.go:53 | three checksums of the standard, which fix polynomial, direction and the complements before and after |
| Corruption.FoldIsShift | internal/wal/wal.go:53 | the checksum register after any bytes is the remainder of the one number that they spell |
| Corruption.BurstDetected | internal/wal/wal.go:123-126 | two byte strings that differ only within four neighbouring bytes never have the same checksum |
| SeriesKey.HashSeries | internal/model/record.go:17-34 | the hash fed key by key in sorted order is the hash of the identity bytes of the series |
| Layouts.IdentityLaidOut | internal/model/record.go:24-32 | the bytes hashed are the metric, a zero byte, and by ascending key each key, an equals sign, its value and a zero byte |
| Corruption.FnvValues | internal/model/record.go:24 | the two published FNV-1a hashes that fix offset and prime |
| SeriesKey.CanonicalOrder | internal/model/record.go:18-22 | whatever order the keys are collected in, sorting gives the one order that identifies the series |
| SeriesKey.IdentityInjective | internal/model/record.go:24-32 | without NUL bytes, and without '=' in keys, different series feed different bytes to the hash |
| SeriesKey.EqualsInKeyCollides | internal/model/record.go:24-32 | with '=' in a key two different series always feed the same bytes |
| SeriesKey.BlockSize | internal/chunk/writer.go:134-151 | the label block of a series has the same size in every order of its keys |
| Wal.EncodeRecord | internal/wal/wal.go:143-165 | the payload holds the metric, the labels in some order, and the points, each field at its place, little-endian, with the lengths cut to 16 bits |
| Layouts.RecordLaidOut | internal/wal/wal.go:143-165 | which byte of a payload is which byte of which field |
| Layouts.FrameLaidOut | internal/wal/wal.go:53-57 | a frame is the length in four bytes, the checksum in four, and the payload |
| Wal.DecodeRecord | internal/wal/wal.go:167-239 | the offset-driven decoder computes the specified decoding of any bytes, errors included |
| WalFormat.RecordDecodes | internal/wal/wal.go:143-239 | a payload decodes to its record with the point list cut to the stored 16-bit count, for any label order |
| WalFormat.RecordRoundTrip | internal/wal/wal.go:158 | a record survives the log if and only if it has at most 65535 points |
| WalFormat.CutPayload | internal/wal/wal.go:167-239 | a payload that is cut short anywhere does not decode |
| Wal.Segment.Write | internal/wal/wal.go:44-66 | takes any record and appends its frame to the bytes; when the lengths fit their fields, the bytes then replay to one record more |
| Wal.Replay | internal/wal/wal.go:96-141 | the read loop computes the specified replay of any bytes |
| WalFormat.ReplayPrefix | internal/wal/wal.go:96-141 | replaying the first k bytes of a log succeeds if and only if k is a record boundary, and then gives exactly the records before it |
| WalFormat.ReplayExact | internal/wal/wal.go:44-141 | replaying a whole log gives exactly its records in order |
| WalFormat.ReplayAppend | internal/wal/wal.go:44-141 | a frame appended to bytes that replay adds exactly what its payload keeps of the record |
| Wal.ReadFrame | internal/wal/wal.go:109-133 | a header or payload that is cut short is an end of bytes, a payload whose checksum is another is a mismatch, and otherwise the frame ends where its length says |
| Corruption.DamagedLog | internal/wal/wal.go:123-126 | with up to four neighbouring bytes of one payload, or of its checksum, changed, the whole log fails to replay with a checksum mismatch, whatever is before and after |
| Chunk.EncodeLabels | internal/chunk/writer.go:134-151 | the number of labels and then by ascending key each key and value after its length, every byte at its place |
| Chunk.WriteChunkFile | internal/chunk/writer.go:51-131 | writes the file of the non-empty series, each field at its place, little-endian: magic, version, time range, blocks, count, and the checksum of all before the count; or nothing when there is none |
| Layouts.FileLaidOut | internal/chunk/writer.go:51-105 | which byte of a chunk file is which byte of which field |
| Chunk.ReadFile | internal/chunk/reader.go:261-362 | the offset-driven reader computes the specified decoding of any bytes; fewer than 32 bytes, another magic and another checksum are each their own error; what is read has as many series as the footer says, in version 1 or 2 |
| Chunk.ChunkTimeRange | internal/chunk/reader.go:19-36 | reads the two timestamps of the header; fewer than 24 bytes and another magic are each their own error |
| ChunkFormat.FileRoundTrip | internal/chunk/writer.go:51-131 | reading back a written file gives exactly its series in order, and the checksum matches |
| ChunkFormat.ReadsBackExactly | internal/chunk/writer.go:65-71 | with all other lengths fitting, a written file reads back if and only if every label block is shorter than 2^16 bytes, and otherwise reading it fails as a whole |
| ChunkFormat.RawPointsBack | internal/chunk/reader.go:323-334 | points of a version 1 file, 16 bytes each, are read back as they are |
| Corruption.DamagedFile | internal/chunk/reader.go:279-288 | a readable file with up to four neighbouring bytes changed, before the number of series or in the checksum, cannot be read any more |
| Corruption.CountUnchecked | internal/chunk/reader.go:279-288 | the number of series is not covered by the checksum: a written file with another number there is read if and only if the number is not larger, and then without the series at its end |
| ChunkFormat.RangeRoundTrip | internal/chunk/reader.go:19-36 | the header of a written file gives back the tracked range |
| ChunkFormat.RangeExact | internal/chunk/writer.go:62-93 | the header range is attained at both ends and holds every point of the file |
| Points.InsertPointSorted | internal/storage/tsdb.go:644-665 | a point not older than any goes to the end, after those of its time; any other goes after exactly the older ones, before those of its time |
| Points.InsertKeepsOrder | internal/storage/tsdb.go:644-665 | insertion keeps time order and adds exactly the one point |
| Points.InsertAllInOrder | internal/storage/tsdb.go:644-665 | points that never step back in time are kept in the order of their insertion |
| Points.Search | internal/storage/query.go:133-143 | the binary search finds a place where the timestamps pass a time, and in a sorted list the first point at or after it |
| Points.FilterPoints | internal/storage/query.go:126-152 | two searches and a copy give the contiguous part of the list with exactly the points from the lower bound, if that is above zero, up to the upper bound, if that is |
| Points.FilterAfter | internal/storage/query.go:60-64 | raising the lower bound to the watermark plus one reads exactly the points after the watermark in range |
| Aggregate.AggregatePoints | internal/storage/query.go:154-189 | when the last window that it comes to ends inside int64, the bucket loop ends with at most one point for each window, and for points in time order with one at the start of each window that holds points, carrying the aggregate of exactly their values in order; windows are counted from a multiple of their length |
| Aggregate.GroupsByBounds | internal/storage/query.go:154-189 | the group-by, said by the bounds of its windows |
| WindowWrap.GroupsExactly | internal/storage/query.go:169-186 | for points in time order the loop ends with their group-by if and only if the end of the last window fits int64 |
| WindowWrap.LastIsLost | internal/storage/query.go:169-186 | otherwise that end wraps around, and the window of the last point is in no result of the loop, however long it goes on |
| WindowWrap.NeverEnds | internal/storage/query.go:169-186 | otherwise the loop never ends when the last point is at the largest time or the window length divides 2^64 |
| Aggregate.PlainWindows | internal/storage/query.go:164 | from a base that is not negative, windows start at multiples of the length and a point is in window ts/win*win |
| Aggregate.NothingSkipped | internal/storage/query.go:160-164 | every point is in some window if and only if the first window starts at or before the first point |
| Aggregate.SkipsNegativeStart | internal/storage/query.go:164 | without a lower bound that is so if and only if the first timestamp is not negative or a multiple of the window |
| Aggregate.GroupByUnique | internal/storage/query.go:154-189 | the group-by relation has one result, so the loop can produce no other |
| Aggregate.CountsSum | internal/storage/query.go:221-222 | when no point is before the first window, the sizes of all windows add up to the number of points |
| AggValues.ApplyAgg | internal/storage/query.go:191-226 | over the reals: sum, average, minimum, maximum and count of a window |
| AggValues.AverageBetween | internal/storage/query.go:191-226 | over the reals: the average lies between the minimum and the maximum |
| AggValues.SumConcat | internal/storage/query.go:215-220 | over the reals: sums of adjacent value lists add up |
| QueryWindow.GroupAll | internal/storage/query.go:38-50 | every series of the raw answer gets its windows; one in time order is grouped, and left out exactly when no point lies in a window |
| ChunkStore.ListNumbers | internal/chunk/reader.go:50-56 | each file once, in the order of the names, which below one million is the order of the numbers |
| ChunkStore.NextChunkNum | internal/chunk/writer.go:153-169 | one more than some number that is read back from a name and more than all of these, or 1 |
| ChunkStore.NextNumberUsed | internal/chunk/writer.go:153-169 | the next number is one in use, whose file is then replaced, if and only if 999999 and 1000000 both are in use |
| Names.SixDigitName | internal/chunk/writer.go:164 | below one million a file name has the six decimal digits of its number |
| Names.SharedDirectory | internal/chunk/writer.go:171-179 | two metrics get the same sanitized name if and only if they have as many characters, the same up to unsafe ones and underscores and up to bytes that are not UTF-8 and U+FFFD |
| Names.OwnDirectory | internal/chunk/writer.go:38 | a metric is the name of its own directory below the chunk directory if and only if it is not empty, "." or "..", is valid UTF-8 and has no unsafe character |
| Names.UnsafeExactly | internal/chunk/writer.go:171-179 | an ASCII character stays as it is, but for the nine that become underscores |
| Names.CharOfScalar | internal/chunk/writer.go:171-179 | the UTF-8 encoding of every code point is read as one character |
| Names.ScalarOfChar | internal/chunk/writer.go:171-179 | and every character read is the encoding of a code point |
| Names.NumberReadBack | internal/chunk/writer.go:164 | a number is read back from its own file name if and only if it is below one million |
| Names.NamesInOrder | internal/chunk/reader.go:56 | below one million names sort exactly as their numbers do |
| Names.NamesOutOfOrder | internal/chunk/reader.go:56 | the name of one million sorts before that of the number below it |
| DiskContent.ContentOnDisk | internal/chunk/reader.go:261-362 | the file content that the engine works with is what the written bytes decode to |
| DiskContent.ContentGood | internal/chunk/writer.go:51-93 | a file written for distinct series holds each once, under an exact time range |
| DiskContent.FileReadsBack | internal/chunk/reader.go:261-362 | every file whose series are in use and have at most 2^27 points has bytes that read back as exactly its content |
| ChunkQuery.GatherPruned | internal/chunk/reader.go:61-100 | skipping a file by its header range gathers the same as reading it; an error exactly when the header meets the query and the body cannot be read |
| ChunkQuery.MatchLabels | internal/chunk/reader.go:110-120 | true if and only if each label of the filter is there with its value, or is absent and asked for with the empty value |
| Model.LacksExactly | internal/storage/tsdb.go:632-642 | the label match used everywhere is that condition |
| ChunkQuery.QueryChunks | internal/chunk/reader.go:40-108 | the answer is, for each series once that lacks no label of the filter, exactly what decoding every file and testing every point gives, and no other series; an error exactly when a file that meets the query by its header has an unreadable body |
| ChunkRewrite.CompactMetric | internal/chunk/compaction.go:37-96 | with more files than the threshold, and at least one, a single file with a number above theirs that can be read replaces them all; otherwise the bytes stay; it fails if and only if there are more files than the threshold and one cannot be read |
| ChunkRewrite.DropSeries | internal/chunk/reader.go:150-201 | the files left are those with a series that lacks a label of the filter, and hold exactly these series under a new exact range; the result says whether any matched; an error exactly when a file cannot be read |
| ChunkRewrite.DropSeriesFromChunks | internal/chunk/reader.go:150-209 | the directory goes exactly when no file is left, and no other directory changes |
| FlushWriter.GroupRecords | internal/storage/tsdb.go:233-255 | grouping by metric and series splits the memory image of the records, and the latest timestamp is found |
| FlushWriter.GroupFile | internal/storage/tsdb.go:257-269 | the series of one group are exactly the file that a flush must write for that metric |
| FlushWriter.WriteChunks | internal/storage/tsdb.go:257-269 | each metric of the records gets one new file whose bytes read back as its series, and no other directory changes |
| Index.MetricIndex.Add | internal/storage/index.go:27-34 | the metric lists its ids and the new one, and no other metric changes |
| Index.MetricIndex.Remove | internal/storage/index.go:36-45 | the id is unlisted, the metric goes when it listed no other, and no other metric changes |
| Index.MetricIndex.List | internal/storage/index.go:47-55 | every metric of the index exactly once |
| Index.RemoveMore | internal/storage/tsdb.go:571-582 | unlisting ids one after the other unlists them all |
| Index.PurgeMore | internal/storage/tsdb.go:457-459 | purging the trimmed series of shard after shard purges them all |
| WalManager.Manager.Open | internal/wal/manager.go:25-50 | continues the segment with the largest number read back from a name, or starts with 1 |
| WalManager.ReopenedNumber | internal/wal/manager.go:135-154 | a segment is the one to be continued if and only if its number is below one million and no other such number is larger |
| WalManager.Manager.Write | internal/wal/manager.go:53-57 | appends the frame of any record to the bytes of the open segment only; one whose lengths fit adds exactly itself to what the segment replays to |
| WalManager.Manager.Rotate | internal/wal/manager.go:68-87 | seals the open segment unchanged and opens an empty one under a number not in use |
| Shards.PutSeries | internal/storage/tsdb.go:401-418 | storing a series in the shard of its id stores it in the flat map and keeps every series in its own shard |
| Shards.EvictShard | internal/storage/tsdb.go:284-306 | one shard keeps exactly its points after the time, and no series left without points |
| Shards.EvictAll | internal/storage/tsdb.go:284-306 | evicting shard by shard evicts the flat map |
| EngineEffects.EvictExactly | internal/storage/tsdb.go:284-306 | a series stays in memory if and only if it has no points or one after the time, without exactly the points up to the time |
| Shards.TrimShard | internal/storage/tsdb.go:430-455 | one shard keeps exactly its points from the cutoff on, and reports the series that are left without any |
| EngineEffects.TrimExactly | internal/storage/tsdb.go:430-455 | a series stays in memory if and only if it has a point at or after the cutoff, without exactly the points before it |
| EngineEffects.PurgeExactly | internal/storage/tsdb.go:457-459 | an id stays listed unless its series of that metric is purged, and a metric unless it loses its last id so |
| QueryMerge.MergeResults | internal/storage/query.go:94-123 | each series once, its cold points before its hot points, none lost |
| QueryMerge.Combine | internal/storage/query.go:29-36 | the cold-only, hot-only and merged ways of answering all give the points of the directory and then of memory, which is what is visible of a metric that names its directory |
| Database.OpenDb | internal/storage/tsdb.go:116-166 | opening makes the state that the bytes on disk determine: watermark from headers, memory and index from all segments; it fails exactly when a segment does not replay |
| DiskState.LeftOpenable | internal/storage/tsdb.go:69-171 | what a valid database leaves on disk can be opened again |
| Database.Db.ApplyRecord | internal/storage/tsdb.go:401-423 | a record's points join its series in its shard, at the end in push order when they do not step back in time, and a new series is listed |
| Database.Db.PushBatch | internal/storage/tsdb.go:369-399 | an empty metric or batch is refused without effect; any other record is appended to the log bytes and applied to memory and index; one of a series in use, with room and positive timestamps, makes exactly the push step |
| Database.Db.FlushToChunks | internal/storage/tsdb.go:218-280 | replaying, writing and removing bytes makes exactly the flush step: all that was stored of each series is in chunk files, and queries see in memory what was there after the new watermark; it needs no readable chunk file and fails exactly when the segment does not replay, which then stays sealed; from a valid state every file and segment can still be read |
| Database.Db.EvictFlushed | internal/storage/tsdb.go:284-306 | every series in memory loses exactly its points up to the time, and goes if and only if it has none after it |
| Database.MaxChunkTS | internal/storage/tsdb.go:310-336 | the largest header maximum of all chunk files, or zero |
| Database.Db.Compact | internal/chunk/compaction.go:15-34 | every directory with more files than the threshold, and at least one, is left with one, every other keeps its bytes, and for a threshold of at least 1 none has more files than it; the step is exactly that of the state machine |
| Database.Db.EvictSeries | internal/storage/tsdb.go:568-585 | a series leaves memory if and only if it is of the metric and lacks no label of the filter; exactly the ids of these leave the index, and the result says whether there were any |
| Database.Db.DropMetric | internal/storage/tsdb.go:536-565 | makes exactly the drop step, with its result, on the directory that the sanitized name leads to: a series that lacks no label of the filter is in no file of the directory and not in memory, and of every other series all that was stored is still in files; for "." and ".." it flushes and drops nothing |
| Database.DeleteExpired | internal/storage/tsdb.go:463-491 | exactly the files whose header ends before the cutoff go, and the others keep their bytes |
| Database.Db.EnforceRetention | internal/storage/tsdb.go:425-461 | a file is left, with its bytes, if and only if it was there and holds a point at or after the cutoff; a series stays in memory if and only if it has such a point, without exactly its older ones, and its id stays listed; a metric that showed only points before the cutoff shows nothing |
| Database.Db.QueryMemory | internal/storage/query.go:54-90 | the answer holds each series once that lacks no label of the filter, with exactly its points in memory after the watermark and in range |
| Database.Db.Query | internal/storage/query.go:17-40 | an empty metric is refused; otherwise the answer holds each series once that lacks no label of the filter, and no other, with exactly the points in range of its directory and of memory after the watermark, which for a metric that names its directory are its visible points |
| Database.Db.QueryWindow | internal/storage/query.go:38-50 | with a window each series of that answer is replaced by its windows, grouped exactly when its points are in time order |
| Database.Db.Metrics | internal/storage/tsdb.go:588-590 | every listed metric once |
| EngineLemmas.ApplyPoints | internal/storage/tsdb.go:401-423 | applying a record inserts its points into its series and touches no other |
| EngineLemmas.ReplayPoints | internal/storage/tsdb.go:150-158 | replaying records leaves each series with its points inserted in log order |
| EngineInvariant.WrittenCold | internal/storage/tsdb.go:233-269 | a flush appends to the cold points of each series exactly its points of the segment, sorted |
| EngineInvariant.VisibleSorted | internal/storage/query.go:94-123 | in an ordered state cold followed by hot points are in time order |
| EngineSteps.PushKeeps | internal/storage/tsdb.go:379-423 | a push after the watermark keeps the invariant |
| EngineSteps.PushVisible | internal/storage/tsdb.go:379-423 | it inserts exactly its points into what queries see of its series |
| EngineSteps.FlushKeeps | internal/storage/tsdb.go:218-306 | a flush keeps the invariant and leaves an empty open segment |
| EngineSteps.FlushInvisible | internal/storage/tsdb.go:218-306 | a flush leaves the point sequence that queries see of every series unchanged |
| EngineEffects.FlushExactly | internal/storage/tsdb.go:218-306 | from any state, late points included, a flush keeps what is stored of every series, all of it then in chunk files |
| EngineEffects.FlushMark | internal/storage/tsdb.go:241-280 | a flush sets the watermark to the latest time of its records when that is above zero, even when it was later before |
| EngineMaintenance.CompactKeeps | internal/chunk/compaction.go:37-96 | compaction keeps the invariant |
| EngineMaintenance.CompactedCold | internal/chunk/compaction.go:37-96 | each series holds the same multiset of points as before, now sorted |
| EngineMaintenance.CompactNeverLoses | internal/chunk/compaction.go:82-93 | with the new file in place and any old ones removed, each series reads at least what it read before, and exactly that at the end |
| EngineMaintenance.DropKeeps | internal/storage/tsdb.go:536-585 | a drop keeps the invariant |
| EngineMaintenance.DropVisible | internal/storage/tsdb.go:536-585 | the matching series are gone from queries, and every other series reads the same points |
| EngineMaintenance.DropReports | internal/storage/tsdb.go:564 | the result is true if and only if some matching series had a point to read |
| EngineEffects.DropExactly | internal/storage/tsdb.go:536-585 | from any state in which the metric is known, what a drop makes of each series, by the labels that it lacks |
| EngineEffects.DroppedExactly | internal/chunk/reader.go:168-198 | which files and which of their series a drop leaves |
| EngineMaintenance.RetainVisible | internal/storage/tsdb.go:425-491 | retention adds nothing and keeps every visible point at or after the cutoff |
| EngineEffects.FreshExactly | internal/storage/tsdb.go:463-491 | retention leaves exactly the files with a point at or after the cutoff |
| EngineEffects.RetainClears | internal/storage/tsdb.go:425-491 | a metric that shows only points before the cutoff has no file and shows nothing after retention |
| EngineSound.FlushSound | internal/storage/tsdb.go:218-306 | from any sound state, late points and leftover segments included, a flush leaves a sound state |
| EngineSound.DropSoundExactly | internal/storage/tsdb.go:547-562 | every series in memory is still listed after a drop if and only if the metric keeps a directory or has no series in memory |
| EngineOpen.OpenKeeps | internal/storage/tsdb.go:130-158 | opening a well-formed disk restores the invariant |
| EngineOpen.ReopenKeeps | internal/storage/tsdb.go:130-158 | closing and reopening changes nothing that queries see |
| EngineOpen.CrashKeeps | internal/storage/tsdb.go:257-273 | after a crash between the last chunk write and the removal of the segment, the reopened database shows every series as before, each point once |
| EngineOpen.LoseKeeps | internal/wal/wal.go:68-77 | a crash that loses the last records of the open segment takes exactly their points from what queries see after reopening |
| EngineOpen.OpenShows | internal/storage/tsdb.go:130-158 | whatever the disk holds, an opened database shows of a series its cold points and then all points of segments after the latest header maximum |
| EngineOpen.LeftoverComesBack | internal/storage/tsdb.go:130-158 | after a drop and a reopening a dropped series shows exactly its points in leftover segments after the latest header maximum, and is gone if and only if there is none |
| EngineLimits.FlushLimits | internal/storage/tsdb.go:218-306 | a flush keeps the bounds on points and numbers when one number is left |
| EngineLimits.FilesReadBack | internal/chunk/reader.go:261-362 | in every sound state within the bounds each chunk file reads back from its bytes as exactly what the state holds |
| EngineRuns.RunRefines | internal/storage/tsdb.go:218-306 | after every run in time order, crashes inside a flush and lost segment ends included, what queries see is exactly the plain map, sorted |
| EngineRuns.RunReadsBack | internal/chunk/reader.go:261-362 | after every such run each chunk file reads back from its bytes as exactly what it holds |
| EngineRuns.RunsClean | internal/storage/tsdb.go:536-565 | without a crash inside a flush no segment is ever left behind, so that drops need no condition on the state |
| EngineRuns.FlushShowsAll | internal/storage/tsdb.go:218-306 | right after a flush memory is empty and every stored point is visible, late ones included |
| EngineRuns.RunConserves | internal/storage/tsdb.go:401-423 | after every run in any order chunk files and open segment hold exactly the pushed points, and queries see none twice |
| EngineRuns.MetricsExact | internal/storage/tsdb.go:588-590 | a metric is listed if and only if it has a visible point |
| EngineQueries.QueryRefines | internal/storage/query.go:17-51 | after every run in time order an answer holds each matching series of the plain map with points in range once, with exactly those points, sorted |
| EngineQueries.RunAggregable | internal/storage/query.go:154-189 | after every run in time order the content that windows are computed from is in time order, and when the last window over the plain map's points in range fits int64, so does the last one of the loop |
| EngineQueries.RunMetrics | internal/storage/tsdb.go:588-590 | after every run in time order the listed metrics are exactly those of the plain map with a point |
| EngineQueries.CompactRange | internal/chunk/compaction.go:37-96 | no range query changes by a compaction, and none reads fewer points in the middle of one |
| EngineQueries.PushShowsExactly | internal/storage/query.go:60-64 | a push is visible in full at once if and only if all its points are after the watermark |
| EngineOrder.RunInserts | internal/storage/tsdb.go:401-423 | after every run in time order without a compaction queries see the points of each series in the order of their insertion, whatever was flushed, reopened or crashed in between |
| EngineOrder.InsertsInOrder | internal/storage/tsdb.go:644-665 | which is the order of the pushes when these never step back in time |
| EngineOrder.PushOrderIsPlain | internal/storage/tsdb.go:401-423 | the points in push order are those of the plain map |
| EngineSafety.NothingInvented | internal/storage/tsdb.go:173-306 | over every run of every operation, with late points, crashes, drops and retention in any order, queries see only points that were pushed to their series, and a retention keeps every visible point at or after its cutoff |
| EngineSafety.StepSafe | internal/storage/tsdb.go:173-306 | no operation brings a point into files, log or memory that was not pushed to its series |
| EngineSafety.TrimmedComesBack | internal/storage/tsdb.go:425-461 | retention trims memory but not the log: the next flush makes every point of the open segment readable again, whatever its age |
| EngineViews.RunViews | internal/storage/tsdb.go:116-306 | after any run without retention, late points, crashes and drops over leftover segments included, queries see exactly the cold points of the plain machine and its points in memory after its mark |
| EngineViews.ViewAnswers | internal/storage/query.go:17-51 | a query answer after such a run holds each matching series once with exactly the points in range that the plain machine shows |
| EngineViews.DroppedComesBack | internal/storage/tsdb.go:536-565 | in the plain machine a dropped series has no points, and after a reopening exactly those of leftover segments after everything in chunk files |
| Requests.StepBounded | internal/storage/tsdb.go:173-214 | each request keeps watermark, numbers and points within what the requests so far say |
| Session.Do | internal/storage/tsdb.go:69-585 | one request makes exactly its step on the object, and leaves every file and segment readable |
| Session.Serve | internal/storage/tsdb.go:69-585 | after any proper sequence of requests the object answers a query with each series of the metric once that lacks no label of the filter and has a point in range, and no other, with exactly the points of the plain map in range, sorted; without a compaction in the order of insertion, which for pushes that never step back is push order |
| Session.ServeWindow | internal/storage/query.go:17-51 | after such requests a query with a window gives each such series once, with one point at the start of each window that holds points of the plain map in range, carrying the aggregate of exactly their values in time order |
| Session.ServeMetrics | internal/storage/tsdb.go:588-590 | after such requests the metrics listed are exactly those with a point in the plain map, each once |
| Requests.ProperExample | internal/storage/tsdb.go:351-399 | the conditions on requests can be met: for every series that can be stored there is a proper sequence with each kind of request |
| SegmentFile.ReplayDurable | internal/wal/wal.go:96-141 | a replay of a partly written file succeeds if and only if it ends with a whole record, and gives exactly the records that reached the file |
| SegmentFile.FlushGrows | internal/wal/wal.go:68-77 | more bytes on disk add records and change none |
| SegmentFile.SurvivesExactly | internal/wal/wal.go:44-66 | a record survives the loss of the write buffer if and only if its last byte had reached the file |
| Durability.RotateKeeps | internal/wal/manager.go:68-87 | rotation loses nothing and opens a number that is neither in use nor was ever removed |
| Durability.RemoveSealedKeeps | internal/storage/tsdb.go:271-273 | removing the sealed segment after all its metrics are written loses nothing |
| Durability.WriteMergedKeeps | internal/chunk/compaction.go:82-86 | putting the merged file in place makes every old file expendable |
| Durability.OpenKeeps | internal/wal/manager.go:25-50 | opening after a crash loses nothing and reuses no removed number |
| DurableRuns.NeverLost | internal/storage/tsdb.go:218-273 | in every state of every interleaved run with failures and crashes, each point that reached a segment file is on disk as often as it was written, each chunk file reads back from its bytes as exactly what it holds, and no removed segment number is in use |
| DurableRuns.SyncedStays | internal/wal/wal.go:68-77 | after a sync of the whole write buffer every point pushed to the open segment is on disk in every later state, as often as it was pushed |
| DurableRuns.PushSynced | internal/storage/tsdb.go:201-204 | a push followed by a sync of its segment is on disk in every later state |
| DurableRuns.AcknowledgedLost | internal/wal/wal.go:59-65 | a push that returned can be lost by a crash: a three-step run ends with nothing of it on disk |
| DurableFlush.AnyMoment | internal/storage/tsdb.go:173-214 | whatever the background loop is doing, the process can crash, the loop can fail, a pusher can write, and buffered bytes can reach the file |
| DurableFlush.RotateDue | internal/wal/manager.go:68-87 | an idle loop can rotate; the whole write buffer having reached the file, the sealed segment replays to every record written to it, and its flush is due |
| DurableFlush.OpensExactly | internal/storage/tsdb.go:116-166 | after a stop or a crash the database can be opened if and only if every segment replays |
| DurableFlush.FileExists | internal/storage/tsdb.go:257-269 | for every metric of the records there is the file that a flush writes |
| DurableFlush.FlushMoves | internal/storage/tsdb.go:218-273 | while pushers go on writing, a flush that neither fails nor crashes puts each point of the sealed segment into chunk files as often as it was pushed, and in the end the segment is gone |
| DurableFlush.FlushCanFinish | internal/storage/tsdb.go:218-273 | every flush that is due can be carried through to that end |
| DurableFlush.CompactionCanFinish | internal/chunk/compaction.go:82-93 | every compaction that has begun to merge can be carried through, and leaves its directory with exactly the merged file |

## Left out

- File input and output, fsync, locks, the VERSION file, tickers and clocks: the disk is a map from names and numbers to bytes, a rename is one step, and what a ticker starts is a step that may happen at any time. Files with foreign names in the data directory are not modelled.
- The watermark while pushes and flushes run concurrently: `Durability` covers what is on disk then, not what queries show.
- Linearizability of a query against a concurrent flush, and two concurrent flushes: the code does not give them, and `Db` is sequential.
- EngineRuns.RunRefines: a drop while a segment left by a crash is on disk is not in this theorem, which promises the plain map in time order; `EngineViews.RunViews` covers it.
- EngineViews.RunViews: a run with retention is not a function of the plain machine, since retention deletes whole files and `EngineSafety.TrimmedComesBack` shows that trimmed points return with the next flush; `EngineSafety.NothingInvented` covers runs with retention.
- Visibility after a crash between the chunk writes of one flush: `Durability` covers what is on disk then.
- Repair of torn segment tails: replay fails and the database does not open, as in the code.
- The reader of all chunk files at once (`ReadAllChunks`), subscriptions, watchers, servers, command line, collector, configuration, the query parser and generated code.
- Slices and maps are values here: the aliasing of Go slices, which the Go code avoids by copying, is not modelled; the bit streams, XOR state, digest, segments, index, log manager, shards and database object are updated in place.
- Database.Db.Query: the hash must have no collision on the series of the directory under the name asked for. The chunk directory itself and its parent, which "." and ".." lead to, are taken to hold no chunk files, which holds while no such metric is pushed (`DiskState.AllBelow`).
- Database.Db.Compact: as the other methods of `Db` except the flush, it starts from a state in which every file and segment can be read; what unreadable files do is said by `ChunkQuery.QueryChunks`, `ChunkRewrite.CompactMetric`, `ChunkRewrite.DropSeries` and `Database.OpenDb`.
- Corruption.DamagedLog: a damaged length field, after which the log is cut elsewhere, is not covered: whether the checksum of other bytes happens to match has no general answer.
- Case-insensitive file systems, on which more metrics share a directory.
- ChunkRewrite.CompactMetric: the sort is any sort by time, and equal timestamps may come in any order, as with the unstable sort of the Go code.
- AggValues.ApplyAgg: floating-point rounding, infinities and NaN are not modelled; `Aggregate` takes the aggregate as any function of the window's values.
- AggValues.AverageBetween: false of float64, where a sum can round or overflow.
- AggValues.SumConcat: false of float64, where addition is not associative.
