# A verified model of the mp4.py box reader

`mp4.py` reads ISO base media files (MP4) as a sequence of boxes. Each box has
an 8-byte header: a big-endian 32-bit length and a four-character type. A
length of 1 means a 64-bit length follows the header. On top of that header
reader, the module provides these operations:

- It scans a byte range into an index `{type: [offsets]}` (`listBoxes`), and
  scans the inside of one box the same way (`listSubBoxes`).
- It decodes the fixed-width payloads of `ftyp`, `hdlr`, `mvhd` and `tkhd`
  through per-type width tables (`readBoxOfType`, `readBoxAutoType`,
  `readSubBox`).
- It reads the four sample tables `stsc`, `stsz`, `stts` and `co64`.
- It walks one track's samples (`processSamples`). The walk follows the path
  moov → trak → mdia → minf → stbl. It then steps the chunk, sample-to-chunk
  and duration counters, and hands every sample's time and bytes to a
  callback.

This project models that module in Dafny.

- **The file.** The open file is a class `MediaFile`. It holds the file's
  bytes as an immutable `data: seq<byte>` and a mutable cursor `pos`.
  - `Seek` and `Read` follow Python's file semantics.
  - A read past the end returns fewer bytes, or none, and no error.
- **Readers as methods.** Every reader of `mp4.py` is a method of
  `MediaFile`. It keeps the source's control flow: the same seeks, reads,
  loops and early exits. Each method is proved to return what a pure
  specification function of the data gives, and its contract also says where
  it leaves the cursor. A cursor "seen at" an offset is at that offset, or
  both are at or past the end of the data, where every read gives nothing
  (`SameView`).
- **Specification functions.** These are the functions in the modules
  `Boxes`, `Layouts`, `SampleTables`, `SampleIterator` and `Tracks`. The
  lemmas beside them state what the source promises:
  - headers and tables round-trip through their encodings;
  - a scan is a chain of headers, each at the previous box's end;
  - the index is a filter of the scan;
  - decoded fields sit at the offsets the width tables give;
  - the sample loop reads one sample per size;
  - sample times are the prefix sums of the durations when every stts run
    has a positive count (a zero-count run breaks this, see "Left out");
  - each sample is read at its chunk's offset or right after the previous
    sample.
- **Errors.** Python raises an exception in several places: a failed
  `assert`, `KeyError`, `IndexError`, `struct.error` and `TypeError`. Each
  becomes a value of the `Error` datatype in `results.dfy`, at the same
  point in the control flow.

The files, in dependency order:

| file | contents |
|---|---|
| `results.dfy` | `Option`, `Result` and the `Error` values |
| `bytes.dfy` | big-endian numbers, `Slice` (a short read) and the cursor relation `SameView` |
| `boxes.dfy` | box headers, the box scan and its index, sub-box lookup |
| `layouts.dfy` | the width tables, struct unpacking, `namedtuple._make`, payload decoding |
| `tables.dfy` | the stsc/stsz/stts/co64 readers and their encoders |
| `iterator.dfy` | the sample loop as a trace of reads |
| `tracks.dfy` | `listTraks`, the path to a track's sample table, table loading and playback |
| `mediafile.dfy` | the `MediaFile` class with the source's readers as methods |

## Model

| member | source | states |
|---|---|---|
| Bytes.BigEndianOfToBigEndian | mp4.py:170 | Reading back a number written big-endian over `width` bytes gives the number, for every number below 256^width. |
| Bytes.ToBigEndianOfBigEndian | mp4.py:170 | Every byte string is the big-endian encoding of the number `int.from_bytes(..., 'big')` reads from it, which is below 256^len. |
| Bytes.BigEndianBound | mp4.py:114 | A big-endian number read from n bytes is below 256^n. |
| Bytes.ReadFromSameView | mp4.py:110 | Two cursors that see the same bytes (equal, or both at or past the end) read the same bytes and stay in step. |
| Boxes.HeaderAt | mp4.py:109-116 | A header is absent exactly when the offset is at or past the end. It is a short-header error exactly when fewer than 8 bytes remain. Otherwise its type is bytes 4..8 at the offset. |
| Boxes.HeaderRoundTrip | mp4.py:109-116 | A header encoded with a 32-bit length, or with length 1 and a 64-bit length, reads back as the same length and type. The payload starts 8 or 16 bytes after the header. |
| Boxes.Scan | mp4.py:140-153 | A scan fails only on a partial header, or on a zero-length box before the end offset, where the source never advances. |
| Boxes.ScanIsChained | mp4.py:144-153 | A successful scan starts at the start offset. Every entry is the header read at its offset. Each next box starts where the previous one ends, before the end offset. The scan stopped at the end of the data or at the end offset. |
| Boxes.LinkedIncreasing | mp4.py:151 | Offsets of chained boxes strictly increase. |
| Boxes.ExtendedLengthNextSibling | mp4.py:113-114 | After a box with a 64-bit length, the next box of the scan starts at the box's offset plus that 64-bit length. |
| Boxes.OffsetsOfSnoc | mp4.py:150 | Appending a box appends its offset to the list of its own type only. |
| Boxes.IndexIsFilter | mp4.py:150 | A type is a key of the index exactly when some scanned box has it. Its list is the offsets of the boxes of that type, in scan order. |
| Boxes.OffsetsOfMember | mp4.py:150 | Every listed offset is the offset of a scanned box of that type. |
| Boxes.OffsetsOfIncreasing | mp4.py:150 | The offsets of one type inherit strict increase from the scan. |
| Boxes.ScannedOffsetsIncrease | mp4.py:140-153 | In the index a successful scan returns, each type's offsets strictly increase. |
| Boxes.ScanIntoIndex | mp4.py:144-153 | The loop that fills the index as it walks gives the index of the boxes already found plus the rest of the scan, and the same error if the scan fails. |
| Boxes.ScanIntoListBoxes | mp4.py:140-153 | Filling the index from empty gives exactly the index of the scan. |
| Boxes.ScanWalk | mp4.py:144-153 | A walk of chained headers from the start offset to some offset puts its boxes, in order, in front of the scan from that offset, and this is the scan from the start. |
| Boxes.ScanFailure | mp4.py:144-153 | Every failed scan walks over chained boxes to an offset where the error arises. A short header is an offset with 1 to 7 bytes left. A stall is a zero-length box before the end offset. |
| Boxes.ScanFailsAt | mp4.py:144-153 | Conversely, a walk to such an offset makes the scan from the start fail with that error. |
| Boxes.ScanWithin | mp4.py:145-152 | The first box of a scan is at the start offset, even when that is at or past the end offset. Every later box lies after the start and before the end offset. |
| Boxes.ScanCursorOfScan | mp4.py:146-152 | A successful scan leaves the cursor at the start when it found nothing. It leaves it past the last box's header when that box reaches the end offset. Otherwise it leaves it where the last box ends. |
| Boxes.ScanCursorOfFailure | mp4.py:146-152 | A failed scan leaves the cursor past the partial or zero-length header it failed on. |
| Boxes.SubBoxesWithin | mp4.py:155-160 | A successful sub-box scan found a header of the requested type at the indexed offset. Every listed sub-box starts at or after that header's end. Each one not right at the header's end starts before the parent's end. |
| Boxes.EmptyBoxListsSibling | mp4.py:155-160 | An 8-byte moov followed by a trak lists the trak as a child of moov: the first header is read before the end offset is checked. |
| Layouts.UnpackCount | mp4.py:102 | `struct.unpack` returns one value per field with a non-empty format. |
| Layouts.UnpackField | mp4.py:123 | For a table where every field has a format, value k is field k's format applied to its own bytes, at the sum of the earlier widths. |
| Layouts.UnpackOfPack | mp4.py:100-103 | Unpacking a payload packed from values that fit their formats gives the values back. |
| Layouts.DecodeOfEncode | mp4.py:102 | One field decodes to the value it was encoded from. |
| Layouts.Make | mp4.py:124 | `namedtuple._make` succeeds exactly when the value count equals the name count. It then pairs name k with value k, and otherwise fails with a count mismatch. |
| Layouts.Name | mp4.py:103 | Name k is paired with value k. |
| Layouts.DecodeWith | mp4.py:126-133 | A decoded box has the requested type, read from a present header. A missing header is `NoBox`. Another type is `TypeMismatch`. A type with no width table is `UnknownBoxType`. |
| Layouts.AutoTypeAgrees | mp4.py:118-133 | Decoding with the type taken from the header gives what decoding with that type named does. |
| Layouts.LayoutFormatted | mp4.py:21-98 | Every width table but the handler's has a format for each field. |
| Layouts.PayloadField | mp4.py:130-133 | Field k of a decoded payload is field k's name with its format applied to the data bytes at the payload start plus the earlier widths. |
| Layouts.PayloadValues | mp4.py:130-133 | A decoded payload was read in full, and its field k pairs name k with unpacked value k. |
| Layouts.DecodedField | mp4.py:126-133 | Field k of a decoded box is its format applied to the data bytes at the header's end plus the earlier widths. |
| Layouts.BoxOfTypeConsumes | mp4.py:126-133 | A decoded box leaves the cursor at the header's end plus the table's size. A short payload leaves it at the end of the data. An empty payload leaves it at the header's end, at or past the end of the data. |
| Layouts.TkhdTable | mp4.py:73-97 | The tkhd table has a format for each field. Field 4 is the u32 `track_id` at payload offset 12. |
| Layouts.TkhdTrackId | mp4.py:73-97 | The `track_id` of every decoded tkhd box is the big-endian u32 at payload bytes 12..16. |
| Layouts.HdlrNeverDecodes | mp4.py:28-37 | Reading an hdlr box always fails, whatever the file holds. |
| Layouts.HdlrValueCount | mp4.py:28-37 | The hdlr table unpacks to 7 values for its 8 names. |
| Layouts.PayloadRoundTrip | mp4.py:130-133 | A payload packed from fitting values, read at its offset, decodes to `_make` of those values, which succeeds. |
| Layouts.DecodeRoundTrip | mp4.py:126-133 | An encoded header followed by a packed payload reads back the header and decodes the payload to its values. |
| Layouts.BoxRoundTrip | mp4.py:118-133 | For a supported type whose table formats every field, an encoded box decodes to its values, both by name and with the type taken from the header. |
| SampleTables.TableStart | mp4.py:166-169 | It succeeds exactly when a header of the table's type is present. A header error is passed on, a missing header is `NoBox` and another type is `TypeMismatch`. On success the entry count is read 4 bytes after the header's end, past the version/flags word. |
| SampleTables.TableStartOfHeader | mp4.py:166-169 | For an encoded header of the table's type, the entry count starts 12 bytes after the box's offset, or 20 for a header with a 64-bit length. |
| SampleTables.ChunkRunAt | mp4.py:172-176 | Entry i of stsc is (first chunk, samples per chunk), read from 12-byte record i. The description id is skipped. |
| SampleTables.StscAt | mp4.py:164-177 | stsc reads exactly when its header checks. It then holds as many runs as its entry count says. |
| SampleTables.ChunkRunsOfEncoding | mp4.py:172-176 | Encoded stsc records read back as the runs. |
| SampleTables.StscRoundTrip | mp4.py:164-177 | An encoded stsc box reads back as its runs. |
| SampleTables.SizeAt | mp4.py:189-191 | Entry i of the stsz list is the u32 at 4*i. |
| SampleTables.StszAt | mp4.py:179-192 | stsz reads exactly when its header checks. It gives a single size exactly when the fixed-size word is positive. Otherwise it gives a list as long as the count word says. |
| SampleTables.SizesOfEncoding | mp4.py:188-191 | Encoded sizes read back as the sizes. |
| SampleTables.StszFixedRoundTrip | mp4.py:185-186 | An stsz box with a positive fixed size reads back as that single size. |
| SampleTables.StszListRoundTrip | mp4.py:187-192 | An stsz box with fixed size 0 reads back as its size list. |
| SampleTables.TimeRunAt | mp4.py:202-205 | Entry i of stts is (count, delta), read from 8-byte record i. |
| SampleTables.SttsAt | mp4.py:194-206 | stts reads exactly when its header checks. It then holds as many runs as its entry count says. |
| SampleTables.TimeRunsOfEncoding | mp4.py:202-205 | Encoded stts records read back as the runs. |
| SampleTables.SttsRoundTrip | mp4.py:194-206 | An encoded stts box reads back as its runs. |
| SampleTables.OffsetAt | mp4.py:216-218 | Entry i of co64 is the u64 at 8*i. |
| SampleTables.Co64At | mp4.py:208-219 | co64 reads exactly when its header checks. It then holds as many offsets as its entry count says. |
| SampleTables.OffsetsOfEncoding | mp4.py:216-218 | Encoded offsets read back as the offsets. |
| SampleTables.Co64RoundTrip | mp4.py:208-219 | An encoded co64 box reads back as its offsets. |
| SampleIterator.RunShape | mp4.py:262-276 | The loop reads at most one sample per size, in order, with read i taking size i. It reads every size when no error ends it. |
| SampleIterator.FirstVisit | mp4.py:263-271 | The first read of a run is at the cursor that the counter advance before it produces. |
| SampleIterator.NextVisit | mp4.py:262-276 | Between two reads, the post-read increments and then the next counter advance lead from one read cursor to the next. |
| SampleIterator.FailurePoint | mp4.py:262-276 | A loop that ends with an error and made no read failed at its first counter advance. Otherwise it failed after its last read, either at the post-read duration lookup or at the next counter advance. |
| SampleIterator.FirstRead | mp4.py:254-261 | The first sample is at time 0. When the first stsc run has samples per chunk, it is read in chunk 0 at the first chunk offset. |
| SampleIterator.ChunkStep | mp4.py:266-272 | A next sample in the same chunk is read right after the previous one's bytes. Otherwise the chunk counter moves on by one, at that chunk's offset, and the run moves on when the next run's first chunk is reached. |
| SampleIterator.VisitedRun | mp4.py:266 | Every read happens within an existing stsc run. |
| SampleIterator.LastRunChunkChange | mp4.py:269 | A chunk change while the last stsc run is current looks up a run that does not exist, and fails. |
| SampleIterator.TimeStep | mp4.py:276 | Each next sample's time is the previous time plus the delta of the current stts run. |
| SampleIterator.TimesNonDecreasing | mp4.py:261-276 | Sample times never decrease. |
| SampleIterator.DeltaAt | mp4.py:263-265 | The j-th sample of stts run d has that run's delta in the expanded list of deltas. |
| SampleIterator.TimesArePrefixSums | mp4.py:257-276 | When every stts run has samples, sample i's time is the sum of the first i expanded deltas. At most one more sample than the deltas is read. |
| SampleIterator.DurationOverrun | mp4.py:263-276 | When every stts run has samples, reading one sample more than stts describes ends with a duration-table overrun. A loop that ends cleanly has no more sizes than deltas. |
| SampleIterator.SingleRunTrack | mp4.py:254-276 | One chunk of four samples with a single stsc run of two: two samples are read at 1000 and 1004, then the chunk change fails. |
| SampleIterator.TwoChunkTrack | mp4.py:254-276 | Two chunks of two samples with the second run from chunk 2: three samples are read, the third at the second chunk's offset, at times 0, 10 and 20. |
| SampleIterator.EmptyDurationRun | mp4.py:262-276 | stts runs (2, 10), (0, 5), (2, 20) over four samples give times 0, 10, 20 and 25. The fourth time is not 40, the sum of the first three expanded durations. |
| SampleIterator.SampleBytes | mp4.py:272-273 | The callback gets the read's time and, when the data holds it, exactly `size` bytes at the read offset. |
| Tracks.TraksSpec | mp4.py:225-229 | `listTraks` succeeds only when the top level scans and has an ftyp box. A missing ftyp is a missing-box error. |
| Tracks.TraksIncrease | mp4.py:225-229 | The track offsets it returns strictly increase. |
| Tracks.LoadTables | mp4.py:245-251 | Loaded tables mean the stbl index has all four boxes, and each table is what its reader gives for the first box of its type. A missing stsc is a missing-box error. |
| Tracks.SamplesNeedTables | mp4.py:231-276 | No sample is delivered unless the whole box path resolves, all four tables load, co64 is non-empty and stsz is a list. The samples are then those of the loop over those tables. |
| Tracks.PlayShape | mp4.py:260-276 | An empty co64 fails first, before a scalar stsz. Otherwise at most one sample is delivered per size, each at most its size long, and all of them when no error ends the loop. |
| Tracks.PlayTimes | mp4.py:261-276 | When every stts run has samples, delivered sample i has time equal to the sum of the first i deltas, and times never decrease. |
| Tracks.PlayPositions | mp4.py:260-272 | Sample i is the bytes at its read offset with its size. The first is at the first chunk offset. Each later one is right after the previous or at its chunk's offset. |
| MediaFiles.MediaFile.Seek | mp4.py:147 | The cursor moves to the offset. |
| MediaFiles.MediaFile.Read | mp4.py:110 | Reading n bytes gives what is there, fewer at the end, and moves the cursor past them. |
| MediaFiles.MediaFile.ReadBoxHeader | mp4.py:109-116 | Gives the header at the cursor and leaves the cursor at the header's end. |
| MediaFiles.MediaFile.ListBoxes | mp4.py:140-153 | Gives the index of the scan from the start offset to the end offset, and leaves the cursor where the scan stops. |
| MediaFiles.MediaFile.ScanBoxes | mp4.py:144-153 | The seek/read/record loop computes the accumulated index and stops with the cursor where the scan stops. Its invariant ties each pass to the rest of the scan. |
| MediaFiles.MediaFile.ScanPass | mp4.py:146-152 | One pass of the loop either ends it, with the scan's index or error and the scan's final cursor, or records the box and moves to a later offset from which the rest of the scan gives the same index and final cursor. |
| MediaFiles.MediaFile.ListSubBoxes | mp4.py:155-160 | Gives the index of the box's contents, or the lookup, header or type error. The cursor stays put when the lookup fails, ends past the parent's header when that header is missing, short or of another type, and otherwise ends where the scan of the inside stops. |
| MediaFiles.MediaFile.ReadPayload | mp4.py:130-133 | Reads the payload at the cursor and decodes it as the given table. The cursor moves past the bytes read. |
| MediaFiles.MediaFile.ReadBoxOfType | mp4.py:126-133 | Decodes the box at the cursor as the requested type. The cursor ends past the header, and also past the payload bytes read when the header has that type and the type has a width table. |
| MediaFiles.MediaFile.ReadBoxAutoType | mp4.py:118-124 | Decodes the box at the cursor as its own type. The cursor ends as for a read of that type, or past the header when there is no header. |
| MediaFiles.MediaFile.ReadSubBox | mp4.py:135-138 | Decodes the indexed box of a type. The cursor ends as for a read of that type at the indexed offset, and stays put when the lookup fails. |
| MediaFiles.MediaFile.ReadTableStart | mp4.py:166-169 | Checks the table's header and skips version/flags. The cursor is then seen at the entry count, or past the header on failure. |
| MediaFiles.MediaFile.ReadU32 | mp4.py:170 | Reads a big-endian u32 at the cursor's position, short reads included. |
| MediaFiles.MediaFile.ReadU64 | mp4.py:217 | Reads a big-endian u64 at the cursor's position, short reads included. |
| MediaFiles.MediaFile.ReadStscBox | mp4.py:164-177 | Gives the stsc runs at the offset. The cursor ends past the header on failure, otherwise seen past the last 12-byte entry. |
| MediaFiles.MediaFile.ReadChunkRuns | mp4.py:172-176 | The entry loop reads `count` runs, 12 bytes each, and the cursor is seen 12 * `count` bytes further on. |
| MediaFiles.MediaFile.ReadStszBox | mp4.py:179-192 | Gives the stsz size or size list at the offset. The cursor ends past the header on failure, seen past the fixed-size word for a single size, and seen past the last size of a list. |
| MediaFiles.MediaFile.ReadSizes | mp4.py:189-191 | The entry loop reads `count` sizes, and the cursor is seen 4 * `count` bytes further on. |
| MediaFiles.MediaFile.ReadSttsBox | mp4.py:194-206 | Gives the stts runs at the offset. The cursor ends past the header on failure, otherwise seen past the last 8-byte entry. |
| MediaFiles.MediaFile.ReadTimeRuns | mp4.py:202-205 | The entry loop reads `count` runs, 8 bytes each, and the cursor is seen 8 * `count` bytes further on. |
| MediaFiles.MediaFile.ReadCo64Box | mp4.py:208-219 | Gives the co64 offsets at the offset. The cursor ends past the header on failure, otherwise seen past the last offset. |
| MediaFiles.MediaFile.ReadOffsets | mp4.py:216-218 | The entry loop reads `count` u64 offsets, and the cursor is seen 8 * `count` bytes further on. |
| MediaFiles.MediaFile.ListTraks | mp4.py:225-229 | Gives the trak offsets of the first moov box. The cursor ends where the moov sub-box scan left it when the top level has an ftyp box, otherwise where the top-level scan stopped. |
| MediaFiles.MediaFile.FindSampleTable | mp4.py:232-242 | Follows moov, trak `index`, mdia, minf and stbl. The cursor ends where the last step that ran left it. |
| MediaFiles.MediaFile.ReadTables | mp4.py:245-251 | Loads the four sample tables in the source's order. The cursor ends where the last table reader that ran left it, and stays put when the stsc box is missing. |
| MediaFiles.MediaFile.PrepareRead | mp4.py:263-271 | The counter advance before a read, with the seek to a new chunk's offset, matches the loop's step function. The cursor is then seen at the read offset, and stays put on an error. |
| MediaFiles.MediaFile.ReadSample | mp4.py:263-276 | One loop iteration: the sample it delivers, and the rest of the run it leaves, extend the reads so far to the whole run. The cursor is seen past the sample's bytes, or stays put when nothing was read. |
| MediaFiles.MediaFile.RunSamples | mp4.py:262-276 | The for loop delivers exactly the samples of the run's reads and ends with its failure. The cursor is seen past the last sample read, or stays put when none was. |
| MediaFiles.MediaFile.PlaySamples | mp4.py:254-276 | Seeks to the first chunk and plays the loaded tables. The cursor stays put for an empty co64, is at the first chunk for a scalar stsz, and otherwise ends as the loop leaves it from the first chunk. |
| MediaFiles.MediaFile.ProcessSamples | mp4.py:231-276 | `processSamples` for track `index`: the delivered samples and the error that ended it, if any, and where the cursor ends for each way it can end. |

## Left out

- The file is its bytes plus a cursor. Operating-system errors, file growth and closing are not modelled. `sys.maxsize` as the default end of the top-level scan is the constant `MaxSize`.
- The callback of `processSamples` is modelled as the list of (time, bytes) pairs it receives, in order. What the callback does with them is not part of this model.
- A Python exception is modelled as an `Error` value returned at the point where the exception would be raised. The exception classes are not distinguished beyond that.
- Boxes.Scan: `listBoxes` loops forever on a zero-length box whose offset is before the end offset. The model returns `Stalled` instead.
- Python's negative list indexes (`index = -1` to `listSubBoxes` or `readSubBox`) are not modelled. Indexes are `nat`, and `processSamples` never produces a negative one.
- `blockInTableCounter` (mp4.py:255) is set and never read, so it is not modelled.
- The version/flags word of the four sample tables is skipped unread, as in the source. Like the source, the model does not check it, and there is no error for an unsupported version.
- The `hdlr` table has 8 names and 7 formats: `component_name` has an empty format. The model keeps the table as written, so an hdlr box never decodes (`HdlrNeverDecodes`). The component name is not read.
- The `meta` entry of the width tables is commented out in the source and is not modelled. `listTraks` looks for trak boxes directly inside moov only, and does not map track ids to indexes; the model does the same.
- A track with a single stsc run of several chunks fails in the code at its first chunk change: line 269 reads `blockToSamplesTable[tableCounter + 1]`. The model follows the code (`SingleRunTrack`, `LastRunChunkChange`), not the usual reading in which the last run covers every remaining chunk.
- The self-test block (mp4.py:279-304) is not part of this model. Neither are the callers `extract_track.py`, `extract_track.c` and `fakeproof.py`, or `test_mp4.py`.
- Integers are unbounded in Python and in the model. Nothing wraps around.
- MediaFiles.MediaFile.Seek: CPython's `seek` raises `OverflowError` for an offset above 2^63-1, and the model seeks to any natural number instead. Such offsets can come from co64 entries (mp4.py:260, 271) and from sub-box scans of boxes with 64-bit lengths (mp4.py:147, 157).
- SampleIterator.TimesArePrefixSums: proved only when every stts run has a positive count. A zero-count run is skipped only once the run before it is used up, and its delta is still added once (`EmptyDurationRun`), so the times are then not prefix sums.
- SampleIterator.DurationOverrun: proved only when every stts run has a positive count, for the same reason.
- Tracks.PlayTimes: proved only when every stts run has a positive count, for the same reason.
