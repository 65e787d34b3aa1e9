/** The four sample tables of a track (ISO/IEC 14496-12): sample-to-chunk
    (stsc, section 8.7.4), sample sizes (stsz, section 8.7.3.2), decoding
    time-to-sample (stts, section 8.6.1.2) and 64-bit chunk offsets (co64,
    section 8.7.5). Each reader checks the box type, skips the 4 bytes of
    version and flags without looking at them, reads a big-endian u32 count
    and then that many fixed-width big-endian entries. Entries that run past
    the end of the data read as short or empty numbers, as the cursor reads do. */
module SampleTables {
  import opened Results
  import opened Bytes
  import opened Boxes

  const STSC: FourCC := [0x73, 0x74, 0x73, 0x63]  // "stsc"
  const STSZ: FourCC := [0x73, 0x74, 0x73, 0x7a]  // "stsz"
  const STTS: FourCC := [0x73, 0x74, 0x74, 0x73]  // "stts"
  const CO64: FourCC := [0x63, 0x6f, 0x36, 0x34]  // "co64"

  const U32Limit: nat := 0x1_0000_0000
  const U64Limit: nat := 0x1_0000_0000_0000_0000

  /** An stsc entry: the 1-based number of the first chunk of a run of chunks
      and how many samples each chunk of the run holds. */
  datatype ChunkRun = ChunkRun(firstChunk: nat, samplesPerChunk: nat)

  /** An stts entry: how many consecutive samples share a duration, and that duration. */
  datatype TimeRun = TimeRun(count: nat, delta: nat)

  /** What the stsz reader returns: one size for every sample, or a list of sizes. */
  datatype SizeTable = FixedSize(size: nat) | SizeList(sizes: seq<nat>)

  /** Where the first field after version and flags is read in a table box at
      `at`: the header read there must find a box of type `t`. */
  function TableStart(data: seq<byte>, at: nat, t: FourCC): (r: Result<nat>)
    ensures HeaderAt(data, at) == Ok(None) ==> r == Err(NoBox)
    ensures HeaderAt(data, at).Ok? && HeaderAt(data, at).value.Some? && HeaderAt(data, at).value.value.boxType != t
            ==> r == Err(TypeMismatch)
    ensures r.Ok? <==> HeaderAt(data, at).Ok? && HeaderAt(data, at).value.Some? && HeaderAt(data, at).value.value.boxType == t
    ensures HeaderAt(data, at).Err? ==> r == Err(HeaderAt(data, at).error)
    ensures r.Ok? ==> at + 8 <= |data| && data[at + 4..at + 8] == t && r.value >= at + 12
    ensures r.Ok? ==> r.value == HeaderEnd(data, at) + 4
  {
    match HeaderAt(data, at)
    case Err(e) => Err(e)
    case Ok(None) => Err(NoBox)
    case Ok(Some(h)) => if h.boxType != t then Err(TypeMismatch) else Ok(HeaderEnd(data, at) + 4)
  }

  // ---------------------------------------------------------------- stsc

  /** The first `n` 12-byte stsc entries from `q`; the third u32 of each
      entry (the sample description index) is not kept. */
  function ChunkRunsAt(data: seq<byte>, q: nat, n: nat): (runs: seq<ChunkRun>)
    ensures |runs| == n
  {
    if n == 0 then []
    else ChunkRunsAt(data, q, n - 1) + [ChunkRun(U32At(data, q + 12 * (n - 1)), U32At(data, q + 12 * (n - 1) + 4))]
  }

  /** Entry `i` is the pair of u32s at `q + 12 * i`. */
  lemma {:induction false} ChunkRunAt(data: seq<byte>, q: nat, n: nat, i: nat)
    requires i < n
    ensures ChunkRunsAt(data, q, n)[i] == ChunkRun(U32At(data, q + 12 * i), U32At(data, q + 12 * i + 4))
  {
    if i < n - 1 {
      ChunkRunAt(data, q, n - 1, i);
    }
  }

  /** One more entry is the pair of u32s at `q + 12 * n`. */
  lemma {:induction false} ChunkRunsSnoc(data: seq<byte>, q: nat, n: nat)
    ensures ChunkRunsAt(data, q, n + 1) == ChunkRunsAt(data, q, n) + [ChunkRun(U32At(data, q + 12 * n), U32At(data, q + 12 * n + 4))]
  {
  }

  /** readStscBox: exactly `count` entries. */
  function StscAt(data: seq<byte>, at: nat): (r: Result<seq<ChunkRun>>)
    ensures r.Ok? <==> TableStart(data, at, STSC).Ok?
    ensures r.Ok? ==> |r.value| == U32At(data, TableStart(data, at, STSC).value)
  {
    var p :- TableStart(data, at, STSC);
    Ok(ChunkRunsAt(data, p + 4, U32At(data, p)))
  }

  // ---------------------------------------------------------------- stsz

  /** The first `n` 4-byte sizes from `q`. */
  function SizesAt(data: seq<byte>, q: nat, n: nat): (sizes: seq<nat>)
    ensures |sizes| == n
  {
    if n == 0 then [] else SizesAt(data, q, n - 1) + [U32At(data, q + 4 * (n - 1))]
  }

  lemma {:induction false} SizeAt(data: seq<byte>, q: nat, n: nat, i: nat)
    requires i < n
    ensures SizesAt(data, q, n)[i] == U32At(data, q + 4 * i)
  {
    if i < n - 1 {
      SizeAt(data, q, n - 1, i);
    }
  }

  /** readStszBox: a nonzero fixed size is returned alone and nothing more is
      read; a zero is followed by a count and that many sizes. */
  function StszAt(data: seq<byte>, at: nat): (r: Result<SizeTable>)
    ensures r.Ok? <==> TableStart(data, at, STSZ).Ok?
    ensures r.Ok? ==> var p := TableStart(data, at, STSZ).value;
      && (r.value.FixedSize? <==> U32At(data, p) > 0)
      && (r.value.FixedSize? ==> r.value.size == U32At(data, p))
      && (r.value.SizeList? ==> |r.value.sizes| == U32At(data, p + 4))
  {
    var p :- TableStart(data, at, STSZ);
    var fixed := U32At(data, p);
    if fixed > 0 then Ok(FixedSize(fixed))
    else Ok(SizeList(SizesAt(data, p + 8, U32At(data, p + 4))))
  }

  // ---------------------------------------------------------------- stts

  /** The first `n` 8-byte (count, delta) entries from `q`. */
  function TimeRunsAt(data: seq<byte>, q: nat, n: nat): (runs: seq<TimeRun>)
    ensures |runs| == n
  {
    if n == 0 then []
    else TimeRunsAt(data, q, n - 1) + [TimeRun(U32At(data, q + 8 * (n - 1)), U32At(data, q + 8 * (n - 1) + 4))]
  }

  lemma {:induction false} TimeRunAt(data: seq<byte>, q: nat, n: nat, i: nat)
    requires i < n
    ensures TimeRunsAt(data, q, n)[i] == TimeRun(U32At(data, q + 8 * i), U32At(data, q + 8 * i + 4))
  {
    if i < n - 1 {
      TimeRunAt(data, q, n - 1, i);
    }
  }

  lemma {:induction false} TimeRunsSnoc(data: seq<byte>, q: nat, n: nat)
    ensures TimeRunsAt(data, q, n + 1) == TimeRunsAt(data, q, n) + [TimeRun(U32At(data, q + 8 * n), U32At(data, q + 8 * n + 4))]
  {
  }

  /** readSttsBox: exactly `count` entries. */
  function SttsAt(data: seq<byte>, at: nat): (r: Result<seq<TimeRun>>)
    ensures r.Ok? <==> TableStart(data, at, STTS).Ok?
    ensures r.Ok? ==> |r.value| == U32At(data, TableStart(data, at, STTS).value)
  {
    var p :- TableStart(data, at, STTS);
    Ok(TimeRunsAt(data, p + 4, U32At(data, p)))
  }

  // ---------------------------------------------------------------- co64

  /** The first `n` 8-byte chunk offsets from `q`. */
  function OffsetsAt(data: seq<byte>, q: nat, n: nat): (offsets: seq<nat>)
    ensures |offsets| == n
  {
    if n == 0 then [] else OffsetsAt(data, q, n - 1) + [U64At(data, q + 8 * (n - 1))]
  }

  lemma {:induction false} OffsetAt(data: seq<byte>, q: nat, n: nat, i: nat)
    requires i < n
    ensures OffsetsAt(data, q, n)[i] == U64At(data, q + 8 * i)
  {
    if i < n - 1 {
      OffsetAt(data, q, n - 1, i);
    }
  }

  /** readCo64Box: exactly `count` entries. */
  function Co64At(data: seq<byte>, at: nat): (r: Result<seq<nat>>)
    ensures r.Ok? <==> TableStart(data, at, CO64).Ok?
    ensures r.Ok? ==> |r.value| == U32At(data, TableStart(data, at, CO64).value)
  {
    var p :- TableStart(data, at, CO64);
    Ok(OffsetsAt(data, p + 4, U32At(data, p)))
  }

  // ---------------------------------------------------------------- encodings

  /** A table box: a compact header, 4 bytes of version and flags, the fields. */
  function EncodeTable(t: FourCC, versionFlags: seq<byte>, fields: seq<byte>): (e: seq<byte>)
    requires |versionFlags| == 4 && 12 + |fields| < U32Limit
    ensures |e| == 12 + |fields|
  {
    EncodeHeader(12 + |fields|, t, false) + versionFlags + fields
  }

  /** The fields of an encoded table box are found right after version and flags. */
  lemma {:induction false} TableStartOfEncoding(prefix: seq<byte>, t: FourCC, versionFlags: seq<byte>,
                                                fields: seq<byte>, rest: seq<byte>)
    requires |versionFlags| == 4 && 12 + |fields| < U32Limit
    ensures var data := prefix + EncodeTable(t, versionFlags, fields) + rest;
      && TableStart(data, |prefix|, t) == Ok(|prefix| + 12)
      && |prefix| + 12 + |fields| <= |data|
      && data[|prefix| + 12..|prefix| + 12 + |fields|] == fields
  {
    var header := EncodeHeader(12 + |fields|, t, false);
    var data := prefix + EncodeTable(t, versionFlags, fields) + rest;
    assert data == prefix + header + (versionFlags + fields + rest);
    HeaderRoundTrip(prefix, 12 + |fields|, t, false, versionFlags + fields + rest);
    SliceInside(prefix + header + versionFlags, fields, rest, 0, |fields|);
    assert data == prefix + header + versionFlags + fields + rest;
  }

  /** After a compact header the count is read 12 bytes into the box; after
      an extended (64-bit length) header, 20 bytes in. */
  lemma {:induction false} TableStartOfHeader(prefix: seq<byte>, length: nat, t: FourCC, extended: bool, rest: seq<byte>)
    requires length < Pow256(8)
    requires extended || (length != 1 && length < Pow256(4))
    ensures TableStart(prefix + EncodeHeader(length, t, extended) + rest, |prefix|, t)
         == Ok(|prefix| + if extended then 20 else 12)
  {
    HeaderRoundTrip(prefix, length, t, extended, rest);
  }

  /** Every entry value fits the entry's field width. */
  ghost predicate ChunkRunsFit(runs: seq<ChunkRun>) {
    forall i :: 0 <= i < |runs| ==> runs[i].firstChunk < U32Limit && runs[i].samplesPerChunk < U32Limit
  }

  /** One 12-byte stsc entry. */
  function ChunkRunBytes(run: ChunkRun, description: nat): (e: seq<byte>)
    requires run.firstChunk < U32Limit && run.samplesPerChunk < U32Limit && description < U32Limit
    ensures |e| == 12
  {
    ToBigEndian(run.firstChunk, 4) + ToBigEndian(run.samplesPerChunk, 4) + ToBigEndian(description, 4)
  }

  /** The encoded stsc entries one by one, each with the sample description
      index `description`. */
  function ChunkRunItems(runs: seq<ChunkRun>, description: nat): (items: seq<seq<byte>>)
    requires ChunkRunsFit(runs) && description < U32Limit
    ensures |items| == |runs|
    ensures forall i :: 0 <= i < |runs| ==> items[i] == ChunkRunBytes(runs[i], description) && |items[i]| == 12
  {
    seq(|runs|, i requires 0 <= i < |runs| => ChunkRunBytes(runs[i], description))
  }

  function EncodeChunkRuns(runs: seq<ChunkRun>, description: nat): (e: seq<byte>)
    requires ChunkRunsFit(runs) && description < U32Limit
    ensures |e| == 12 * |runs|
  {
    ConcatLength(ChunkRunItems(runs, description), 12);
    Concat(ChunkRunItems(runs, description))
  }

  lemma {:induction false} ChunkRunsOfEncoding(data: seq<byte>, q: nat, runs: seq<ChunkRun>, description: nat)
    requires ChunkRunsFit(runs) && description < U32Limit
    requires q + 12 * |runs| <= |data| && data[q..q + 12 * |runs|] == EncodeChunkRuns(runs, description)
    ensures ChunkRunsAt(data, q, |runs|) == runs
  {
    var n := |runs|;
    var items := ChunkRunItems(runs, description);
    forall i | 0 <= i < n
      ensures ChunkRunsAt(data, q, n)[i] == runs[i]
    {
      ConcatFixedAt(items, 12, i);
      PartOfSlice(data, q, q + 12 * n, 12 * i, 12 * i + 12);
      ChunkRunOfEncoding(data, q + 12 * i, runs[i], description);
      ChunkRunAt(data, q, n, i);
    }
  }

  lemma {:induction false} ChunkRunOfEncoding(data: seq<byte>, x: nat, run: ChunkRun, description: nat)
    requires run.firstChunk < U32Limit && run.samplesPerChunk < U32Limit && description < U32Limit
    requires x + 12 <= |data| && data[x..x + 12] == ChunkRunBytes(run, description)
    ensures U32At(data, x) == run.firstChunk && U32At(data, x + 4) == run.samplesPerChunk
  {
    var a := ToBigEndian(run.firstChunk, 4);
    var b := ToBigEndian(run.samplesPerChunk, 4);
    SplitAt(data, x, a + b, ToBigEndian(description, 4));
    SplitAt(data, x, a, b);
    WordAt(data, x, 4, run.firstChunk);
    WordAt(data, x + 4, 4, run.samplesPerChunk);
  }

  /** An encoded stsc box reads back as its entries, whatever its version,
      flags and sample description indexes. */
  lemma {:induction false} StscRoundTrip(prefix: seq<byte>, versionFlags: seq<byte>, runs: seq<ChunkRun>,
                                         description: nat, rest: seq<byte>)
    requires |versionFlags| == 4 && ChunkRunsFit(runs) && description < U32Limit
    requires 16 + 12 * |runs| < U32Limit
    ensures StscAt(prefix + EncodeTable(STSC, versionFlags, ToBigEndian(|runs|, 4) + EncodeChunkRuns(runs, description)) + rest,
                   |prefix|) == Ok(runs)
  {
    var count := ToBigEndian(|runs|, 4);
    var entries := EncodeChunkRuns(runs, description);
    var data := prefix + EncodeTable(STSC, versionFlags, count + entries) + rest;
    var p := |prefix| + 12;
    TableStartOfEncoding(prefix, STSC, versionFlags, count + entries, rest);
    SplitAt(data, p, count, entries);
    U32OfEncoding(data, p, |runs|);
    ChunkRunsOfEncoding(data, p + 4, runs, description);
  }

  ghost predicate SizesFit(sizes: seq<nat>) {
    forall i :: 0 <= i < |sizes| ==> sizes[i] < U32Limit
  }

  function SizeItems(sizes: seq<nat>): (items: seq<seq<byte>>)
    requires SizesFit(sizes)
    ensures |items| == |sizes|
    ensures forall i :: 0 <= i < |sizes| ==> items[i] == ToBigEndian(sizes[i], 4) && |items[i]| == 4
  {
    seq(|sizes|, i requires 0 <= i < |sizes| => ToBigEndian(sizes[i], 4))
  }

  function EncodeSizes(sizes: seq<nat>): (e: seq<byte>)
    requires SizesFit(sizes)
    ensures |e| == 4 * |sizes|
  {
    ConcatLength(SizeItems(sizes), 4);
    Concat(SizeItems(sizes))
  }

  lemma {:induction false} SizesOfEncoding(data: seq<byte>, q: nat, sizes: seq<nat>)
    requires SizesFit(sizes)
    requires q + 4 * |sizes| <= |data| && data[q..q + 4 * |sizes|] == EncodeSizes(sizes)
    ensures SizesAt(data, q, |sizes|) == sizes
  {
    var n := |sizes|;
    var items := SizeItems(sizes);
    forall i | 0 <= i < n
      ensures SizesAt(data, q, n)[i] == sizes[i]
    {
      ConcatFixedAt(items, 4, i);
      PartOfSlice(data, q, q + 4 * n, 4 * i, 4 * i + 4);
      U32OfEncoding(data, q + 4 * i, sizes[i]);
      SizeAt(data, q, n, i);
    }
  }

  lemma {:induction false} U32OfEncoding(data: seq<byte>, x: nat, v: nat)
    requires v < U32Limit
    requires x + 4 <= |data| && data[x..x + 4] == ToBigEndian(v, 4)
    ensures U32At(data, x) == v
  {
    WordAt(data, x, 4, v);
  }

  /** An stsz box with a nonzero fixed size reads back as that size alone. */
  lemma {:induction false} StszFixedRoundTrip(prefix: seq<byte>, versionFlags: seq<byte>, size: nat, rest: seq<byte>)
    requires |versionFlags| == 4 && 0 < size < U32Limit
    ensures StszAt(prefix + EncodeTable(STSZ, versionFlags, ToBigEndian(size, 4)) + rest, |prefix|) == Ok(FixedSize(size))
  {
    var data := prefix + EncodeTable(STSZ, versionFlags, ToBigEndian(size, 4)) + rest;
    TableStartOfEncoding(prefix, STSZ, versionFlags, ToBigEndian(size, 4), rest);
    U32OfEncoding(data, |prefix| + 12, size);
  }

  /** An stsz box with a zero fixed size reads back as its list of sizes. */
  lemma {:induction false} StszListRoundTrip(prefix: seq<byte>, versionFlags: seq<byte>, sizes: seq<nat>, rest: seq<byte>)
    requires |versionFlags| == 4 && SizesFit(sizes)
    requires 20 + 4 * |sizes| < U32Limit
    ensures StszAt(prefix + EncodeTable(STSZ, versionFlags, ToBigEndian(0, 4) + ToBigEndian(|sizes|, 4) + EncodeSizes(sizes)) + rest,
                   |prefix|) == Ok(SizeList(sizes))
  {
    var zero := ToBigEndian(0, 4);
    var count := ToBigEndian(|sizes|, 4);
    var entries := EncodeSizes(sizes);
    var data := prefix + EncodeTable(STSZ, versionFlags, zero + count + entries) + rest;
    var p := |prefix| + 12;
    TableStartOfEncoding(prefix, STSZ, versionFlags, zero + count + entries, rest);
    SplitAt(data, p, zero + count, entries);
    SplitAt(data, p, zero, count);
    U32OfEncoding(data, p, 0);
    U32OfEncoding(data, p + 4, |sizes|);
    SizesOfEncoding(data, p + 8, sizes);
  }

  ghost predicate TimeRunsFit(runs: seq<TimeRun>) {
    forall i :: 0 <= i < |runs| ==> runs[i].count < U32Limit && runs[i].delta < U32Limit
  }

  /** One 8-byte stts entry. */
  function TimeRunBytes(run: TimeRun): (e: seq<byte>)
    requires run.count < U32Limit && run.delta < U32Limit
    ensures |e| == 8
  {
    ToBigEndian(run.count, 4) + ToBigEndian(run.delta, 4)
  }

  function TimeRunItems(runs: seq<TimeRun>): (items: seq<seq<byte>>)
    requires TimeRunsFit(runs)
    ensures |items| == |runs|
    ensures forall i :: 0 <= i < |runs| ==> items[i] == TimeRunBytes(runs[i]) && |items[i]| == 8
  {
    seq(|runs|, i requires 0 <= i < |runs| => TimeRunBytes(runs[i]))
  }

  function EncodeTimeRuns(runs: seq<TimeRun>): (e: seq<byte>)
    requires TimeRunsFit(runs)
    ensures |e| == 8 * |runs|
  {
    ConcatLength(TimeRunItems(runs), 8);
    Concat(TimeRunItems(runs))
  }

  lemma {:induction false} TimeRunsOfEncoding(data: seq<byte>, q: nat, runs: seq<TimeRun>)
    requires TimeRunsFit(runs)
    requires q + 8 * |runs| <= |data| && data[q..q + 8 * |runs|] == EncodeTimeRuns(runs)
    ensures TimeRunsAt(data, q, |runs|) == runs
  {
    var n := |runs|;
    var items := TimeRunItems(runs);
    forall i | 0 <= i < n
      ensures TimeRunsAt(data, q, n)[i] == runs[i]
    {
      ConcatFixedAt(items, 8, i);
      PartOfSlice(data, q, q + 8 * n, 8 * i, 8 * i + 8);
      TimeRunOfEncoding(data, q + 8 * i, runs[i]);
      TimeRunAt(data, q, n, i);
    }
  }

  lemma {:induction false} TimeRunOfEncoding(data: seq<byte>, x: nat, run: TimeRun)
    requires run.count < U32Limit && run.delta < U32Limit
    requires x + 8 <= |data| && data[x..x + 8] == TimeRunBytes(run)
    ensures U32At(data, x) == run.count && U32At(data, x + 4) == run.delta
  {
    SplitAt(data, x, ToBigEndian(run.count, 4), ToBigEndian(run.delta, 4));
    WordAt(data, x, 4, run.count);
    WordAt(data, x + 4, 4, run.delta);
  }

  /** An encoded stts box reads back as its entries. */
  lemma {:induction false} SttsRoundTrip(prefix: seq<byte>, versionFlags: seq<byte>, runs: seq<TimeRun>, rest: seq<byte>)
    requires |versionFlags| == 4 && TimeRunsFit(runs)
    requires 16 + 8 * |runs| < U32Limit
    ensures SttsAt(prefix + EncodeTable(STTS, versionFlags, ToBigEndian(|runs|, 4) + EncodeTimeRuns(runs)) + rest,
                   |prefix|) == Ok(runs)
  {
    var count := ToBigEndian(|runs|, 4);
    var entries := EncodeTimeRuns(runs);
    var data := prefix + EncodeTable(STTS, versionFlags, count + entries) + rest;
    var p := |prefix| + 12;
    TableStartOfEncoding(prefix, STTS, versionFlags, count + entries, rest);
    SplitAt(data, p, count, entries);
    U32OfEncoding(data, p, |runs|);
    TimeRunsOfEncoding(data, p + 4, runs);
  }

  ghost predicate OffsetsFit(offsets: seq<nat>) {
    forall i :: 0 <= i < |offsets| ==> offsets[i] < U64Limit
  }

  function OffsetItems(offsets: seq<nat>): (items: seq<seq<byte>>)
    requires OffsetsFit(offsets)
    ensures |items| == |offsets|
    ensures forall i :: 0 <= i < |offsets| ==> items[i] == ToBigEndian(offsets[i], 8) && |items[i]| == 8
  {
    seq(|offsets|, i requires 0 <= i < |offsets| => ToBigEndian(offsets[i], 8))
  }

  function EncodeOffsets(offsets: seq<nat>): (e: seq<byte>)
    requires OffsetsFit(offsets)
    ensures |e| == 8 * |offsets|
  {
    ConcatLength(OffsetItems(offsets), 8);
    Concat(OffsetItems(offsets))
  }

  lemma {:induction false} OffsetsOfEncoding(data: seq<byte>, q: nat, offsets: seq<nat>)
    requires OffsetsFit(offsets)
    requires q + 8 * |offsets| <= |data| && data[q..q + 8 * |offsets|] == EncodeOffsets(offsets)
    ensures OffsetsAt(data, q, |offsets|) == offsets
  {
    var n := |offsets|;
    var items := OffsetItems(offsets);
    forall i | 0 <= i < n
      ensures OffsetsAt(data, q, n)[i] == offsets[i]
    {
      ConcatFixedAt(items, 8, i);
      PartOfSlice(data, q, q + 8 * n, 8 * i, 8 * i + 8);
      U64OfEncoding(data, q + 8 * i, offsets[i]);
      OffsetAt(data, q, n, i);
    }
  }

  lemma {:induction false} U64OfEncoding(data: seq<byte>, x: nat, v: nat)
    requires v < U64Limit
    requires x + 8 <= |data| && data[x..x + 8] == ToBigEndian(v, 8)
    ensures U64At(data, x) == v
  {
    WordAt(data, x, 8, v);
  }

  /** An encoded co64 box reads back as its chunk offsets. */
  lemma {:induction false} Co64RoundTrip(prefix: seq<byte>, versionFlags: seq<byte>, offsets: seq<nat>, rest: seq<byte>)
    requires |versionFlags| == 4 && OffsetsFit(offsets)
    requires 16 + 8 * |offsets| < U32Limit
    ensures Co64At(prefix + EncodeTable(CO64, versionFlags, ToBigEndian(|offsets|, 4) + EncodeOffsets(offsets)) + rest,
                   |prefix|) == Ok(offsets)
  {
    var count := ToBigEndian(|offsets|, 4);
    var entries := EncodeOffsets(offsets);
    var data := prefix + EncodeTable(CO64, versionFlags, count + entries) + rest;
    var p := |prefix| + 12;
    TableStartOfEncoding(prefix, CO64, versionFlags, count + entries, rest);
    SplitAt(data, p, count, entries);
    U32OfEncoding(data, p, |offsets|);
    OffsetsOfEncoding(data, p + 4, offsets);
  }
}
