/** The reader functions of mp4.py as methods on an open file. The file is its
    bytes and a cursor that `Seek` sets and `Read` advances; a read near the
    end returns fewer bytes than asked for and a read at or past the end
    returns none, as Python's file objects do. Every method is proved to
    return what the matching specification function says for the cursor it
    started from, and where it leaves the cursor, so the properties proved
    about those functions hold for the methods too. */
module MediaFiles {
  import opened Results
  import opened Bytes
  import opened Boxes
  import opened Layouts
  import opened SampleTables
  import opened SampleIterator
  import opened Tracks

  class MediaFile {
    const data: seq<byte>
    var pos: nat

    constructor (data: seq<byte>)
      ensures this.data == data && pos == 0
    {
      this.data := data;
      pos := 0;
    }

    method Seek(offset: nat)
      modifies this
      ensures pos == offset
    {
      pos := offset;
    }

    /** Up to `n` bytes from the cursor, which moves past the bytes returned. */
    method Read(n: nat) returns (bytes: seq<byte>)
      modifies this
      ensures bytes == Slice(data, old(pos), n)
      ensures pos == old(pos) + |bytes|
    {
      bytes := Slice(data, pos, n);
      pos := pos + |bytes|;
    }

    /** readBoxHeader: nothing at the end of the file, an error for a partial
        header, the u64 after the type replacing a length of 1. */
    method ReadBoxHeader() returns (r: Result<Option<BoxHeader>>)
      modifies this
      ensures r == HeaderAt(data, old(pos))
      ensures pos == HeaderEnd(data, old(pos))
    {
      var start := pos;
      var bytes := Read(8);
      if bytes == [] {
        return Ok(None);
      }
      if |bytes| < 8 {
        return Err(ShortHeader);
      }
      assert bytes[0..4] == Slice(data, start, 4);
      assert bytes[4..8] == Slice(data, start + 4, 4);
      var length := BigEndian(bytes[0..4]);
      var boxType: FourCC := bytes[4..8];
      if length == 1 {
        var extended := Read(8);
        length := BigEndian(extended);
      }
      r := Ok(Some(BoxHeader(length, boxType)));
    }

    /** listBoxes: walk from `start`, recording each box under its type, until
        the end of the file or until the next offset reaches `end`. */
    method ListBoxes(start: nat, end: nat) returns (r: Result<BoxIndex>)
      modifies this
      ensures r == ListBoxesSpec(data, start, end)
      ensures pos == ScanCursor(data, start, end)
    {
      ScanIntoListBoxes(data, start, end);
      r := ScanBoxes(start, end);
    }

    /** The scanning loop of listBoxes, from `start` with an empty index. */
    method ScanBoxes(start: nat, end: nat) returns (r: Result<BoxIndex>)
      modifies this
      ensures r == ScanInto(data, start, end, map[])
      ensures pos == ScanCursor(data, start, end)
    {
      var boxes: BoxIndex := map[];
      var offset := start;
      ghost var goal := ScanInto(data, start, end, map[]);
      ghost var stop := ScanCursor(data, start, end);
      while true
        invariant ScanInto(data, offset, end, boxes) == goal
        invariant ScanCursor(data, offset, end) == stop
        decreases if offset < |data| then |data| - offset else 0
      {
        var done: bool;
        done, r, offset, boxes := ScanPass(offset, end, boxes, goal, stop);
        if done {
          return r;
        }
      }
    }

    /** One pass of the scanning loop at `offset`: seek there and read a
        header; none or a partial one ends the scan, otherwise its box is
        recorded and the offset moves past it, ending the scan once it
        reaches `end` and reporting a zero length before `end` as stalled. */
    method ScanPass(offset: nat, end: nat, boxes: BoxIndex, ghost goal: Result<BoxIndex>, ghost stop: nat)
      returns (done: bool, r: Result<BoxIndex>, next: nat, recorded: BoxIndex)
      modifies this
      requires ScanInto(data, offset, end, boxes) == goal && ScanCursor(data, offset, end) == stop
      ensures done ==> r == goal && pos == stop
      ensures !done ==> offset < |data| && offset < next
      ensures !done ==> ScanInto(data, next, end, recorded) == goal && ScanCursor(data, next, end) == stop
    {
      Seek(offset);
      var header := ReadBoxHeader();
      if header.Err? || header.value.None? {
        ScanLoopStop(data, offset, end, boxes, goal, stop);
        return true, if header.Err? then Err(header.error) else Ok(boxes), offset, boxes;
      }
      var h := header.value.value;
      recorded := boxes[h.boxType := (if h.boxType in boxes then boxes[h.boxType] else []) + [offset]];
      next := offset + h.length;
      if next >= end {
        ScanLoopEnd(data, offset, end, boxes, h, goal, stop);
        return true, Ok(recorded), next, recorded;
      }
      if h.length == 0 {
        ScanLoopStall(data, offset, end, boxes, h, goal, stop);
        return true, Err(Stalled), next, recorded;
      }
      ScanLoopNext(data, offset, end, boxes, h, goal, stop);
      return false, Ok(recorded), next, recorded;
    }

    /** listSubBoxes: scan the inside of the `index`-th box of type `t`. */
    method ListSubBoxes(boxes: BoxIndex, t: FourCC, index: nat) returns (r: Result<BoxIndex>)
      modifies this
      ensures r == SubBoxesSpec(data, boxes, t, index)
      ensures pos == SubBoxesCursor(data, boxes, t, index, old(pos))
    {
      if t !in boxes || index >= |boxes[t]| {
        return Err(MissingBox);
      }
      var offset := boxes[t][index];
      Seek(offset);
      var header := ReadBoxHeader();
      if header.Err? {
        return Err(header.error);
      }
      if header.value.None? {
        return Err(NoBox);
      }
      var h := header.value.value;
      if h.boxType != t {
        return Err(TypeMismatch);
      }
      SubBoxesOfType(data, boxes, t, index, old(pos), h);
      r := ListBoxes(pos, offset + h.length);
    }
  
    /** The payload read of readBoxOfType and readBoxAutoType: the bytes of a
        whole layout, which must not be empty nor short, unpacked and named. */
    method ReadPayload(t: FourCC, layout: seq<Field>) returns (r: Result<BoxRecord>)
      modifies this
      ensures r == PayloadAt(data, old(pos), t, layout)
      ensures pos == old(pos) + |Slice(data, old(pos), Size(layout))|
    {
      var payload := Read(Size(layout));
      if payload == [] {
        return Err(EmptyPayload);
      }
      if |payload| < Size(layout) {
        return Err(ShortPayload);
      }
      r := Make(t, layout, Unpack(layout, payload));
    }

    /** readBoxOfType: the header at the cursor must be of type `t`. */
    method ReadBoxOfType(t: FourCC) returns (r: Result<BoxRecord>)
      modifies this
      ensures r == BoxOfTypeAt(data, old(pos), t)
      ensures pos == BoxOfTypeCursor(data, old(pos), t)
    {
      var header := ReadBoxHeader();
      if header.Err? {
        return Err(header.error);
      }
      if header.value.None? {
        return Err(NoBox);
      }
      if header.value.value.boxType != t {
        return Err(TypeMismatch);
      }
      var layout := LayoutFor(t);
      if layout.None? {
        return Err(UnknownBoxType);
      }
      r := ReadPayload(t, layout.value);
    }

    /** readBoxAutoType: the width table is chosen by the type in the header. */
    method ReadBoxAutoType() returns (r: Result<BoxRecord>)
      modifies this
      ensures r == AutoTypeAt(data, old(pos))
      ensures pos == if HeaderAt(data, old(pos)).Ok? && HeaderAt(data, old(pos)).value.Some?
                     then BoxOfTypeCursor(data, old(pos), HeaderAt(data, old(pos)).value.value.boxType)
                     else HeaderEnd(data, old(pos))
    {
      var header := ReadBoxHeader();
      if header.Err? {
        return Err(header.error);
      }
      if header.value.None? {
        return Err(NoBox);
      }
      var t := header.value.value.boxType;
      var layout := LayoutFor(t);
      if layout.None? {
        return Err(UnknownBoxType);
      }
      r := ReadPayload(t, layout.value);
    }

    /** readSubBox: seek to the `index`-th box of type `t` and decode it. */
    method ReadSubBox(boxes: BoxIndex, t: FourCC, index: nat) returns (r: Result<BoxRecord>)
      modifies this
      ensures r == SubBoxAt(data, boxes, t, index)
      ensures pos == if t in boxes && index < |boxes[t]| then BoxOfTypeCursor(data, boxes[t][index], t) else old(pos)
    {
      if t !in boxes || index >= |boxes[t]| {
        return Err(MissingBox);
      }
      Seek(boxes[t][index]);
      r := ReadBoxOfType(t);
    }

    /** The start shared by the four table readers: seek to the box, read its
        header, check its type and skip version and flags. The result is
        where the first field is read. */
    method ReadTableStart(offset: nat, t: FourCC) returns (r: Result<nat>)
      modifies this
      ensures r == TableStart(data, offset, t)
      ensures r.Ok? ==> SameView(data, pos, r.value)
      ensures r.Err? ==> pos == HeaderEnd(data, offset)
    {
      Seek(offset);
      var header := ReadBoxHeader();
      if header.Err? {
        return Err(header.error);
      }
      if header.value.None? {
        return Err(NoBox);
      }
      if header.value.value.boxType != t {
        return Err(TypeMismatch);
      }
      var versionFlags := Read(4);
      r := Ok(HeaderEnd(data, offset) + 4);
    }

    /** Reads the big-endian u32 at the cursor, which stands at the nominal
        position `q`. */
    method ReadU32(ghost q: nat) returns (v: nat)
      requires SameView(data, pos, q)
      modifies this
      ensures v == U32At(data, q)
      ensures SameView(data, pos, q + 4)
    {
      ReadFromSameView(data, pos, q, 4);
      var bytes := Read(4);
      v := BigEndian(bytes);
    }

    /** Reads the big-endian u64 at the cursor, which stands at the nominal
        position `q`. */
    method ReadU64(ghost q: nat) returns (v: nat)
      requires SameView(data, pos, q)
      modifies this
      ensures v == U64At(data, q)
      ensures SameView(data, pos, q + 8)
    {
      ReadFromSameView(data, pos, q, 8);
      var bytes := Read(8);
      v := BigEndian(bytes);
    }

    /** readStscBox: `count` entries of three u32s, the third dropped. */
    method ReadStscBox(offset: nat) returns (r: Result<seq<ChunkRun>>)
      modifies this
      ensures r == StscAt(data, offset)
      ensures r.Err? ==> pos == HeaderEnd(data, offset)
      ensures r.Ok? ==> SameView(data, pos, TableStart(data, offset, STSC).value + 4 + 12 * |r.value|)
      ensures LeftAfterStsc(data, pos, offset)
    {
      var p :- ReadTableStart(offset, STSC);
      var count := ReadU32(p);
      var runs := ReadChunkRuns(p + 4, count);
      return Ok(runs);
    }

    /** The entry loop of readStscBox, from the nominal position `q`. */
    method ReadChunkRuns(ghost q: nat, count: nat) returns (runs: seq<ChunkRun>)
      requires SameView(data, pos, q)
      modifies this
      ensures runs == ChunkRunsAt(data, q, count)
      ensures SameView(data, pos, q + 12 * count)
    {
      runs := [];
      for i := 0 to count
        invariant SameView(data, pos, q + 12 * i)
        invariant runs == ChunkRunsAt(data, q, i)
      {
        ghost var x := q + 12 * i;
        var firstChunk := ReadU32(x);
        var samplesPerChunk := ReadU32(x + 4);
        var description := ReadU32(x + 8);
        ChunkRunsSnoc(data, q, i);
        runs := runs + [ChunkRun(firstChunk, samplesPerChunk)];
        assert q + 12 * (i + 1) == x + 12;
      }
    }

    /** readStszBox: a nonzero fixed size ends the read; otherwise a count
        and that many u32 sizes follow. */
    method ReadStszBox(offset: nat) returns (r: Result<SizeTable>)
      modifies this
      ensures r == StszAt(data, offset)
      ensures r.Err? ==> pos == HeaderEnd(data, offset)
      ensures r.Ok? && r.value.FixedSize? ==> SameView(data, pos, TableStart(data, offset, STSZ).value + 4)
      ensures r.Ok? && r.value.SizeList? ==>
                SameView(data, pos, TableStart(data, offset, STSZ).value + 8 + 4 * |r.value.sizes|)
      ensures LeftAfterStsz(data, pos, offset)
    {
      var p :- ReadTableStart(offset, STSZ);
      var fixed := ReadU32(p);
      if fixed > 0 {
        return Ok(FixedSize(fixed));
      }
      var count := ReadU32(p + 4);
      var sizes := ReadSizes(p + 8, count);
      return Ok(SizeList(sizes));
    }

    /** The size loop of readStszBox, from the nominal position `q`. */
    method ReadSizes(ghost q: nat, count: nat) returns (sizes: seq<nat>)
      requires SameView(data, pos, q)
      modifies this
      ensures sizes == SizesAt(data, q, count)
      ensures SameView(data, pos, q + 4 * count)
    {
      sizes := [];
      for i := 0 to count
        invariant SameView(data, pos, q + 4 * i)
        invariant sizes == SizesAt(data, q, i)
      {
        ghost var x := q + 4 * i;
        var size := ReadU32(x);
        sizes := sizes + [size];
        assert q + 4 * (i + 1) == x + 4;
      }
    }

    /** readSttsBox: `count` (count, delta) pairs of u32s. */
    method ReadSttsBox(offset: nat) returns (r: Result<seq<TimeRun>>)
      modifies this
      ensures r == SttsAt(data, offset)
      ensures r.Err? ==> pos == HeaderEnd(data, offset)
      ensures r.Ok? ==> SameView(data, pos, TableStart(data, offset, STTS).value + 4 + 8 * |r.value|)
      ensures LeftAfterStts(data, pos, offset)
    {
      var p :- ReadTableStart(offset, STTS);
      var count := ReadU32(p);
      var runs := ReadTimeRuns(p + 4, count);
      return Ok(runs);
    }

    /** The entry loop of readSttsBox, from the nominal position `q`. */
    method ReadTimeRuns(ghost q: nat, count: nat) returns (runs: seq<TimeRun>)
      requires SameView(data, pos, q)
      modifies this
      ensures runs == TimeRunsAt(data, q, count)
      ensures SameView(data, pos, q + 8 * count)
    {
      runs := [];
      for i := 0 to count
        invariant SameView(data, pos, q + 8 * i)
        invariant runs == TimeRunsAt(data, q, i)
      {
        ghost var x := q + 8 * i;
        var samples := ReadU32(x);
        var delta := ReadU32(x + 4);
        TimeRunsSnoc(data, q, i);
        runs := runs + [TimeRun(samples, delta)];
        assert q + 8 * (i + 1) == x + 8;
      }
    }

    /** readCo64Box: `count` u64 chunk offsets. */
    method ReadCo64Box(offset: nat) returns (r: Result<seq<nat>>)
      modifies this
      ensures r == Co64At(data, offset)
      ensures r.Err? ==> pos == HeaderEnd(data, offset)
      ensures r.Ok? ==> SameView(data, pos, TableStart(data, offset, CO64).value + 4 + 8 * |r.value|)
      ensures LeftAfterCo64(data, pos, offset)
    {
      var p :- ReadTableStart(offset, CO64);
      var count := ReadU32(p);
      var offsets := ReadOffsets(p + 4, count);
      return Ok(offsets);
    }

    /** The offset loop of readCo64Box, from the nominal position `q`. */
    method ReadOffsets(ghost q: nat, count: nat) returns (offsets: seq<nat>)
      requires SameView(data, pos, q)
      modifies this
      ensures offsets == OffsetsAt(data, q, count)
      ensures SameView(data, pos, q + 8 * count)
    {
      offsets := [];
      for i := 0 to count
        invariant SameView(data, pos, q + 8 * i)
        invariant offsets == OffsetsAt(data, q, i)
      {
        ghost var x := q + 8 * i;
        var chunkOffset := ReadU64(x);
        offsets := offsets + [chunkOffset];
        assert q + 8 * (i + 1) == x + 8;
      }
    }

    /** listTraks: the track offsets inside the first moov box, in a file
        whose top level has an ftyp box. */
    method ListTraks() returns (r: Result<seq<nat>>)
      modifies this
      ensures r == TraksSpec(data)
      ensures pos == match ListBoxesSpec(data, 0, MaxSize)
                     case Ok(boxes) =>
                       if FTYP in boxes then SubBoxesCursor(data, boxes, MOOV, 0, ScanCursor(data, 0, MaxSize))
                       else ScanCursor(data, 0, MaxSize)
                     case Err(_) => ScanCursor(data, 0, MaxSize)
    {
      var boxes :- ListBoxes(0, MaxSize);
      if FTYP !in boxes {
        return Err(MissingBox);
      }
      var moov :- ListSubBoxes(boxes, MOOV, 0);
      if TRAK !in moov {
        return Err(MissingBox);
      }
      return Ok(moov[TRAK]);
    }

    /** The path processSamples walks to the sample-table box of a track. */
    method FindSampleTable(index: nat) returns (r: Result<BoxIndex>)
      modifies this
      ensures r == SampleTableIndex(data, index)
      ensures pos == SampleTableCursor(data, index)
    {
      var boxes :- ListBoxes(0, MaxSize);
      var moov :- ListSubBoxes(boxes, MOOV, 0);
      var trak :- ListSubBoxes(moov, TRAK, index);
      var mdia :- ListSubBoxes(trak, MDIA, 0);
      var minf :- ListSubBoxes(mdia, MINF, 0);
      r := ListSubBoxes(minf, STBL, 0);
    }

    /** The four table reads of processSamples, each at the first box of its
        type in the sample-table index. */
    method ReadTables(stbl: BoxIndex) returns (r: Result<TrackTables>)
      modifies this
      ensures r == LoadTables(data, stbl)
      ensures r.Ok? ==> SameView(data, pos, TableStart(data, stbl[CO64][0], CO64).value + 4 + 8 * |r.value.co64|)
      ensures LeftAfterLoad(data, stbl, old(pos), pos)
    {
      var stscAt :- Lookup(stbl, STSC, 0);
      var stsc :- ReadStscBox(stscAt);
      var stszAt :- Lookup(stbl, STSZ, 0);
      var sizes :- ReadStszBox(stszAt);
      var sttsAt :- Lookup(stbl, STTS, 0);
      var stts :- ReadSttsBox(sttsAt);
      var co64At :- Lookup(stbl, CO64, 0);
      var co64 :- ReadCo64Box(co64At);
      return Ok(TrackTables(stsc, sizes, stts, co64));
    }

    /** The counter updates before each read of the sample loop: the stts
        run closes when its count is used up; the chunk closes when its
        sample count is used up, the next stsc run starts when the new chunk
        reaches its first chunk, and the cursor seeks to the new chunk. */
    method PrepareRead(t: Tables, c: Cursor) returns (r: Result<Cursor>)
      modifies this
      requires SameView(data, pos, c.at)
      ensures r == Prepare(t, c)
      ensures r.Ok? ==> SameView(data, pos, r.value.at)
      ensures r.Err? ==> pos == old(pos)
    {
      var run, chunk, inChunk, duration, inDuration := c.run, c.chunk, c.inChunk, c.duration, c.inDuration;
      if duration >= |t.stts| {
        return Err(DurationTableOverrun);
      }
      if inDuration >= t.stts[duration].count {
        duration := duration + 1;
        inDuration := 0;
      }
      if run >= |t.stsc| {
        return Err(ChunkRunOverrun);
      }
      if inChunk >= t.stsc[run].samplesPerChunk {
        chunk := chunk + 1;
        inChunk := 0;
        if run + 1 >= |t.stsc| {
          return Err(ChunkRunOverrun);
        }
        if chunk + 1 >= t.stsc[run + 1].firstChunk {
          run := run + 1;
        }
        if chunk >= |t.co64| {
          return Err(ChunkOffsetOverrun);
        }
        Seek(t.co64[chunk]);
        return Ok(Cursor(run, chunk, inChunk, duration, inDuration, c.time, t.co64[chunk]));
      }
      return Ok(c.(duration := duration, inDuration := inDuration));
    }

    /** The sample loop of processSamples over loaded tables. Each sample is
        read at the cursor and handed, with the running time, to the
        callback, which the model replaces by appending to `samples`. */
    method PlaySamples(tt: TrackTables) returns (p: Playback)
      modifies this
      ensures p == Play(data, tt)
      ensures tt.co64 == [] ==> pos == old(pos)
      ensures tt.co64 != [] && tt.sizes.FixedSize? ==> pos == tt.co64[0]
      ensures tt.co64 != [] && tt.sizes.SizeList? ==>
        LeftAfter(data, pos, tt.co64[0], Iterate(Tables(tt.stsc, tt.sizes.sizes, tt.stts, tt.co64)).visits)
    {
      if tt.co64 == [] {
        return Playback([], Some(NoChunkOffsets));
      }
      Seek(tt.co64[0]);
      if tt.sizes.FixedSize? {
        return Playback([], Some(ScalarSizeTable));
      }
      var t := Tables(tt.stsc, tt.sizes.sizes, tt.stts, tt.co64);
      var samples, failure := RunSamples(t, Start(t));
      return Playback(samples, failure);
    }

    /** One pass of the loop body at sample `s`: the counter updates, the
        read, and the counter updates after it. No read when the updates
        before it fail; `next` is the state for sample `s + 1` or the error
        that ends the loop. */
    method ReadSample(t: Tables, c: Cursor, s: nat, ghost visits: seq<Visit>, ghost goal: Trace)
      returns (read: Option<Sample>, next: Result<Cursor>, ghost v: Visit)
      modifies this
      requires s < |t.sizes| && SameView(data, pos, c.at)
      requires Then(visits, RunFrom(t, c, s)) == goal
      ensures read.None? ==> next.Err? && goal == Trace(visits, Some(next.error))
      ensures read.Some? ==> read.value == SampleOf(data, v)
      ensures read.Some? && next.Err? ==> goal == Trace(visits + [v], Some(next.error))
      ensures read.Some? && next.Ok? ==> Then(visits + [v], RunFrom(t, next.value, s + 1)) == goal
      ensures next.Ok? ==> SameView(data, pos, next.value.at)
      ensures read.None? ==> pos == old(pos)
      ensures read.Some? ==> SameView(data, pos, v.state.at + v.size)
    {
      var prepared := PrepareRead(t, c);
      if prepared.Err? {
        LoopFails(t, visits, goal, c, s, prepared.error);
        return None, Err(prepared.error), Visit(c, 0);
      }
      var c1 := prepared.value;
      v := Visit(c1, t.sizes[s]);
      ReadFromSameView(data, pos, c1.at, t.sizes[s]);
      var bytes := Read(t.sizes[s]);
      read := Some(Sample(c1.time, bytes));
      if c1.duration >= |t.stts| {
        LoopStepFails(t, visits, goal, c, s, c1, DurationTableOverrun);
        return read, Err(DurationTableOverrun), v;
      }
      var c2 := c1.(inChunk := c1.inChunk + 1, inDuration := c1.inDuration + 1,
                    time := c1.time + t.stts[c1.duration].delta, at := c1.at + t.sizes[s]);
      LoopStep(t, visits, goal, c, s, c1, c2);
      return read, Ok(c2), v;
    }

    /** The loop itself, from the cursor `start`; the loop's counters are
        kept together in a `Cursor`. */
    method RunSamples(t: Tables, start: Cursor) returns (samples: seq<Sample>, failure: Option<Error>)
      modifies this
      requires SameView(data, pos, start.at)
      ensures samples == Samples(data, RunFrom(t, start, 0).visits) && failure == RunFrom(t, start, 0).failure
      ensures LeftAfter(data, pos, old(pos), RunFrom(t, start, 0).visits)
    {
      var c := start;
      ghost var goal := RunFrom(t, start, 0);
      ghost var visits: seq<Visit> := [];
      ghost var from := pos;
      samples := [];
      for s := 0 to |t.sizes|
        invariant SameView(data, pos, c.at)
        invariant Then(visits, RunFrom(t, c, s)) == goal
        invariant samples == Samples(data, visits)
        invariant LeftAfter(data, pos, from, visits)
      {
        var read, next, v := ReadSample(t, c, s, visits, goal);
        if read.Some? {
          samples := samples + [read.value];
          SamplesSnoc(data, visits, v);
          LeftAfterSnoc(data, pos, from, visits, v);
          visits := visits + [v];
        }
        if next.Err? {
          assert goal.visits == visits;
          return samples, Some(next.error);
        }
        c := next.value;
      }
      LoopEnds(t, visits, goal, c);
      assert goal.visits == visits;
      return samples, None;
    }

    /** processSamples for track `index`. */
    method ProcessSamples(index: nat) returns (p: Playback)
      modifies this
      ensures p == ProcessSamplesSpec(data, index)
      ensures LeftAfterProcess(data, index, pos)
    {
      var stbl := FindSampleTable(index);
      if stbl.Err? {
        return Playback([], Some(stbl.error));
      }
      var tables := ReadTables(stbl.value);
      if tables.Err? {
        return Playback([], Some(tables.error));
      }
      p := PlaySamples(tables.value);
    }
  }
}
