/** The high-level readers: the list of track boxes, and the sample loop of
    one track, reached through the fixed path moov -> trak -> mdia -> minf ->
    stbl. Every callback the sample loop makes is recorded as a `Sample`; an
    error ends the loop after the samples already delivered. */
module Tracks {
  import opened Results
  import opened Bytes
  import opened Boxes
  import opened SampleTables
  import opened SampleIterator

  /** listTraks: the offsets of the track boxes inside the first moov box of a
      file whose top level has an ftyp box. */
  function TraksSpec(data: seq<byte>): (r: Result<seq<nat>>)
    ensures r.Ok? ==> ListBoxesSpec(data, 0, MaxSize).Ok? && FTYP in ListBoxesSpec(data, 0, MaxSize).value
    ensures ListBoxesSpec(data, 0, MaxSize).Ok? && FTYP !in ListBoxesSpec(data, 0, MaxSize).value
            ==> r == Err(MissingBox)
  {
    var boxes :- ListBoxesSpec(data, 0, MaxSize);
    if FTYP !in boxes then Err(MissingBox)
    else
      var moov :- SubBoxesSpec(data, boxes, MOOV, 0);
      if TRAK in moov then Ok(moov[TRAK]) else Err(MissingBox)
  }

  /** The track offsets come in file order, each after the one before. */
  lemma {:induction false} TraksIncrease(data: seq<byte>)
    requires TraksSpec(data).Ok?
    ensures StrictlyIncreasing(TraksSpec(data).value)
  {
    var boxes := ListBoxesSpec(data, 0, MaxSize).value;
    var offset := boxes[MOOV][0];
    var h := HeaderAt(data, offset).value.value;
    SubBoxesOfHeader(data, boxes, MOOV, 0, h);
    ScannedOffsetsIncrease(data, HeaderEnd(data, offset), offset + h.length, TRAK);
  }

  /** The index of the sample-table box of track `index`: the first moov box,
      its `index`-th trak box, and the first mdia, minf and stbl boxes inside. */
  function SampleTableIndex(data: seq<byte>, index: nat): Result<BoxIndex> {
    var boxes :- ListBoxesSpec(data, 0, MaxSize);
    var moov :- SubBoxesSpec(data, boxes, MOOV, 0);
    var trak :- SubBoxesSpec(data, moov, TRAK, index);
    var mdia :- SubBoxesSpec(data, trak, MDIA, 0);
    var minf :- SubBoxesSpec(data, mdia, MINF, 0);
    SubBoxesSpec(data, minf, STBL, 0)
  }

  /** One step down the path: the sub-boxes of the `index`-th box of type `t`
      in an index found so far; an earlier error is passed on. */
  function Descend(data: seq<byte>, r: Result<BoxIndex>, t: FourCC, index: nat): Result<BoxIndex> {
    if r.Err? then r else SubBoxesSpec(data, r.value, t, index)
  }

  /** Where that step leaves the cursor; after an earlier error it stays. */
  function DescendCursor(data: seq<byte>, r: Result<BoxIndex>, t: FourCC, index: nat, from: nat): nat {
    if r.Err? then from else SubBoxesCursor(data, r.value, t, index, from)
  }

  /** Where the walk to the sample-table box of track `index` leaves the
      cursor: after the top-level scan, each step down the path moves it on
      until a step fails. */
  function SampleTableCursor(data: seq<byte>, index: nat): nat {
    var top := ListBoxesSpec(data, 0, MaxSize);
    var moov := Descend(data, top, MOOV, 0);
    var trak := Descend(data, moov, TRAK, index);
    var mdia := Descend(data, trak, MDIA, 0);
    var minf := Descend(data, mdia, MINF, 0);
    var atMoov := DescendCursor(data, top, MOOV, 0, ScanCursor(data, 0, MaxSize));
    var atTrak := DescendCursor(data, moov, TRAK, index, atMoov);
    var atMdia := DescendCursor(data, trak, MDIA, 0, atTrak);
    var atMinf := DescendCursor(data, mdia, MINF, 0, atMdia);
    DescendCursor(data, minf, STBL, 0, atMinf)
  }

  /** The four sample tables as the readers return them. */
  datatype TrackTables = TrackTables(stsc: seq<ChunkRun>, sizes: SizeTable, stts: seq<TimeRun>, co64: seq<nat>)

  /** The first stsc, stsz, stts and co64 boxes of a sample-table index, read
      in that order; a missing box or a failed read ends the loading. */
  function LoadTables(data: seq<byte>, stbl: BoxIndex): (r: Result<TrackTables>)
    ensures r.Ok? ==> && STSC in stbl && STSZ in stbl && STTS in stbl && CO64 in stbl
                      && stbl[STSC] != [] && stbl[STSZ] != [] && stbl[STTS] != [] && stbl[CO64] != []
    ensures r.Ok? ==> && StscAt(data, stbl[STSC][0]) == Ok(r.value.stsc)
                      && StszAt(data, stbl[STSZ][0]) == Ok(r.value.sizes)
                      && SttsAt(data, stbl[STTS][0]) == Ok(r.value.stts)
                      && Co64At(data, stbl[CO64][0]) == Ok(r.value.co64)
    ensures STSC !in stbl ==> r == Err(MissingBox)
  {
    var stscAt :- Lookup(stbl, STSC, 0);
    var stsc :- StscAt(data, stscAt);
    var stszAt :- Lookup(stbl, STSZ, 0);
    var sizes :- StszAt(data, stszAt);
    var sttsAt :- Lookup(stbl, STTS, 0);
    var stts :- SttsAt(data, sttsAt);
    var co64At :- Lookup(stbl, CO64, 0);
    var co64 :- Co64At(data, co64At);
    Ok(TrackTables(stsc, sizes, stts, co64))
  }

  /** Where each table reader leaves the cursor: past the header it checked
      when the read fails, otherwise past the entries it read. */
  ghost predicate LeftAfterStsc(data: seq<byte>, p: nat, at: nat) {
    match StscAt(data, at)
    case Err(_) => p == HeaderEnd(data, at)
    case Ok(runs) => SameView(data, p, TableStart(data, at, STSC).value + 4 + 12 * |runs|)
  }

  ghost predicate LeftAfterStsz(data: seq<byte>, p: nat, at: nat) {
    match StszAt(data, at)
    case Err(_) => p == HeaderEnd(data, at)
    case Ok(FixedSize(_)) => SameView(data, p, TableStart(data, at, STSZ).value + 4)
    case Ok(SizeList(sizes)) => SameView(data, p, TableStart(data, at, STSZ).value + 8 + 4 * |sizes|)
  }

  ghost predicate LeftAfterStts(data: seq<byte>, p: nat, at: nat) {
    match SttsAt(data, at)
    case Err(_) => p == HeaderEnd(data, at)
    case Ok(runs) => SameView(data, p, TableStart(data, at, STTS).value + 4 + 8 * |runs|)
  }

  ghost predicate LeftAfterCo64(data: seq<byte>, p: nat, at: nat) {
    match Co64At(data, at)
    case Err(_) => p == HeaderEnd(data, at)
    case Ok(offsets) => SameView(data, p, TableStart(data, at, CO64).value + 4 + 8 * |offsets|)
  }

  /** Where loading the tables leaves the cursor `from`: where the last
      reader that ran left it, or unmoved when the stsc box is missing. */
  ghost predicate LeftAfterLoad(data: seq<byte>, stbl: BoxIndex, from: nat, p: nat) {
    match Lookup(stbl, STSC, 0)
    case Err(_) => p == from
    case Ok(stscAt) =>
      if StscAt(data, stscAt).Err? || Lookup(stbl, STSZ, 0).Err? then LeftAfterStsc(data, p, stscAt)
      else
        var stszAt := Lookup(stbl, STSZ, 0).value;
        if StszAt(data, stszAt).Err? || Lookup(stbl, STTS, 0).Err? then LeftAfterStsz(data, p, stszAt)
        else
          var sttsAt := Lookup(stbl, STTS, 0).value;
          if SttsAt(data, sttsAt).Err? || Lookup(stbl, CO64, 0).Err? then LeftAfterStts(data, p, sttsAt)
          else LeftAfterCo64(data, p, Lookup(stbl, CO64, 0).value)
  }

  /** What the callback was given, in order, and the error that ended the
      loop, if any. */
  datatype Playback = Playback(samples: seq<Sample>, failure: Option<Error>)

  /** The sample loop over loaded tables: it first seeks to the first chunk
      offset and then takes the length of the size table, so an empty co64
      fails before a scalar stsz does. */
  function Play(data: seq<byte>, tt: TrackTables): Playback {
    if tt.co64 == [] then Playback([], Some(NoChunkOffsets))
    else match tt.sizes
      case FixedSize(_) => Playback([], Some(ScalarSizeTable))
      case SizeList(sizes) =>
        var r := Iterate(Tables(tt.stsc, sizes, tt.stts, tt.co64));
        Playback(Samples(data, r.visits), r.failure)
  }

  /** processSamples for track `index`. */
  function ProcessSamplesSpec(data: seq<byte>, index: nat): Playback {
    match SampleTableIndex(data, index)
    case Err(e) => Playback([], Some(e))
    case Ok(stbl) =>
      match LoadTables(data, stbl)
      case Err(e) => Playback([], Some(e))
      case Ok(tt) => Play(data, tt)
  }

  /** Where processSamples leaves the cursor: where the walk down the path
      stopped when it fails, where loading left it when loading fails or
      co64 is empty, at the first chunk for a scalar stsz, and otherwise
      past the last sample read. */
  ghost predicate LeftAfterProcess(data: seq<byte>, index: nat, p: nat) {
    match SampleTableIndex(data, index)
    case Err(_) => p == SampleTableCursor(data, index)
    case Ok(stbl) =>
      match LoadTables(data, stbl)
      case Err(_) => LeftAfterLoad(data, stbl, SampleTableCursor(data, index), p)
      case Ok(tt) =>
        if tt.co64 == [] then LeftAfterLoad(data, stbl, SampleTableCursor(data, index), p)
        else match tt.sizes
          case FixedSize(_) => p == tt.co64[0]
          case SizeList(sizes) => LeftAfter(data, p, tt.co64[0], Iterate(Tables(tt.stsc, sizes, tt.stts, tt.co64)).visits)
  }

  /** No sample is delivered unless the whole path resolves, all four tables
      load, the chunk-offset table is not empty and the sizes come as a list;
      then the samples are those of the loop over those tables. */
  lemma {:induction false} SamplesNeedTables(data: seq<byte>, index: nat)
    requires ProcessSamplesSpec(data, index).samples != []
    ensures SampleTableIndex(data, index).Ok?
    ensures var tt := LoadTables(data, SampleTableIndex(data, index).value);
      && tt.Ok? && tt.value.co64 != [] && tt.value.sizes.SizeList?
      && ProcessSamplesSpec(data, index).samples
         == Samples(data, Iterate(Tables(tt.value.stsc, tt.value.sizes.sizes, tt.value.stts, tt.value.co64)).visits)
  {
  }

  /** The loop delivers at most one sample per size, all of them when it ends
      without an error, sample i with at most `sizes[i]` bytes; an empty co64
      or a scalar stsz delivers none. */
  lemma {:induction false} PlayShape(data: seq<byte>, tt: TrackTables)
    ensures tt.co64 == [] ==> Play(data, tt) == Playback([], Some(NoChunkOffsets))
    ensures tt.co64 != [] && tt.sizes.FixedSize? ==> Play(data, tt) == Playback([], Some(ScalarSizeTable))
    ensures tt.co64 != [] && tt.sizes.SizeList? ==>
      var p := Play(data, tt);
      && |p.samples| <= |tt.sizes.sizes|
      && (p.failure.None? ==> |p.samples| == |tt.sizes.sizes|)
      && (forall i :: 0 <= i < |p.samples| ==> |p.samples[i].bytes| <= tt.sizes.sizes[i])
  {
    if tt.co64 != [] && tt.sizes.SizeList? {
      var t := Tables(tt.stsc, tt.sizes.sizes, tt.stts, tt.co64);
      var r := Iterate(t);
      RunShape(t, Start(t), 0);
      forall i | 0 <= i < |r.visits|
        ensures |Samples(data, r.visits)[i].bytes| <= tt.sizes.sizes[i]
      {
        SampleAt(data, r.visits, i);
        assert r.visits[i].size == t.sizes[0 + i];
      }
    }
  }

  /** When every stts run has samples, sample i carries the sum of the
      durations of the samples before it, starting at 0, never decreasing. */
  lemma {:induction false} PlayTimes(data: seq<byte>, tt: TrackTables)
    requires tt.co64 != [] && tt.sizes.SizeList? && PositiveCounts(tt.stts)
    ensures var p := Play(data, tt);
      && |p.samples| <= |Deltas(tt.stts)| + 1
      && (forall i :: 0 <= i < |p.samples| ==> p.samples[i].time == Sum(Deltas(tt.stts)[..i]))
      && (forall i, j :: 0 <= i <= j < |p.samples| ==> p.samples[i].time <= p.samples[j].time)
  {
    var t := Tables(tt.stsc, tt.sizes.sizes, tt.stts, tt.co64);
    var r := Iterate(t);
    var samples := Samples(data, r.visits);
    TimesArePrefixSums(t);
    forall i | 0 <= i < |samples|
      ensures samples[i].time == Sum(Deltas(tt.stts)[..i])
    {
      SampleAt(data, r.visits, i);
    }
    forall i, j | 0 <= i <= j < |samples|
      ensures samples[i].time <= samples[j].time
    {
      SampleAt(data, r.visits, i);
      SampleAt(data, r.visits, j);
      TimesNonDecreasing(t, i, j);
    }
  }

  /** The first sample is read at the first chunk offset, when the first stsc
      run has samples in its chunks, and each later sample either follows the
      previous one's bytes in the same chunk or starts at the next chunk's
      offset. */
  lemma {:induction false} PlayPositions(data: seq<byte>, tt: TrackTables, i: nat)
    requires tt.co64 != [] && tt.sizes.SizeList?
    requires i < |Play(data, tt).samples|
    ensures var t := Tables(tt.stsc, tt.sizes.sizes, tt.stts, tt.co64);
            var v := Iterate(t).visits[i];
      && i < |tt.sizes.sizes| && v.size == tt.sizes.sizes[i]
      && Play(data, tt).samples[i] == Sample(v.state.time, Slice(data, v.state.at, v.size))
      && (i == 0 && tt.stsc != [] && tt.stsc[0].samplesPerChunk > 0 ==> v.state.at == tt.co64[0])
      && (i > 0 ==> var u := Iterate(t).visits[i - 1];
                    v.state.at == u.state.at + u.size || (v.state.chunk < |tt.co64| && v.state.at == tt.co64[v.state.chunk]))
  {
    var t := Tables(tt.stsc, tt.sizes.sizes, tt.stts, tt.co64);
    var r := Iterate(t);
    SampleAt(data, r.visits, i);
    RunShape(t, Start(t), 0);
    assert r.visits[i].size == t.sizes[0 + i];
    if i == 0 {
      FirstRead(t);
    } else {
      ChunkStep(t, i - 1);
    }
  }
}
