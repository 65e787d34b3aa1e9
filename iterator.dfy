/** The sample loop of processSamples. Six counters and a running timestamp
    walk the sample-size list; the sample-to-chunk table decides when the next
    chunk starts, the chunk-offset table where it is, and the time-to-sample
    table how much each sample adds to the timestamp. Each sample is read from
    the current file position and handed, with the current timestamp, to the
    callback; the model records every read as a `Visit`. An index past the end
    of a table is an error that ends the loop, after the samples delivered so far. */
module SampleIterator {
  import opened Results
  import opened Bytes
  import opened SampleTables

  /** The four tables of a track, with the sizes in list form. */
  datatype Tables = Tables(stsc: seq<ChunkRun>, sizes: seq<nat>, stts: seq<TimeRun>, co64: seq<nat>)

  /** The loop state: the active stsc run, the chunk, the samples already
      taken from it, the active stts run, the samples already timed by it, the
      timestamp and the file position. */
  datatype Cursor = Cursor(run: nat, chunk: nat, inChunk: nat, duration: nat, inDuration: nat, time: nat, at: nat)

  /** One read: the state it was made in and the number of bytes asked for. */
  datatype Visit = Visit(state: Cursor, size: nat)

  /** The reads made, in order, and the error that stopped the loop, if any. */
  datatype Trace = Trace(visits: seq<Visit>, failure: Option<Error>)

  /** What the callback receives for one sample. */
  datatype Sample = Sample(time: nat, bytes: seq<byte>)

  /** All counters zero, the position at the first chunk. */
  function Start(t: Tables): Cursor
    requires t.co64 != []
  {
    Cursor(0, 0, 0, 0, 0, 0, t.co64[0])
  }

  /** The updates before a read: close the stts run when its count is used
      up; close the chunk when its sample count is used up, then move to the
      next stsc run when the new chunk reaches that run's first chunk, and
      seek to the new chunk's offset. */
  function Prepare(t: Tables, c: Cursor): Result<Cursor> {
    if c.duration >= |t.stts| then Err(DurationTableOverrun)
    else
      var c1 := if c.inDuration >= t.stts[c.duration].count then c.(duration := c.duration + 1, inDuration := 0) else c;
      if c1.run >= |t.stsc| then Err(ChunkRunOverrun)
      else if c1.inChunk < t.stsc[c1.run].samplesPerChunk then Ok(c1)
      else
        var chunk := c1.chunk + 1;
        if c1.run + 1 >= |t.stsc| then Err(ChunkRunOverrun)
        else
          var run := if chunk + 1 >= t.stsc[c1.run + 1].firstChunk then c1.run + 1 else c1.run;
          if chunk >= |t.co64| then Err(ChunkOffsetOverrun)
          else Ok(c1.(run := run, chunk := chunk, inChunk := 0, at := t.co64[chunk]))
  }

  /** The updates after a read of `size` bytes: both in-run counters move on,
      the position moves past the bytes asked for, and the timestamp grows by
      the active stts run's delta. */
  function Finish(t: Tables, c: Cursor, size: nat): Result<Cursor> {
    if c.duration >= |t.stts| then Err(DurationTableOverrun)
    else Ok(c.(inChunk := c.inChunk + 1, inDuration := c.inDuration + 1,
               time := c.time + t.stts[c.duration].delta, at := c.at + size))
  }

  function Then(visits: seq<Visit>, rest: Trace): Trace {
    Trace(visits + rest.visits, rest.failure)
  }

  /** The loop from sample `s` in state `c`. */
  function RunFrom(t: Tables, c: Cursor, s: nat): Trace
    decreases |t.sizes| - s
  {
    if s >= |t.sizes| then Trace([], None)
    else match Prepare(t, c)
      case Err(e) => Trace([], Some(e))
      case Ok(c1) =>
        var v := Visit(c1, t.sizes[s]);
        match Finish(t, c1, t.sizes[s])
        case Err(e) => Trace([v], Some(e))
        case Ok(c2) => Then([v], RunFrom(t, c2, s + 1))
  }

  /** The loop from sample `s` when the next preparation fails. */
  lemma {:induction false} RunFromFails(t: Tables, c: Cursor, s: nat, e: Error)
    requires s < |t.sizes| && Prepare(t, c) == Err(e)
    ensures RunFrom(t, c, s) == Trace([], Some(e))
  {
  }

  /** The loop from sample `s` when the next preparation succeeds: one read,
      then the rest of the loop, or the error of finishing that read. */
  lemma {:induction false} RunFromStep(t: Tables, c: Cursor, s: nat, c1: Cursor)
    requires s < |t.sizes| && Prepare(t, c) == Ok(c1)
    ensures var v := Visit(c1, t.sizes[s]);
      RunFrom(t, c, s) == match Finish(t, c1, t.sizes[s])
                          case Err(e) => Trace([v], Some(e))
                          case Ok(c2) => Then([v], RunFrom(t, c2, s + 1))
  {
  }

  lemma {:induction false} ThenEmpty(visits: seq<Visit>, failure: Option<Error>)
    ensures Then(visits, Trace([], failure)) == Trace(visits, failure)
  {
    assert visits + [] == visits;
  }

  lemma {:induction false} ThenThen(visits: seq<Visit>, v: Visit, rest: Trace)
    ensures Then(visits, Then([v], rest)) == Then(visits + [v], rest)
  {
    assert visits + ([v] + rest.visits) == visits + [v] + rest.visits;
  }

  /** Where the loop leaves the cursor that stood at `from`: still there when
      nothing was read, otherwise just past the bytes asked for by the last
      read (or anywhere at or past the end of the data, which reads the same). */
  ghost predicate LeftAfter(data: seq<byte>, p: nat, from: nat, visits: seq<Visit>) {
    if visits == [] then p == from
    else SameView(data, p, visits[|visits| - 1].state.at + visits[|visits| - 1].size)
  }

  lemma {:induction false} LeftAfterSnoc(data: seq<byte>, p: nat, from: nat, visits: seq<Visit>, v: Visit)
    requires SameView(data, p, v.state.at + v.size)
    ensures LeftAfter(data, p, from, visits + [v])
  {
  }

  /** The whole loop, from the first chunk. */
  function Iterate(t: Tables): Trace
    requires t.co64 != []
  {
    RunFrom(t, Start(t), 0)
  }

  /** The loop, seen from sample `s` after the reads `visits` in state `c`,
      ends with `e` when the next preparation fails. */
  lemma {:induction false} LoopFails(t: Tables, visits: seq<Visit>, goal: Trace, c: Cursor, s: nat, e: Error)
    requires Then(visits, RunFrom(t, c, s)) == goal
    requires s < |t.sizes| && Prepare(t, c) == Err(e)
    ensures goal == Trace(visits, Some(e))
  {
    RunFromFails(t, c, s, e);
    ThenEmpty(visits, Some(e));
  }

  /** One read of the loop, seen from sample `s` after the reads `visits`:
      the read joins the visits and the loop goes on from the finished
      state. */
  lemma {:induction false} LoopStep(t: Tables, visits: seq<Visit>, goal: Trace, c: Cursor, s: nat, c1: Cursor, c2: Cursor)
    requires Then(visits, RunFrom(t, c, s)) == goal
    requires s < |t.sizes| && Prepare(t, c) == Ok(c1) && Finish(t, c1, t.sizes[s]) == Ok(c2)
    ensures Then(visits + [Visit(c1, t.sizes[s])], RunFrom(t, c2, s + 1)) == goal
  {
    RunFromStep(t, c, s, c1);
    ThenThen(visits, Visit(c1, t.sizes[s]), RunFrom(t, c2, s + 1));
  }

  /** One read of the loop whose finishing fails: the loop ends with that
      read as its last. */
  lemma {:induction false} LoopStepFails(t: Tables, visits: seq<Visit>, goal: Trace, c: Cursor, s: nat, c1: Cursor, e: Error)
    requires Then(visits, RunFrom(t, c, s)) == goal
    requires s < |t.sizes| && Prepare(t, c) == Ok(c1) && Finish(t, c1, t.sizes[s]) == Err(e)
    ensures goal == Trace(visits + [Visit(c1, t.sizes[s])], Some(e))
  {
    var v := Visit(c1, t.sizes[s]);
    RunFromStep(t, c, s, c1);
    ThenThen(visits, v, Trace([], Some(e)));
    ThenEmpty(visits + [v], Some(e));
    assert Then([v], Trace([], Some(e))) == Trace([v], Some(e));
  }

  /** The loop, seen after the reads `visits` of every size, ends without an
      error. */
  lemma {:induction false} LoopEnds(t: Tables, visits: seq<Visit>, goal: Trace, c: Cursor)
    requires Then(visits, RunFrom(t, c, |t.sizes|)) == goal
    ensures goal == Trace(visits, None)
  {
    ThenEmpty(visits, None);
  }

  /** What the callback is given for a read: the timestamp and the bytes read. */
  function SampleOf(data: seq<byte>, v: Visit): Sample {
    Sample(v.state.time, Slice(data, v.state.at, v.size))
  }

  function Samples(data: seq<byte>, visits: seq<Visit>): (r: seq<Sample>)
    ensures |r| == |visits|
  {
    if visits == [] then [] else Samples(data, visits[..|visits| - 1]) + [SampleOf(data, visits[|visits| - 1])]
  }

  lemma {:induction false} SamplesSnoc(data: seq<byte>, visits: seq<Visit>, v: Visit)
    ensures Samples(data, visits + [v]) == Samples(data, visits) + [SampleOf(data, v)]
  {
    assert (visits + [v])[..|visits|] == visits;
  }

  lemma {:induction false} SampleAt(data: seq<byte>, visits: seq<Visit>, i: nat)
    requires i < |visits|
    ensures Samples(data, visits)[i] == SampleOf(data, visits[i])
  {
    if i < |visits| - 1 {
      assert visits[..|visits| - 1][i] == visits[i];
      SampleAt(data, visits[..|visits| - 1], i);
    }
  }

  /** A sample read inside the data has exactly the size asked for. */
  lemma {:induction false} SampleBytes(data: seq<byte>, visits: seq<Visit>, i: nat)
    requires i < |visits| && visits[i].state.at + visits[i].size <= |data|
    ensures Samples(data, visits)[i].time == visits[i].state.time
    ensures Samples(data, visits)[i].bytes == data[visits[i].state.at..visits[i].state.at + visits[i].size]
  {
    SampleAt(data, visits, i);
  }

  // ------------------------------------------------------------ trace shape

  /** The loop reads at most one sample per size entry, reads them all when it
      does not fail, and asks for sample `s + i`'s size on its i-th read. */
  lemma {:induction false} RunShape(t: Tables, c: Cursor, s: nat)
    requires s <= |t.sizes|
    ensures var r := RunFrom(t, c, s);
      && |r.visits| <= |t.sizes| - s
      && (r.failure.None? ==> |r.visits| == |t.sizes| - s)
      && (forall i :: 0 <= i < |r.visits| ==> r.visits[i].size == t.sizes[s + i])
    decreases |t.sizes| - s
  {
    if s < |t.sizes| && Prepare(t, c).Ok? {
      var c1 := Prepare(t, c).value;
      var v := Visit(c1, t.sizes[s]);
      if Finish(t, c1, t.sizes[s]).Ok? {
        var c2 := Finish(t, c1, t.sizes[s]).value;
        var rest := RunFrom(t, c2, s + 1);
        RunShape(t, c2, s + 1);
        assert RunFrom(t, c, s) == Then([v], rest);
        forall i | 0 <= i < |RunFrom(t, c, s).visits|
          ensures RunFrom(t, c, s).visits[i].size == t.sizes[s + i]
        {
          if i > 0 {
            assert RunFrom(t, c, s).visits[i] == rest.visits[i - 1];
          }
        }
      }
    }
  }

  /** The first read is made in the state the first preparation gives. */
  lemma {:induction false} FirstVisit(t: Tables, c: Cursor, s: nat)
    requires |RunFrom(t, c, s).visits| > 0
    ensures Prepare(t, c) == Ok(RunFrom(t, c, s).visits[0].state)
  {
  }

  /** Each read after the first is made in the state that finishing the
      previous read and preparing the next one gives. */
  lemma {:induction false} NextVisit(t: Tables, c: Cursor, s: nat, i: nat)
    requires i + 1 < |RunFrom(t, c, s).visits|
    ensures var visits := RunFrom(t, c, s).visits;
      && Finish(t, visits[i].state, visits[i].size).Ok?
      && Prepare(t, Finish(t, visits[i].state, visits[i].size).value) == Ok(visits[i + 1].state)
    decreases i
  {
    var c1 := Prepare(t, c).value;
    var c2 := Finish(t, c1, t.sizes[s]).value;
    var rest := RunFrom(t, c2, s + 1);
    assert RunFrom(t, c, s).visits == [Visit(c1, t.sizes[s])] + rest.visits;
    if i == 0 {
      FirstVisit(t, c2, s + 1);
    } else {
      NextVisit(t, c2, s + 1, i - 1);
    }
  }

  /** When the loop stops early, the error came from the preparation of the
      next read or from finishing the last one. */
  lemma {:induction false} FailurePoint(t: Tables, c: Cursor, s: nat)
    requires RunFrom(t, c, s).failure.Some?
    ensures var r := RunFrom(t, c, s);
      if r.visits == [] then Prepare(t, c) == Err(r.failure.value)
      else
        var last := r.visits[|r.visits| - 1];
        || Finish(t, last.state, last.size) == Err(r.failure.value)
        || (Finish(t, last.state, last.size).Ok? && Prepare(t, Finish(t, last.state, last.size).value) == Err(r.failure.value))
    decreases |t.sizes| - s
  {
    if s < |t.sizes| && Prepare(t, c).Ok? {
      var c1 := Prepare(t, c).value;
      if Finish(t, c1, t.sizes[s]).Ok? {
        var c2 := Finish(t, c1, t.sizes[s]).value;
        var rest := RunFrom(t, c2, s + 1);
        FailurePoint(t, c2, s + 1);
        if rest.visits != [] {
          assert RunFrom(t, c, s).visits[|RunFrom(t, c, s).visits| - 1] == rest.visits[|rest.visits| - 1];
        }
      }
    }
  }

  // ------------------------------------------------------------ chunks

  /** The first read is at the first chunk offset, at time 0, unless the
      first stsc run has no samples per chunk. */
  lemma {:induction false} FirstRead(t: Tables)
    requires t.co64 != [] && |Iterate(t).visits| > 0
    ensures Iterate(t).visits[0].state.time == 0
    ensures t.stsc[0].samplesPerChunk > 0 ==>
              Iterate(t).visits[0].state.chunk == 0 && Iterate(t).visits[0].state.at == t.co64[0]
  {
    FirstVisit(t, Start(t), 0);
  }

  /** Between two consecutive reads: while the chunk has samples left the
      next read starts where the previous one's bytes end; otherwise the next
      chunk starts, at its offset in co64, and the stsc run moves on when the
      new chunk reaches the next run's first chunk, a run that must exist. */
  lemma {:induction false} ChunkStep(t: Tables, i: nat)
    requires t.co64 != [] && i + 1 < |Iterate(t).visits|
    ensures var v := Iterate(t).visits[i].state;
            var w := Iterate(t).visits[i + 1].state;
            var size := Iterate(t).visits[i].size;
      && v.run < |t.stsc|
      && if v.inChunk + 1 < t.stsc[v.run].samplesPerChunk then
           && w.run == v.run && w.chunk == v.chunk && w.inChunk == v.inChunk + 1
           && w.at == v.at + size
         else
           && v.run + 1 < |t.stsc|
           && w.chunk == v.chunk + 1 && w.inChunk == 0
           && w.chunk < |t.co64| && w.at == t.co64[w.chunk]
           && w.run == if w.chunk + 1 >= t.stsc[v.run + 1].firstChunk then v.run + 1 else v.run
  {
    NextVisit(t, Start(t), 0, i);
    VisitedRun(t, i);
  }

  /** Every read is made while an stsc run is active. */
  lemma {:induction false} VisitedRun(t: Tables, i: nat)
    requires t.co64 != [] && i < |Iterate(t).visits|
    ensures Iterate(t).visits[i].state.run < |t.stsc|
  {
    if i == 0 {
      FirstVisit(t, Start(t), 0);
    } else {
      NextVisit(t, Start(t), 0, i - 1);
    }
  }

  /** A chunk change while the last stsc run is active ends the loop with an
      error: the next run's first chunk is looked up unguarded. */
  lemma {:induction false} LastRunChunkChange(t: Tables, c: Cursor)
    requires c.duration < |t.stts|
    requires c.run == |t.stsc| - 1 && c.inChunk >= t.stsc[c.run].samplesPerChunk
    ensures Prepare(t, c) == Err(ChunkRunOverrun)
  {
  }

  // ------------------------------------------------------------ timestamps

  /** Consecutive reads differ in time by the delta of the stts run that was
      active for the earlier one. */
  lemma {:induction false} TimeStep(t: Tables, i: nat)
    requires t.co64 != [] && i + 1 < |Iterate(t).visits|
    ensures var v := Iterate(t).visits[i].state;
      && v.duration < |t.stts|
      && Iterate(t).visits[i + 1].state.time == v.time + t.stts[v.duration].delta
  {
    NextVisit(t, Start(t), 0, i);
  }

  /** Timestamps start at 0 and never decrease. */
  lemma {:induction false} TimesNonDecreasing(t: Tables, i: nat, j: nat)
    requires t.co64 != [] && i <= j < |Iterate(t).visits|
    ensures Iterate(t).visits[i].state.time <= Iterate(t).visits[j].state.time
    decreases j - i
  {
    if i < j {
      TimesNonDecreasing(t, i, j - 1);
      TimeStep(t, j - 1);
    }
  }

  /** The sample durations the stts table describes: each run's delta,
      repeated `count` times. */
  function Deltas(stts: seq<TimeRun>): (d: seq<nat>) {
    if stts == [] then [] else Deltas(stts[..|stts| - 1]) + Repeat(stts[|stts| - 1].delta, stts[|stts| - 1].count)
  }

  function Repeat(x: nat, n: nat): (r: seq<nat>)
    ensures |r| == n && forall i :: 0 <= i < n ==> r[i] == x
  {
    if n == 0 then [] else Repeat(x, n - 1) + [x]
  }

  function Sum(s: seq<nat>): nat {
    if s == [] then 0 else Sum(s[..|s| - 1]) + s[|s| - 1]
  }

  lemma {:induction false} SumStep(s: seq<nat>, k: nat)
    requires k < |s|
    ensures Sum(s[..k + 1]) == Sum(s[..k]) + s[k]
  {
    assert s[..k + 1][..k] == s[..k];
  }

  /** The durations of the first `d` runs come first. */
  lemma {:induction false} DeltasPrefix(stts: seq<TimeRun>, d: nat)
    requires d <= |stts|
    ensures |Deltas(stts[..d])| <= |Deltas(stts)|
    ensures Deltas(stts)[..|Deltas(stts[..d])|] == Deltas(stts[..d])
    decreases |stts| - d
  {
    if d < |stts| {
      var init := stts[..|stts| - 1];
      assert stts[..|stts|] == stts;
      if d == |stts| - 1 {
        assert stts[..d] == init;
      } else {
        DeltasPrefix(init, d);
        assert init[..d] == stts[..d];
      }
    } else {
      assert stts[..d] == stts;
    }
  }

  /** Run `d` contributes `count` copies of its delta after the earlier runs. */
  lemma {:induction false} DeltasNext(stts: seq<TimeRun>, d: nat)
    requires d < |stts|
    ensures Deltas(stts[..d + 1]) == Deltas(stts[..d]) + Repeat(stts[d].delta, stts[d].count)
  {
    assert stts[..d + 1][..d] == stts[..d];
  }

  /** Sample `|Deltas(stts[..d])| + j` lies in run `d` when `j < count`. */
  lemma {:induction false} DeltaAt(stts: seq<TimeRun>, d: nat, j: nat)
    requires d < |stts| && j < stts[d].count
    ensures |Deltas(stts[..d])| + j < |Deltas(stts)|
    ensures Deltas(stts)[|Deltas(stts[..d])| + j] == stts[d].delta
  {
    DeltasNext(stts, d);
    DeltasPrefix(stts, d + 1);
    var k := |Deltas(stts[..d])| + j;
    assert Deltas(stts[..d + 1])[k] == stts[d].delta;
    assert Deltas(stts)[..|Deltas(stts[..d + 1])|][k] == Deltas(stts)[k];
  }

  ghost predicate PositiveCounts(stts: seq<TimeRun>) {
    forall d :: 0 <= d < |stts| ==> stts[d].count > 0
  }

  /** The stts counters of a state about to prepare sample `k`: the runs
      before `duration` and `inDuration` samples of run `duration` have been
      timed, `k` in all. */
  ghost predicate TimedUpTo(stts: seq<TimeRun>, c: Cursor, k: nat) {
    && c.duration <= |stts|
    && k == |Deltas(stts[..c.duration])| + c.inDuration
    && (c.duration < |stts| ==> c.inDuration <= stts[c.duration].count)
    && (c.duration == |stts| ==> c.inDuration == 0)
  }

  /** A trace that starts at sample `s`: read `i` is of sample `s + i` and
      its time is the sum of the durations of the samples before it; at most
      one read goes past the table's samples, and it ends the loop with the
      stts overrun. */
  ghost predicate TimedVisits(deltas: seq<nat>, r: Trace, s: nat) {
    && s + |r.visits| <= |deltas| + 1
    && (forall i :: 0 <= i < |r.visits| ==> r.visits[i].state.time == Sum(deltas[..s + i]))
    && (s + |r.visits| == |deltas| + 1 ==> r.failure == Some(DurationTableOverrun))
  }

  lemma {:induction false} TimedVisitsCons(deltas: seq<nat>, v: Visit, rest: Trace, s: nat)
    requires s < |deltas| && v.state.time == Sum(deltas[..s])
    requires TimedVisits(deltas, rest, s + 1)
    ensures TimedVisits(deltas, Then([v], rest), s)
  {
    var r := Then([v], rest);
    forall i | 0 <= i < |r.visits|
      ensures r.visits[i].state.time == Sum(deltas[..s + i])
    {
      if i > 0 {
        assert r.visits[i] == rest.visits[i - 1];
      }
    }
  }

  /** From a state that has timed the first `s` samples, the loop's reads are
      timed by the prefix sums of the durations. */
  lemma {:induction false} TimesFrom(t: Tables, c: Cursor, s: nat)
    requires PositiveCounts(t.stts)
    requires TimedUpTo(t.stts, c, s)
    requires s <= |Deltas(t.stts)| && c.time == Sum(Deltas(t.stts)[..s])
    ensures TimedVisits(Deltas(t.stts), RunFrom(t, c, s), s)
    decreases |t.sizes| - s
  {
    if s < |t.sizes| && Prepare(t, c).Ok? {
      var c1 := Prepare(t, c).value;
      var v := Visit(c1, t.sizes[s]);
      PrepareTimes(t, c, s);
      if c1.duration < |t.stts| {
        var c2 := Finish(t, c1, t.sizes[s]).value;
        FinishTimes(t, c1, s, t.sizes[s]);
        TimesFrom(t, c2, s + 1);
        assert RunFrom(t, c, s) == Then([v], RunFrom(t, c2, s + 1));
        TimedVisitsCons(Deltas(t.stts), v, RunFrom(t, c2, s + 1), s);
      } else {
        assert RunFrom(t, c, s) == Trace([v], Some(DurationTableOverrun));
      }
    }
  }

  /** Finishing the read of sample `s` inside an stts run adds that sample's
      duration to the time and leaves the counters at sample `s + 1`. */
  lemma {:induction false} FinishTimes(t: Tables, c1: Cursor, s: nat, size: nat)
    requires PositiveCounts(t.stts)
    requires c1.duration < |t.stts| && c1.inDuration < t.stts[c1.duration].count
    requires s == |Deltas(t.stts[..c1.duration])| + c1.inDuration
    requires s <= |Deltas(t.stts)| && c1.time == Sum(Deltas(t.stts)[..s])
    ensures s < |Deltas(t.stts)|
    ensures Finish(t, c1, size).Ok?
    ensures TimedUpTo(t.stts, Finish(t, c1, size).value, s + 1)
    ensures Finish(t, c1, size).value.time == Sum(Deltas(t.stts)[..s + 1])
  {
    DeltaAt(t.stts, c1.duration, c1.inDuration);
    SumStep(Deltas(t.stts), s);
    DeltasNext(t.stts, c1.duration);
  }

  /** Preparing a read keeps the time and leaves the stts counters pointing
      at sample `s` itself: inside a run, or just past the whole table when
      `s` is one past its last sample. */
  lemma {:induction false} PrepareTimes(t: Tables, c: Cursor, s: nat)
    requires PositiveCounts(t.stts) && TimedUpTo(t.stts, c, s)
    requires Prepare(t, c).Ok?
    ensures var c1 := Prepare(t, c).value;
      && c1.time == c.time
      && c1.duration <= |t.stts|
      && s == |Deltas(t.stts[..c1.duration])| + c1.inDuration
      && (c1.duration < |t.stts| ==> c1.inDuration < t.stts[c1.duration].count)
      && (c1.duration == |t.stts| ==> c1.inDuration == 0 && s == |Deltas(t.stts)|)
  {
    var stts := t.stts;
    var c1 := Prepare(t, c).value;
    if c.inDuration >= stts[c.duration].count {
      DeltasNext(stts, c.duration);
      if c1.duration == |stts| {
        assert stts[..c1.duration] == stts;
      }
    }
  }

  /** Read i of the loop has the time of the first i sample durations, when
      every stts run has at least one sample. */
  lemma {:induction false} TimesArePrefixSums(t: Tables)
    requires t.co64 != [] && PositiveCounts(t.stts)
    ensures |Iterate(t).visits| <= |Deltas(t.stts)| + 1
    ensures forall i :: 0 <= i < |Iterate(t).visits| ==>
              Iterate(t).visits[i].state.time == Sum(Deltas(t.stts)[..i])
  {
    assert t.stts[..0] == [];
    var r := Iterate(t);
    TimesFrom(t, Start(t), 0);
    forall i | 0 <= i < |r.visits|
      ensures r.visits[i].state.time == Sum(Deltas(t.stts)[..i])
    {
      assert r.visits[i].state.time == Sum(Deltas(t.stts)[..0 + i]);
    }
  }

  /** Running past the stts table: a read beyond its samples ends the loop
      with the overrun, and a loop that completes has no more sizes than the
      table has samples. */
  lemma {:induction false} DurationOverrun(t: Tables)
    requires t.co64 != [] && PositiveCounts(t.stts)
    ensures var r := Iterate(t);
      && (|r.visits| == |Deltas(t.stts)| + 1 ==> r.failure == Some(DurationTableOverrun))
      && (r.failure.None? ==> |t.sizes| <= |Deltas(t.stts)|)
  {
    var r := Iterate(t);
    assert t.stts[..0] == [];
    TimesFrom(t, Start(t), 0);
    RunShape(t, Start(t), 0);
  }

  /** The durations of stts runs (2, 10), (0, 5), (2, 20), and the sum of
      the first three. */
  lemma {:induction false} SkippedRunDeltas()
    ensures var stts := [TimeRun(2, 10), TimeRun(0, 5), TimeRun(2, 20)];
      && Deltas(stts) == [10, 10, 20, 20]
      && Sum(Deltas(stts)[..3]) == 40
  {
    var stts := [TimeRun(2, 10), TimeRun(0, 5), TimeRun(2, 20)];
    assert stts[..1][..0] == [] && stts[..2][..1] == stts[..1] && stts[..3] == stts;
    assert Repeat(10, 2) == [10, 10] && Repeat(5, 0) == [] && Repeat(20, 2) == [20, 20];
    assert Deltas(stts[..1]) == [10, 10];
    assert Deltas(stts[..2]) == [10, 10];
    assert Deltas(stts) == [10, 10, 20, 20];
    var d: seq<nat> := [10, 10, 20];
    assert Deltas(stts)[..3] == d;
    assert d[..2] == [10, 10] && d[..2][..1] == [10] && [10][..0] == [];
    assert Sum([10]) == 10;
    assert Sum(d[..2]) == 20;
  }

  /** An stts run with a count of zero is skipped only when its predecessor
      is used up, and the skip moves just one run on: the sample after it
      still gets the zero-count run's delta, so the times are not the prefix
      sums of the durations. */
  lemma {:induction false} EmptyDurationRun()
    ensures var t := Tables([ChunkRun(1, 4)], [1, 1, 1, 1], [TimeRun(2, 10), TimeRun(0, 5), TimeRun(2, 20)], [0]);
      && Iterate(t) == Trace([Visit(Cursor(0, 0, 0, 0, 0, 0, 0), 1),
                              Visit(Cursor(0, 0, 1, 0, 1, 10, 1), 1),
                              Visit(Cursor(0, 0, 2, 1, 0, 20, 2), 1),
                              Visit(Cursor(0, 0, 3, 2, 0, 25, 3), 1)],
                             None)
      && Deltas(t.stts) == [10, 10, 20, 20]
      && Sum(Deltas(t.stts)[..3]) == 40
  {
    SkippedRunDeltas();
  }

  // ------------------------------------------------------------ two tracks

  /** One chunk of four samples described by a single stsc run of two
      samples per chunk: the first two samples are read contiguously from the
      chunk offset, then the chunk change looks up a second stsc run that is
      not there. */
  lemma {:induction false} SingleRunTrack()
    ensures var t := Tables([ChunkRun(1, 2)], [4, 4, 4, 4], [TimeRun(4, 1000)], [1000]);
      Iterate(t) == Trace([Visit(Cursor(0, 0, 0, 0, 0, 0, 1000), 4),
                           Visit(Cursor(0, 0, 1, 0, 1, 1000, 1004), 4)],
                          Some(ChunkRunOverrun))
  {
  }

  /** Two chunks of two samples each, the second run starting at chunk 2:
      the third sample is read at the second chunk's offset, and all three
      are read. */
  lemma {:induction false} TwoChunkTrack()
    ensures var t := Tables([ChunkRun(1, 2), ChunkRun(2, 2)], [4, 4, 4], [TimeRun(3, 10)], [100, 200]);
      Iterate(t) == Trace([Visit(Cursor(0, 0, 0, 0, 0, 0, 100), 4),
                           Visit(Cursor(0, 0, 1, 0, 1, 10, 104), 4),
                           Visit(Cursor(1, 1, 0, 0, 2, 20, 200), 4)],
                          None)
  {
  }
}
