/** Box headers and the box scanner (ISO/IEC 14496-12, section 4.2).
    A box starts with a big-endian u32 length and a four-byte type; a length of 1
    means that the real length is the big-endian u64 that follows the type. The
    scanner walks a byte range from box to box and indexes the boxes it finds by
    type, keeping the offsets of same-typed siblings in discovery order. */
module Boxes {
  import opened Results
  import opened Bytes

  type FourCC = s: seq<byte> | |s| == 4 witness [0, 0, 0, 0]

  const FTYP: FourCC := [0x66, 0x74, 0x79, 0x70]  // "ftyp"
  const MOOV: FourCC := [0x6d, 0x6f, 0x6f, 0x76]  // "moov"
  const TRAK: FourCC := [0x74, 0x72, 0x61, 0x6b]  // "trak"
  const MDIA: FourCC := [0x6d, 0x64, 0x69, 0x61]  // "mdia"
  const MINF: FourCC := [0x6d, 0x69, 0x6e, 0x66]  // "minf"
  const STBL: FourCC := [0x73, 0x74, 0x62, 0x6c]  // "stbl"

  /** The end offset a top-level scan uses: Python's sys.maxsize on a 64-bit build. */
  const MaxSize: nat := 0x7fff_ffff_ffff_ffff

  /** A decoded box header: the resolved total length of the box and its type. */
  datatype BoxHeader = BoxHeader(length: nat, boxType: FourCC)

  /** The header read at `at`: nothing at or past the end of the data, an error
      for a partial 8-byte header, otherwise the u32 length (or, when it is 1,
      the u64 read after the type) and the type. */
  function HeaderAt(data: seq<byte>, at: nat): (r: Result<Option<BoxHeader>>)
    ensures r == Ok(None) <==> at >= |data|
    ensures r == Err(ShortHeader) <==> at < |data| < at + 8
    ensures r.Ok? && r.value.Some? ==> at + 8 <= |data| && r.value.value.boxType == data[at + 4..at + 8]
  {
    var n := |Slice(data, at, 8)|;
    if n == 0 then Ok(None)
    else if n < 8 then Err(ShortHeader)
    else
      var length := U32At(data, at);
      Ok(Some(BoxHeader(if length == 1 then U64At(data, at + 8) else length, Slice(data, at + 4, 4))))
  }

  /** Where the cursor stands after reading the header at `at`. */
  function HeaderEnd(data: seq<byte>, at: nat): nat {
    var n := |Slice(data, at, 8)|;
    if n == 8 && U32At(data, at) == 1 then at + 8 + |Slice(data, at + 8, 8)| else at + n
  }

  /** The compact (8-byte) or extended (16-byte) encoding of a box header. */
  function EncodeHeader(length: nat, boxType: FourCC, extended: bool): (e: seq<byte>)
    requires length < Pow256(8)
    requires extended || (length != 1 && length < Pow256(4))
    ensures |e| == if extended then 16 else 8
  {
    if extended then ToBigEndian(1, 4) + boxType + ToBigEndian(length, 8)
    else ToBigEndian(length, 4) + boxType
  }

  /** An encoded header reads back as the same length and type, and the cursor
      ends 8 bytes past its start, or 16 for the extended length. */
  lemma {:induction false} HeaderRoundTrip(prefix: seq<byte>, length: nat, boxType: FourCC, extended: bool, rest: seq<byte>)
    requires length < Pow256(8)
    requires extended || (length != 1 && length < Pow256(4))
    ensures HeaderAt(prefix + EncodeHeader(length, boxType, extended) + rest, |prefix|)
         == Ok(Some(BoxHeader(length, boxType)))
    ensures HeaderEnd(prefix + EncodeHeader(length, boxType, extended) + rest, |prefix|)
         == |prefix| + if extended then 16 else 8
  {
    if extended {
      ExtendedHeaderReads(prefix, length, boxType, rest);
    } else {
      CompactHeaderReads(prefix, length, boxType, rest);
    }
  }

  lemma {:induction false} CompactHeaderReads(prefix: seq<byte>, length: nat, boxType: FourCC, rest: seq<byte>)
    requires length != 1 && length < Pow256(4)
    ensures HeaderAt(prefix + EncodeHeader(length, boxType, false) + rest, |prefix|) == Ok(Some(BoxHeader(length, boxType)))
    ensures HeaderEnd(prefix + EncodeHeader(length, boxType, false) + rest, |prefix|) == |prefix| + 8
  {
    var e := EncodeHeader(length, boxType, false);
    var data := prefix + e + rest;
    var at := |prefix|;
    SliceInside(prefix, e, rest, 0, 8);
    SliceInside(prefix, e, rest, 4, 4);
    assert e[4..8] == boxType;
    FieldInside(prefix, e, rest, 0, length, 4);
    assert |Slice(data, at, 8)| == 8 && U32At(data, at) == length;
  }

  lemma {:induction false} ExtendedHeaderReads(prefix: seq<byte>, length: nat, boxType: FourCC, rest: seq<byte>)
    requires length < Pow256(8)
    ensures HeaderAt(prefix + EncodeHeader(length, boxType, true) + rest, |prefix|) == Ok(Some(BoxHeader(length, boxType)))
    ensures HeaderEnd(prefix + EncodeHeader(length, boxType, true) + rest, |prefix|) == |prefix| + 16
  {
    var e := EncodeHeader(length, boxType, true);
    var data := prefix + e + rest;
    var at := |prefix|;
    assert Slice(data, at + 4, 4) == boxType by {
      SliceInside(prefix, e, rest, 4, 4);
      assert e[4..8] == boxType;
    }
    assert U32At(data, at) == 1 by {
      assert e[0..4] == ToBigEndian(1, 4);
      FieldInside(prefix, e, rest, 0, 1, 4);
    }
    assert U64At(data, at + 8) == length by {
      assert e[8..16] == ToBigEndian(length, 8);
      FieldInside(prefix, e, rest, 8, length, 8);
    }
    ExtendedHeaderFields(data, at, length, boxType);
  }

  /** The extended header, from its three fields. */
  lemma {:induction false} ExtendedHeaderFields(data: seq<byte>, at: nat, length: nat, boxType: FourCC)
    requires at + 16 <= |data| && U32At(data, at) == 1 && U64At(data, at + 8) == length
    requires Slice(data, at + 4, 4) == boxType
    ensures HeaderAt(data, at) == Ok(Some(BoxHeader(length, boxType)))
    ensures HeaderEnd(data, at) == at + 16
  {
    assert |Slice(data, at, 8)| == 8 && |Slice(data, at + 8, 8)| == 8;
  }

  /** A box found by a scan: its type, the offset of its header and its total length. */
  datatype Box = Box(boxType: FourCC, offset: nat, length: nat)

  function Prepend(boxes: seq<Box>, r: Result<seq<Box>>): Result<seq<Box>> {
    match r
    case Ok(rest) => Ok(boxes + rest)
    case Err(e) => Err(e)
  }

  /** The boxes found walking from `offset`: each header is recorded, the walk
      moves on by the resolved length, and it stops at the end of the data or
      once the next offset reaches `end`. A zero length with the next offset
      still before `end` never advances; it is reported as `Stalled`. */
  function Scan(data: seq<byte>, offset: nat, end: nat): (r: Result<seq<Box>>)
    ensures r.Err? ==> r.error == ShortHeader || r.error == Stalled
    decreases if offset < |data| then |data| - offset else 0
  {
    match HeaderAt(data, offset)
    case Err(e) => Err(e)
    case Ok(None) => Ok([])
    case Ok(Some(h)) =>
      var box := Box(h.boxType, offset, h.length);
      var next := offset + h.length;
      if next >= end then Ok([box])
      else if h.length == 0 then Err(Stalled)
      else Prepend([box], Scan(data, next, end))
  }

  /** Consecutive boxes follow each other: each but the last has a positive
      length, and the next one starts exactly where it ends, before `end`. */
  ghost predicate Linked(boxes: seq<Box>, end: nat) {
    forall i :: 0 <= i < |boxes| - 1 ==>
      boxes[i].length > 0 && boxes[i + 1].offset == boxes[i].offset + boxes[i].length < end
  }

  /** What a finished scan from `start` to `end` looks like: it starts at
      `start`, every box is the header read at its offset, the boxes are linked,
      and the walk stopped for one of the two reasons the scanner has. */
  ghost predicate Chained(data: seq<byte>, boxes: seq<Box>, start: nat, end: nat) {
    && (|boxes| > 0 ==> boxes[0].offset == start)
    && (forall i :: 0 <= i < |boxes| ==>
          HeaderAt(data, boxes[i].offset) == Ok(Some(BoxHeader(boxes[i].length, boxes[i].boxType))))
    && Linked(boxes, end)
    && (if |boxes| == 0 then HeaderAt(data, start) == Ok(None)
        else
          var last := boxes[|boxes| - 1];
          last.offset + last.length >= end || HeaderAt(data, last.offset + last.length) == Ok(None))
  }

  /** Every successful scan is chained. */
  lemma {:induction false} ScanIsChained(data: seq<byte>, offset: nat, end: nat)
    requires Scan(data, offset, end).Ok?
    ensures Chained(data, Scan(data, offset, end).value, offset, end)
    decreases if offset < |data| then |data| - offset else 0
  {
    match HeaderAt(data, offset)
    case Ok(None) =>
    case Ok(Some(h)) =>
      var box := Box(h.boxType, offset, h.length);
      var next := offset + h.length;
      if next < end {
        ScanIsChained(data, next, end);
        var rest := Scan(data, next, end).value;
        ChainedCons(data, box, rest, next, end);
      }
  }

  /** A box followed by a chained walk from where it ends is a chained walk. */
  lemma {:induction false} ChainedCons(data: seq<byte>, box: Box, rest: seq<Box>, next: nat, end: nat)
    requires HeaderAt(data, box.offset) == Ok(Some(BoxHeader(box.length, box.boxType)))
    requires box.length > 0 && next == box.offset + box.length < end
    requires Chained(data, rest, next, end)
    ensures Chained(data, [box] + rest, box.offset, end)
  {
    var boxes := [box] + rest;
    forall i | 0 <= i < |boxes|
      ensures HeaderAt(data, boxes[i].offset) == Ok(Some(BoxHeader(boxes[i].length, boxes[i].boxType)))
    {
      if i > 0 {
        assert boxes[i] == rest[i - 1];
      }
    }
    forall i | 0 <= i < |boxes| - 1
      ensures boxes[i].length > 0 && boxes[i + 1].offset == boxes[i].offset + boxes[i].length < end
    {
      if i > 0 {
        assert boxes[i] == rest[i - 1] && boxes[i + 1] == rest[i];
      }
    }
    if rest != [] {
      assert boxes[|boxes| - 1] == rest[|rest| - 1];
    }
  }

  /** Linked boxes have strictly increasing offsets. */
  lemma {:induction false} LinkedIncreasing(boxes: seq<Box>, end: nat, i: nat, j: nat)
    requires Linked(boxes, end)
    requires i < j < |boxes|
    ensures boxes[i].offset < boxes[j].offset
    decreases j - i
  {
    if j > i + 1 {
      LinkedIncreasing(boxes, end, i, j - 1);
    }
    assert boxes[j - 1].length > 0 && boxes[j].offset == boxes[j - 1].offset + boxes[j - 1].length;
  }

  /** A box with an extended length N is scanned as one box of length N, and the
      next sibling, if any, starts exactly N bytes after it. */
  lemma {:induction false} ExtendedLengthNextSibling(prefix: seq<byte>, length: nat, boxType: FourCC, rest: seq<byte>, end: nat)
    requires length < Pow256(8)
    requires Scan(prefix + EncodeHeader(length, boxType, true) + rest, |prefix|, end).Ok?
    ensures var boxes := Scan(prefix + EncodeHeader(length, boxType, true) + rest, |prefix|, end).value;
      && |boxes| > 0
      && boxes[0] == Box(boxType, |prefix|, length)
      && (|boxes| > 1 ==> boxes[1].offset == |prefix| + length)
  {
    var data := prefix + EncodeHeader(length, boxType, true) + rest;
    HeaderRoundTrip(prefix, length, boxType, true, rest);
    ScanIsChained(data, |prefix|, end);
  }

  /** The boxes a scan from `start` walks over before it reaches `at` without
      stopping: the first is the header read at `start`, has a positive length
      and ends before `end`, and the rest walk on from where it ends. */
  ghost predicate WalksTo(data: seq<byte>, boxes: seq<Box>, start: nat, at: nat, end: nat)
    decreases |boxes|
  {
    if boxes == [] then at == start
    else
      && boxes[0].offset == start
      && HeaderAt(data, start) == Ok(Some(BoxHeader(boxes[0].length, boxes[0].boxType)))
      && boxes[0].length > 0 && start + boxes[0].length < end
      && WalksTo(data, boxes[1..], start + boxes[0].length, at, end)
  }

  /** The two ways a scan that has reached `at` fails there: a header cut
      short by the end of the data, or a zero-length box before `end`. */
  ghost predicate FailsAt(data: seq<byte>, at: nat, end: nat, e: Error) {
    || (e == ShortHeader && at < |data| < at + 8)
    || (e == Stalled && at < end && HeaderAt(data, at).Ok? && HeaderAt(data, at).value.Some?
        && HeaderAt(data, at).value.value.length == 0)
  }

  /** A box that does not stop the scan, followed by a walk from where it
      ends, is a walk. */
  lemma {:induction false} WalksToCons(data: seq<byte>, box: Box, rest: seq<Box>, at: nat, end: nat)
    requires HeaderAt(data, box.offset) == Ok(Some(BoxHeader(box.length, box.boxType)))
    requires box.length > 0 && box.offset + box.length < end
    requires WalksTo(data, rest, box.offset + box.length, at, end)
    ensures WalksTo(data, [box] + rest, box.offset, at, end)
  {
    assert ([box] + rest)[1..] == rest;
  }

  /** A walk that is not empty is its first box followed by a walk from
      where that box ends. */
  lemma {:induction false} WalksToTail(data: seq<byte>, boxes: seq<Box>, start: nat, at: nat, end: nat)
    requires WalksTo(data, boxes, start, at, end) && boxes != []
    ensures boxes[0].offset == start
    ensures HeaderAt(data, start) == Ok(Some(BoxHeader(boxes[0].length, boxes[0].boxType)))
    ensures boxes[0].length > 0 && start + boxes[0].length < end
    ensures WalksTo(data, boxes[1..], start + boxes[0].length, at, end)
  {
  }

  lemma {:induction false} PrependFirst(boxes: seq<Box>, r: Result<seq<Box>>)
    requires boxes != []
    ensures Prepend(boxes, r) == Prepend([boxes[0]], Prepend(boxes[1..], r))
  {
    match r
    case Ok(rest) => assert boxes + rest == [boxes[0]] + (boxes[1..] + rest);
    case Err(_) =>
  }

  lemma {:induction false} ScanContinues(data: seq<byte>, offset: nat, end: nat, box: Box)
    requires HeaderAt(data, offset) == Ok(Some(BoxHeader(box.length, box.boxType)))
    requires box.offset == offset && box.length > 0 && offset + box.length < end
    ensures Scan(data, offset, end) == Prepend([box], Scan(data, offset + box.length, end))
  {
  }

  lemma {:induction false} PrependNothing(r: Result<seq<Box>>)
    ensures Prepend([], r) == r
  {
    match r
    case Ok(rest) => assert [] + rest == rest;
    case Err(_) =>
  }

  /** A walk from `start` to `at` contributes its boxes to the scan from
      `start`, which goes on as the scan from `at`. */
  lemma {:induction false} ScanWalk(data: seq<byte>, boxes: seq<Box>, start: nat, at: nat, end: nat)
    requires WalksTo(data, boxes, start, at, end)
    ensures Scan(data, start, end) == Prepend(boxes, Scan(data, at, end))
    decreases |boxes|
  {
    if boxes == [] {
      assert at == start;
      PrependNothing(Scan(data, at, end));
    } else {
      WalksToTail(data, boxes, start, at, end);
      ScanWalk(data, boxes[1..], start + boxes[0].length, at, end);
      ScanWalkStep(data, boxes, start, end, Scan(data, at, end));
    }
  }

  lemma {:induction false} ScanWalkStep(data: seq<byte>, boxes: seq<Box>, start: nat, end: nat, rest: Result<seq<Box>>)
    requires boxes != [] && boxes[0].offset == start
    requires HeaderAt(data, start) == Ok(Some(BoxHeader(boxes[0].length, boxes[0].boxType)))
    requires boxes[0].length > 0 && start + boxes[0].length < end
    requires Scan(data, start + boxes[0].length, end) == Prepend(boxes[1..], rest)
    ensures Scan(data, start, end) == Prepend(boxes, rest)
  {
    ScanContinues(data, start, end, boxes[0]);
    PrependFirst(boxes, rest);
  }

  /** A scan that fails at its first header fails there as `FailsAt` says. */
  lemma {:induction false} ScanFailsHere(data: seq<byte>, offset: nat, end: nat)
    requires Scan(data, offset, end).Err?
    requires !(HeaderAt(data, offset).Ok? && HeaderAt(data, offset).value.Some?
               && HeaderAt(data, offset).value.value.length > 0
               && offset + HeaderAt(data, offset).value.value.length < end)
    ensures FailsAt(data, offset, end, Scan(data, offset, end).error)
  {
    var header := HeaderAt(data, offset);
    if header.Ok? && header.value.Some? {
      ScanStep(data, offset, end, header.value.value);
    } else {
      ScanStop(data, offset, end);
    }
  }

  /** Every failed scan walked over some boxes to an offset where a header is
      cut short or a zero-length box lies before `end`. */
  lemma {:induction false} ScanFailure(data: seq<byte>, offset: nat, end: nat)
    requires Scan(data, offset, end).Err?
    ensures exists boxes, at :: WalksTo(data, boxes, offset, at, end) && FailsAt(data, at, end, Scan(data, offset, end).error)
    decreases if offset < |data| then |data| - offset else 0
  {
    var header := HeaderAt(data, offset);
    if header.Ok? && header.value.Some? && header.value.value.length > 0 && offset + header.value.value.length < end {
      var h := header.value.value;
      var next := offset + h.length;
      ScanStep(data, offset, end, h);
      assert offset < |data|;
      ScanFailure(data, next, end);
      var rest, at :| WalksTo(data, rest, next, at, end) && FailsAt(data, at, end, Scan(data, next, end).error);
      ScanFailureStep(data, offset, end, h, rest, at);
    } else {
      ScanFailsHere(data, offset, end);
      assert WalksTo(data, [], offset, offset, end) && FailsAt(data, offset, end, Scan(data, offset, end).error);
    }
  }

  /** A failure after the first box is a failure of the scan from that box. */
  lemma {:induction false} ScanFailureStep(data: seq<byte>, offset: nat, end: nat, h: BoxHeader, rest: seq<Box>, at: nat)
    requires HeaderAt(data, offset) == Ok(Some(h)) && h.length > 0 && offset + h.length < end
    requires Scan(data, offset + h.length, end).Err?
    requires WalksTo(data, rest, offset + h.length, at, end) && FailsAt(data, at, end, Scan(data, offset + h.length, end).error)
    ensures Scan(data, offset, end).Err?
    ensures WalksTo(data, [Box(h.boxType, offset, h.length)] + rest, offset, at, end)
    ensures FailsAt(data, at, end, Scan(data, offset, end).error)
  {
    var box := Box(h.boxType, offset, h.length);
    assert HeaderAt(data, box.offset) == Ok(Some(BoxHeader(box.length, box.boxType)));
    ScanStep(data, offset, end, h);
    WalksToCons(data, box, rest, at, end);
  }

  /** Conversely, a walk to an offset where the scan fails makes the scan
      from its start fail in the same way. */
  lemma {:induction false} ScanFailsAt(data: seq<byte>, boxes: seq<Box>, start: nat, at: nat, end: nat, e: Error)
    requires WalksTo(data, boxes, start, at, end) && FailsAt(data, at, end, e)
    ensures Scan(data, start, end) == Err(e)
  {
    ScanWalk(data, boxes, start, at, end);
  }

  /** The boxes of a scan start at its start offset and, after the first,
      lie before its end offset; the first is recorded even when the start is
      already at or past the end. */
  lemma {:induction false} ScanWithin(data: seq<byte>, start: nat, end: nat)
    requires Scan(data, start, end).Ok?
    ensures var boxes := Scan(data, start, end).value;
      |boxes| > 0 ==> boxes[0].offset == start
    ensures var boxes := Scan(data, start, end).value;
      forall i :: 0 <= i < |boxes| ==> start <= boxes[i].offset && (i == 0 || boxes[i].offset < end)
  {
    var boxes := Scan(data, start, end).value;
    ScanIsChained(data, start, end);
    forall i | 0 <= i < |boxes|
      ensures start <= boxes[i].offset && (i == 0 || boxes[i].offset < end)
    {
      if i > 0 {
        LinkedIncreasing(boxes, end, 0, i);
        assert boxes[i].offset == boxes[i - 1].offset + boxes[i - 1].length < end;
      }
    }
  }

  /** Where the cursor stands when the scan from `offset` stops: just past
      the last header it read, or past the partial header it failed on. */
  function ScanCursor(data: seq<byte>, offset: nat, end: nat): (r: nat)
    ensures offset <= r
    decreases if offset < |data| then |data| - offset else 0
  {
    match HeaderAt(data, offset)
    case Ok(Some(h)) =>
      if offset + h.length < end && h.length != 0 then ScanCursor(data, offset + h.length, end)
      else HeaderEnd(data, offset)
    case _ => HeaderEnd(data, offset)
  }

  lemma {:induction false} ScanCursorOn(data: seq<byte>, offset: nat, end: nat, h: BoxHeader)
    requires HeaderAt(data, offset) == Ok(Some(h))
    ensures ScanCursor(data, offset, end)
         == if offset + h.length < end && h.length != 0 then ScanCursor(data, offset + h.length, end)
            else HeaderEnd(data, offset)
  {
  }

  lemma {:induction false} ScanCursorOff(data: seq<byte>, offset: nat, end: nat)
    requires !(HeaderAt(data, offset).Ok? && HeaderAt(data, offset).value.Some?)
    ensures ScanCursor(data, offset, end) == HeaderEnd(data, offset)
  {
  }

  /** Where a successful scan from `start` that found `boxes` leaves the
      cursor: at `start` when it found nothing; past the header of its last
      box when that box reaches `end`; otherwise where its last box ends. */
  ghost function CursorAfter(data: seq<byte>, start: nat, end: nat, boxes: seq<Box>): nat {
    if boxes == [] then start
    else
      var last := boxes[|boxes| - 1];
      if last.offset + last.length >= end then HeaderEnd(data, last.offset)
      else last.offset + last.length
  }

  /** A successful scan leaves the cursor where CursorAfter says. */
  lemma {:induction false} ScanCursorOfScan(data: seq<byte>, offset: nat, end: nat)
    requires Scan(data, offset, end).Ok?
    ensures ScanCursor(data, offset, end) == CursorAfter(data, offset, end, Scan(data, offset, end).value)
    decreases if offset < |data| then |data| - offset else 0
  {
    var header := HeaderAt(data, offset);
    if header.Ok? && header.value.Some? {
      var h := header.value.value;
      var next := offset + h.length;
      if next >= end {
        ScanCursorLast(data, offset, end, h);
      } else {
        ScanCursorOfScan(data, next, end);
        ScanCursorNext(data, offset, end, h);
      }
    } else {
      ScanCursorNone(data, offset, end);
    }
  }

  lemma {:induction false} ScanCursorNone(data: seq<byte>, offset: nat, end: nat)
    requires Scan(data, offset, end).Ok?
    requires !(HeaderAt(data, offset).Ok? && HeaderAt(data, offset).value.Some?)
    ensures Scan(data, offset, end) == Ok([]) && ScanCursor(data, offset, end) == offset
  {
    ScanStop(data, offset, end);
    ScanCursorOff(data, offset, end);
    HeaderEndPast(data, offset);
  }

  lemma {:induction false} ScanCursorLast(data: seq<byte>, offset: nat, end: nat, h: BoxHeader)
    requires HeaderAt(data, offset) == Ok(Some(h)) && offset + h.length >= end
    ensures Scan(data, offset, end) == Ok([Box(h.boxType, offset, h.length)])
    ensures ScanCursor(data, offset, end) == HeaderEnd(data, offset)
  {
    ScanStep(data, offset, end, h);
    ScanCursorOn(data, offset, end, h);
  }

  lemma {:induction false} ScanCursorNext(data: seq<byte>, offset: nat, end: nat, h: BoxHeader)
    requires Scan(data, offset, end).Ok?
    requires HeaderAt(data, offset) == Ok(Some(h)) && offset + h.length < end
    requires ScanCursor(data, offset + h.length, end)
          == CursorAfter(data, offset + h.length, end, Scan(data, offset + h.length, end).value)
    ensures ScanCursor(data, offset, end) == CursorAfter(data, offset, end, Scan(data, offset, end).value)
  {
    var next := offset + h.length;
    var box := Box(h.boxType, offset, h.length);
    ScanStep(data, offset, end, h);
    ScanCursorOn(data, offset, end, h);
    var rest := Scan(data, next, end).value;
    var boxes := [box] + rest;
    assert Scan(data, offset, end).value == boxes;
    if rest == [] {
      ScanCursorEmpty(data, next, end);
    } else {
      assert boxes[|boxes| - 1] == rest[|rest| - 1];
    }
  }

  lemma {:induction false} ScanCursorEmpty(data: seq<byte>, offset: nat, end: nat)
    requires Scan(data, offset, end) == Ok([])
    ensures ScanCursor(data, offset, end) == offset
  {
    var header := HeaderAt(data, offset);
    if header.Ok? && header.value.Some? {
      ScanStep(data, offset, end, header.value.value);
      assert false;
    }
    ScanCursorOff(data, offset, end);
    HeaderEndPast(data, offset);
  }

  /** At or past the end of the data a header read reads nothing. */
  lemma {:induction false} HeaderEndPast(data: seq<byte>, at: nat)
    requires at >= |data|
    ensures HeaderEnd(data, at) == at
  {
  }

  lemma {:induction false} ScanCursorPast(data: seq<byte>, offset: nat, end: nat, h: BoxHeader)
    requires HeaderAt(data, offset) == Ok(Some(h)) && h.length > 0 && offset + h.length < end
    ensures ScanCursor(data, offset, end) == ScanCursor(data, offset + h.length, end)
  {
    ScanCursorOn(data, offset, end, h);
  }

  /** A walk does not move where the scan stops. */
  lemma {:induction false} ScanCursorWalk(data: seq<byte>, boxes: seq<Box>, start: nat, at: nat, end: nat)
    requires WalksTo(data, boxes, start, at, end)
    ensures ScanCursor(data, start, end) == ScanCursor(data, at, end)
    decreases |boxes|
  {
    if boxes == [] {
      assert at == start;
    } else {
      var h := BoxHeader(boxes[0].length, boxes[0].boxType);
      WalksToTail(data, boxes, start, at, end);
      ScanCursorWalk(data, boxes[1..], start + h.length, at, end);
      ScanCursorPast(data, start, end, h);
    }
  }

  /** A failed scan leaves the cursor past the partial or zero-length header
      it failed on. */
  lemma {:induction false} ScanCursorOfFailure(data: seq<byte>, boxes: seq<Box>, start: nat, at: nat, end: nat, e: Error)
    requires WalksTo(data, boxes, start, at, end) && FailsAt(data, at, end, e)
    ensures ScanCursor(data, start, end) == HeaderEnd(data, at)
  {
    ScanCursorWalk(data, boxes, start, at, end);
    if e == Stalled {
      ScanCursorOn(data, at, end, HeaderAt(data, at).value.value);
    } else {
      ScanCursorOff(data, at, end);
    }
  }

  /** The index the scanner builds: type -> offsets of the boxes of that type,
      each newly found box appended to its type's list (setdefault().append()). */
  type BoxIndex = map<FourCC, seq<nat>>

  function IndexOf(boxes: seq<Box>): BoxIndex {
    if boxes == [] then map[]
    else
      var index := IndexOf(boxes[..|boxes| - 1]);
      Record(index, boxes[|boxes| - 1])
  }

  /** The index after recording one more box. */
  function Record(index: BoxIndex, b: Box): BoxIndex
  {
    index[b.boxType := (if b.boxType in index then index[b.boxType] else []) + [b.offset]]
  }

  /** The offsets of the boxes of type `t`, in the order the boxes come. */
  function OffsetsOf(boxes: seq<Box>, t: FourCC): seq<nat> {
    if boxes == [] then []
    else (if boxes[0].boxType == t then [boxes[0].offset] else []) + OffsetsOf(boxes[1..], t)
  }

  lemma {:induction false} OffsetsOfSnoc(boxes: seq<Box>, b: Box, t: FourCC)
    ensures OffsetsOf(boxes + [b], t) == OffsetsOf(boxes, t) + (if b.boxType == t then [b.offset] else [])
  {
    if boxes != [] {
      assert (boxes + [b])[1..] == boxes[1..] + [b];
      OffsetsOfSnoc(boxes[1..], b, t);
    }
  }

  /** The index holds exactly the types that occur, and under each type the
      offsets of its boxes in discovery order: earlier entries are never
      overwritten. */
  lemma {:induction false} IndexIsFilter(boxes: seq<Box>, t: FourCC)
    ensures t in IndexOf(boxes) <==> OffsetsOf(boxes, t) != []
    ensures t in IndexOf(boxes) ==> IndexOf(boxes)[t] == OffsetsOf(boxes, t)
  {
    if boxes != [] {
      var init := boxes[..|boxes| - 1];
      var b := boxes[|boxes| - 1];
      assert boxes == init + [b];
      IndexIsFilter(init, t);
      OffsetsOfSnoc(init, b, t);
    }
  }

  lemma {:induction false} OffsetsOfMember(boxes: seq<Box>, t: FourCC, k: nat)
    requires k < |OffsetsOf(boxes, t)|
    ensures exists i :: 0 <= i < |boxes| && boxes[i].boxType == t && boxes[i].offset == OffsetsOf(boxes, t)[k]
  {
    var head := if boxes[0].boxType == t then [boxes[0].offset] else [];
    if k < |head| {
      assert boxes[0].offset == OffsetsOf(boxes, t)[k];
    } else {
      OffsetsOfMember(boxes[1..], t, k - |head|);
      var i :| 0 <= i < |boxes[1..]| && boxes[1..][i].boxType == t && boxes[1..][i].offset == OffsetsOf(boxes[1..], t)[k - |head|];
      assert boxes[i + 1] == boxes[1..][i];
    }
  }

  ghost predicate StrictlyIncreasing(s: seq<nat>) {
    forall i, j :: 0 <= i < j < |s| ==> s[i] < s[j]
  }

  /** Filtering boxes with increasing offsets gives increasing offsets. */
  lemma {:induction false} OffsetsOfIncreasing(boxes: seq<Box>, t: FourCC)
    requires forall i, j :: 0 <= i < j < |boxes| ==> boxes[i].offset < boxes[j].offset
    ensures StrictlyIncreasing(OffsetsOf(boxes, t))
  {
    if boxes != [] {
      var tail := boxes[1..];
      OffsetsOfIncreasing(tail, t);
      var rest := OffsetsOf(tail, t);
      forall k | 0 <= k < |rest|
        ensures boxes[0].offset < rest[k]
      {
        OffsetsOfMember(tail, t, k);
        var i :| 0 <= i < |tail| && tail[i].boxType == t && tail[i].offset == rest[k];
        assert tail[i] == boxes[i + 1];
      }
    }
  }

  /** Every per-type list of a scanned index is strictly increasing. */
  lemma {:induction false} ScannedOffsetsIncrease(data: seq<byte>, start: nat, end: nat, t: FourCC)
    requires Scan(data, start, end).Ok?
    requires t in IndexOf(Scan(data, start, end).value)
    ensures StrictlyIncreasing(IndexOf(Scan(data, start, end).value)[t])
  {
    var boxes := Scan(data, start, end).value;
    ScanIsChained(data, start, end);
    forall i, j | 0 <= i < j < |boxes|
      ensures boxes[i].offset < boxes[j].offset
    {
      LinkedIncreasing(boxes, end, i, j);
    }
    OffsetsOfIncreasing(boxes, t);
    IndexIsFilter(boxes, t);
  }

  /** listBoxes: the index of a scan from `start` to `end`. */
  function ListBoxesSpec(data: seq<byte>, start: nat, end: nat): Result<BoxIndex> {
    match Scan(data, start, end)
    case Ok(boxes) => Ok(IndexOf(boxes))
    case Err(e) => Err(e)
  }

  /** The scan as a loop runs it: the index built so far is extended box by
      box until the walk stops. */
  function ScanInto(data: seq<byte>, offset: nat, end: nat, index: BoxIndex): Result<BoxIndex>
    decreases if offset < |data| then |data| - offset else 0
  {
    match HeaderAt(data, offset)
    case Err(e) => Err(e)
    case Ok(None) => Ok(index)
    case Ok(Some(h)) =>
      var recorded := Record(index, Box(h.boxType, offset, h.length));
      var next := offset + h.length;
      if next >= end then Ok(recorded)
      else if h.length == 0 then Err(Stalled)
      else ScanInto(data, next, end, recorded)
  }

  /** Extending the index of the boxes already found gives the index of
      those boxes followed by the ones the scan finds. */
  lemma {:induction false} ScanIntoIndex(data: seq<byte>, offset: nat, end: nat, found: seq<Box>)
    ensures ScanInto(data, offset, end, IndexOf(found)) == IndexAfter(found, Scan(data, offset, end))
    decreases if offset < |data| then |data| - offset else 0
  {
    var header := HeaderAt(data, offset);
    if header.Ok? && header.value.Some? {
      var h := header.value.value;
      var box := Box(h.boxType, offset, h.length);
      var next := offset + h.length;
      var stop, stalled := next >= end, h.length == 0;
      var scan, into := Scan(data, next, end), ScanInto(data, next, end, Record(IndexOf(found), box));
      IndexOfSnoc(found, box);
      if !stop && !stalled {
        ScanIntoIndex(data, next, end, found + [box]);
      }
      ScanStep(data, offset, end, h);
      ScanIntoStep(data, offset, end, IndexOf(found), h);
      assert ScanInto(data, offset, end, IndexOf(found))
          == if stop then Ok(Record(IndexOf(found), box)) else if stalled then Err(Stalled) else into;
      assert Scan(data, offset, end) == if stop then Ok([box]) else if stalled then Err(Stalled) else Prepend([box], scan);
      IndexAfterStep(found, box, stop, stalled, scan, into);
    } else {
      ScanIntoStop(data, offset, end, IndexOf(found));
      ScanStop(data, offset, end);
      assert found + [] == found;
    }
  }

  /** One found box, on both sides of ScanIntoIndex: recording it ends the
      scan, stalls it, or goes on with the rest. */
  lemma {:induction false} IndexAfterStep(found: seq<Box>, box: Box, stop: bool, stalled: bool,
                                          scan: Result<seq<Box>>, into: Result<BoxIndex>)
    requires IndexOf(found + [box]) == Record(IndexOf(found), box)
    requires !stop && !stalled ==> into == IndexAfter(found + [box], scan)
    ensures (if stop then Ok(Record(IndexOf(found), box)) else if stalled then Err(Stalled) else into)
         == IndexAfter(found, if stop then Ok([box]) else if stalled then Err(Stalled) else Prepend([box], scan))
  {
    if !stop && !stalled {
      IndexAfterCons(found, box, scan);
    }
  }

  /** The index of the boxes already found followed by those of a scan. */
  function IndexAfter(found: seq<Box>, scan: Result<seq<Box>>): Result<BoxIndex> {
    match scan
    case Ok(rest) => Ok(IndexOf(found + rest))
    case Err(e) => Err(e)
  }

  lemma {:induction false} IndexAfterCons(found: seq<Box>, box: Box, scan: Result<seq<Box>>)
    ensures IndexAfter(found + [box], scan) == IndexAfter(found, Prepend([box], scan))
  {
    match scan
    case Ok(rest) =>
      assert found + [box] + rest == found + ([box] + rest);
    case Err(_) =>
  }

  /** One step of the scan, from a header that was read. */
  lemma {:induction false} ScanStep(data: seq<byte>, offset: nat, end: nat, h: BoxHeader)
    requires HeaderAt(data, offset) == Ok(Some(h))
    ensures Scan(data, offset, end)
         == if offset + h.length >= end then Ok([Box(h.boxType, offset, h.length)])
            else if h.length == 0 then Err(Stalled)
            else Prepend([Box(h.boxType, offset, h.length)], Scan(data, offset + h.length, end))
  {
  }

  lemma {:induction false} ScanStop(data: seq<byte>, offset: nat, end: nat)
    requires !(HeaderAt(data, offset).Ok? && HeaderAt(data, offset).value.Some?)
    ensures Scan(data, offset, end) == if HeaderAt(data, offset).Err? then Err(HeaderAt(data, offset).error) else Ok([])
  {
  }

  lemma {:induction false} ScanIntoStop(data: seq<byte>, offset: nat, end: nat, index: BoxIndex)
    requires !(HeaderAt(data, offset).Ok? && HeaderAt(data, offset).value.Some?)
    ensures ScanInto(data, offset, end, index)
         == if HeaderAt(data, offset).Err? then Err(HeaderAt(data, offset).error) else Ok(index)
  {
  }

  lemma {:induction false} ScanIntoStep(data: seq<byte>, offset: nat, end: nat, index: BoxIndex, h: BoxHeader)
    requires HeaderAt(data, offset) == Ok(Some(h))
    ensures ScanInto(data, offset, end, index)
         == if offset + h.length >= end then Ok(Record(index, Box(h.boxType, offset, h.length)))
            else if h.length == 0 then Err(Stalled)
            else ScanInto(data, offset + h.length, end, Record(index, Box(h.boxType, offset, h.length)))
  {
  }

  /** The pass of the scanning loop that read a header of a box reaching
      `end`: the box is recorded and the scan ends there. */
  lemma {:induction false} ScanLoopEnd(data: seq<byte>, offset: nat, end: nat, index: BoxIndex, h: BoxHeader,
                                       goal: Result<BoxIndex>, stop: nat)
    requires HeaderAt(data, offset) == Ok(Some(h)) && offset + h.length >= end
    requires ScanInto(data, offset, end, index) == goal && ScanCursor(data, offset, end) == stop
    ensures goal == Ok(Record(index, Box(h.boxType, offset, h.length))) && stop == HeaderEnd(data, offset)
  {
    ScanIntoStep(data, offset, end, index, h);
    ScanCursorOn(data, offset, end, h);
  }

  /** The pass that read a zero-length header before `end` stalls. */
  lemma {:induction false} ScanLoopStall(data: seq<byte>, offset: nat, end: nat, index: BoxIndex, h: BoxHeader,
                                         goal: Result<BoxIndex>, stop: nat)
    requires HeaderAt(data, offset) == Ok(Some(h)) && offset + h.length < end && h.length == 0
    requires ScanInto(data, offset, end, index) == goal && ScanCursor(data, offset, end) == stop
    ensures goal == Err(Stalled) && stop == HeaderEnd(data, offset)
  {
    ScanIntoStep(data, offset, end, index, h);
    ScanCursorOn(data, offset, end, h);
  }

  /** The pass that read any other header goes on from the next offset with
      the box recorded, the same outcome and the same final cursor. */
  lemma {:induction false} ScanLoopNext(data: seq<byte>, offset: nat, end: nat, index: BoxIndex, h: BoxHeader,
                                        goal: Result<BoxIndex>, stop: nat)
    requires HeaderAt(data, offset) == Ok(Some(h)) && offset + h.length < end && h.length != 0
    requires ScanInto(data, offset, end, index) == goal && ScanCursor(data, offset, end) == stop
    ensures offset < |data|
    ensures ScanInto(data, offset + h.length, end, Record(index, Box(h.boxType, offset, h.length))) == goal
    ensures ScanCursor(data, offset + h.length, end) == stop
  {
    ScanIntoStep(data, offset, end, index, h);
    ScanCursorOn(data, offset, end, h);
  }

  /** The pass of the scanning loop that read no header ends the loop. */
  lemma {:induction false} ScanLoopStop(data: seq<byte>, offset: nat, end: nat, index: BoxIndex,
                                        goal: Result<BoxIndex>, stop: nat)
    requires !(HeaderAt(data, offset).Ok? && HeaderAt(data, offset).value.Some?)
    requires ScanInto(data, offset, end, index) == goal && ScanCursor(data, offset, end) == stop
    ensures goal == (if HeaderAt(data, offset).Err? then Err(HeaderAt(data, offset).error) else Ok(index))
    ensures stop == HeaderEnd(data, offset)
  {
    ScanIntoStop(data, offset, end, index);
    ScanCursorOff(data, offset, end);
  }

  lemma {:induction false} IndexOfSnoc(found: seq<Box>, box: Box)
    ensures IndexOf(found + [box]) == Record(IndexOf(found), box)
  {
    assert (found + [box])[..|found|] == found;
  }

  /** A scan run as a loop from an empty index builds the index of the scan. */
  lemma {:induction false} ScanIntoListBoxes(data: seq<byte>, start: nat, end: nat)
    ensures ScanInto(data, start, end, map[]) == ListBoxesSpec(data, start, end)
  {
    ScanIntoIndex(data, start, end, []);
    match Scan(data, start, end)
    case Ok(rest) =>
      assert [] + rest == rest;
    case Err(_) =>
  }

  /** The `index`-th offset recorded under `t`, if there is one. */
  function Lookup(boxes: BoxIndex, t: FourCC, index: nat): (r: Result<nat>)
    ensures r.Ok? <==> t in boxes && index < |boxes[t]|
    ensures r.Ok? ==> r.value == boxes[t][index]
    ensures r.Err? ==> r.error == MissingBox
  {
    if t in boxes && index < |boxes[t]| then Ok(boxes[t][index]) else Err(MissingBox)
  }

  /** listSubBoxes: scan the inside of the `index`-th box of type `t`, from the
      end of its header to its offset plus its length. */
  function SubBoxesSpec(data: seq<byte>, boxes: BoxIndex, t: FourCC, index: nat): Result<BoxIndex> {
    var offset :- Lookup(boxes, t, index);
    match HeaderAt(data, offset)
    case Err(e) => Err(e)
    case Ok(None) => Err(NoBox)
    case Ok(Some(h)) =>
      if h.boxType != t then Err(TypeMismatch)
      else ListBoxesSpec(data, HeaderEnd(data, offset), offset + h.length)
  }

  /** The sub-box scan of a box whose header was read covers the bytes from
      the end of its header to its offset plus its length; a box of another
      type is a mismatch. */
  lemma {:induction false} SubBoxesOfHeader(data: seq<byte>, boxes: BoxIndex, t: FourCC, index: nat, h: BoxHeader)
    requires t in boxes && index < |boxes[t]|
    requires HeaderAt(data, boxes[t][index]) == Ok(Some(h))
    ensures SubBoxesSpec(data, boxes, t, index)
         == if h.boxType != t then Err(TypeMismatch)
            else ListBoxesSpec(data, HeaderEnd(data, boxes[t][index]), boxes[t][index] + h.length)
  {
  }

  /** Where listSubBoxes leaves the cursor: untouched, at `from`, when the
      box is not in the index; past the header it read when that header is
      missing, cut short or of another type; otherwise where the scan of the
      inside stops. */
  function SubBoxesCursor(data: seq<byte>, boxes: BoxIndex, t: FourCC, index: nat, from: nat): nat {
    match Lookup(boxes, t, index)
    case Err(_) => from
    case Ok(offset) =>
      match HeaderAt(data, offset)
      case Ok(Some(h)) =>
        if h.boxType != t then HeaderEnd(data, offset)
        else ScanCursor(data, HeaderEnd(data, offset), offset + h.length)
      case _ => HeaderEnd(data, offset)
  }

  /** The sub-box scan of a box of type `t` whose header was read: the scan
      of its inside, which also decides where the cursor stops. */
  lemma {:induction false} SubBoxesOfType(data: seq<byte>, boxes: BoxIndex, t: FourCC, index: nat, from: nat, h: BoxHeader)
    requires t in boxes && index < |boxes[t]|
    requires HeaderAt(data, boxes[t][index]) == Ok(Some(h)) && h.boxType == t
    ensures var o := boxes[t][index];
      && SubBoxesSpec(data, boxes, t, index) == ListBoxesSpec(data, HeaderEnd(data, o), o + h.length)
      && SubBoxesCursor(data, boxes, t, index, from) == ScanCursor(data, HeaderEnd(data, o), o + h.length)
  {
  }

  /** Every sub-box the scan records starts at or after the end of the
      parent's header; all but the one found right there start before the
      parent's end. */
  lemma {:induction false} SubBoxesWithin(data: seq<byte>, boxes: BoxIndex, t: FourCC, index: nat)
    requires SubBoxesSpec(data, boxes, t, index).Ok?
    ensures t in boxes && index < |boxes[t]|
    ensures HeaderAt(data, boxes[t][index]).Ok? && HeaderAt(data, boxes[t][index]).value.Some?
    ensures HeaderAt(data, boxes[t][index]).value.value.boxType == t
    ensures var o := boxes[t][index];
      var h := HeaderAt(data, o).value.value;
      var r := SubBoxesSpec(data, boxes, t, index).value;
      forall u, k :: u in r && 0 <= k < |r[u]| ==>
        HeaderEnd(data, o) <= r[u][k] && (r[u][k] == HeaderEnd(data, o) || r[u][k] < o + h.length)
  {
    var o := boxes[t][index];
    var h := HeaderAt(data, o).value.value;
    var start := HeaderEnd(data, o);
    var end := o + h.length;
    var found := Scan(data, start, end).value;
    var r := SubBoxesSpec(data, boxes, t, index).value;
    assert r == IndexOf(found);
    ScanWithin(data, start, end);
    forall u, k | u in r && 0 <= k < |r[u]|
      ensures start <= r[u][k] && (r[u][k] == start || r[u][k] < end)
    {
      IndexIsFilter(found, u);
      OffsetsOfMember(found, u, k);
      var i :| 0 <= i < |found| && found[i].boxType == u && found[i].offset == OffsetsOf(found, u)[k];
    }
  }

  /** The first sub-box is recorded even when the parent has no room for it:
      an empty `moov` followed by a `trak` lists that `trak` as its child. */
  lemma {:induction false} EmptyBoxListsSibling()
    ensures var data := EncodeHeader(8, MOOV, false) + EncodeHeader(8, TRAK, false);
      SubBoxesSpec(data, map[MOOV := [0]], MOOV, 0) == Ok(map[TRAK := [8]])
  {
    assert Pow256(4) == 256 * Pow256(3);
    assert Pow256(8) == 256 * Pow256(7);
    var a := EncodeHeader(8, MOOV, false);
    var b := EncodeHeader(8, TRAK, false);
    var data := a + b;
    HeaderRoundTrip([], 8, MOOV, false, b);
    assert [] + a + b == data;
    HeaderRoundTrip(a, 8, TRAK, false, []);
    assert a + b + [] == data;
    assert HeaderAt(data, 0) == Ok(Some(BoxHeader(8, MOOV))) && HeaderEnd(data, 0) == 8;
    ScanStep(data, 8, 8, BoxHeader(8, TRAK));
    assert Scan(data, 8, 8) == Ok([Box(TRAK, 8, 8)]);
    var trak := Box(TRAK, 8, 8);
    assert [trak][..0] == [];
    assert IndexOf([trak]) == Record(IndexOf([]), trak);
    assert Record(map[], trak) == map[TRAK := [] + [8]];
    assert [] + [8] == [8];
    assert ListBoxesSpec(data, 8, 8) == Ok(map[TRAK := [8]]);
  }
}
