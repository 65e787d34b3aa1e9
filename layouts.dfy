/** The fixed-layout box decoder. Each supported box type has a table of
    fields, each a big-endian number of 1, 2 or 4 bytes, a run of raw bytes, or
    (for the handler name of 'hdlr') an empty format that reads nothing. The
    payload right after the header is cut into the fields by position, field k
    starting at the sum of the widths before it. Widths follow the table in
    mp4.py, which follows the mp4-layout.txt description rather than
    ISO/IEC 14496-12 (sections 4.3, 8.2.2, 8.3.2 and 8.4.3). */
module Layouts {
  import opened Results
  import opened Bytes
  import opened Boxes

  const HDLR: FourCC := [0x68, 0x64, 0x6c, 0x72]  // "hdlr"
  const MVHD: FourCC := [0x6d, 0x76, 0x68, 0x64]  // "mvhd"
  const TKHD: FourCC := [0x74, 0x6b, 0x68, 0x64]  // "tkhd"

  /** A struct format code: a big-endian unsigned number ('B', 'H', 'I'), a run
      of raw bytes ('Ns'), or the empty code '' that reads and yields nothing. */
  datatype Kind = Unsigned | Text | Empty

  datatype Format = Format(kind: Kind, width: nat)

  const U8: Format := Format(Unsigned, 1)     // 'B'
  const U16: Format := Format(Unsigned, 2)    // 'H'
  const U32: Format := Format(Unsigned, 4)    // 'I'
  const NoFormat: Format := Format(Empty, 0)  // ''

  function Chars(n: nat): Format {
    Format(Text, n)                           // 'Ns'
  }

  datatype Field = Field(format: Format, name: string)

  function Width(f: Format): nat {
    f.width
  }

  /** The number of bytes the layout's struct reads (struct.calcsize, no padding with '>'). */
  function Size(layout: seq<Field>): nat {
    if layout == [] then 0 else Width(layout[0].format) + Size(layout[1..])
  }

  /** Where field k starts in the payload: the sum of the widths before it. */
  function Offset(layout: seq<Field>, k: nat): nat
    requires k <= |layout|
  {
    if k == 0 then 0 else Width(layout[0].format) + Offset(layout[1..], k - 1)
  }

  datatype Value = Num(n: nat) | Raw(bytes: seq<byte>)

  function DecodeField(f: Format, bytes: seq<byte>): Value {
    if f.kind == Text then Raw(bytes) else Num(BigEndian(bytes))
  }

  /** The fields of `layout` read from `payload` starting at `at`: one value per
      field with a non-empty format, in order, each over its own width. */
  function UnpackFrom(layout: seq<Field>, payload: seq<byte>, at: nat): seq<Value>
    requires at + Size(layout) <= |payload|
  {
    if layout == [] then []
    else
      var f := layout[0].format;
      var w := Width(f);
      (if f.kind == Empty then [] else [DecodeField(f, payload[at..at + w])])
        + UnpackFrom(layout[1..], payload, at + w)
  }

  lemma {:induction false} UnpackFromCons(layout: seq<Field>, payload: seq<byte>, at: nat)
    requires layout != [] && layout[0].format.kind != Empty
    requires at + Size(layout) <= |payload|
    ensures UnpackFrom(layout, payload, at)
         == [DecodeField(layout[0].format, payload[at..at + Width(layout[0].format)])]
            + UnpackFrom(layout[1..], payload, at + Width(layout[0].format))
  {
  }

  /** struct.unpack: the whole payload read as the layout. */
  function Unpack(layout: seq<Field>, payload: seq<byte>): seq<Value>
    requires |payload| == Size(layout)
  {
    UnpackFrom(layout, payload, 0)
  }

  ghost predicate AllFormatted(layout: seq<Field>) {
    forall k :: 0 <= k < |layout| ==> layout[k].format.kind != Empty
  }

  /** The number of values struct.unpack returns for the layout. */
  function ValueCount(layout: seq<Field>): nat {
    if layout == [] then 0 else (if layout[0].format.kind == Empty then 0 else 1) + ValueCount(layout[1..])
  }

  lemma {:induction false} UnpackCount(layout: seq<Field>, payload: seq<byte>, at: nat)
    requires at + Size(layout) <= |payload|
    ensures |UnpackFrom(layout, payload, at)| == ValueCount(layout)
  {
    if layout != [] {
      UnpackCount(layout[1..], payload, at + Width(layout[0].format));
    }
  }

  /** Field k of an unpacked payload is the field's format applied to the bytes
      at the sum of the earlier widths, over its own width. */
  lemma {:induction false} UnpackFieldAt(layout: seq<Field>, payload: seq<byte>, at: nat, k: nat)
    requires AllFormatted(layout)
    requires at + Size(layout) <= |payload|
    requires k < |layout|
    ensures at + Offset(layout, k) + Width(layout[k].format) <= |payload|
    ensures |UnpackFrom(layout, payload, at)| == |layout|
    ensures UnpackFrom(layout, payload, at)[k]
         == DecodeField(layout[k].format,
                        payload[at + Offset(layout, k)..at + Offset(layout, k) + Width(layout[k].format)])
  {
    UnpackCount(layout, payload, at);
    AllFormattedCount(layout);
    OffsetWithin(layout, k);
    if k > 0 {
      FormattedTail(layout);
      UnpackFieldAt(layout[1..], payload, at + Width(layout[0].format), k - 1);
      assert layout[1..][k - 1] == layout[k];
    }
  }

  /** Field k of struct.unpack's result, for a payload of the layout's size. */
  lemma {:induction false} UnpackField(layout: seq<Field>, payload: seq<byte>, k: nat)
    requires AllFormatted(layout)
    requires |payload| == Size(layout)
    requires k < |layout|
    ensures Offset(layout, k) + Width(layout[k].format) <= |payload|
    ensures |Unpack(layout, payload)| == |layout|
    ensures Unpack(layout, payload)[k]
         == DecodeField(layout[k].format, payload[Offset(layout, k)..Offset(layout, k) + Width(layout[k].format)])
  {
    UnpackFieldAt(layout, payload, 0, k);
  }

  lemma {:induction false} FormattedTail(layout: seq<Field>)
    requires AllFormatted(layout) && layout != []
    ensures AllFormatted(layout[1..])
  {
    forall j | 0 <= j < |layout| - 1
      ensures layout[1..][j].format.kind != Empty
    {
      assert layout[1..][j] == layout[j + 1];
    }
  }

  lemma {:induction false} OffsetWithin(layout: seq<Field>, k: nat)
    requires k < |layout|
    ensures Offset(layout, k) + Width(layout[k].format) <= Size(layout)
  {
    if k > 0 {
      OffsetWithin(layout[1..], k - 1);
      assert layout[1..][k - 1] == layout[k];
    }
  }

  /** Each field starts where the one before it ends. */
  lemma {:induction false} OffsetStep(layout: seq<Field>, k: nat)
    requires k < |layout|
    ensures Offset(layout, k + 1) == Offset(layout, k) + Width(layout[k].format)
  {
    if k > 0 {
      OffsetStep(layout[1..], k - 1);
      assert layout[1..][k - 1] == layout[k];
    }
  }

  lemma {:induction false} ValueCountSplit(layout: seq<Field>, k: nat)
    requires k <= |layout|
    ensures ValueCount(layout) == ValueCount(layout[..k]) + ValueCount(layout[k..])
  {
    if k > 0 {
      ValueCountSplit(layout[1..], k - 1);
      assert layout[..k][1..] == layout[1..][..k - 1];
      assert layout[1..][k - 1..] == layout[k..];
    }
  }

  lemma {:induction false} AllFormattedCount(layout: seq<Field>)
    requires AllFormatted(layout)
    ensures ValueCount(layout) == |layout|
  {
    if layout != [] {
      AllFormattedCount(layout[1..]);
    }
  }

  /** Values that fit the layout: one per field, raw bytes of the declared
      width for 's' fields, numbers below 256^width for the others. */
  ghost predicate Fits(layout: seq<Field>, values: seq<Value>) {
    && |values| == |layout|
    && (layout != [] ==>
          && layout[0].format.kind != Empty
          && FitsField(layout[0].format, values[0])
          && Fits(layout[1..], values[1..]))
  }

  predicate FitsField(f: Format, v: Value) {
    if f.kind == Text then v.Raw? && |v.bytes| == f.width else v.Num? && v.n < Pow256(Width(f))
  }

  function EncodeField(f: Format, v: Value): (e: seq<byte>)
    requires FitsField(f, v)
    ensures |e| == Width(f)
  {
    if f.kind == Text then v.bytes else ToBigEndian(v.n, Width(f))
  }

  /** struct.pack: the payload that a layout reads back as the given values. */
  function Pack(layout: seq<Field>, values: seq<Value>): (p: seq<byte>)
    requires Fits(layout, values)
    ensures |p| == Size(layout)
  {
    if layout == [] then []
    else EncodeField(layout[0].format, values[0]) + Pack(layout[1..], values[1..])
  }

  /** Unpacking a packed payload gives the values back. */
  lemma {:induction false} UnpackOfPack(layout: seq<Field>, values: seq<Value>)
    requires Fits(layout, values)
    ensures Unpack(layout, Pack(layout, values)) == values
  {
    if layout != [] {
      var f := layout[0].format;
      var head := EncodeField(f, values[0]);
      var tail := Pack(layout[1..], values[1..]);
      var p := Pack(layout, values);
      assert p == head + tail;
      assert p[0..|head|] == head;
      assert p[|head|..|head| + |tail|] == tail[0..|tail|];
      UnpackOfPack(layout[1..], values[1..]);
      UnpackFrame(layout[1..], p, |head|, tail, 0);
      DecodeOfEncode(f, values[0]);
      UnpackFromCons(layout, p, 0);
      assert values == [values[0]] + values[1..];
    }
  }

  /** What the layout reads depends only on the bytes it spans. */
  lemma {:induction false} UnpackFrame(layout: seq<Field>, p: seq<byte>, at: nat, q: seq<byte>, bt: nat)
    requires at + Size(layout) <= |p| && bt + Size(layout) <= |q|
    requires p[at..at + Size(layout)] == q[bt..bt + Size(layout)]
    ensures UnpackFrom(layout, p, at) == UnpackFrom(layout, q, bt)
  {
    if layout != [] {
      var w := Width(layout[0].format);
      var n := Size(layout);
      var rest := layout[1..];
      assert n == w + Size(rest);
      SameParts(p, at, q, bt, w, n);
      UnpackFrame(rest, p, at + w, q, bt + w);
      UnpackFrameStep(layout, p, at, q, bt);
    }
  }

  lemma {:induction false} UnpackFrameStep(layout: seq<Field>, p: seq<byte>, at: nat, q: seq<byte>, bt: nat)
    requires layout != [] && at + Size(layout) <= |p| && bt + Size(layout) <= |q|
    requires p[at..at + Width(layout[0].format)] == q[bt..bt + Width(layout[0].format)]
    requires UnpackFrom(layout[1..], p, at + Width(layout[0].format)) == UnpackFrom(layout[1..], q, bt + Width(layout[0].format))
    ensures UnpackFrom(layout, p, at) == UnpackFrom(layout, q, bt)
  {
    var w := Width(layout[0].format);
    var values := UnpackFrom(layout[1..], p, at + w);
    UnpackFromFirst(layout, p, at, p[at..at + w], values);
    UnpackFromFirst(layout, q, bt, p[at..at + w], values);
  }

  /** Two equal spans agree on their first `w` bytes and on the rest. */
  lemma {:induction false} SameParts(p: seq<byte>, at: nat, q: seq<byte>, bt: nat, w: nat, n: nat)
    requires w <= n && at + n <= |p| && bt + n <= |q| && p[at..at + n] == q[bt..bt + n]
    ensures p[at..at + w] == q[bt..bt + w] && p[at + w..at + n] == q[bt + w..bt + n]
  {
    PartOfSlice(p, at, at + n, 0, w);
    PartOfSlice(q, bt, bt + n, 0, w);
    PartOfSlice(p, at, at + n, w, n);
    PartOfSlice(q, bt, bt + n, w, n);
  }

  /** The values of a layout from its first field's bytes and the values of
      the rest. */
  lemma {:induction false} UnpackFromFirst(layout: seq<Field>, p: seq<byte>, at: nat, first: seq<byte>, values: seq<Value>)
    requires layout != [] && at + Size(layout) <= |p|
    requires p[at..at + Width(layout[0].format)] == first
    requires UnpackFrom(layout[1..], p, at + Width(layout[0].format)) == values
    ensures UnpackFrom(layout, p, at)
         == (if layout[0].format.kind == Empty then [] else [DecodeField(layout[0].format, first)]) + values
  {
  }

  lemma {:induction false} DecodeOfEncode(f: Format, v: Value)
    requires FitsField(f, v)
    ensures DecodeField(f, EncodeField(f, v)) == v
  {
    if f.kind != Text {
      BigEndianOfToBigEndian(v.n, Width(f));
    }
  }

  // The width tables of mp4.py.

  const FtypLayout: seq<Field> := [
    Field(Chars(4), "major_brand"),
    Field(U32, "major_brand_version"),
    Field(Chars(4), "compatible_brand")
  ]

  const HdlrLayout: seq<Field> := [
    Field(U8, "version"),
    Field(Chars(3), "flags"),
    Field(Chars(4), "type"),
    Field(Chars(4), "subtype"),
    Field(Chars(4), "manufacturer"),
    Field(Chars(4), "reserved_flags"),
    Field(Chars(4), "reserved_mask"),
    Field(NoFormat, "component_name")
  ]

  const MvhdLayout: seq<Field> := [
    Field(U8, "version"),
    Field(Chars(3), "flags"),
    Field(U32, "creation_time"),
    Field(U32, "modification_time"),
    Field(U32, "time_scale"),
    Field(U32, "duration"),
    Field(U32, "playback_speed"),
    Field(U16, "volume"),
    Field(Chars(10), "reserved"),
    Field(U16, "A"),
    Field(U16, "B"),
    Field(U16, "U"),
    Field(U16, "C"),
    Field(U16, "D"),
    Field(U16, "V"),
    Field(U16, "X"),
    Field(U16, "Y"),
    Field(U16, "W"),
    Field(U32, "preview_time"),
    Field(U32, "preview_duration"),
    Field(U32, "poster_time"),
    Field(U32, "selection_time"),
    Field(U32, "selection_duration"),
    Field(U32, "current_time"),
    Field(U32, "next_track_id")
  ]

  const TkhdLayout: seq<Field> := [
    Field(U8, "version"),
    Field(Chars(3), "flags"),
    Field(U32, "creation_time"),
    Field(U32, "modification_time"),
    Field(U32, "track_id"),
    Field(Chars(8), "reserved"),
    Field(U32, "duration"),
    Field(Chars(4), "reserved1"),
    Field(U16, "position"),
    Field(U16, "track_id1"),
    Field(U16, "audio_volume"),
    Field(Chars(2), "reserved2"),
    Field(U16, "A"),
    Field(U16, "B"),
    Field(U16, "U"),
    Field(U16, "C"),
    Field(U16, "D"),
    Field(U16, "V"),
    Field(U16, "X"),
    Field(U16, "Y"),
    Field(U16, "W"),
    Field(U32, "width"),
    Field(U32, "height")
  ]

  /** boxDict: the width table of each supported box type. */
  function LayoutFor(t: FourCC): Option<seq<Field>> {
    if t == FTYP then Some(FtypLayout)
    else if t == HDLR then Some(HdlrLayout)
    else if t == MVHD then Some(MvhdLayout)
    else if t == TKHD then Some(TkhdLayout)
    else None
  }

  datatype NamedValue = NamedValue(name: string, value: Value)

  /** A decoded box: its type and its fields, named as in the width table. */
  datatype BoxRecord = BoxRecord(boxType: FourCC, fields: seq<NamedValue>)

  /** namedtuple._make: pair values with field names, refusing a count mismatch. */
  function Make(t: FourCC, layout: seq<Field>, values: seq<Value>): (r: Result<BoxRecord>)
    ensures r.Ok? <==> |values| == |layout|
    ensures r.Ok? ==> r.value.boxType == t && |r.value.fields| == |layout|
    ensures r.Ok? ==> forall k :: 0 <= k < |layout| ==> r.value.fields[k] == NamedValue(layout[k].name, values[k])
    ensures r.Err? ==> r.error == FieldCountMismatch
  {
    if |values| != |layout| then Err(FieldCountMismatch)
    else Ok(BoxRecord(t, Name(layout, values)))
  }

  /** Each value paired with the name of its field, in order. */
  function Name(layout: seq<Field>, values: seq<Value>): (r: seq<NamedValue>)
    requires |values| == |layout|
    ensures |r| == |layout|
    ensures forall k :: 0 <= k < |layout| ==> r[k] == NamedValue(layout[k].name, values[k])
  {
    if layout == [] then [] else [NamedValue(layout[0].name, values[0])] + Name(layout[1..], values[1..])
  }

  /** Reading and unpacking the payload of a `t` box whose header ends at `at`. */
  function PayloadAt(data: seq<byte>, at: nat, t: FourCC, layout: seq<Field>): Result<BoxRecord> {
    var payload := Slice(data, at, Size(layout));
    if payload == [] then Err(EmptyPayload)
    else if |payload| < Size(layout) then Err(ShortPayload)
    else Make(t, layout, Unpack(layout, payload))
  }

  /** readBoxOfType at `at` with the width table `table` looked up for `t`:
      the header must be present and of type `t`, the table must exist, and the
      payload must be read in full. */
  function DecodeWith(data: seq<byte>, at: nat, t: FourCC, table: Option<seq<Field>>): (r: Result<BoxRecord>)
    ensures r.Ok? ==> r.value.boxType == t && HeaderAt(data, at).Ok? && HeaderAt(data, at).value.Some?
                      && HeaderAt(data, at).value.value.boxType == t
    ensures HeaderAt(data, at) == Ok(None) ==> r == Err(NoBox)
    ensures HeaderAt(data, at).Ok? && HeaderAt(data, at).value.Some? && HeaderAt(data, at).value.value.boxType != t
            ==> r == Err(TypeMismatch)
    ensures (HeaderAt(data, at).Ok? && HeaderAt(data, at).value.Some? && HeaderAt(data, at).value.value.boxType == t
             && table.None?) ==> r == Err(UnknownBoxType)
  {
    match HeaderAt(data, at)
    case Err(e) => Err(e)
    case Ok(None) => Err(NoBox)
    case Ok(Some(h)) =>
      if h.boxType != t then Err(TypeMismatch)
      else match table
        case None => Err(UnknownBoxType)
        case Some(layout) => PayloadAt(data, HeaderEnd(data, at), t, layout)
  }

  /** readBoxOfType: decoding a `t` box with the width table of `t`. */
  function BoxOfTypeAt(data: seq<byte>, at: nat, t: FourCC): Result<BoxRecord> {
    DecodeWith(data, at, t, LayoutFor(t))
  }

  /** readBoxAutoType at `at`: the type is taken from the header. */
  function AutoTypeAt(data: seq<byte>, at: nat): Result<BoxRecord> {
    match HeaderAt(data, at)
    case Err(e) => Err(e)
    case Ok(None) => Err(NoBox)
    case Ok(Some(h)) =>
      match LayoutFor(h.boxType)
      case None => Err(UnknownBoxType)
      case Some(layout) => PayloadAt(data, HeaderEnd(data, at), h.boxType, layout)
  }

  /** readSubBox: the `index`-th box of type `t` of an index, decoded. */
  function SubBoxAt(data: seq<byte>, boxes: BoxIndex, t: FourCC, index: nat): Result<BoxRecord> {
    var offset :- Lookup(boxes, t, index);
    BoxOfTypeAt(data, offset, t)
  }

  /** Where readBoxOfType leaves the cursor: past the header it read, and
      past the payload bytes it read when the header is of type `t` and `t`
      has a width table. */
  function BoxOfTypeCursor(data: seq<byte>, at: nat, t: FourCC): nat {
    var end := HeaderEnd(data, at);
    match HeaderAt(data, at)
    case Ok(Some(h)) =>
      if h.boxType == t && LayoutFor(t).Some? then end + |Slice(data, end, Size(LayoutFor(t).value))|
      else end
    case _ => end
  }

  /** A box decoded in full leaves the cursor exactly one struct past its
      header; a payload cut short leaves it at the end of the data. */
  lemma {:induction false} BoxOfTypeConsumes(data: seq<byte>, at: nat, t: FourCC)
    ensures BoxOfTypeAt(data, at, t).Ok? ==>
      LayoutFor(t).Some? && BoxOfTypeCursor(data, at, t) == HeaderEnd(data, at) + Size(LayoutFor(t).value)
    ensures BoxOfTypeAt(data, at, t) == Err(ShortPayload) ==> BoxOfTypeCursor(data, at, t) == |data|
    ensures BoxOfTypeAt(data, at, t) == Err(EmptyPayload) ==> BoxOfTypeCursor(data, at, t) == HeaderEnd(data, at) >= |data|
  {
    var header := HeaderAt(data, at);
    if header.Ok? && header.value.Some? && header.value.value.boxType == t && LayoutFor(t).Some? {
      var end := HeaderEnd(data, at);
      var layout := LayoutFor(t).value;
      var payload := Slice(data, end, Size(layout));
      assert BoxOfTypeAt(data, at, t) == PayloadAt(data, end, t, layout);
      assert BoxOfTypeCursor(data, at, t) == end + |payload|;
    } else {
      PayloadNotReached(data, at, t);
    }
  }

  /** A box whose header is missing, cut short, of another type or without a
      width table fails before any payload is read. */
  lemma {:induction false} PayloadNotReached(data: seq<byte>, at: nat, t: FourCC)
    requires !(HeaderAt(data, at).Ok? && HeaderAt(data, at).value.Some?
               && HeaderAt(data, at).value.value.boxType == t && LayoutFor(t).Some?)
    ensures BoxOfTypeAt(data, at, t).Err?
    ensures BoxOfTypeAt(data, at, t).error !in {ShortPayload, EmptyPayload}
  {
  }

  /** Reading the type from the header decodes the same record as naming it. */
  lemma {:induction false} AutoTypeAgrees(data: seq<byte>, at: nat, h: BoxHeader)
    requires HeaderAt(data, at) == Ok(Some(h))
    ensures AutoTypeAt(data, at) == BoxOfTypeAt(data, at, h.boxType)
  {
  }

  /** Every width table but the handler's has a format for each field. */
  lemma {:induction false} LayoutFormatted(t: FourCC)
    requires LayoutFor(t).Some? && t != HDLR
    ensures AllFormatted(LayoutFor(t).value)
  {
    if t == FTYP {
      assert AllFormatted(FtypLayout);
    } else if t == MVHD {
      assert AllFormatted(MvhdLayout);
    } else {
      assert AllFormatted(TkhdLayout);
    }
  }

  /** Field k of a payload decoded at `end` is the field's format applied to
      the bytes at `end` plus the earlier widths, all of them inside the data. */
  lemma {:induction false} PayloadField(data: seq<byte>, end: nat, t: FourCC, layout: seq<Field>, k: nat)
    requires AllFormatted(layout) && k < |layout|
    requires PayloadAt(data, end, t, layout).Ok?
    ensures k < |PayloadAt(data, end, t, layout).value.fields|
    ensures end + Offset(layout, k) + Width(layout[k].format) <= |data|
    ensures PayloadAt(data, end, t, layout).value.fields[k]
         == NamedValue(layout[k].name,
                       DecodeField(layout[k].format, data[end + Offset(layout, k)..end + Offset(layout, k) + Width(layout[k].format)]))
  {
    PayloadValues(data, end, t, layout, k);
    UnpackSliceField(data, end, layout, k);
  }

  /** Field k of the payload at `end` is decoded from the bytes at `end` plus
      the earlier widths. */
  lemma {:induction false} UnpackSliceField(data: seq<byte>, end: nat, layout: seq<Field>, k: nat)
    requires AllFormatted(layout) && k < |layout|
    requires end + Size(layout) <= |data|
    ensures k < |Unpack(layout, data[end..end + Size(layout)])|
    ensures end + Offset(layout, k) + Width(layout[k].format) <= |data|
    ensures Unpack(layout, data[end..end + Size(layout)])[k]
         == DecodeField(layout[k].format, data[end + Offset(layout, k)..end + Offset(layout, k) + Width(layout[k].format)])
  {
    var payload := data[end..end + Size(layout)];
    var f := layout[k].format;
    var o := Offset(layout, k);
    UnpackField(layout, payload, k);
    PartOfSlice(data, end, end + Size(layout), o, o + Width(f));
  }

  /** A decoded payload was read in full, and pairs field k's name with the
      k-th unpacked value. */
  lemma {:induction false} PayloadValues(data: seq<byte>, end: nat, t: FourCC, layout: seq<Field>, k: nat)
    requires PayloadAt(data, end, t, layout).Ok? && k < |layout|
    ensures end + Size(layout) <= |data|
    ensures k < |Unpack(layout, data[end..end + Size(layout)])|
    ensures PayloadAt(data, end, t, layout).value.fields[k]
         == NamedValue(layout[k].name, Unpack(layout, data[end..end + Size(layout)])[k])
  {
  }

  /** Field k of a decoded box is the big-endian number (or raw bytes) at the
      payload offset given by the earlier widths. */
  lemma {:induction false} DecodedField(data: seq<byte>, at: nat, t: FourCC, layout: seq<Field>, k: nat)
    requires AllFormatted(layout) && k < |layout|
    requires DecodeWith(data, at, t, Some(layout)).Ok?
    ensures k < |DecodeWith(data, at, t, Some(layout)).value.fields|
    ensures HeaderEnd(data, at) + Offset(layout, k) + Width(layout[k].format) <= |data|
    ensures DecodeWith(data, at, t, Some(layout)).value.fields[k]
         == NamedValue(layout[k].name,
                       DecodeField(layout[k].format,
                                   data[HeaderEnd(data, at) + Offset(layout, k)..HeaderEnd(data, at) + Offset(layout, k) + Width(layout[k].format)]))
  {
    PayloadField(data, HeaderEnd(data, at), t, layout, k);
  }

  /** The track header's table: fully formatted, track_id is field 4 at offset 12. */
  lemma {:induction false} TkhdTable()
    ensures LayoutFor(TKHD) == Some(TkhdLayout) && AllFormatted(TkhdLayout)
    ensures 4 < |TkhdLayout| && TkhdLayout[4] == Field(U32, "track_id")
    ensures Offset(TkhdLayout, 4) == 12
  {
    TkhdOffset();
  }

  lemma {:induction false} TkhdOffset()
    ensures Offset(TkhdLayout, 4) == 12
  {
    var l := TkhdLayout;
    assert Width(l[0].format) == 1 && Width(l[1].format) == 3;
    assert Width(l[2].format) == 4 && Width(l[3].format) == 4;
    OffsetStep(l, 0);
    OffsetStep(l, 1);
    OffsetStep(l, 2);
    OffsetStep(l, 3);
  }

  /** The track id of a track header is the big-endian u32 at payload bytes 12..16. */
  lemma {:induction false} TkhdTrackId(data: seq<byte>, at: nat)
    requires BoxOfTypeAt(data, at, TKHD).Ok?
    ensures 4 < |BoxOfTypeAt(data, at, TKHD).value.fields|
    ensures HeaderEnd(data, at) + 16 <= |data|
    ensures BoxOfTypeAt(data, at, TKHD).value.fields[4]
         == NamedValue("track_id", Num(BigEndian(data[HeaderEnd(data, at) + 12..HeaderEnd(data, at) + 16])))
  {
    TkhdDecodesWithTable(data, at);
    TkhdField4(data, at);
  }

  lemma {:induction false} TkhdDecodesWithTable(data: seq<byte>, at: nat)
    ensures BoxOfTypeAt(data, at, TKHD) == DecodeWith(data, at, TKHD, Some(TkhdLayout))
  {
    TkhdTable();
  }

  lemma {:induction false} TkhdField4(data: seq<byte>, at: nat)
    requires DecodeWith(data, at, TKHD, Some(TkhdLayout)).Ok?
    ensures 4 < |DecodeWith(data, at, TKHD, Some(TkhdLayout)).value.fields|
    ensures HeaderEnd(data, at) + 16 <= |data|
    ensures DecodeWith(data, at, TKHD, Some(TkhdLayout)).value.fields[4]
         == NamedValue("track_id", Num(BigEndian(data[HeaderEnd(data, at) + 12..HeaderEnd(data, at) + 16])))
  {
    TkhdTable();
    DecodedField(data, at, TKHD, TkhdLayout, 4);
    var e := HeaderEnd(data, at);
    assert Width(TkhdLayout[4].format) == 4;
    assert DecodeField(U32, data[e + 12..e + 16]) == Num(BigEndian(data[e + 12..e + 16]));
  }

  /** The handler box never decodes: its table has 8 names but only 7 formats,
      so pairing them always fails once the header and payload are read. */
  lemma {:induction false} HdlrNeverDecodes(data: seq<byte>, at: nat)
    ensures BoxOfTypeAt(data, at, HDLR).Err?
  {
    var payload := Slice(data, HeaderEnd(data, at), Size(HdlrLayout));
    if |payload| == Size(HdlrLayout) {
      UnpackCount(HdlrLayout, payload, 0);
      HdlrValueCount();
    }
  }

  /** The handler table yields 7 values for its 8 names. */
  lemma {:induction false} HdlrValueCount()
    ensures ValueCount(HdlrLayout) == 7
  {
    var l := HdlrLayout;
    assert AllFormatted(l[..7]);
    AllFormattedCount(l[..7]);
    ValueCountSplit(l, 7);
    assert l[7..] == [Field(NoFormat, "component_name")];
  }

  /** A packed payload read right after `pre` unpacks to its values. */
  lemma {:induction false} PayloadRoundTrip(pre: seq<byte>, t: FourCC, layout: seq<Field>, values: seq<Value>, rest: seq<byte>)
    requires Fits(layout, values) && Size(layout) > 0
    ensures PayloadAt(pre + Pack(layout, values) + rest, |pre|, t, layout) == Make(t, layout, values)
    ensures Make(t, layout, values).Ok?
  {
    var payload := Pack(layout, values);
    SliceInside(pre, payload, rest, 0, |payload|);
    assert payload[0..|payload|] == payload;
    UnpackOfPack(layout, values);
  }

  /** An encoded box with a fully formatted table decodes to its values. */
  lemma {:induction false} DecodeRoundTrip(prefix: seq<byte>, length: nat, t: FourCC, extended: bool,
                        layout: seq<Field>, values: seq<Value>, rest: seq<byte>)
    requires length < Pow256(8)
    requires extended || (length != 1 && length < Pow256(4))
    requires Fits(layout, values) && Size(layout) > 0
    ensures HeaderAt(prefix + EncodeHeader(length, t, extended) + Pack(layout, values) + rest, |prefix|)
         == Ok(Some(BoxHeader(length, t)))
    ensures DecodeWith(prefix + EncodeHeader(length, t, extended) + Pack(layout, values) + rest, |prefix|, t, Some(layout))
         == Make(t, layout, values)
  {
    var header := EncodeHeader(length, t, extended);
    var payload := Pack(layout, values);
    var data := prefix + header + payload + rest;
    assert HeaderAt(data, |prefix|) == Ok(Some(BoxHeader(length, t))) && HeaderEnd(data, |prefix|) == |prefix + header| by {
      assert data == prefix + header + (payload + rest);
      HeaderRoundTrip(prefix, length, t, extended, payload + rest);
    }
    PayloadRoundTrip(prefix + header, t, layout, values, rest);
  }

  /** An encoded box of a supported type with a fully formatted table decodes
      to its values, whether named or taken from the header. */
  lemma {:induction false} BoxRoundTrip(prefix: seq<byte>, length: nat, t: FourCC, extended: bool,
                     layout: seq<Field>, values: seq<Value>, rest: seq<byte>)
    requires length < Pow256(8)
    requires extended || (length != 1 && length < Pow256(4))
    requires LayoutFor(t) == Some(layout) && Fits(layout, values) && Size(layout) > 0
    ensures var data := prefix + EncodeHeader(length, t, extended) + Pack(layout, values) + rest;
      && BoxOfTypeAt(data, |prefix|, t).Ok?
      && BoxOfTypeAt(data, |prefix|, t) == Make(t, layout, values)
      && AutoTypeAt(data, |prefix|) == Make(t, layout, values)
  {
    var data := prefix + EncodeHeader(length, t, extended) + Pack(layout, values) + rest;
    DecodeRoundTrip(prefix, length, t, extended, layout, values, rest);
    PayloadRoundTrip(prefix + EncodeHeader(length, t, extended), t, layout, values, rest);
    AutoTypeAgrees(data, |prefix|, BoxHeader(length, t));
  }
}
