/** Bytes, big-endian integers and the reads of a seekable byte source.
    A read of `n` bytes at position `at` returns at most `n` bytes: fewer when it
    reaches the end of the data, none when it starts at or past the end. */
module Bytes {

  type byte = x: int | 0 <= x < 256

  function Pow256(n: nat): (p: nat)
    ensures p >= 1
  {
    if n == 0 then 1 else 256 * Pow256(n - 1)
  }

  /** The unsigned integer whose big-endian encoding is `s`; the empty sequence
      is 0, as Python's int.from_bytes gives for a read that returned nothing. */
  function BigEndian(s: seq<byte>): nat {
    if s == [] then 0 else BigEndian(s[..|s| - 1]) * 256 + s[|s| - 1]
  }

  /** An n-byte big-endian number is below 256^n. */
  lemma {:induction false} BigEndianBound(s: seq<byte>)
    ensures BigEndian(s) < Pow256(|s|)
  {
    if s != [] {
      BigEndianBound(s[..|s| - 1]);
    }
  }

  /** The `width`-byte big-endian encoding of `n`. */
  function ToBigEndian(n: nat, width: nat): (s: seq<byte>)
    requires n < Pow256(width)
    ensures |s| == width
  {
    if width == 0 then [] else ToBigEndian(n / 256, width - 1) + [n % 256]
  }

  /** Decoding an encoding gives the number back. */
  lemma {:induction false} BigEndianOfToBigEndian(n: nat, width: nat)
    requires n < Pow256(width)
    ensures BigEndian(ToBigEndian(n, width)) == n
  {
    if width > 0 {
      var s := ToBigEndian(n, width);
      assert s[..width - 1] == ToBigEndian(n / 256, width - 1);
      BigEndianOfToBigEndian(n / 256, width - 1);
    }
  }

  /** Encoding a decoded sequence at its own width gives the sequence back. */
  lemma {:induction false} ToBigEndianOfBigEndian(s: seq<byte>)
    ensures BigEndian(s) < Pow256(|s|) && ToBigEndian(BigEndian(s), |s|) == s
  {
    BigEndianBound(s);
    if s != [] {
      var p := s[..|s| - 1];
      ToBigEndianOfBigEndian(p);
      assert BigEndian(s) / 256 == BigEndian(p);
      assert s == p + [s[|s| - 1]];
    }
  }

  /** The bytes returned by reading `n` bytes at position `at` of `data`. */
  function Slice(data: seq<byte>, at: nat, n: nat): seq<byte> {
    if at + n <= |data| then data[at..at + n]
    else if at < |data| then data[at..]
    else []
  }

  /** Two cursor positions from which every read returns the same bytes. */
  predicate SameView(data: seq<byte>, p: nat, q: nat) {
    p == q || (p >= |data| && q >= |data|)
  }

  /** Reading through the cursor after a read of `n` bytes is reading at the
      nominal position `q + n`, short reads included. */
  lemma {:induction false} ReadFromSameView(data: seq<byte>, p: nat, q: nat, n: nat)
    requires SameView(data, p, q)
    ensures Slice(data, p, n) == Slice(data, q, n)
    ensures SameView(data, p + |Slice(data, p, n)|, q + n)
  {
  }

  /** A read that lies inside the middle part of a concatenation returns that part's bytes. */
  lemma {:induction false} SliceInside(prefix: seq<byte>, mid: seq<byte>, rest: seq<byte>, k: nat, n: nat)
    requires k + n <= |mid|
    ensures Slice(prefix + mid + rest, |prefix| + k, n) == mid[k..k + n]
  {
    var data := prefix + mid + rest;
    var r := Slice(data, |prefix| + k, n);
    assert |r| == n;
    forall i | 0 <= i < n
      ensures r[i] == mid[k + i]
    {
      assert data[|prefix| + k + i] == mid[k + i];
    }
  }

  /** The big-endian unsigned integers of 4 and 8 bytes at a position. */
  function U32At(data: seq<byte>, at: nat): nat {
    BigEndian(Slice(data, at, 4))
  }

  function U64At(data: seq<byte>, at: nat): nat {
    BigEndian(Slice(data, at, 8))
  }

  /** A big-endian field encoded inside a concatenation decodes to its value. */
  lemma {:induction false} FieldInside(prefix: seq<byte>, mid: seq<byte>, rest: seq<byte>, k: nat, v: nat, w: nat)
    requires v < Pow256(w)
    requires k + w <= |mid| && mid[k..k + w] == ToBigEndian(v, w)
    ensures BigEndian(Slice(prefix + mid + rest, |prefix| + k, w)) == v
  {
    SliceInside(prefix, mid, rest, k, w);
    BigEndianOfToBigEndian(v, w);
  }

  /** Concatenation of a sequence of byte strings. */
  function Concat(items: seq<seq<byte>>): seq<byte>
  {
    if items == [] then [] else items[0] + Concat(items[1..])
  }

  /** Item `i` of equal-width items sits at `w * i` in their concatenation. */
  lemma {:induction false} ConcatFixedAt(items: seq<seq<byte>>, w: nat, i: nat)
    requires forall j :: 0 <= j < |items| ==> |items[j]| == w
    requires i < |items|
    ensures |Concat(items)| == w * |items|
    ensures w * i + w <= |Concat(items)|
    ensures Concat(items)[w * i..w * i + w] == items[i]
  {
    ConcatLength(items, w);
    MulMono(w, i + 1, |items|);
    MulSucc(w, i);
    var c := Concat(items);
    if i == 0 {
      assert c[..w] == items[0];
    } else {
      var tail := Concat(items[1..]);
      ConcatFixedAt(items[1..], w, i - 1);
      var o := w * (i - 1);
      MulSucc(w, i - 1);
      assert c == items[0] + tail;
      assert w * i == o + w;
      assert c[o + w..o + w + w] == tail[o..o + w];
    }
  }

  lemma {:induction false} MulMono(w: nat, a: nat, b: nat)
    requires a <= b
    ensures w * a <= w * b
  {
  }

  lemma {:induction false} MulSucc(w: nat, k: nat)
    ensures w * (k + 1) == w * k + w
  {
  }

  lemma {:induction false} ConcatLength(items: seq<seq<byte>>, w: nat)
    requires forall j :: 0 <= j < |items| ==> |items[j]| == w
    ensures |Concat(items)| == w * |items|
  {
    if items != [] {
      ConcatLength(items[1..], w);
      MulSucc(w, |items| - 1);
    }
  }

  /** Two parts that lie side by side in a slice are slices themselves. */
  lemma {:induction false} SplitAt(payload: seq<byte>, at: nat, head: seq<byte>, tail: seq<byte>)
    requires at + |head| + |tail| <= |payload| && payload[at..at + |head| + |tail|] == head + tail
    ensures payload[at..at + |head|] == head
    ensures payload[at + |head|..at + |head| + |tail|] == tail
  {
    PartOfSlice(payload, at, at + |head| + |tail|, 0, |head|);
    PartOfSlice(payload, at, at + |head| + |tail|, |head|, |head| + |tail|);
  }

  lemma {:induction false} PartOfSlice(s: seq<byte>, a: nat, b: nat, c: nat, d: nat)
    requires a <= b <= |s| && c <= d <= b - a
    ensures s[a..b][c..d] == s[a + c..a + d]
  {
    forall i | 0 <= i < d - c
      ensures s[a..b][c..d][i] == s[a + c..a + d][i]
    {
      assert s[a..b][c..d][i] == s[a..b][c + i] == s[a + c + i];
    }
  }

  /** A big-endian number encoded at `x` reads back as that number. */
  lemma {:induction false} WordAt(data: seq<byte>, x: nat, w: nat, v: nat)
    requires v < Pow256(w)
    requires x + w <= |data| && data[x..x + w] == ToBigEndian(v, w)
    ensures BigEndian(Slice(data, x, w)) == v
  {
    BigEndianOfToBigEndian(v, w);
  }
}
