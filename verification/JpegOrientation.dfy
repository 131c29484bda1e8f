/**
 The EXIF orientation of a JPEG: jpegOrientation in
 web/src/app/features/prepare/processing-algorithms.ts.

 The scan walks the marker segments (section B.1.1.4 of ITU-T T.81) to the first Exif APP1
 segment and reads the orientation entry of its first image file directory (section 2 of
 TIFF 6.0) in either byte order. `File` is an independent writer of such files; the round
 trip is the main result.
 */
module JpegOrientations {
  import opened Wrappers

  type Byte = x: int | 0 <= x < 256

  const SOI := 0xffd8
  const SOS: Byte := 0xda
  const EOI: Byte := 0xd9
  const APP1: Byte := 0xe1
  const EXIF := 0x45786966
  const ORIENTATION := 0x112
  const MAX_ENTRIES := 1024

  // The byte order marks "II" and "MM".
  function OrderMark(little: bool): nat { if little then 0x4949 else 0x4d4d }

  // ---------------------------------------------------------------------------
  // Reading
  // ---------------------------------------------------------------------------

  function U16(b: seq<Byte>, at: nat, little: bool): (v: nat)
    requires at + 2 <= |b|
    ensures v < 0x10000
  {
    var x: int, y: int := b[at], b[at + 1];
    if little then x + 256 * y else 256 * x + y
  }

  function U32(b: seq<Byte>, at: nat, little: bool): (v: nat)
    requires at + 4 <= |b|
    ensures v < 0x1_0000_0000
  {
    if little then U16(b, at, true) + 0x10000 * U16(b, at + 2, true)
    else 0x10000 * U16(b, at, false) + U16(b, at + 2, false)
  }

  // Every EXIF read names the segment it must stay in.
  function ExifU16(b: seq<Byte>, at: nat, little: bool, from: nat, to: nat): (v: nat)
    requires from <= at && at + 2 <= to <= |b|
    ensures v < 0x10000
  {
    U16(b, at, little)
  }

  function ExifU32(b: seq<Byte>, at: nat, little: bool, from: nat, to: nat): (v: nat)
    requires from <= at && at + 4 <= to <= |b|
    ensures v < 0x1_0000_0000
  {
    U32(b, at, little)
  }

  // What the directory entries n.. of an image file directory say.
  function EntriesSay(b: seq<Byte>, ifd: nat, n: nat, count: nat, little: bool, from: nat, to: nat): Option<nat>
    requires from <= ifd && ifd + 2 + count * 12 <= to <= |b| && n <= count
    decreases count - n
  {
    if n == count then Some(1)
    else
      var q := ifd + 2 + n * 12;
      if ExifU16(b, q, little, from, to) != ORIENTATION then EntriesSay(b, ifd, n + 1, count, little, from, to)
      else if ExifU16(b, q + 2, little, from, to) != 3 || ExifU32(b, q + 4, little, from, to) != 1 then None
      else
        var orientation := ExifU16(b, q + 8, little, from, to);
        if 1 <= orientation <= 8 then Some(orientation) else None
  }

  // What the Exif segment from its marker at p to its end says.
  function ExifSays(b: seq<Byte>, p: nat, end: nat): Option<nat>
    requires p + 10 <= end <= |b|
  {
    if end - p - 2 < 16 then None
    else
      var t := p + 10;
      var order := ExifU16(b, t, false, p, end);
      var little := order == OrderMark(true);
      if !little && order != OrderMark(false) then None
      else if ExifU16(b, t + 2, little, p, end) != 42 then None
      else
        var ifd := t + ExifU32(b, t + 4, little, p, end);
        if ifd + 2 > end then None
        else
          var count := ExifU16(b, ifd, little, p, end);
          if count > MAX_ENTRIES || ifd + 2 + count * 12 > end then None
          else EntriesSay(b, ifd, 0, count, little, p, end)
  }

  // An APP1 segment that starts with "Exif" and two zero bytes.
  predicate IsExif(b: seq<Byte>, p: nat, length: nat)
    requires length >= 2 && p + 2 + length <= |b|
  {
    && b[p + 1] == APP1 && length >= 8
    && b[p + 4] == 0x45 && b[p + 5] == 0x78 && b[p + 6] == 0x69 && b[p + 7] == 0x66
    && b[p + 8] == 0 && b[p + 9] == 0
  }

  // The program compares the same six bytes as one 32-bit and one 16-bit number.
  lemma SignatureAsNumbers(b: seq<Byte>, p: nat, length: nat)
    requires length >= 8 && p + 2 + length <= |b|
    ensures IsExif(b, p, length)
            <==> b[p + 1] == APP1 && U32(b, p + 4, false) == EXIF && U16(b, p + 8, false) == 0
  {
  }

  // What the segments from p on say.
  function SegmentsSay(b: seq<Byte>, p: nat): Option<nat>
    decreases |b| - p
  {
    if p + 4 > |b| || b[p] != 0xff then None
    else if b[p + 1] == SOS || b[p + 1] == EOI then Some(1)
    else
      var length := U16(b, p + 2, false);
      var end := p + 2 + length;
      if length < 2 || end > |b| then None
      else if IsExif(b, p, length) then ExifSays(b, p, end)
      else SegmentsSay(b, end)
  }

  function FileSays(b: seq<Byte>): Option<nat> {
    if |b| < 4 || U16(b, 0, false) != SOI then None else SegmentsSay(b, 2)
  }

  method JpegOrientation(b: seq<Byte>) returns (orientation: Option<nat>)
    ensures orientation == FileSays(b)
  {
    hide U16, U32;
    if |b| < 4 || U16(b, 0, false) != SOI {
      return None;
    }
    var p := 2;
    while p + 4 <= |b|
      invariant 2 <= p <= |b|
      invariant FileSays(b) == SegmentsSay(b, p)
      decreases |b| - p
    {
      if b[p] != 0xff {
        return None;
      }
      var marker := b[p + 1];
      if marker == SOS || marker == EOI {
        return Some(1);
      }
      var length := U16(b, p + 2, false);
      var end := p + 2 + length;
      if length < 2 || end > |b| {
        return None;
      }
      if length >= 8 {
        SignatureAsNumbers(b, p, length);
      }
      if marker == APP1 && length >= 8 && U32(b, p + 4, false) == EXIF && U16(b, p + 8, false) == 0 {
        if length < 16 {
          return None;
        }
        var t := p + 10;
        var order := ExifU16(b, t, false, p, end);
        var little := order == 0x4949;
        if !little && order != 0x4d4d {
          return None;
        }
        if ExifU16(b, t + 2, little, p, end) != 42 {
          return None;
        }
        var ifd := t + ExifU32(b, t + 4, little, p, end);
        if ifd < t || ifd + 2 > end {
          return None;
        }
        var count := ExifU16(b, ifd, little, p, end);
        if count > MAX_ENTRIES || ifd + 2 + count * 12 > end {
          return None;
        }
        for n := 0 to count
          invariant FileSays(b) == EntriesSay(b, ifd, n, count, little, p, end)
        {
          var q := ifd + 2 + n * 12;
          if ExifU16(b, q, little, p, end) != ORIENTATION {
            continue;
          }
          if ExifU16(b, q + 2, little, p, end) != 3 || ExifU32(b, q + 4, little, p, end) != 1 {
            return None;
          }
          var value := ExifU16(b, q + 8, little, p, end);
          return if 1 <= value <= 8 then Some(value) else None;
        }
        return Some(1);
      }
      p := end;
    }
    return None;
  }

  // ---------------------------------------------------------------------------
  // For any bytes
  // ---------------------------------------------------------------------------

  // The bytes at q encode an orientation entry of value v.
  predicate IsEntry(b: seq<Byte>, q: nat, little: bool, v: nat) {
    && q + 12 <= |b|
    && U16(b, q, little) == ORIENTATION && U16(b, q + 2, little) == 3 && U32(b, q + 4, little) == 1
    && U16(b, q + 8, little) == v
  }

  predicate IsExifSegment(b: seq<Byte>, from: nat, to: nat) {
    from + 10 <= to <= |b| && U16(b, from + 2, false) == to - from - 2 && IsExif(b, from, to - from - 2)
  }

  ghost predicate HoldsEntry(b: seq<Byte>, from: nat, to: nat, v: nat) {
    exists q: nat, little :: from <= q && q + 12 <= to && IsEntry(b, q, little, v)
  }

  lemma {:induction false} EntriesNeverGuess(
      b: seq<Byte>, ifd: nat, n: nat, count: nat, little: bool, from: nat, to: nat)
    requires from <= ifd && ifd + 2 + count * 12 <= to <= |b| && n <= count
    ensures var r := EntriesSay(b, ifd, n, count, little, from, to);
            r.Some? && r.value != 1 ==> HoldsEntry(b, from, to, r.value)
    ensures EntriesSay(b, ifd, n, count, little, from, to).Some? ==>
              1 <= EntriesSay(b, ifd, n, count, little, from, to).value <= 8
    decreases count - n
  {
    if n < count {
      var q := ifd + 2 + n * 12;
      EntriesNeverGuess(b, ifd, n + 1, count, little, from, to);
      var r := EntriesSay(b, ifd, n, count, little, from, to);
      if U16(b, q, little) == ORIENTATION && r.Some? {
        assert IsEntry(b, q, little, r.value);
      }
    }
  }

  lemma ExifNeverGuesses(b: seq<Byte>, p: nat, end: nat)
    requires p + 10 <= end <= |b|
    ensures var r := ExifSays(b, p, end);
            r.Some? ==> 1 <= r.value <= 8 && (r.value != 1 ==> HoldsEntry(b, p, end, r.value))
  {
    if ExifSays(b, p, end).Some? {
      var little := ExifU16(b, p + 10, false, p, end) == 0x4949;
      var ifd := p + 10 + ExifU32(b, p + 14, little, p, end);
      EntriesNeverGuess(b, ifd, 0, ExifU16(b, ifd, little, p, end), little, p, end);
    }
  }

  // Whatever the bytes, the answer is undefined or 1 to 8, and any answer but 1 is the value
  // of an orientation entry that lies wholly inside an Exif segment.
  lemma {:induction false} NeverGuessed(b: seq<Byte>, p: nat)
    ensures var r := SegmentsSay(b, p);
            && (r.Some? ==> 1 <= r.value <= 8)
            && (r.Some? && r.value != 1 ==>
                  exists from: nat, to: nat :: p <= from && IsExifSegment(b, from, to) && HoldsEntry(b, from, to, r.value))
    decreases |b| - p
  {
    if p + 4 <= |b| && b[p] == 0xff && b[p + 1] != SOS && b[p + 1] != EOI {
      var length := U16(b, p + 2, false);
      var end := p + 2 + length;
      if 2 <= length && end <= |b| {
        if IsExif(b, p, length) {
          ExifNeverGuesses(b, p, end);
          assert IsExifSegment(b, p, end);
        } else {
          NeverGuessed(b, end);
        }
      }
    }
  }

  // The answer of an Exif segment depends on nothing outside it.
  lemma ExifReadsOnlyItsSegment(b: seq<Byte>, c: seq<Byte>, p: nat, end: nat)
    requires p + 10 <= end <= |b| && end <= |c| && b[p..end] == c[p..end]
    ensures ExifSays(b, p, end) == ExifSays(c, p, end)
  {
    hide EntriesSay;
    assert forall i :: p <= i < end ==> b[i] == b[p..end][i - p] == c[p..end][i - p] == c[i];
    if end - p - 2 >= 16 {
      var little := ExifU16(b, p + 10, false, p, end) == 0x4949;
      var ifd := p + 10 + ExifU32(b, p + 14, little, p, end);
      assert ifd == p + 10 + ExifU32(c, p + 14, little, p, end);
      if ifd + 2 <= end {
        var count := ExifU16(b, ifd, little, p, end);
        assert count == ExifU16(c, ifd, little, p, end);
        if ifd + 2 + count * 12 <= end {
          EntriesReadOnlyTheirSegment(b, c, ifd, 0, count, little, p, end);
        }
      }
    }
  }

  lemma {:induction false} EntriesReadOnlyTheirSegment(
      b: seq<Byte>, c: seq<Byte>, ifd: nat, n: nat, count: nat, little: bool, from: nat, to: nat)
    requires from <= ifd && ifd + 2 + count * 12 <= to <= |b| && n <= count && to <= |c|
    requires forall i :: from <= i < to ==> b[i] == c[i]
    ensures EntriesSay(b, ifd, n, count, little, from, to) == EntriesSay(c, ifd, n, count, little, from, to)
    decreases count - n
  {
    if n < count {
      EntriesReadOnlyTheirSegment(b, c, ifd, n + 1, count, little, from, to);
    }
  }

  // ---------------------------------------------------------------------------
  // Writing
  // ---------------------------------------------------------------------------

  function Put16(v: nat, little: bool): (s: seq<Byte>)
    requires v < 0x10000
    ensures |s| == 2 && U16(s, 0, little) == v
  {
    if little then [v % 256, v / 256] else [v / 256, v % 256]
  }

  function Put32(v: nat, little: bool): (s: seq<Byte>)
    requires v < 0x1_0000_0000
    ensures |s| == 4 && U32(s, 0, little) == v
  {
    var low, high := Put16(v % 0x10000, little), Put16(v / 0x10000, little);
    var s := if little then low + high else high + low;
    assert s[0..2] == if little then low else high;
    assert s[2..4] == if little then high else low;
    s
  }

  // Section B.1.1.2 of ITU-T T.81 lets any number of bytes 0xff fill up to a marker.
  datatype Segment = Segment(fill: nat, marker: Byte, payload: seq<Byte>)

  function Exif00(): seq<Byte> { [0x45, 0x78, 0x69, 0x66, 0, 0] }

  // A segment the scan passes over: any marker but SOS and EOI, and no Exif signature.
  predicate Passable(s: Segment) {
    && s.marker != SOS && s.marker != EOI && |s.payload| + 2 < 0x10000
    && !(s.marker == APP1 && Exif00() <= s.payload)
  }

  function PutSegment(marker: Byte, payload: seq<Byte>): (s: seq<Byte>)
    requires |payload| + 2 < 0x10000
    ensures |s| == |payload| + 4
  {
    [0xff, marker] + Put16(|payload| + 2, false) + payload
  }

  function PutFilled(fill: nat, marker: Byte, payload: seq<Byte>): (s: seq<Byte>)
    requires |payload| + 2 < 0x10000
    ensures |s| == fill + |payload| + 4
  {
    seq(fill, _ => 0xff) + PutSegment(marker, payload)
  }

  function PutSegments(segments: seq<Segment>): seq<Byte>
    requires forall i :: 0 <= i < |segments| ==> Passable(segments[i])
  {
    if segments == [] then []
    else
      assert Passable(segments[0]);
      PutFilled(segments[0].fill, segments[0].marker, segments[0].payload) + PutSegments(segments[1..])
  }

  predicate Unfilled(segments: seq<Segment>) { forall i :: 0 <= i < |segments| ==> segments[i].fill == 0 }

  // A directory entry other than the orientation: tag, type, count and four value bytes.
  datatype Field = Field(tag: nat, kind: nat, count: nat, value: seq<Byte>)
  {
    predicate Valid() {
      tag < 0x10000 && tag != ORIENTATION && kind < 0x10000 && count < 0x1_0000_0000 && |value| == 4
    }
  }

  function PutField(f: Field, little: bool): (s: seq<Byte>)
    requires f.Valid()
    ensures |s| == 12
  {
    Put16(f.tag, little) + Put16(f.kind, little) + Put32(f.count, little) + f.value
  }

  function PutFields(fields: seq<Field>, little: bool): (s: seq<Byte>)
    requires forall i :: 0 <= i < |fields| ==> fields[i].Valid()
    ensures |s| == 12 * |fields|
  {
    if fields == [] then [] else PutField(fields[0], little) + PutFields(fields[1..], little)
  }

  function PutOrientation(v: nat, pad: seq<Byte>, little: bool): (s: seq<Byte>)
    requires v < 0x10000 && |pad| == 2
    ensures |s| == 12
  {
    Put16(ORIENTATION, little) + Put16(3, little) + Put32(1, little) + Put16(v, little) + pad
  }

  // The TIFF part of an Exif segment: header, a gap, and a directory of fields, with an
  // orientation between them or without one; anything may follow. A segment has room for more
  // than five thousand fields.
  datatype Tiff = Tiff(little: bool, gap: seq<Byte>, before: seq<Field>, orientation: Option<nat>, pad: seq<Byte>,
                       after: seq<Field>, rest: seq<Byte>)
  {
    predicate Valid() {
      && (orientation.Some? ==> 1 <= orientation.value <= 8) && |pad| == 2
      && (forall i :: 0 <= i < |before| ==> before[i].Valid())
      && (forall i :: 0 <= i < |after| ==> after[i].Valid())
      && 6 + 8 + |gap| + 2 + 12 * Count() + |rest| + 2 < 0x10000
    }

    function Count(): nat { |before| + (if orientation.Some? then 1 else 0) + |after| }

    // A directory without an orientation is that of an upright picture.
    function Meant(): nat { if orientation.Some? then orientation.value else 1 }

    function Entries(): (s: seq<Byte>)
      requires Valid()
      ensures |s| == 12 * Count()
    {
      PutFields(before, little) + (if orientation.Some? then PutOrientation(orientation.value, pad, little) else [])
        + PutFields(after, little)
    }

    function Payload(): (s: seq<Byte>)
      requires Valid()
      ensures |s| + 2 < 0x10000
    {
      ExifPayload(little, gap, Count(), Entries(), rest)
    }
  }

  // What is read of a directory: what it means, unless it is too long.
  function Answer(tiff: Tiff): Option<nat> { if tiff.Count() > MAX_ENTRIES then None else Some(tiff.Meant()) }

  // Signature, TIFF header with the offset of the directory, gap, directory, anything else.
  function ExifPayload(little: bool, gap: seq<Byte>, count: nat, entries: seq<Byte>, rest: seq<Byte>): (s: seq<Byte>)
    requires |gap| < 0x10000 && count < 0x10000
    ensures |s| == 16 + |gap| + |entries| + |rest|
  {
    Exif00() + Put16(OrderMark(little), false) + Put16(42, little) + Put32(8 + |gap|, little)
      + gap + Put16(count, little) + entries + rest
  }

  // A file with an Exif segment, behind `fill` fill bytes, after segments that are passed over.
  function File(segments: seq<Segment>, fill: nat, tiff: Tiff, rest: seq<Byte>): seq<Byte>
    requires tiff.Valid() && forall i :: 0 <= i < |segments| ==> Passable(segments[i])
  {
    [0xff, 0xd8] + PutSegments(segments) + PutFilled(fill, APP1, tiff.Payload()) + rest
  }

  // ---------------------------------------------------------------------------
  // The round trip
  // ---------------------------------------------------------------------------

  // The bytes s stand at `at` in b.
  predicate Holds(b: seq<Byte>, at: nat, s: seq<Byte>) {
    at + |s| <= |b| && forall i :: 0 <= i < |s| ==> b[at + i] == s[i]
  }

  lemma HoldsParts(b: seq<Byte>, at: nat, s: seq<Byte>, t: seq<Byte>)
    requires Holds(b, at, s + t)
    ensures Holds(b, at, s) && Holds(b, at + |s|, t)
  {
    forall i | 0 <= i < |s|
      ensures b[at + i] == s[i]
    {
      assert (s + t)[i] == s[i];
    }
    forall i | 0 <= i < |t|
      ensures b[at + |s| + i] == t[i]
    {
      assert (s + t)[|s| + i] == t[i];
    }
  }

  lemma HoldsThree(b: seq<Byte>, at: nat, r: seq<Byte>, s: seq<Byte>, t: seq<Byte>)
    requires Holds(b, at, r + s + t)
    ensures Holds(b, at, r) && Holds(b, at + |r|, s) && Holds(b, at + |r| + |s|, t)
  {
    HoldsParts(b, at, r + s, t);
    HoldsParts(b, at, r, s);
  }

  lemma HoldsFive(b: seq<Byte>, at: nat, q: seq<Byte>, r: seq<Byte>, s: seq<Byte>, t: seq<Byte>, u: seq<Byte>)
    requires Holds(b, at, q + r + s + t + u)
    ensures Holds(b, at, q) && Holds(b, at + |q|, r) && Holds(b, at + |q| + |r|, s)
    ensures Holds(b, at + |q| + |r| + |s|, t) && Holds(b, at + |q| + |r| + |s| + |t|, u)
  {
    HoldsThree(b, at, q + r + s, t, u);
    HoldsThree(b, at, q, r, s);
  }

  lemma HoldsEight(b: seq<Byte>, at: nat, n: seq<Byte>, o: seq<Byte>, p: seq<Byte>, q: seq<Byte>,
                   r: seq<Byte>, s: seq<Byte>, t: seq<Byte>, u: seq<Byte>)
    requires Holds(b, at, n + o + p + q + r + s + t + u)
    ensures Holds(b, at, n) && Holds(b, at + |n|, o) && Holds(b, at + |n| + |o|, p)
    ensures var m := at + |n| + |o| + |p|;
            Holds(b, m, q) && Holds(b, m + |q|, r) && Holds(b, m + |q| + |r|, s)
            && Holds(b, m + |q| + |r| + |s|, t) && Holds(b, m + |q| + |r| + |s| + |t|, u)
  {
    HoldsFive(b, at, n + o + p + q, r, s, t, u);
    HoldsThree(b, at, n + o, p, q);
    HoldsParts(b, at, n, o);
  }

  lemma Holds16(b: seq<Byte>, at: nat, s: seq<Byte>, little: bool)
    requires |s| == 2 && Holds(b, at, s)
    ensures U16(b, at, little) == U16(s, 0, little)
  {
  }

  lemma Holds32(b: seq<Byte>, at: nat, s: seq<Byte>, little: bool)
    requires |s| == 4 && Holds(b, at, s)
    ensures U32(b, at, little) == U32(s, 0, little)
  {
  }

  lemma TagRead(b: seq<Byte>, q: nat, f: Field, little: bool)
    requires f.Valid() && Holds(b, q, PutField(f, little))
    ensures q + 12 <= |b| && U16(b, q, little) == f.tag
  {
    HoldsThree(b, q, Put16(f.tag, little) + Put16(f.kind, little), Put32(f.count, little), f.value);
    HoldsParts(b, q, Put16(f.tag, little), Put16(f.kind, little));
    Holds16(b, q, Put16(f.tag, little), little);
  }

  lemma {:induction false} FieldsPassed(
      b: seq<Byte>, ifd: nat, n: nat, count: nat, little: bool, from: nat, to: nat, fields: seq<Field>)
    requires from <= ifd && ifd + 2 + count * 12 <= to <= |b| && n + |fields| <= count
    requires forall i :: 0 <= i < |fields| ==> fields[i].Valid()
    requires Holds(b, ifd + 2 + n * 12, PutFields(fields, little))
    ensures EntriesSay(b, ifd, n, count, little, from, to)
            == EntriesSay(b, ifd, n + |fields|, count, little, from, to)
    decreases |fields|
  {
    hide U16, U32;
    if fields != [] {
      var q := ifd + 2 + n * 12;
      HoldsParts(b, q, PutField(fields[0], little), PutFields(fields[1..], little));
      TagRead(b, q, fields[0], little);
      FieldsPassed(b, ifd, n + 1, count, little, from, to, fields[1..]);
    }
  }

  lemma OrientationRead(b: seq<Byte>, q: nat, v: nat, pad: seq<Byte>, little: bool)
    requires v < 0x10000 && |pad| == 2 && Holds(b, q, PutOrientation(v, pad, little))
    ensures IsEntry(b, q, little, v)
  {
    var tag, kind, count, value := Put16(ORIENTATION, little), Put16(3, little), Put32(1, little), Put16(v, little);
    HoldsFive(b, q, tag, kind, count, value, pad);
    Holds16(b, q, tag, little);
    Holds16(b, q + 2, kind, little);
    Holds32(b, q + 4, count, little);
    Holds16(b, q + 8, value, little);
  }

  lemma {:induction false} EntryDecides(b: seq<Byte>, ifd: nat, n: nat, count: nat, little: bool, from: nat, to: nat, v: nat)
    requires from <= ifd && ifd + 2 + count * 12 <= to <= |b| && n < count && 1 <= v <= 8
    requires IsEntry(b, ifd + 2 + n * 12, little, v)
    ensures EntriesSay(b, ifd, n, count, little, from, to) == Some(v)
  {
  }

  lemma {:induction false} EntriesRead(b: seq<Byte>, ifd: nat, tiff: Tiff, from: nat, to: nat)
    requires tiff.Valid() && from <= ifd && ifd + 2 + tiff.Count() * 12 <= to <= |b|
    requires Holds(b, ifd + 2, tiff.Entries())
    ensures EntriesSay(b, ifd, 0, tiff.Count(), tiff.little, from, to) == Some(tiff.Meant())
  {
    hide Holds, EntriesSay, PutFields, PutOrientation;
    var little, n := tiff.little, |tiff.before|;
    var entry := if tiff.orientation.Some? then PutOrientation(tiff.orientation.value, tiff.pad, little) else [];
    HoldsThree(b, ifd + 2, PutFields(tiff.before, little), entry, PutFields(tiff.after, little));
    FieldsPassed(b, ifd, 0, tiff.Count(), little, from, to, tiff.before);
    if tiff.orientation.Some? {
      OrientationRead(b, ifd + 2 + 12 * n, tiff.orientation.value, tiff.pad, little);
      EntryDecides(b, ifd, n, tiff.Count(), little, from, to, tiff.orientation.value);
    } else {
      FieldsPassed(b, ifd, n, tiff.Count(), little, from, to, tiff.after);
      NoEntryLeft(b, ifd, tiff.Count(), little, from, to);
    }
  }

  lemma {:induction false} NoEntryLeft(b: seq<Byte>, ifd: nat, count: nat, little: bool, from: nat, to: nat)
    requires from <= ifd && ifd + 2 + count * 12 <= to <= |b|
    ensures EntriesSay(b, ifd, count, count, little, from, to) == Some(1)
  {
  }

  // What the header and the directory's count say when they were written by Payload.
  lemma HeaderRead(b: seq<Byte>, at: nat, tiff: Tiff)
    requires tiff.Valid() && Holds(b, at, tiff.Payload())
    ensures var t, ifd := at + 6, at + 14 + |tiff.gap|;
            && ifd + 2 + |tiff.Entries()| + |tiff.rest| == at + |tiff.Payload()| <= |b|
            && Holds(b, at, Exif00())
            && U16(b, t, false) == OrderMark(tiff.little) && U16(b, t + 2, tiff.little) == 42
            && U32(b, t + 4, tiff.little) == 8 + |tiff.gap|
            && U16(b, ifd, tiff.little) == tiff.Count()
            && Holds(b, ifd + 2, tiff.Entries())
  {
    hide U16, U32, Put16, Put32;
    var little, ifd := tiff.little, at + 14 + |tiff.gap|;
    var order, magic, offset := Put16(OrderMark(little), false), Put16(42, little), Put32(8 + |tiff.gap|, little);
    var count := Put16(tiff.Count(), little);
    HeaderParts(b, at, Exif00(), order, magic, offset, tiff.gap, count, tiff.Entries(), tiff.rest);
    Holds16(b, at + 6, order, false);
    Holds16(b, at + 8, magic, little);
    Holds32(b, at + 10, offset, little);
    Holds16(b, ifd, count, little);
  }

  // Where the parts of a payload stand.
  lemma HeaderParts(b: seq<Byte>, at: nat, signature: seq<Byte>, order: seq<Byte>, magic: seq<Byte>, offset: seq<Byte>,
                    gap: seq<Byte>, count: seq<Byte>, entries: seq<Byte>, rest: seq<Byte>)
    requires |signature| == 6 && |order| == 2 && |magic| == 2 && |offset| == 4 && |count| == 2
    requires Holds(b, at, signature + order + magic + offset + gap + count + entries + rest)
    ensures Holds(b, at, signature) && Holds(b, at + 6, order) && Holds(b, at + 8, magic) && Holds(b, at + 10, offset)
    ensures Holds(b, at + 14 + |gap|, count) && Holds(b, at + 16 + |gap|, entries)
  {
    HoldsEight(b, at, signature, order, magic, offset, gap, count, entries, rest);
  }

  lemma {:induction false} HeaderLeadsToEntries(b: seq<Byte>, p: nat, end: nat, little: bool, ifd: nat, count: nat)
    requires p + 18 <= ifd && ifd + 2 + count * 12 <= end <= |b|
    requires U16(b, p + 10, false) == OrderMark(little) && U16(b, p + 12, little) == 42
    requires U32(b, p + 14, little) == ifd - p - 10 && U16(b, ifd, little) == count
    ensures ExifSays(b, p, end) == if count > MAX_ENTRIES then None else EntriesSay(b, ifd, 0, count, little, p, end)
  {
  }

  // What an Exif segment says whose payload was written by Payload.
  lemma ExifRead(b: seq<Byte>, p: nat, end: nat, tiff: Tiff)
    requires tiff.Valid() && Holds(b, p + 4, tiff.Payload()) && end == p + 4 + |tiff.Payload()|
    ensures end <= |b| && ExifSays(b, p, end) == Answer(tiff)
  {
    hide U16, U32;
    HeaderRead(b, p + 4, tiff);
    var ifd := p + 18 + |tiff.gap|;
    HeaderLeadsToEntries(b, p, end, tiff.little, ifd, tiff.Count());
    EntriesRead(b, ifd, tiff, p, end);
  }

  lemma {:induction false} ExifSegmentRead(b: seq<Byte>, p: nat, tiff: Tiff)
    requires tiff.Valid() && Holds(b, p, PutSegment(APP1, tiff.Payload()))
    ensures SegmentsSay(b, p) == Answer(tiff)
  {
    hide U16, U32;
    var payload := tiff.Payload();
    SegmentRead(b, p, APP1, payload);
    HeaderRead(b, p + 4, tiff);
    SignatureRead(b, p, |payload| + 2);
    ExifRead(b, p, p + 4 + |payload|, tiff);
    ExifSegmentDecides(b, p, |payload| + 2);
  }

  lemma {:induction false} ExifSegmentDecides(b: seq<Byte>, p: nat, length: nat)
    requires length >= 8 && p + 2 + length <= |b|
    requires b[p] == 0xff && U16(b, p + 2, false) == length && IsExif(b, p, length)
    ensures SegmentsSay(b, p) == ExifSays(b, p, p + 2 + length)
  {
    hide U16;
  }

  lemma SignatureRead(b: seq<Byte>, p: nat, length: nat)
    requires length >= 8 && p + 2 + length <= |b| && b[p + 1] == APP1 && Holds(b, p + 4, Exif00())
    ensures IsExif(b, p, length)
  {
    var s := Exif00();
    assert b[p + 4 + 0] == s[0] && b[p + 4 + 1] == s[1] && b[p + 4 + 2] == s[2] && b[p + 4 + 3] == s[3];
    assert b[p + 4 + 4] == s[4] && b[p + 4 + 5] == s[5];
  }

  lemma SegmentRead(b: seq<Byte>, p: nat, marker: Byte, payload: seq<Byte>)
    requires |payload| + 2 < 0x10000 && Holds(b, p, PutSegment(marker, payload))
    ensures p + 4 + |payload| <= |b| && b[p] == 0xff && b[p + 1] == marker
    ensures U16(b, p + 2, false) == |payload| + 2
    ensures Holds(b, p + 4, payload)
  {
    var head: seq<Byte> := [0xff, marker];
    var length := Put16(|payload| + 2, false);
    HoldsThree(b, p, head, length, payload);
    Holds16(b, p + 2, length, false);
    assert b[p + 0] == head[0] && b[p + 1] == head[1];
  }

  // A payload without the signature is not taken for Exif.
  lemma NoSignature(b: seq<Byte>, p: nat, payload: seq<Byte>)
    requires |payload| >= 6 && Holds(b, p + 4, payload) && !(Exif00() <= payload)
    ensures !IsExif(b, p, |payload| + 2)
  {
    var s := Exif00();
    var i :| 0 <= i < 6 && payload[i] != s[i];
    assert b[p + 4 + i] != s[i];
  }

  lemma SegmentPassed(b: seq<Byte>, p: nat, s: Segment)
    requires Passable(s) && p + 4 + |s.payload| <= |b| && b[p] == 0xff && b[p + 1] == s.marker
    requires U16(b, p + 2, false) == |s.payload| + 2 && Holds(b, p + 4, s.payload)
    ensures SegmentsSay(b, p) == SegmentsSay(b, p + 4 + |s.payload|)
  {
    if s.marker == APP1 && |s.payload| >= 6 {
      NoSignature(b, p, s.payload);
    }
  }

  lemma NoFill(marker: Byte, payload: seq<Byte>)
    requires |payload| + 2 < 0x10000
    ensures PutFilled(0, marker, payload) == PutSegment(marker, payload)
  {
  }

  lemma {:induction false} SegmentsPassed(b: seq<Byte>, p: nat, segments: seq<Segment>)
    requires Unfilled(segments) && forall i :: 0 <= i < |segments| ==> Passable(segments[i])
    requires Holds(b, p, PutSegments(segments))
    ensures SegmentsSay(b, p) == SegmentsSay(b, p + |PutSegments(segments)|)
    decreases |segments|
  {
    if segments != [] {
      var s := segments[0];
      NoFill(s.marker, s.payload);
      HoldsParts(b, p, PutSegment(s.marker, s.payload), PutSegments(segments[1..]));
      SegmentRead(b, p, s.marker, s.payload);
      SegmentPassed(b, p, s);
      SegmentsPassed(b, p + 4 + |s.payload|, segments[1..]);
    }
  }

  lemma FileParts(b: seq<Byte>, head: seq<Byte>, passed: seq<Byte>, exif: seq<Byte>, rest: seq<Byte>)
    requires b == head + passed + exif + rest
    ensures Holds(b, 0, head) && Holds(b, |head|, passed) && Holds(b, |head| + |passed|, exif)
  {
  }

  lemma {:induction false} StartRead(b: seq<Byte>)
    requires |b| >= 4 && Holds(b, 0, [0xff, 0xd8])
    ensures FileSays(b) == SegmentsSay(b, 2)
  {
    var head: seq<Byte> := [0xff, 0xd8];
    assert b[0 + 0] == head[0] && b[0 + 1] == head[1];
  }

  lemma {:induction false} ScanReaches(b: seq<Byte>, segments: seq<Segment>, exif: seq<Byte>, rest: seq<Byte>)
    requires Unfilled(segments) && forall i :: 0 <= i < |segments| ==> Passable(segments[i])
    requires |exif| >= 2 && b == [0xff, 0xd8] + PutSegments(segments) + exif + rest
    ensures var p := 2 + |PutSegments(segments)|;
            FileSays(b) == SegmentsSay(b, p) && Holds(b, p, exif)
  {
    hide U16, FileSays, SegmentsSay;
    FileParts(b, [0xff, 0xd8], PutSegments(segments), exif, rest);
    StartRead(b);
    SegmentsPassed(b, 2, segments);
  }

  // A file without fill bytes reads back as what it was written to mean, in either byte order,
  // wherever its directory stands and whatever surrounds the entry: its orientation, or upright
  // without one. A directory of more than 1024 fields is refused.
  lemma OrientationRoundTrip(segments: seq<Segment>, tiff: Tiff, rest: seq<Byte>)
    requires tiff.Valid() && Unfilled(segments) && forall i :: 0 <= i < |segments| ==> Passable(segments[i])
    ensures FileSays(File(segments, 0, tiff, rest)) == Answer(tiff)
    ensures FileSays(File(segments, 0, tiff, rest)) == Some(tiff.Meant()) <==> tiff.Count() <= MAX_ENTRIES
  {
    hide FileSays, SegmentsSay;
    var b, exif := File(segments, 0, tiff, rest), PutSegment(APP1, tiff.Payload());
    NoFill(APP1, tiff.Payload());
    ScanReaches(b, segments, exif, rest);
    ExifSegmentRead(b, 2 + |PutSegments(segments)|, tiff);
  }

  // A field that is no orientation, with a tag after those of the fields before it.
  function LaterField(i: nat): (f: Field)
    requires i < 0xf000
    ensures f.Valid() && f.tag == ORIENTATION + 1 + i
  {
    Field(ORIENTATION + 1 + i, 3, 1, [0, 0, 0, 0])
  }

  // A picture on its side with 1024 more fields of ascending tags: its orientation stands first
  // in the directory, and is still not read.
  lemma {:induction false} ManyFieldsHideOrientation()
    ensures var tiff := Tiff(false, [], [], Some(6), [0, 0], seq(1024, i requires 0 <= i < 1024 => LaterField(i)), []);
            tiff.Valid() && FileSays(File([], 0, tiff, [])) == None
  {
    var tiff := Tiff(false, [], [], Some(6), [0, 0], seq(1024, i requires 0 <= i < 1024 => LaterField(i)), []);
    OrientationRoundTrip([], tiff, []);
  }

  lemma {:induction false} ScanDataStarts(b: seq<Byte>, p: nat, rest: seq<Byte>)
    requires |rest| >= 2 && Holds(b, p, [0xff, SOS] + rest)
    ensures SegmentsSay(b, p) == Some(1)
  {
    var tail: seq<Byte> := [0xff, SOS] + rest;
    assert b[p + 0] == tail[0] && b[p + 1] == tail[1];
  }

  lemma NothingAfter(head: seq<Byte>, tail: seq<Byte>)
    ensures head + tail == head + tail + []
  {
  }

  // A file whose scan data starts without any Exif segment has orientation 1.
  lemma {:induction false} NoExifIsUpright(segments: seq<Segment>, rest: seq<Byte>)
    requires |rest| >= 2 && Unfilled(segments) && forall i :: 0 <= i < |segments| ==> Passable(segments[i])
    ensures FileSays([0xff, 0xd8] + PutSegments(segments) + ([0xff, SOS] + rest)) == Some(1)
  {
    hide FileSays, SegmentsSay;
    var tail: seq<Byte> := [0xff, SOS] + rest;
    NothingAfter([0xff, 0xd8] + PutSegments(segments), tail);
    var b := [0xff, 0xd8] + PutSegments(segments) + tail;
    ScanReaches(b, segments, tail, []);
    ScanDataStarts(b, 2 + |PutSegments(segments)|, rest);
  }
}
