/**
 Files with fill bytes before their markers (section B.1.1.2 of ITU-T T.81): what the scan of
 jpegOrientation makes of them, and when it reads their orientation back.
 */
module JpegFills {
  import opened Wrappers
  import opened JpegOrientations

  // What is said from p on when the two bytes after a marker at p count as its length.
  function JumpSays(b: seq<Byte>, p: nat, length: nat): Option<nat> {
    if length < 2 || p + 2 + length > |b| then None else SegmentsSay(b, p + 2 + length)
  }

  // A fill byte is taken for a marker, and what follows it for the length of its segment.
  lemma FillIsTakenForMarker(b: seq<Byte>, p: nat)
    requires p + 4 <= |b| && b[p] == 0xff && b[p + 1] == 0xff
    ensures SegmentsSay(b, p) == JumpSays(b, p, U16(b, p + 2, false))
  {
    hide U16;
  }

  // The length read after the first fill byte: of more fill, the marker, the length's high byte.
  function FillLength(fill: nat, marker: Byte, payload: seq<Byte>): nat {
    if fill >= 3 then 0xffff else if fill == 2 then 0xff00 + marker else 256 * marker + (|payload| + 2) / 256
  }

  lemma FilledRead(b: seq<Byte>, p: nat, fill: nat, marker: Byte, payload: seq<Byte>)
    requires fill >= 1 && |payload| + 2 < 0x10000 && Holds(b, p, PutFilled(fill, marker, payload))
    ensures p + 5 <= |b| && b[p] == 0xff && b[p + 1] == 0xff
    ensures U16(b, p + 2, false) == FillLength(fill, marker, payload)
  {
    var s := PutFilled(fill, marker, payload);
    FilledBytes(fill, marker, payload);
    assert b[p + 0] == s[0] && b[p + 1] == s[1] && b[p + 2] == s[2] && b[p + 3] == s[3];
  }

  lemma FilledBytes(fill: nat, marker: Byte, payload: seq<Byte>)
    requires fill >= 1 && |payload| + 2 < 0x10000
    ensures var s := PutFilled(fill, marker, payload);
            && s[0] == 0xff && s[1] == 0xff
            && s[2] == (if fill >= 2 then 0xff else marker)
            && s[3] == (if fill >= 3 then 0xff else if fill == 2 then marker else (|payload| + 2) / 256)
  {
  }

  // Whatever stands behind the first filled marker of a file, the scan goes on where the two
  // bytes after its first fill byte lead, and nowhere else.
  lemma {:induction false} FilledMarkerJumps(segments: seq<Segment>, filled: Segment, rest: seq<Byte>)
    requires Unfilled(segments) && forall i :: 0 <= i < |segments| ==> Passable(segments[i])
    requires filled.fill >= 1 && |filled.payload| + 2 < 0x10000
    ensures var p := 2 + |PutSegments(segments)|;
            var b := [0xff, 0xd8] + PutSegments(segments) + PutFilled(filled.fill, filled.marker, filled.payload) + rest;
            FileSays(b) == JumpSays(b, p, FillLength(filled.fill, filled.marker, filled.payload))
  {
    hide U16, SegmentsSay;
    var p, put := 2 + |PutSegments(segments)|, PutFilled(filled.fill, filled.marker, filled.payload);
    var b := [0xff, 0xd8] + PutSegments(segments) + put + rest;
    ScanReaches(b, segments, put, rest);
    FilledRead(b, p, filled.fill, filled.marker, filled.payload);
    FillIsTakenForMarker(b, p);
  }

  // How many segments come before the first filled one, the Exif segment included.
  function FirstFilled(segments: seq<Segment>): (n: nat)
    ensures n <= |segments| && Unfilled(segments[..n]) && (n < |segments| ==> segments[n].fill >= 1)
  {
    if segments == [] || segments[0].fill >= 1 then 0
    else
      var n := FirstFilled(segments[1..]);
      assert segments[..n + 1] == [segments[0]] + segments[1..][..n];
      n + 1
  }

  lemma {:induction false} PutSegmentsParts(segments: seq<Segment>, n: nat)
    requires n < |segments| && forall i :: 0 <= i < |segments| ==> Passable(segments[i])
    ensures var s := segments[n];
            PutSegments(segments)
            == PutSegments(segments[..n]) + (PutFilled(s.fill, s.marker, s.payload) + PutSegments(segments[n + 1..]))
    decreases n
  {
    if n == 0 {
      assert segments[..0] == [];
    } else {
      var first, s := segments[0], segments[n];
      PutSegmentsParts(segments[1..], n - 1);
      assert segments[..n][1..] == segments[1..][..n - 1] && segments[1..][n..] == segments[n + 1..];
      Regroup(PutFilled(first.fill, first.marker, first.payload), PutSegments(segments[1..][..n - 1]),
              PutFilled(s.fill, s.marker, s.payload) + PutSegments(segments[n + 1..]));
    }
  }

  lemma Regroup(r: seq<Byte>, s: seq<Byte>, t: seq<Byte>)
    ensures r + (s + t) == r + s + t
  {
  }

  // Where the first filled marker stands, and the length that is read there.
  function FilledAt(segments: seq<Segment>): nat
    requires forall i :: 0 <= i < |segments| ==> Passable(segments[i])
  {
    2 + |PutSegments(segments[..FirstFilled(segments)])|
  }

  function FilledLength(segments: seq<Segment>, fill: nat, tiff: Tiff): nat
    requires tiff.Valid()
  {
    var n := FirstFilled(segments);
    if n < |segments| then FillLength(segments[n].fill, segments[n].marker, segments[n].payload)
    else FillLength(fill, APP1, tiff.Payload())
  }

  // What any file says: what is read of its directory if no marker is filled, and otherwise what
  // the jump from the first filled one leads to.
  lemma FileSaysExactly(segments: seq<Segment>, fill: nat, tiff: Tiff, rest: seq<Byte>)
    requires tiff.Valid() && forall i :: 0 <= i < |segments| ==> Passable(segments[i])
    ensures var b := File(segments, fill, tiff, rest);
            FileSays(b) == if Unfilled(segments) && fill == 0 then Answer(tiff)
                           else JumpSays(b, FilledAt(segments), FilledLength(segments, fill, tiff))
  {
    hide FileSays, JumpSays, PutFilled, FillLength;
    var n, exif := FirstFilled(segments), PutFilled(fill, APP1, tiff.Payload());
    if n < |segments| {
      var s := segments[n];
      PutSegmentsParts(segments, n);
      FilledMarkerJumps(segments[..n], s, PutSegments(segments[n + 1..]) + exif + rest);
      assert !Unfilled(segments);
      FileAtFilled(PutSegments(segments[..n]), PutFilled(s.fill, s.marker, s.payload), PutSegments(segments[n + 1..]),
                   exif, rest);
    } else {
      assert segments[..n] == segments;
      if fill == 0 {
        OrientationRoundTrip(segments, tiff, rest);
      } else {
        FilledMarkerJumps(segments, Segment(fill, APP1, tiff.Payload()), rest);
      }
    }
  }

  lemma FileAtFilled(passed: seq<Byte>, filled: seq<Byte>, others: seq<Byte>, exif: seq<Byte>, rest: seq<Byte>)
    ensures [0xff, 0xd8] + (passed + (filled + others)) + exif + rest
            == [0xff, 0xd8] + passed + filled + (others + exif + rest)
  {
  }

  // What a file means is read back exactly when no marker is filled and its directory has at most
  // 1024 fields, or the jump from the first filled marker stays in the file and leads to segments
  // that say the same.
  lemma ReadBackExactlyWhen(segments: seq<Segment>, fill: nat, tiff: Tiff, rest: seq<Byte>)
    requires tiff.Valid() && forall i :: 0 <= i < |segments| ==> Passable(segments[i])
    ensures var b, next := File(segments, fill, tiff, rest), FilledAt(segments) + 2 + FilledLength(segments, fill, tiff);
            FileSays(b) == Some(tiff.Meant())
            <==> if Unfilled(segments) && fill == 0 then tiff.Count() <= MAX_ENTRIES
                 else FilledLength(segments, fill, tiff) >= 2 && next <= |b| && SegmentsSay(b, next) == Some(tiff.Meant())
  {
    hide FileSays, SegmentsSay, FilledAt, FilledLength;
    FileSaysExactly(segments, fill, tiff, rest);
  }

  // The first filled marker, that of the Exif segment if no other is filled.
  function FirstMarker(segments: seq<Segment>): Byte {
    var n := FirstFilled(segments);
    if n < |segments| then segments[n].marker else APP1
  }

  // Where the first filled marker m is less than 256 m + 2 bytes from the end of the file, the
  // orientation is undefined. Markers of segments are 0xc0 and above: less than 48 kilobytes is
  // always too near.
  lemma {:induction false} FillNearEndIsUndefined(segments: seq<Segment>, fill: nat, tiff: Tiff, rest: seq<Byte>)
    requires tiff.Valid() && forall i :: 0 <= i < |segments| ==> Passable(segments[i])
    requires !(Unfilled(segments) && fill == 0)
    requires |File(segments, fill, tiff, rest)| < FilledAt(segments) + 2 + 256 * FirstMarker(segments)
    ensures FileSays(File(segments, fill, tiff, rest)) == None
  {
    hide File, FileSays, SegmentsSay, FilledAt;
    FileSaysExactly(segments, fill, tiff, rest);
  }

  // A picture lying on its side, with nothing else in the file.
  const ON_ITS_SIDE := Tiff(false, [], [], Some(6), [0, 0], [], [])

  // One fill byte before its Exif segment, and the orientation is undefined.
  lemma FillLosesOrientation()
    ensures ON_ITS_SIDE.Valid() && FileSays(File([], 0, ON_ITS_SIDE, [])) == Some(6)
    ensures FileSays(File([], 1, ON_ITS_SIDE, [])) == None
  {
    OrientationRoundTrip([], ON_ITS_SIDE, []);
    assert FilledAt([]) == 2;
    FillNearEndIsUndefined([], 1, ON_ITS_SIDE, []);
  }

  lemma ScanDataBehind(b: seq<Byte>, front: seq<Byte>, between: seq<Byte>)
    requires b == front + (between + [0xff, SOS, 0, 0])
    ensures SegmentsSay(b, |front| + |between|) == Some(1)
  {
    var p := |front| + |between|;
    assert b[p] == 0xff && b[p + 1] == SOS;
  }

  // One fill byte, and scan data where the jump leads: the picture is said to be upright.
  lemma FillMakesUpright()
    ensures ON_ITS_SIDE.Valid()
    ensures exists rest :: FileSays(File([], 1, ON_ITS_SIDE, rest)) == Some(1)
  {
    hide FileSays, SegmentsSay, PutFilled, ExifPayload;
    var between: seq<Byte> := seq(57569, _ => 0);
    var rest := between + [0xff, SOS, 0, 0];
    assert FilledAt([]) == 2 && FilledLength([], 1, ON_ITS_SIDE) == 57600;
    FileSaysExactly([], 1, ON_ITS_SIDE, rest);
    ScanDataBehind(File([], 1, ON_ITS_SIDE, rest),
                   [0xff, 0xd8] + PutSegments([]) + PutFilled(1, APP1, ON_ITS_SIDE.Payload()), between);
  }
}
