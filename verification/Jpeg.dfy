/** The scan for the EXIF orientation of a JPEG file. */
module JpegScan {
  import opened Common
  import opened Bytes

  const EXIF_HEADER: Data := [69, 120, 105, 102, 0, 0]
  const LITTLE_ENDIAN: Data := [73, 73]
  const BIG_ENDIAN: Data := [77, 77]
  const ORIENTATION_TAG := 0x112

  /** The end of a scan of one segment: a value, nothing, or malformed metadata. */
  datatype Scan = Found(value: int) | Absent | Malformed

  // ----- image file directories (section 2 of TIFF Revision 6.0)

  function EntryValue(order: Order, entry: Data): Scan
    requires |entry| == 12
  {
    if Uint16(order, entry[2..4]) != 3 || Uint32(order, entry[4..8]) != 1 then Malformed
    else
      var value := Uint16(order, entry[8..10]);
      if 1 <= value <= 8 then Found(value) else Malformed
  }

  predicate IsOrientation(order: Order, entry: Data)
    requires |entry| == 12
  {
    Uint16(order, entry[..2]) == ORIENTATION_TAG
  }

  /** The first orientation entry among `count` entries decides. */
  function ScanEntries(order: Order, directory: Data, count: nat): Scan
    requires 12 * count <= |directory|
    decreases count
  {
    if count == 0 then Absent
    else if IsOrientation(order, directory[..12]) then EntryValue(order, directory[..12])
    else ScanEntries(order, directory[12..], count - 1)
  }

  function OrderOf(mark: Data): Option<Order> {
    if mark == LITTLE_ENDIAN then Some(Little) else if mark == BIG_ENDIAN then Some(Big) else None
  }

  /** The checks before the directory is read. */
  function ScanTiff(tiff: Data): Scan {
    if |tiff| < 8 then Malformed
    else if OrderOf(tiff[..2]).None? then Malformed
    else
      var order := OrderOf(tiff[..2]).value;
      if Uint16(order, tiff[2..4]) != 42 then Malformed
      else
        var offset := Uint32(order, tiff[4..8]);
        if offset < 8 || offset + 2 > |tiff| then Malformed
        else
          var count := Uint16(order, tiff[offset..offset + 2]);
          if offset + 2 + count * 12 > |tiff| then Malformed
          else ScanEntries(order, tiff[offset + 2..], count)
  }

  /** A directory entry as it is written: tag, type, count and value field. */
  datatype Entry = Entry(tag: int, kind: int, count: int, field: Data)
  {
    predicate Valid() {
      0 <= tag < 0x1_0000 && 0 <= kind < 0x1_0000 && 0 <= count < 0x1_0000_0000 && |field| == 4
    }

    /** One SHORT between 1 and 8; anything else is malformed. */
    function Orientation(order: Order): Scan
      requires Valid()
    {
      if kind != 3 || count != 1 then Malformed
      else
        var value := Uint16(order, field[..2]);
        if 1 <= value <= 8 then Found(value) else Malformed
    }
  }

  function EntryBytes(order: Order, e: Entry): (r: Data)
    requires e.Valid()
    ensures |r| == 12
  {
    Encode16(order, e.tag) + Encode16(order, e.kind) + Encode32(order, e.count) + e.field
  }

  function EntriesBytes(order: Order, entries: seq<Entry>): (r: Data)
    requires forall e <- entries :: e.Valid()
    ensures |r| == 12 * |entries|
  {
    if entries == [] then [] else EntryBytes(order, entries[0]) + EntriesBytes(order, entries[1..])
  }

  /** What the standard lets a reader of these entries find. */
  function EntriesOrientation(order: Order, entries: seq<Entry>): Scan
    requires forall e <- entries :: e.Valid()
  {
    if entries == [] then Absent
    else if entries[0].tag == 0x0112 then entries[0].Orientation(order)
    else EntriesOrientation(order, entries[1..])
  }

  function TiffHeader(order: Order, offset: int): (r: Data)
    requires 0 <= offset < 0x1_0000_0000
    ensures |r| == 8
  {
    (if order.Little? then Ascii("II") else Ascii("MM")) + Encode16(order, 42) + Encode32(order, offset)
  }

  function Directory(order: Order, entries: seq<Entry>): (r: Data)
    requires |entries| < 0x1_0000 && forall e <- entries :: e.Valid()
    ensures |r| == 2 + 12 * |entries|
  {
    Encode16(order, |entries|) + EntriesBytes(order, entries)
  }

  /** A TIFF header, some bytes, one directory, and whatever follows. */
  function TiffBytes(order: Order, gap: Data, entries: seq<Entry>, rest: Data): Data
    requires |gap| < 0xffff_fff8 && |entries| < 0x1_0000 && forall e <- entries :: e.Valid()
  {
    TiffHeader(order, 8 + |gap|) + gap + Directory(order, entries) + rest
  }

  lemma EntryRead(order: Order, e: Entry)
    requires e.Valid()
    ensures var b := EntryBytes(order, e);
      && Uint16(order, b[..2]) == e.tag && Uint16(order, b[2..4]) == e.kind
      && Uint32(order, b[4..8]) == e.count && b[8..10] == e.field[..2]
  {
    var b := EntryBytes(order, e);
    assert b[..2] == Encode16(order, e.tag) && b[2..4] == Encode16(order, e.kind) && b[4..8] == Encode32(order, e.count);
    Round16(order, e.tag);
    Round16(order, e.kind);
    Round32(order, e.count);
  }

  lemma EntryScan(order: Order, e: Entry, rest: Data)
    requires e.Valid()
    ensures var b := EntryBytes(order, e) + rest;
      && b[..12] == EntryBytes(order, e) && b[12..] == rest
      && IsOrientation(order, b[..12]) == (e.tag == ORIENTATION_TAG)
      && EntryValue(order, b[..12]) == e.Orientation(order)
  {
    EntryRead(order, e);
    var b := EntryBytes(order, e) + rest;
    assert b[..12] == EntryBytes(order, e);
  }

  lemma {:induction false} EntriesRead(order: Order, entries: seq<Entry>, rest: Data)
    requires forall e <- entries :: e.Valid()
    ensures ScanEntries(order, EntriesBytes(order, entries) + rest, |entries|) == EntriesOrientation(order, entries)
  {
    if entries != [] {
      var tail := EntriesBytes(order, entries[1..]) + rest;
      assert EntriesBytes(order, entries) + rest == EntryBytes(order, entries[0]) + tail;
      EntryScan(order, entries[0], tail);
      EntriesRead(order, entries[1..], rest);
    }
  }

  lemma Marks()
    ensures Ascii("II") == LITTLE_ENDIAN && Ascii("MM") == BIG_ENDIAN && LITTLE_ENDIAN != BIG_ENDIAN
  {
  }

  lemma HeaderMark(order: Order, offset: int)
    requires 0 <= offset < 0x1_0000_0000
    ensures OrderOf(TiffHeader(order, offset)[..2]) == Some(order)
  {
    Marks();
    var mark := if order.Little? then LITTLE_ENDIAN else BIG_ENDIAN;
    assert TiffHeader(order, offset)[..2] == mark;
  }

  lemma HeaderRead(tiff: Data, order: Order, offset: int)
    requires 0 <= offset < 0x1_0000_0000 && |tiff| >= 8 && tiff[..8] == TiffHeader(order, offset)
    ensures OrderOf(tiff[..2]) == Some(order) && Uint16(order, tiff[2..4]) == 42 && Uint32(order, tiff[4..8]) == offset
  {
    var header := TiffHeader(order, offset);
    HeaderMark(order, offset);
    assert tiff[..2] == header[..2];
    assert tiff[2..4] == header[2..4] == Encode16(order, 42);
    assert tiff[4..8] == header[4..8] == Encode32(order, offset);
    Round16(order, 42);
    Round32(order, offset);
  }

  lemma DirectoryRead(order: Order, before: Data, entries: seq<Entry>, rest: Data)
    requires |entries| < 0x1_0000 && forall e <- entries :: e.Valid()
    ensures var tiff := before + Directory(order, entries) + rest; var offset := |before|;
      && |tiff| == offset + 2 + 12 * |entries| + |rest|
      && Uint16(order, tiff[offset..offset + 2]) == |entries|
      && tiff[offset + 2..] == EntriesBytes(order, entries) + rest
  {
    var count, body := Encode16(order, |entries|), EntriesBytes(order, entries);
    var tiff := before + Directory(order, entries) + rest;
    assert tiff == before + count + (body + rest);
    Middle(before, count, body + rest);
    Round16(order, |entries|);
  }

  lemma Middle(a: Data, b: Data, c: Data)
    ensures (a + b + c)[|a|..|a| + |b|] == b
    ensures (a + b + c)[|a| + |b|..] == c
  {
  }

  /** A well-formed header leads to its directory. */
  lemma ScanReaches(tiff: Data, order: Order, offset: int, count: int)
    requires |tiff| >= 8 && OrderOf(tiff[..2]) == Some(order) && Uint16(order, tiff[2..4]) == 42
    requires Uint32(order, tiff[4..8]) == offset && 8 <= offset && offset + 2 <= |tiff|
    requires Uint16(order, tiff[offset..offset + 2]) == count && offset + 2 + count * 12 <= |tiff|
    ensures ScanTiff(tiff) == ScanEntries(order, tiff[offset + 2..], count)
  {
  }

  /** Either byte order, any gap before the directory, any bytes behind it. */
  lemma TiffRead(order: Order, gap: Data, entries: seq<Entry>, rest: Data)
    requires |gap| < 0xffff_fff8 && |entries| < 0x1_0000 && forall e <- entries :: e.Valid()
    ensures ScanTiff(TiffBytes(order, gap, entries, rest)) == EntriesOrientation(order, entries)
  {
    var offset := 8 + |gap|;
    var header := TiffHeader(order, offset);
    var tiff := TiffBytes(order, gap, entries, rest);
    DirectoryRead(order, header + gap, entries, rest);
    assert tiff[..8] == header;
    HeaderRead(tiff, order, offset);
    EntriesRead(order, entries, rest);
    ScanReaches(tiff, order, offset, |entries|);
  }

  /** Nothing else is read: what is not malformed is a header and a directory. */
  lemma TiffParts(tiff: Data) returns (exif: Exif)
    requires ScanTiff(tiff) != Malformed
    ensures exif.Valid() && exif.Tiff() == tiff
  {
    var order := OrderOf(tiff[..2]).value;
    var offset := Uint32(order, tiff[4..8]);
    var count := Uint16(order, tiff[offset..offset + 2]);
    var end := offset + 2 + 12 * count;
    FromTo(tiff, offset, end);
    var entries := EntriesOf(order, tiff[offset..end][2..], count);
    exif := Exif(order, tiff[8..offset], entries, tiff[end..]);
    HeaderWritten(tiff, order, offset);
    DirectoryWritten(order, tiff[offset..end], entries);
    Parted(tiff, offset, end);
  }

  lemma FromTo(b: Data, from: nat, to: nat)
    requires from + 2 <= to <= |b|
    ensures b[from..to][..2] == b[from..from + 2] && b[from..to][2..] == b[from + 2..to]
  {
  }

  lemma DirectoryWritten(order: Order, b: Data, entries: seq<Entry>)
    requires |b| >= 2 && Uint16(order, b[..2]) == |entries| && forall e <- entries :: e.Valid()
    requires EntriesBytes(order, entries) == b[2..]
    ensures Directory(order, entries) == b
  {
    Back16(order, b[..2]);
  }

  lemma Parted(b: Data, from: nat, to: nat)
    requires 8 <= from <= to <= |b|
    ensures b == b[..8] + b[8..from] + b[from..to] + b[to..]
  {
  }

  lemma HeaderWritten(tiff: Data, order: Order, offset: int)
    requires |tiff| >= 8 && OrderOf(tiff[..2]) == Some(order) && Uint16(order, tiff[2..4]) == 42
    requires Uint32(order, tiff[4..8]) == offset
    ensures tiff[..8] == TiffHeader(order, offset)
  {
    Marks();
    Back16(order, tiff[2..4]);
    Back32(order, tiff[4..8]);
    assert tiff[..8] == tiff[..2] + tiff[2..4] + tiff[4..8];
  }

  lemma EntryOf(order: Order, b: Data) returns (e: Entry)
    requires |b| == 12
    ensures e.Valid() && EntryBytes(order, e) == b
  {
    e := Entry(Uint16(order, b[..2]), Uint16(order, b[2..4]), Uint32(order, b[4..8]), b[8..]);
    Back16(order, b[..2]);
    Back16(order, b[2..4]);
    Back32(order, b[4..8]);
    assert b == b[..2] + b[2..4] + b[4..8] + b[8..];
  }

  lemma {:induction false} EntriesOf(order: Order, b: Data, count: nat) returns (entries: seq<Entry>)
    requires |b| == 12 * count
    ensures |entries| == count && (forall e <- entries :: e.Valid()) && EntriesBytes(order, entries) == b
    decreases count
  {
    if count == 0 {
      return [];
    }
    var first := EntryOf(order, b[..12]);
    var tail := EntriesOf(order, b[12..], count - 1);
    entries := [first] + tail;
    assert entries[1..] == tail && b == b[..12] + b[12..];
  }

  /** A TIFF structure is read if and only if it is a header and a directory whose first
      orientation entry, if any, is one SHORT between 1 and 8. */
  lemma TiffIff(tiff: Data, scan: Scan)
    requires scan != Malformed
    ensures ScanTiff(tiff) == scan <==>
      exists exif: Exif :: exif.Valid() && exif.Tiff() == tiff && EntriesOrientation(exif.order, exif.entries) == scan
  {
    if ScanTiff(tiff) == scan {
      var exif := TiffParts(tiff);
      TiffRead(exif.order, exif.gap, exif.entries, exif.rest);
    }
    if exif: Exif :| exif.Valid() && exif.Tiff() == tiff && EntriesOrientation(exif.order, exif.entries) == scan {
      TiffRead(exif.order, exif.gap, exif.entries, exif.rest);
    }
  }

  // ----- marker segments (section B.1.1 of ITU-T T.81)

  predicate Stands(marker: byte) {
    marker == 0x01 || 0xd0 <= marker <= 0xd7
  }

  predicate Ends(marker: byte) {
    marker == 0xda || marker == 0xd9
  }

  /** The number of 0xff bytes at the front. */
  function Fill(b: Data): (r: nat)
    ensures r <= |b| && (r < |b| ==> b[r] != 0xff)
    ensures forall i :: 0 <= i < r ==> b[i] == 0xff
  {
    if b == [] || b[0] != 0xff then 0 else 1 + Fill(b[1..])
  }

  function OfScan(scan: Scan, otherwise: Result<int>): Result<int> {
    match scan
    case Found(value) => Ok(value)
    case Malformed => Err(Validation)
    case Absent => otherwise
  }

  predicate IsExif(marker: byte, body: Data) {
    marker == 0xe1 && HasPrefix(body, EXIF_HEADER)
  }

  /** What the loop returns from its position on. */
  function ScanSegments(b: Data): Result<int>
    decreases |b|, 0
  {
    if b == [] then Ok(1)
    else if Fill(b) == 0 || Fill(b) == |b| then Err(Validation)
    else ScanMarker(b[Fill(b)], b[Fill(b) + 1..])
  }

  function ScanMarker(marker: byte, rest: Data): Result<int>
    decreases |rest|, 1
  {
    if Ends(marker) then Ok(1)
    else if Stands(marker) then ScanSegments(rest)
    else if |rest| < 2 then Err(Validation)
    else
      var length := Uint16(Big, rest[..2]);
      if length < 2 || length > |rest| then Err(Validation)
      else ScanBody(marker, rest[2..length], rest[length..])
  }

  function ScanBody(marker: byte, body: Data, after: Data): Result<int>
    decreases |after|, 1
  {
    if IsExif(marker, body) then OfScan(ScanTiff(body[6..]), ScanSegments(after)) else ScanSegments(after)
  }

  /** A segment as it is written, behind any number of fill bytes. */
  datatype Segment =
    | Standalone(fill: nat, marker: byte)
    | Carrying(fill: nat, marker: byte, body: Data)
  {
    predicate Valid() {
      match this
      case Standalone(_, marker) => marker == 0x01 || 0xd0 <= marker <= 0xd7
      case Carrying(_, marker, body) =>
        && marker != 0x01 && !(0xd0 <= marker <= 0xd7) && marker != 0xd9 && marker != 0xda && marker != 0xff
        && |body| + 2 < 0x1_0000
    }
  }

  /** The end of the header: the end of the data, an end marker before anything, or what
      is not read because the last segment has decided. */
  datatype Ending = Nothing | EndMarker(fill: nat, marker: byte, rest: Data) | Unread(rest: Data)

  function Repeat(n: nat): (r: Data)
    ensures |r| == n && forall i :: 0 <= i < n ==> r[i] == 0xff
  {
    seq(n, i => 0xff)
  }

  function SegmentBytes(s: Segment): Data
    requires s.Valid()
  {
    match s
    case Standalone(fill, marker) => Repeat(fill + 1) + [marker]
    case Carrying(fill, marker, body) => Repeat(fill + 1) + [marker] + Encode16(Big, |body| + 2) + body
  }

  function Serialize(segments: seq<Segment>, ending: Ending): Data
    requires forall s <- segments :: s.Valid()
  {
    if segments == [] then
      match ending
      case Nothing => []
      case EndMarker(fill, marker, rest) => Repeat(fill + 1) + [marker] + rest
      case Unread(rest) => rest
    else SegmentBytes(segments[0]) + Serialize(segments[1..], ending)
  }

  /** Exif metadata with an orientation entry, or malformed. */
  predicate Decides(s: Segment) {
    s.Carrying? && s.marker == 0xe1 && HasPrefix(s.body, Ascii("Exif") + [0, 0]) && ScanTiff(s.body[6..]) != Absent
  }

  /** A header as section B.1.1 of ITU-T T.81 has it, up to the segment that decides. */
  predicate Readable(segments: seq<Segment>, ending: Ending) {
    && (forall s <- segments :: s.Valid())
    && (ending.EndMarker? ==> ending.marker == 0xd9 || ending.marker == 0xda)
    && (ending.Unread? ==> segments != [] && Decides(segments[|segments| - 1]))
  }

  /** The orientation that the segments tell: the first Exif segment that holds an
      orientation entry decides, and 1 is the value when none does. */
  function Orientation(segments: seq<Segment>): Result<int> {
    if segments == [] then Ok(1)
    else
      var s := segments[0];
      if s.Carrying? && IsExif(s.marker, s.body) then OfScan(ScanTiff(s.body[6..]), Orientation(segments[1..]))
      else Orientation(segments[1..])
  }

  lemma {:induction false} FillRead(n: nat, marker: byte, rest: Data)
    requires marker != 0xff
    ensures var b := Repeat(n) + [marker] + rest;
      Fill(b) == n && b[n] == marker && b[n + 1..] == rest
  {
    var b := Repeat(n) + [marker] + rest;
    if n > 0 {
      FillRead(n - 1, marker, rest);
      assert b[1..] == Repeat(n - 1) + [marker] + rest;
    }
  }

  lemma BodyRead(marker: byte, body: Data, after: Data)
    requires !Stands(marker) && !Ends(marker) && |body| + 2 < 0x1_0000
    ensures ScanMarker(marker, Encode16(Big, |body| + 2) + body + after) == ScanBody(marker, body, after)
  {
    var length := |body| + 2;
    var rest := Encode16(Big, length) + body + after;
    Round16(Big, length);
    assert rest[..2] == Encode16(Big, length);
    assert rest[2..length] == body && rest[length..] == after;
  }

  /** Fill bytes and a marker in front of some bytes. */
  lemma MarkerRead(fill: nat, marker: byte, rest: Data)
    requires marker != 0xff
    ensures ScanSegments(Repeat(fill + 1) + [marker] + rest) == ScanMarker(marker, rest)
  {
    FillRead(fill + 1, marker, rest);
  }

  lemma CarryingRead(fill: nat, marker: byte, body: Data, rest: Data)
    requires Carrying(fill, marker, body).Valid()
    ensures ScanSegments(SegmentBytes(Carrying(fill, marker, body)) + rest) == ScanBody(marker, body, rest)
  {
    var tail := Encode16(Big, |body| + 2) + body + rest;
    MarkerRead(fill, marker, tail);
    assert SegmentBytes(Carrying(fill, marker, body)) + rest == Repeat(fill + 1) + [marker] + tail;
    assert ScanMarker(marker, tail) == ScanBody(marker, body, rest) by { BodyRead(marker, body, rest); }
  }

  lemma StandaloneRead(fill: nat, marker: byte, rest: Data)
    requires Stands(marker)
    ensures ScanSegments(SegmentBytes(Standalone(fill, marker)) + rest) == ScanSegments(rest)
  {
    MarkerRead(fill, marker, rest);
  }

  /** What one segment adds to the scan of the bytes behind it. */
  lemma SegmentRead(s: Segment, rest: Data)
    requires s.Valid()
    ensures ScanSegments(SegmentBytes(s) + rest)
         == if s.Carrying? then ScanBody(s.marker, s.body, rest) else ScanSegments(rest)
  {
    match s
    case Carrying(fill, marker, body) => CarryingRead(fill, marker, body, rest);
    case Standalone(fill, marker) => StandaloneRead(fill, marker, rest);
  }

  /** On every serialized list of segments, whatever ends it, the scan finds what the
      segments tell. */
  lemma {:induction false} ScanReadsSegments(segments: seq<Segment>, ending: Ending)
    requires Readable(segments, ending)
    ensures ScanSegments(Serialize(segments, ending)) == Orientation(segments)
  {
    if segments == [] {
      if ending.EndMarker? {
        MarkerRead(ending.fill, ending.marker, ending.rest);
      }
    } else {
      SegmentRead(segments[0], Serialize(segments[1..], ending));
      if Decides(segments[0]) {
        ExifCode(segments[0].body);
      } else {
        ScanReadsSegments(segments[1..], ending);
      }
    }
  }

  lemma ExifCode(body: Data)
    ensures HasPrefix(body, Ascii("Exif") + [0, 0]) <==> HasPrefix(body, EXIF_HEADER)
  {
    assert Ascii("Exif") + [0, 0] == EXIF_HEADER;
  }

  /** Nothing else is read: bytes on which the scan succeeds are a readable header. */
  lemma {:induction false} SegmentsOf(b: Data) returns (segments: seq<Segment>, ending: Ending)
    requires ScanSegments(b).Ok?
    ensures Readable(segments, ending) && Serialize(segments, ending) == b
    decreases |b|
  {
    if b == [] {
      return [], Nothing;
    }
    var fill, marker, rest := Fill(b) - 1, b[Fill(b)], b[Fill(b) + 1..];
    assert b == Repeat(fill + 1) + [marker] + rest;
    if Ends(marker) {
      segments, ending := [], EndMarker(fill, marker, rest);
    } else if Stands(marker) {
      segments, ending := SegmentsOf(rest);
      segments, ending := Prepended(Standalone(fill, marker), segments, ending, rest);
    } else {
      var length := Uint16(Big, rest[..2]);
      var s := Carrying(fill, marker, rest[2..length]);
      SegmentFront(fill, marker, rest, length);
      assert ScanSegments(b) == ScanBody(marker, s.body, rest[length..]);
      if IsExif(marker, s.body) && ScanTiff(s.body[6..]).Found? {
        ExifCode(s.body);
        segments, ending := [s], Unread(rest[length..]);
        assert segments[1..] == [];
      } else {
        segments, ending := SegmentsOf(rest[length..]);
        segments, ending := Prepended(s, segments, ending, rest[length..]);
      }
    }
  }

  lemma SegmentFront(fill: nat, marker: byte, rest: Data, length: int)
    requires marker != 0xff && !Stands(marker) && !Ends(marker) && |rest| >= 2
    requires length == Uint16(Big, rest[..2]) && 2 <= length <= |rest|
    ensures var s := Carrying(fill, marker, rest[2..length]);
      s.Valid() && Repeat(fill + 1) + [marker] + rest == SegmentBytes(s) + rest[length..]
  {
    Back16(Big, rest[..2]);
    assert rest == rest[..2] + rest[2..length] + rest[length..];
  }

  lemma Prepended(s: Segment, tail: seq<Segment>, end: Ending, rest: Data) returns (segments: seq<Segment>, ending: Ending)
    requires s.Valid() && Readable(tail, end) && Serialize(tail, end) == rest
    ensures segments == [s] + tail && ending == end
    ensures Readable(segments, ending) && Serialize(segments, ending) == SegmentBytes(s) + rest
  {
    segments, ending := [s] + tail, end;
    assert segments[1..] == tail;
  }

  /** The scan succeeds on exactly the readable headers without malformed metadata, and
      returns what their segments tell. */
  lemma ScanIff(b: Data, v: int)
    ensures ScanSegments(b) == Ok(v) <==>
      exists segments, ending :: Readable(segments, ending) && Serialize(segments, ending) == b && Orientation(segments) == Ok(v)
  {
    if ScanSegments(b) == Ok(v) {
      var segments, ending := SegmentsOf(b);
      ScanReadsSegments(segments, ending);
    }
    if segments, ending :| Readable(segments, ending) && Serialize(segments, ending) == b && Orientation(segments) == Ok(v) {
      ScanReadsSegments(segments, ending);
    }
  }

  /** Exif metadata as it is written: either byte order, a gap before its directory. */
  datatype Exif = Exif(order: Order, gap: Data, entries: seq<Entry>, rest: Data)
  {
    predicate Valid() {
      |gap| < 0xffff_fff8 && |entries| < 0x1_0000 && forall e <- entries :: e.Valid()
    }

    function Tiff(): Data
      requires Valid()
    {
      TiffBytes(order, gap, entries, rest)
    }

    function Body(): Data
      requires Valid()
    {
      Ascii("Exif") + [0, 0] + Tiff()
    }

    /** Whether the directory holds an orientation entry at all. */
    predicate Tells() {
      exists e <- entries :: e.tag == 0x0112
    }
  }

  /** A part of a JPEG header: Exif metadata, or any segment that is not that. */
  datatype Part = Other(segment: Segment) | Metadata(fill: nat, exif: Exif)
  {
    predicate Valid() {
      match this
      case Other(s) => s.Valid() && (s.Carrying? ==> !IsExif(s.marker, s.body))
      case Metadata(_, exif) => exif.Valid() && |exif.Body()| + 2 < 0x1_0000
    }

    function Written(): (r: Segment)
      requires Valid()
      ensures r.Valid()
    {
      match this
      case Other(s) => s
      case Metadata(fill, exif) => Carrying(fill, 0xe1, exif.Body())
    }
  }

  function Written(parts: seq<Part>): (r: seq<Segment>)
    requires forall p <- parts :: p.Valid()
    ensures |r| == |parts| && forall s <- r :: s.Valid()
  {
    if parts == [] then [] else [parts[0].Written()] + Written(parts[1..])
  }

  predicate Silent(p: Part) {
    p.Metadata? ==> !p.exif.Tells()
  }

  lemma MetadataRead(exif: Exif)
    requires exif.Valid()
    ensures IsExif(0xe1, exif.Body()) && ScanTiff(exif.Body()[6..]) == EntriesOrientation(exif.order, exif.entries)
  {
    var tiff := TiffBytes(exif.order, exif.gap, exif.entries, exif.rest);
    ExifCode(exif.Body());
    assert Ascii("Exif") + [0, 0] == EXIF_HEADER;
    assert exif.Body()[..6] == EXIF_HEADER && exif.Body()[6..] == tiff;
    TiffRead(exif.order, exif.gap, exif.entries, exif.rest);
  }

  lemma {:induction false} SilentEntries(order: Order, entries: seq<Entry>)
    requires forall e <- entries :: e.Valid()
    ensures EntriesOrientation(order, entries) == Absent <==> !exists e <- entries :: e.tag == 0x0112
  {
    if entries != [] {
      SilentEntries(order, entries[1..]);
      assert forall e :: e in entries <==> e == entries[0] || e in entries[1..];
    }
  }

  /** What the first orientation entry of a part's metadata says. */
  function Told(p: Part): Result<int>
    requires p.Valid()
  {
    match p
    case Other(_) => Ok(1)
    case Metadata(_, exif) => OfScan(EntriesOrientation(exif.order, exif.entries), Ok(1))
  }

  lemma PartRead(p: Part, rest: seq<Segment>)
    requires p.Valid()
    ensures Orientation([p.Written()] + rest) == if Silent(p) then Orientation(rest) else Told(p)
  {
    assert ([p.Written()] + rest)[1..] == rest;
    if p.Metadata? {
      MetadataRead(p.exif);
      SilentEntries(p.exif.order, p.exif.entries);
    }
  }

  /** A file whose metadata holds no orientation entry has orientation 1; otherwise the
      first Exif segment that holds one decides, and its first such entry does. */
  lemma {:induction false} FirstTells(parts: seq<Part>, k: nat)
    requires (forall p <- parts :: p.Valid()) && k <= |parts|
    requires (forall p <- parts[..k] :: Silent(p)) && (k < |parts| ==> !Silent(parts[k]))
    ensures Orientation(Written(parts)) == if k == |parts| then Ok(1) else Told(parts[k])
  {
    if parts != [] {
      var tail := parts[1..];
      PartRead(parts[0], Written(tail));
      if k > 0 {
        assert parts[..k][0] == parts[0] && tail[..k - 1] == parts[..k][1..];
        FirstTells(tail, k - 1);
      }
    }
  }

  /** The same, of the bytes of a whole file. */
  lemma FileOrientation(start: Data, parts: seq<Part>, ending: Ending, k: nat)
    requires |start| == 2 && (forall p <- parts :: p.Valid()) && Readable(Written(parts), ending)
    requires k <= |parts| && (forall p <- parts[..k] :: Silent(p)) && (k < |parts| ==> !Silent(parts[k]))
    ensures ScanSegments((start + Serialize(Written(parts), ending))[2..]) == if k == |parts| then Ok(1) else Told(parts[k])
  {
    assert (start + Serialize(Written(parts), ending))[2..] == Serialize(Written(parts), ending);
    ScanReadsSegments(Written(parts), ending);
    FirstTells(parts, k);
  }

  predicate InRange(r: Result<int>) {
    r.Ok? ==> 1 <= r.value <= 8
  }

  lemma {:induction false} ScanInRange(b: Data)
    ensures InRange(ScanSegments(b))
    decreases |b|, 0
  {
    if b != [] && 0 < Fill(b) < |b| {
      MarkerInRange(b[Fill(b)], b[Fill(b) + 1..]);
    }
  }

  lemma {:induction false} MarkerInRange(marker: byte, rest: Data)
    ensures InRange(ScanMarker(marker, rest))
    decreases |rest|, 1
  {
    if !Ends(marker) {
      if Stands(marker) {
        ScanInRange(rest);
      } else if |rest| >= 2 {
        var length := Uint16(Big, rest[..2]);
        if 2 <= length <= |rest| {
          BodyInRange(marker, rest[2..length], rest[length..]);
        }
      }
    }
  }

  lemma {:induction false} BodyInRange(marker: byte, body: Data, after: Data)
    ensures InRange(ScanBody(marker, body, after))
    decreases |after|, 1
  {
    ScanInRange(after);
    if IsExif(marker, body) {
      TiffInRange(body[6..]);
    }
  }

  lemma TiffInRange(tiff: Data)
    ensures ScanTiff(tiff).Found? ==> 1 <= ScanTiff(tiff).value <= 8
  {
    if |tiff| >= 8 && OrderOf(tiff[..2]).Some? {
      var order := OrderOf(tiff[..2]).value;
      var offset := Uint32(order, tiff[4..8]);
      if 8 <= offset && offset + 2 <= |tiff| {
        var count := Uint16(order, tiff[offset..offset + 2]);
        if offset + 2 + count * 12 <= |tiff| {
          EntriesInRange(order, tiff[offset + 2..], count);
        }
      }
    }
  }

  lemma {:induction false} EntriesInRange(order: Order, directory: Data, count: nat)
    requires 12 * count <= |directory|
    ensures var r := ScanEntries(order, directory, count); r.Found? ==> 1 <= r.value <= 8
    decreases count
  {
    if count > 0 && !IsOrientation(order, directory[..12]) {
      EntriesInRange(order, directory[12..], count - 1);
    }
  }

  // ----- the scan itself

  /** The entry at a position decides, or leaves it to those behind it. */
  lemma EntryAt(order: Order, tiff: Data, pos: nat, count: nat)
    requires count > 0 && pos + 12 * count <= |tiff|
    ensures var entry := tiff[pos..pos + 12];
      ScanEntries(order, tiff[pos..], count)
      == if IsOrientation(order, entry) then EntryValue(order, entry) else ScanEntries(order, tiff[pos + 12..], count - 1)
  {
    assert tiff[pos..][..12] == tiff[pos..pos + 12];
    assert tiff[pos..][12..] == tiff[pos + 12..];
  }

  /** The part of the loop body that reads a TIFF structure. */
  method TiffOrientation(tiff: Data) returns (r: Scan)
    ensures r == ScanTiff(tiff)
  {
    if |tiff| < 8 {
      return Malformed;
    }
    var order: Order;
    if tiff[..2] == LITTLE_ENDIAN {
      order := Little;
    } else if tiff[..2] == BIG_ENDIAN {
      order := Big;
    } else {
      return Malformed;
    }
    if Uint16(order, tiff[2..4]) != 42 {
      return Malformed;
    }
    var offset := Uint32(order, tiff[4..8]);
    if offset < 8 || offset + 2 > |tiff| {
      return Malformed;
    }
    var count := Uint16(order, tiff[offset..offset + 2]);
    if offset + 2 + count * 12 > |tiff| {
      return Malformed;
    }
    r := DirectoryOrientation(tiff, order, offset + 2, count);
  }

  /** The loop over the entries of a directory. */
  method DirectoryOrientation(tiff: Data, order: Order, start: nat, count: nat) returns (r: Scan)
    requires start + count * 12 <= |tiff|
    ensures r == ScanEntries(order, tiff[start..], count)
  {
    for n := 0 to count
      invariant ScanEntries(order, tiff[start..], count) == ScanEntries(order, tiff[start + n * 12..], count - n)
    {
      EntryAt(order, tiff, start + n * 12, count - n);
      var entry := tiff[start + n * 12..start + (n + 1) * 12];
      if Uint16(order, entry[..2]) != ORIENTATION_TAG {
        continue;
      }
      if Uint16(order, entry[2..4]) != 3 || Uint32(order, entry[4..8]) != 1 {
        return Malformed;
      }
      var value := Uint16(order, entry[8..10]);
      if value < 1 || value > 8 {
        return Malformed;
      }
      return Found(value);
    }
    return Absent;
  }

  /** The bytes of a slice of the data from a position on. */
  lemma FromPosition(data: Data, pos: nat, from: nat, to: nat)
    requires from <= to && pos + to <= |data|
    ensures data[pos..][from..to] == data[pos + from..pos + to]
    ensures data[pos..][to..] == data[pos + to..]
  {
  }

  /** Skips fill bytes from a position. */
  method SkipFill(data: Data, start: nat) returns (pos: nat)
    requires start <= |data|
    ensures pos == start + Fill(data[start..])
  {
    pos := start;
    while pos < |data| && data[pos] == 0xff
      invariant start <= pos <= |data|
      invariant Fill(data[start..]) == pos - start + Fill(data[pos..])
      decreases |data| - pos
    {
      assert data[pos..][1..] == data[pos + 1..];
      pos := pos + 1;
    }
  }

  /** A marker at a position decides how the scan goes on. */
  lemma AtMarker(data: Data, start: nat, pos: nat)
    requires start < pos < |data| && pos == start + Fill(data[start..])
    ensures ScanSegments(data[start..]) == ScanMarker(data[pos], data[pos + 1..])
  {
    assert data[start..][pos - start] == data[pos];
    FromPosition(data, start, pos - start, pos - start + 1);
  }

  /** A segment with a length at a position decides how the scan goes on. */
  lemma AtLength(data: Data, marker: byte, pos: nat, length: int)
    requires !Ends(marker) && !Stands(marker) && pos + 2 <= |data|
    requires length == Uint16(Big, data[pos..pos + 2]) && 2 <= length <= |data| - pos
    ensures ScanMarker(marker, data[pos..]) == ScanBody(marker, data[pos + 2..pos + length], data[pos + length..])
  {
    FromPosition(data, pos, 0, 2);
    FromPosition(data, pos, 2, length);
  }

  lemma BadLength(data: Data, marker: byte, pos: nat)
    requires !Ends(marker) && !Stands(marker) && pos <= |data|
    requires pos + 2 <= |data| ==> var length := Uint16(Big, data[pos..pos + 2]); length < 2 || length > |data| - pos
    ensures ScanMarker(marker, data[pos..]) == Err(Validation)
  {
    if pos + 2 <= |data| {
      FromPosition(data, pos, 0, 2);
    }
  }

  /** What one pass over a marker and its segment leaves to do: the answer, or the
      position of the next marker. */
  datatype Pass = Done(result: Result<int>) | Next(pos: nat)

  method ScanSegment(data: Data, marker: byte, start: nat) returns (pass: Pass)
    requires start <= |data|
    ensures pass.Done? ==> ScanMarker(marker, data[start..]) == pass.result
    ensures pass.Next? ==> start <= pass.pos <= |data| && ScanMarker(marker, data[start..]) == ScanSegments(data[pass.pos..])
  {
    var pos := start;
    if marker == 0xda || marker == 0xd9 {
      return Done(Ok(1));
    }
    if marker == 0x01 || (marker >= 0xd0 && marker <= 0xd7) {
      return Next(pos);
    }
    if pos + 2 > |data| {
      BadLength(data, marker, pos);
      return Done(Err(Validation));
    }
    var length := Uint16(Big, data[pos..pos + 2]);
    if length < 2 || length > |data| - pos {
      BadLength(data, marker, pos);
      return Done(Err(Validation));
    }
    var segment := data[pos + 2..pos + length];
    AtLength(data, marker, pos, length);
    pos := pos + length;
    if marker != 0xe1 || !HasPrefix(segment, EXIF_HEADER) {
      return Next(pos);
    }
    var scan := TiffOrientation(segment[6..]);
    if scan == Malformed {
      return Done(Err(Validation));
    }
    if scan.Found? {
      return Done(Ok(scan.value));
    }
    return Next(pos);
  }

  /** The orientation of a JPEG file, behind its two-byte start marker. */
  method JpegOrientation(data: Data) returns (r: Result<int>)
    ensures r == if |data| < 2 then Ok(1) else ScanSegments(data[2..])
    ensures InRange(r)
  {
    if |data| < 2 {
      return Ok(1);
    }
    ScanInRange(data[2..]);
    var pos := 2;
    while pos < |data|
      invariant 2 <= pos <= |data|
      invariant ScanSegments(data[2..]) == ScanSegments(data[pos..])
      decreases |data| - pos
    {
      if data[pos] != 0xff {
        return Err(Validation);
      }
      ghost var start := pos;
      pos := SkipFill(data, pos);
      if pos >= |data| {
        return Err(Validation);
      }
      AtMarker(data, start, pos);
      var pass := ScanSegment(data, data[pos], pos + 1);
      match pass {
        case Done(result) => return result;
        case Next(next) => pos := next;
      }
    }
    return Ok(1);
  }
}
