/** The scan that keeps animated images and EXIF metadata out of PNG and WebP
    rotations, and what it accepts. */
module Containers {
  import opened Bytes
  import opened Common

  // the four-character kinds, as bytes
  const ACTL: Data := [97, 99, 84, 76]
  const EXIF_PNG: Data := [101, 88, 73, 102]
  const ANIM: Data := [65, 78, 73, 77]
  const ANMF: Data := [65, 78, 77, 70]
  const EXIF_WEBP: Data := [69, 88, 73, 70]
  const VP8X: Data := [86, 80, 56, 88]

  // ----- PNG (section 3.2 of RFC 2083)

  /** Length, kind, body and checksum. */
  datatype PngChunk = PngChunk(kind: Data, body: Data, crc: Data)
  {
    predicate Valid() {
      |kind| == 4 && |crc| == 4 && |body| < 0x1_0000_0000
    }

    predicate Allowed() {
      kind != ACTL && kind != EXIF_PNG
    }
  }

  function PngBytes(c: PngChunk): (r: Data)
    requires c.Valid()
    ensures |r| == |c.body| + 12
  {
    Encode32(Big, |c.body|) + c.kind + c.body + c.crc
  }

  predicate PngWhole(chunks: seq<PngChunk>) {
    forall c <- chunks :: c.Valid()
  }

  predicate PngAllowed(chunks: seq<PngChunk>) {
    forall c <- chunks :: c.Allowed()
  }

  function PngSerialize(chunks: seq<PngChunk>): Data
    requires PngWhole(chunks)
  {
    if chunks == [] then [] else PngBytes(chunks[0]) + PngSerialize(chunks[1..])
  }

  /** What the loop decides about the bytes from its position on. */
  predicate PngAccepts(b: Data)
    decreases |b|
  {
    b == [] ||
    (|b| >= 12 &&
     var size := Uint32(Big, b[..4]);
     && size + 12 <= |b|
     && b[4..8] != ACTL && b[4..8] != EXIF_PNG
     && PngAccepts(b[size + 12..]))
  }

  /** Whole chunks are accepted if and only if all of them are of allowed kinds. */
  lemma {:induction false} PngAcceptsChunks(chunks: seq<PngChunk>)
    requires PngWhole(chunks)
    ensures PngAccepts(PngSerialize(chunks)) <==> PngAllowed(chunks)
  {
    if chunks != [] {
      PngAcceptsChunks(chunks[1..]);
      PngHead(chunks[0], PngSerialize(chunks[1..]));
      assert chunks == [chunks[0]] + chunks[1..];
    }
  }

  lemma PngHead(c: PngChunk, rest: Data)
    requires c.Valid()
    ensures var b := PngBytes(c) + rest;
      Uint32(Big, b[..4]) == |c.body| && b[4..8] == c.kind && b[|c.body| + 12..] == rest
  {
    var b := PngBytes(c) + rest;
    Round32(Big, |c.body|);
    assert b[..4] == Encode32(Big, |c.body|);
  }

  /** The first chunk of what is accepted. */
  function PngFirst(b: Data): (c: PngChunk)
    requires b != [] && PngAccepts(b)
    ensures c.Valid()
  {
    var size := Uint32(Big, b[..4]);
    PngChunk(b[4..8], b[8..8 + size], b[8 + size..12 + size])
  }

  lemma PngSplit(b: Data)
    requires b != [] && PngAccepts(b)
    ensures var c := PngFirst(b);
      && c.Allowed()
      && |PngBytes(c)| <= |b| && b == PngBytes(c) + b[|PngBytes(c)|..]
      && PngAccepts(b[|PngBytes(c)|..])
  {
    var size := Uint32(Big, b[..4]);
    var c := PngFirst(b);
    Back32(Big, b[..4]);
    var end := 12 + size;
    assert |c.body| == size && |PngBytes(c)| == end;
    assert b[..end] == b[..4] + b[4..8] + b[8..8 + size] + b[8 + size..end];
    assert PngBytes(c) == b[..end];
  }

  /** What is accepted tiles into whole chunks of allowed kinds. */
  lemma {:induction false} PngChunksOf(b: Data) returns (chunks: seq<PngChunk>)
    requires PngAccepts(b)
    ensures PngWhole(chunks) && PngAllowed(chunks) && PngSerialize(chunks) == b
    decreases |b|
  {
    if b == [] {
      return [];
    }
    PngSplit(b);
    var c := PngFirst(b);
    var rest := PngChunksOf(b[|PngBytes(c)|..]);
    chunks := [c] + rest;
    assert chunks[1..] == rest;
  }

  // ----- WebP (sections 2.3 and 2.7 of RFC 9649)

  /** Kind, length, body, and one byte of padding behind an odd body. */
  datatype WebpChunk = WebpChunk(kind: Data, body: Data, padding: Data)
  {
    predicate Valid() {
      |kind| == 4 && |body| < 0x1_0000_0000 && |padding| == |body| % 2
    }

    predicate Allowed() {
      && kind != ANIM && kind != ANMF && kind != EXIF_WEBP
      && (kind == VP8X && body != [] ==> !HasForbiddenFlag(body[0]))
    }
  }

  /** The mask 0x0a of the flags: the animation bit 0x02 and the EXIF bit 0x08. */
  predicate HasForbiddenFlag(flags: byte) {
    (flags as int / 2) % 2 == 1 || (flags as int / 8) % 2 == 1
  }

  function WebpBytes(c: WebpChunk): (r: Data)
    requires c.Valid()
    ensures |r| == |c.body| + |c.body| % 2 + 8
  {
    c.kind + Encode32(Little, |c.body|) + c.body + c.padding
  }

  predicate WebpWhole(chunks: seq<WebpChunk>) {
    forall c <- chunks :: c.Valid()
  }

  predicate WebpAllowed(chunks: seq<WebpChunk>) {
    forall c <- chunks :: c.Allowed()
  }

  function WebpSerialize(chunks: seq<WebpChunk>): Data
    requires WebpWhole(chunks)
  {
    if chunks == [] then [] else WebpBytes(chunks[0]) + WebpSerialize(chunks[1..])
  }

  predicate WebpAccepts(b: Data)
    decreases |b|
  {
    b == [] ||
    (|b| >= 8 &&
     var size := Uint32(Little, b[4..8]);
     var padded := size + size % 2;
     && padded + 8 <= |b|
     && b[..4] != ANIM && b[..4] != ANMF && b[..4] != EXIF_WEBP
     && (b[..4] == VP8X && size > 0 ==> !HasForbiddenFlag(b[8]))
     && WebpAccepts(b[padded + 8..]))
  }

  /** The same, with odd bodies padded and the flags of an extended header. */
  lemma {:induction false} WebpAcceptsChunks(chunks: seq<WebpChunk>)
    requires WebpWhole(chunks)
    ensures WebpAccepts(WebpSerialize(chunks)) <==> WebpAllowed(chunks)
  {
    if chunks != [] {
      WebpAcceptsChunks(chunks[1..]);
      WebpHead(chunks[0], WebpSerialize(chunks[1..]));
      assert chunks == [chunks[0]] + chunks[1..];
    }
  }

  lemma WebpHead(c: WebpChunk, rest: Data)
    requires c.Valid()
    ensures var b := WebpBytes(c) + rest;
      && b[..4] == c.kind && Uint32(Little, b[4..8]) == |c.body|
      && (c.body != [] ==> b[8] == c.body[0])
      && b[|c.body| + |c.body| % 2 + 8..] == rest
  {
    var b := WebpBytes(c) + rest;
    Round32(Little, |c.body|);
    assert b[4..8] == Encode32(Little, |c.body|);
  }

  /** The first chunk of what is accepted. */
  function WebpFirst(b: Data): (c: WebpChunk)
    requires b != [] && WebpAccepts(b)
    ensures c.Valid()
  {
    var size := Uint32(Little, b[4..8]);
    WebpChunk(b[..4], b[8..8 + size], b[8 + size..8 + size + size % 2])
  }

  lemma WebpSplit(b: Data)
    requires b != [] && WebpAccepts(b)
    ensures var c := WebpFirst(b);
      && c.Allowed()
      && |WebpBytes(c)| <= |b| && b == WebpBytes(c) + b[|WebpBytes(c)|..]
      && WebpAccepts(b[|WebpBytes(c)|..])
  {
    var size := Uint32(Little, b[4..8]);
    var end := 8 + size + size % 2;
    WebpFront(b, size);
    assert b == b[..end] + b[end..];
  }

  lemma WebpFront(b: Data, size: int)
    requires b != [] && WebpAccepts(b) && size == Uint32(Little, b[4..8])
    ensures WebpBytes(WebpFirst(b)) == b[..8 + size + size % 2]
  {
    Back32(Little, b[4..8]);
    var end := 8 + size + size % 2;
    assert b[..end] == b[..4] + b[4..8] + b[8..8 + size] + b[8 + size..end];
  }

  lemma {:induction false} WebpChunksOf(b: Data) returns (chunks: seq<WebpChunk>)
    requires WebpAccepts(b)
    ensures WebpWhole(chunks) && WebpAllowed(chunks) && WebpSerialize(chunks) == b
    decreases |b|
  {
    if b == [] {
      return [];
    }
    WebpSplit(b);
    var c := WebpFirst(b);
    var rest := WebpChunksOf(b[|WebpBytes(c)|..]);
    chunks := [c] + rest;
    assert chunks[1..] == rest;
  }

  // ----- the scan

  datatype Format = Jpeg | Png | Webp

  /** The chunks behind the signature (8 bytes) or the RIFF header (12 bytes). */
  ghost predicate Accepted(data: Data, format: Format) {
    match format
    case Jpeg => true
    case Png => exists chunks :: PngWhole(chunks) && PngAllowed(chunks) && PngSerialize(chunks) == if |data| <= 8 then [] else data[8..]
    case Webp => |data| >= 12 && exists chunks :: WebpWhole(chunks) && WebpAllowed(chunks) && WebpSerialize(chunks) == data[12..]
  }

  /** The loop over PNG chunks. */
  method CheckPng(data: Data) returns (ok: bool)
    ensures ok == PngAccepts(if |data| <= 8 then [] else data[8..])
  {
    ghost var body := if |data| <= 8 then [] else data[8..];
    var pos := 8;
    while pos < |data|
      invariant 8 <= pos && (pos <= |data| || pos == 8)
      invariant PngAccepts(body) == if pos >= |data| then true else PngAccepts(data[pos..])
      decreases |data| - pos
    {
      if |data| - pos < 12 {
        return false;
      }
      var size := Uint32(Big, data[pos..pos + 4]);
      assert data[pos..][..4] == data[pos..pos + 4] && data[pos..][4..8] == data[pos + 4..pos + 8];
      if size + 12 > |data| - pos {
        return false;
      }
      var kind := data[pos + 4..pos + 8];
      if kind == ACTL || kind == EXIF_PNG {
        return false;
      }
      assert data[pos..][size + 12..] == data[pos + size + 12..];
      pos := pos + size + 12;
    }
    return true;
  }

  /** The fields of the chunk at a position, read in place. */
  lemma WebpFields(data: Data, pos: nat)
    requires pos + 8 <= |data|
    ensures var b := data[pos..];
      && |b| == |data| - pos && b[..4] == data[pos..pos + 4] && b[4..8] == data[pos + 4..pos + 8]
      && (forall n :: 0 <= n <= |b| ==> b[n..] == data[pos + n..])
  {
  }

  /** The chunk at a position decides how the scan goes on. */
  lemma WebpAt(data: Data, pos: nat)
    requires pos + 8 <= |data|
    ensures var size := Uint32(Little, data[pos + 4..pos + 8]);
      var padded := size + size % 2;
      var kind := data[pos..pos + 4];
      WebpAccepts(data[pos..]) <==>
        && padded + 8 <= |data| - pos
        && kind != ANIM && kind != ANMF && kind != EXIF_WEBP
        && !(kind == VP8X && size > 0 && HasForbiddenFlag(data[pos + 8]))
        && WebpAccepts(data[pos + padded + 8..])
  {
    WebpFields(data, pos);
    WebpHere(data[pos..]);
    var size := Uint32(Little, data[pos + 4..pos + 8]);
    var padded := size + size % 2;
    if padded + 8 <= |data| - pos {
      assert data[pos..][padded + 8..] == data[pos + (padded + 8)..];
    }
  }

  lemma WebpHere(b: Data)
    requires |b| >= 8
    ensures var size := Uint32(Little, b[4..8]);
      WebpAccepts(b) <==>
        && size + size % 2 + 8 <= |b|
        && b[..4] != ANIM && b[..4] != ANMF && b[..4] != EXIF_WEBP
        && (b[..4] == VP8X && size > 0 ==> !HasForbiddenFlag(b[8]))
        && WebpAccepts(b[size + size % 2 + 8..])
  {
  }

  /** The body of the loop: the end of the chunk at a position, unless it is refused. */
  method WebpChunkEnd(data: Data, pos: nat) returns (end: Option<nat>)
    requires pos < |data|
    ensures end.Some? ==> pos < end.value <= |data| && WebpAccepts(data[pos..]) == WebpAccepts(data[end.value..])
    ensures end.None? ==> !WebpAccepts(data[pos..])
  {
    if |data| - pos < 8 {
      return None;
    }
    WebpAt(data, pos);
    var size := Uint32(Little, data[pos + 4..pos + 8]);
    var padded := size + size % 2;
    if padded + 8 > |data| - pos {
      return None;
    }
    var kind := data[pos..pos + 4];
    if kind == ANIM || kind == ANMF || kind == EXIF_WEBP {
      return None;
    }
    if kind == VP8X && size > 0 && HasForbiddenFlag(data[pos + 8]) {
      return None;
    }
    return Some(pos + padded + 8);
  }

  /** The loop over WebP chunks. */
  method CheckWebp(data: Data) returns (ok: bool)
    ensures ok <==> |data| >= 12 && WebpAccepts(data[12..])
  {
    if |data| < 12 {
      return false;
    }
    var pos := 12;
    while pos < |data|
      invariant 12 <= pos <= |data|
      invariant WebpAccepts(data[12..]) == WebpAccepts(data[pos..])
      decreases |data| - pos
    {
      var end := WebpChunkEnd(data, pos);
      if end.None? {
        return false;
      }
      pos := end.value;
    }
    return true;
  }

  /** Accepts exactly the files whose body tiles into whole allowed chunks. */
  method CheckRotationContainer(data: Data, format: Format) returns (ok: bool)
    ensures ok <==> Accepted(data, format)
  {
    AcceptsIff(data, format);
    ok := true;
    if format == Png {
      ok := CheckPng(data);
    }
    if format == Webp {
      ok := CheckWebp(data);
    }
  }

  lemma AcceptsIff(data: Data, format: Format)
    ensures format.Png? ==> (Accepted(data, format) <==> PngAccepts(if |data| <= 8 then [] else data[8..]))
    ensures format.Webp? ==> (Accepted(data, format) <==> |data| >= 12 && WebpAccepts(data[12..]))
  {
    if format.Png? {
      var body := if |data| <= 8 then [] else data[8..];
      if PngAccepts(body) {
        var chunks := PngChunksOf(body);
      } else if Accepted(data, format) {
        var chunks :| PngWhole(chunks) && PngAllowed(chunks) && PngSerialize(chunks) == body;
        PngAcceptsChunks(chunks);
      }
    } else if format.Webp? && |data| >= 12 {
      if WebpAccepts(data[12..]) {
        var chunks := WebpChunksOf(data[12..]);
      } else if Accepted(data, format) {
        var chunks :| WebpWhole(chunks) && WebpAllowed(chunks) && WebpSerialize(chunks) == data[12..];
        WebpAcceptsChunks(chunks);
      }
    }
  }

  /** A still image without Exif metadata: no chunk announces an animation or holds Exif. */
  predicate PngStill(chunks: seq<PngChunk>) {
    forall c <- chunks :: c.kind != Ascii("acTL") && c.kind != Ascii("eXIf")
  }

  /** And neither the bit 0x02 nor the bit 0x08 is set in the flags of an extended header. */
  predicate WebpStill(chunks: seq<WebpChunk>) {
    forall c <- chunks ::
      && c.kind != Ascii("ANIM") && c.kind != Ascii("ANMF") && c.kind != Ascii("EXIF")
      && (c.kind == Ascii("VP8X") && c.body != [] ==> c.body[0] as int % 4 < 2 && c.body[0] as int % 16 < 8)
  }

  lemma PngKinds(chunks: seq<PngChunk>)
    ensures PngAllowed(chunks) <==> PngStill(chunks)
  {
    assert ACTL == Ascii("acTL") && EXIF_PNG == Ascii("eXIf");
  }

  lemma WebpKinds(chunks: seq<WebpChunk>)
    ensures WebpAllowed(chunks) <==> WebpStill(chunks)
  {
    Codes();
    forall c <- chunks ensures c.kind == VP8X && c.body != [] ==>
      (HasForbiddenFlag(c.body[0]) <==> c.body[0] as int % 4 >= 2 || c.body[0] as int % 16 >= 8)
    {
      if c.body != [] {
        Flags(c.body[0]);
      }
    }
  }

  lemma Codes()
    ensures ANIM == Ascii("ANIM") && ANMF == Ascii("ANMF") && EXIF_WEBP == Ascii("EXIF") && VP8X == Ascii("VP8X")
  {
  }

  lemma Flags(flags: byte)
    ensures HasForbiddenFlag(flags) <==> flags as int % 4 >= 2 || flags as int % 16 >= 8
  {
  }

  /** What is accepted of a whole file: its chunks behind a signature of 8 bytes, or behind
      a RIFF header of 12. */
  lemma FileAccepted(header: Data, png: seq<PngChunk>, webp: seq<WebpChunk>)
    requires PngWhole(png) && WebpWhole(webp)
    ensures |header| == 8 ==> (Accepted(header + PngSerialize(png), Png) <==> PngStill(png))
    ensures |header| == 12 ==> (Accepted(header + WebpSerialize(webp), Webp) <==> WebpStill(webp))
    ensures |header| < 12 ==> !Accepted(header, Webp)
    ensures Accepted(header, Jpeg)
  {
    AcceptsIff(header + PngSerialize(png), Png);
    AcceptsIff(header + WebpSerialize(webp), Webp);
    PngAcceptsChunks(png);
    WebpAcceptsChunks(webp);
    PngKinds(png);
    WebpKinds(webp);
    if |header| == 8 {
      assert (header + PngSerialize(png))[8..] == PngSerialize(png);
    }
    if |header| == 12 {
      assert (header + WebpSerialize(webp))[12..] == WebpSerialize(webp);
    }
  }
}
