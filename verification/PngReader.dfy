/**
  A reader for the encoder's PNGs, written from RFC 2083: it checks the
  signature, every chunk's length and CRC, the header and the filter bytes.
  Reading back what was encoded gives exactly the image; damage to at most four
  neighbouring bytes of a chunk's type or data is always noticed.
 */
module PngReader {
  import opened JsBits
  import opened Crc32
  import opened Png
  import opened Options

  datatype Chunk = Chunk(kind: seq<byte>, data: seq<byte>)

  /** Section 3.1, in decimal, and the names of the critical chunks (section 4.1). */
  const PNG_FILE: seq<byte> := [137, 80, 78, 71, 13, 10, 26, 10]
  const HEADER_NAME := "IHDR"
  const DATA_NAME := "IDAT"
  const END_NAME := "IEND"

  predicate Named(kind: seq<byte>, name: string) {
    |kind| == |name| && forall k :: 0 <= k < |name| ==> kind[k] as int == name[k] as int
  }

  datatype Image = Image(width: nat, height: nat, rgba: seq<byte>)

  function ReadUint32(b: seq<byte>): nat
    requires |b| == 4
  {
    ((b[0] as nat * 256 + b[1] as nat) * 256 + b[2] as nat) * 256 + b[3] as nat
  }

  /** The first chunk of a byte string and the bytes after it (section 3.2). */
  function ReadChunk(bytes: seq<byte>): Option<(Chunk, seq<byte>)> {
    if |bytes| < 12 then None
    else
      var length := ReadUint32(bytes[..4]);
      if |bytes| < 12 + length then None
      else
        var body := bytes[4..8 + length];
        if ReadUint32(bytes[8 + length..12 + length]) != Crc(body) then None
        else Some((Chunk(body[..4], body[4..]), bytes[12 + length..]))
  }

  /** All chunks to the end of the bytes; None as soon as one is malformed. */
  function ReadChunks(bytes: seq<byte>): Option<seq<Chunk>>
    decreases |bytes|
  {
    if bytes == [] then Some([])
    else match ReadChunk(bytes)
      case None => None
      case Some((chunk, rest)) =>
        match ReadChunks(rest)
        case None => None
        case Some(chunks) => Some([chunk] + chunks)
  }

  /** Drops the filter bytes; None if a scanline uses another filter or the length is wrong. */
  function Unfiltered(raw: seq<byte>, stride: nat, rows: nat): Option<seq<byte>>
    decreases rows
  {
    if rows == 0 then if raw == [] then Some([]) else None
    else if |raw| < stride + 1 || raw[|raw| - stride - 1] != 0 then None
    else match Unfiltered(raw[..|raw| - stride - 1], stride, rows - 1)
      case None => None
      case Some(pixels) => Some(pixels + raw[|raw| - stride..])
  }

  function ReadHeader(header: seq<byte>): Option<(nat, nat)> {
    if |header| != 13 || header[8..] != [8, 6, 0, 0, 0] then None
    else Some((ReadUint32(header[..4]), ReadUint32(header[4..8])))
  }

  /** Header, one data chunk, end: the three chunks this encoder writes. */
  function ReadImage(chunks: seq<Chunk>, inflate: seq<byte> -> Option<seq<byte>>): Option<Image> {
    if |chunks| != 3 || !Named(chunks[0].kind, HEADER_NAME) || !Named(chunks[1].kind, DATA_NAME)
        || !Named(chunks[2].kind, END_NAME) || chunks[2].data != [] then None
    else match ReadHeader(chunks[0].data)
      case None => None
      case Some((width, height)) =>
        match inflate(chunks[1].data)
        case None => None
        case Some(raw) =>
          match Unfiltered(raw, width * 4, height)
          case None => None
          case Some(rgba) => Some(Image(width, height, rgba))
  }

  function Decode(png: seq<byte>, inflate: seq<byte> -> Option<seq<byte>>): Option<Image> {
    if |png| < 8 || png[..8] != PNG_FILE then None
    else match ReadChunks(png[8..])
      case None => None
      case Some(chunks) => ReadImage(chunks, inflate)
  }

  // ---------------------------------------------------------------------
  // Round trip
  // ---------------------------------------------------------------------

  lemma Uint32RoundTrip(v: nat)
    requires v < TWO_32
    ensures ReadUint32(Uint32BE(v)) == v
  {
    assert v / 256 / 256 == v / 0x1_0000 && v / 0x1_0000 / 256 == v / 0x100_0000;
  }

  /** A length field, a body and a checksum field, followed by anything. */
  lemma FramedFields(bytes: seq<byte>, length: seq<byte>, body: seq<byte>, crc: seq<byte>, rest: seq<byte>)
    requires bytes == length + body + crc + rest && |length| == |crc| == 4 && |body| >= 4
    ensures bytes[..4] == length && bytes[4..4 + |body|] == body
    ensures bytes[4 + |body|..8 + |body|] == crc && bytes[8 + |body|..] == rest
  {
  }

  /** Reading a frame whose length field is right: accepted exactly when the CRC matches. */
  lemma ReadFrame(body: seq<byte>, crc: nat, rest: seq<byte>)
    requires 4 <= |body| < TWO_32 + 4 && crc < TWO_32
    ensures ReadChunk(Uint32BE(|body| - 4) + body + Uint32BE(crc) + rest)
         == if crc == Crc(body) then Some((Chunk(body[..4], body[4..]), rest)) else None
  {
    hide Crc, Uint32BE, ReadUint32;
    var length, check := Uint32BE(|body| - 4), Uint32BE(crc);
    var bytes := length + body + check + rest;
    FramedFields(bytes, length, body, check, rest);
    Uint32RoundTrip(|body| - 4);
    Uint32RoundTrip(crc);
  }

  lemma ReadWrittenChunk(kind: seq<byte>, data: seq<byte>, rest: seq<byte>)
    requires |kind| == 4 && |data| < TWO_32
    ensures ReadChunk(ChunkBytes(kind, data) + rest) == Some((Chunk(kind, data), rest))
  {
    hide Crc, Uint32BE, ReadChunk;
    var body := kind + data;
    CrcFits(body);
    ReadFrame(body, Crc(body), rest);
    assert body[..4] == kind && body[4..] == data;
  }

  /** The last scanline of the image data comes off as it was put on. */
  lemma UnfilterLast(earlier: seq<byte>, line: seq<byte>, rows: nat, pixels: seq<byte>)
    requires rows > 0 && Unfiltered(earlier, |line|, rows - 1) == Some(pixels)
    ensures Unfiltered(earlier + [0] + line, |line|, rows) == Some(pixels + line)
  {
    var raw := earlier + [0] + line;
    assert raw[..|raw| - |line| - 1] == earlier && raw[|raw| - |line|..] == line;
  }

  lemma {:induction false} UnfilterFiltered(pixels: seq<byte>, stride: nat, rows: nat)
    requires |pixels| == RowStart(rows, stride)
    ensures Unfiltered(Filtered(pixels, stride, rows), stride, rows) == Some(pixels)
    decreases rows
  {
    if rows == 0 {
    } else {
      var start := RowStart(rows - 1, stride);
      RowStartNext(rows - 1, rows, stride);
      hide RowStart, Unfiltered;
      UnfilterFiltered(pixels[..start], stride, rows - 1);
      UnfilterLast(Filtered(pixels[..start], stride, rows - 1), pixels[start..], rows, pixels[..start]);
      assert pixels[..start] + pixels[start..] == pixels;
    }
  }

  lemma ReadWrittenHeader(width: nat, height: nat)
    requires width < TWO_32 && height < TWO_32
    ensures |Header(width, height)| == 13
    ensures ReadHeader(Header(width, height)) == Some((width, height))
  {
    hide Uint32BE, ReadUint32;
    var header := Header(width, height);
    assert header[..4] == Uint32BE(width) && header[4..8] == Uint32BE(height);
    assert header[8..] == [8, 6, 0, 0, 0];
    Uint32RoundTrip(width);
    Uint32RoundTrip(height);
  }

  lemma ChunkBytesNotEmpty(kind: seq<byte>, data: seq<byte>)
    requires |data| < TWO_32
    ensures ChunkBytes(kind, data) != []
  {
    CrcFits(kind + data);
  }

  lemma ReadChunksCons(kind: seq<byte>, data: seq<byte>, rest: seq<byte>)
    requires |kind| == 4 && |data| < TWO_32
    ensures ReadChunks(ChunkBytes(kind, data) + rest)
         == match ReadChunks(rest)
            case None => None
            case Some(chunks) => Some([Chunk(kind, data)] + chunks)
  {
    ChunkBytesNotEmpty(kind, data);
    ReadWrittenChunk(kind, data, rest);
  }

  lemma ReadThreeChunks(header: seq<byte>, data: seq<byte>)
    requires |header| < TWO_32 && |data| < TWO_32
    ensures ReadChunks(ChunkBytes(IHDR, header) + ChunkBytes(IDAT, data) + ChunkBytes(IEND, []))
         == Some([Chunk(IHDR, header), Chunk(IDAT, data), Chunk(IEND, [])])
  {
    hide ChunkBytes, ReadChunk;
    var end := ChunkBytes(IEND, []);
    assert end + [] == end;
    ReadChunksCons(IEND, [], []);
    assert [Chunk(IEND, [])] + [] == [Chunk(IEND, [])];
    assert ReadChunks(end) == Some([Chunk(IEND, [])]);
    ReadChunksCons(IDAT, data, end);
    assert [Chunk(IDAT, data)] + [Chunk(IEND, [])] == [Chunk(IDAT, data), Chunk(IEND, [])];
    assert ReadChunks(ChunkBytes(IDAT, data) + end) == Some([Chunk(IDAT, data), Chunk(IEND, [])]);
    ReadChunksCons(IHDR, header, ChunkBytes(IDAT, data) + end);
    assert [Chunk(IHDR, header)] + [Chunk(IDAT, data), Chunk(IEND, [])]
        == [Chunk(IHDR, header), Chunk(IDAT, data), Chunk(IEND, [])];
    assert ChunkBytes(IHDR, header) + ChunkBytes(IDAT, data) + end
        == ChunkBytes(IHDR, header) + (ChunkBytes(IDAT, data) + end);
  }

  lemma ReadThreeParts(header: seq<byte>, data: seq<byte>, raw: seq<byte>, image: Image,
                       inflate: seq<byte> -> Option<seq<byte>>)
    requires ReadHeader(header) == Some((image.width, image.height)) && inflate(data) == Some(raw)
    requires Unfiltered(raw, image.width * 4, image.height) == Some(image.rgba)
    ensures ReadImage([Chunk(IHDR, header), Chunk(IDAT, data), Chunk(IEND, [])], inflate) == Some(image)
  {
    hide ReadHeader, Unfiltered;
  }

  lemma SkipSignature(chunks: seq<byte>, inflate: seq<byte> -> Option<seq<byte>>)
    ensures Decode(SIGNATURE + chunks, inflate)
         == match ReadChunks(chunks) case None => None case Some(cs) => ReadImage(cs, inflate)
  {
    hide ReadChunks, ReadImage;
    assert (SIGNATURE + chunks)[..8] == SIGNATURE && (SIGNATURE + chunks)[8..] == chunks;
  }

  /** Whatever inflate undoes of deflate, the reader recovers the encoded image, exactly. */
  lemma RoundTrip(rgba: seq<byte>, width: int, height: int,
                  deflate: seq<byte> -> seq<byte>, inflate: seq<byte> -> Option<seq<byte>>)
    requires forall raw :: inflate(deflate(raw)) == Some(raw)
    ensures var r := Encode(rgba, width, height, deflate);
            r.Encoded? ==> width >= 0 && height >= 0 && Decode(r.png, inflate) == Some(Image(width, height, rgba))
  {
    var r := Encode(rgba, width, height, deflate);
    EncodedForm(rgba, width, height, deflate);
    if r.Encoded? {
      hide *;
      var raw := Filtered(rgba, width * 4, height);
      var header, data := Header(width, height), deflate(raw);
      ReadWrittenHeader(width, height);
      ReadThreeChunks(header, data);
      UnfilterFiltered(rgba, width * 4, height);
      assert inflate(data) == Some(raw);
      ReadThreeParts(header, data, raw, Image(width, height, rgba), inflate);
      SkipSignature(ChunkBytes(IHDR, header) + ChunkBytes(IDAT, data) + ChunkBytes(IEND, []), inflate);
    }
  }

  lemma EncodedForm(rgba: seq<byte>, width: int, height: int, deflate: seq<byte> -> seq<byte>)
    ensures var r := Encode(rgba, width, height, deflate);
            r.Encoded? ==>
              && 0 <= width < TWO_32 && 0 <= height < TWO_32 && |rgba| == RowStart(height, width * 4)
              && var data := deflate(Filtered(rgba, width * 4, height));
              && |data| < TWO_32
              && r.png == SIGNATURE + (ChunkBytes(IHDR, Header(width, height)) + ChunkBytes(IDAT, data)
                                       + ChunkBytes(IEND, []))
  {
    hide ChunkBytes, Filtered;
    StrideTotal(width, height);
  }

  /** The encoder refuses exactly the buffers of the wrong length, the dimensions the
      header cannot hold, and compressed data too long for a chunk. */
  lemma EncodeSucceeds(rgba: seq<byte>, width: int, height: int, deflate: seq<byte> -> seq<byte>)
    ensures Encode(rgba, width, height, deflate).LengthMismatch? <==> |rgba| != width * height * 4
    ensures Encode(rgba, width, height, deflate).Encoded? ==> 0 <= width < TWO_32 && 0 <= height < TWO_32
    ensures |rgba| == width * height * 4 && 0 <= width < TWO_32 && 0 <= height < TWO_32 ==>
              |rgba| == RowStart(height, width * 4) &&
              (Encode(rgba, width, height, deflate).Encoded? <==>
                 |deflate(Filtered(rgba, width * 4, height))| < TWO_32)
  {
    StrideTotal(width, height);
  }

  // ---------------------------------------------------------------------
  // Damage
  // ---------------------------------------------------------------------

  /** A chunk whose type and data were altered inside a window of at most four bytes is refused,
      whatever follows it. */
  lemma DamagedChunkRefused(before: seq<byte>, u: seq<byte>, v: seq<byte>, after: seq<byte>, rest: seq<byte>)
    requires |u| == |v| <= 4 && u != v
    requires 4 <= |before + u + after| < TWO_32 + 4
    ensures Crc(before + u + after) < TWO_32
    ensures ReadChunk(Uint32BE(|before + u + after| - 4) + (before + v + after) + Uint32BE(Crc(before + u + after))
                      + rest) == None
  {
    hide *;
    CrcFits(before + u + after);
    BurstDetected(before, u, v, after);
    ReadFrame(before + v + after, Crc(before + u + after), rest);
  }

  /** Such damage to the image data makes the whole file unreadable. */
  lemma DamagedImageRefused(width: nat, height: nat, before: seq<byte>, u: seq<byte>, v: seq<byte>, after: seq<byte>,
                            inflate: seq<byte> -> Option<seq<byte>>)
    requires width < TWO_32 && height < TWO_32
    requires |u| == |v| <= 4 && u != v
    requires 4 <= |before + u + after| < TWO_32 + 4
    ensures |Header(width, height)| < TWO_32 && Crc(before + u + after) < TWO_32
    ensures Decode(SIGNATURE + ChunkBytes(IHDR, Header(width, height))
                   + (Uint32BE(|before + u + after| - 4) + (before + v + after) + Uint32BE(Crc(before + u + after)))
                   + ChunkBytes(IEND, []), inflate) == None
  {
    assert 13 < TWO_32 && |IHDR| == 4;
    hide *;
    ReadWrittenHeader(width, height);
    CrcFits(before + u + after);
    var end := ChunkBytes(IEND, []);
    var head := ChunkBytes(IHDR, Header(width, height));
    var frame := Uint32BE(|before + u + after| - 4) + (before + v + after) + Uint32BE(Crc(before + u + after));
    DamagedChunkRefused(before, u, v, after, end);
    RefusedInside(IHDR, Header(width, height), frame + end);
    SkipSignature(head + (frame + end), inflate);
    assert SIGNATURE + head + frame + end == SIGNATURE + (head + (frame + end));
  }

  lemma RefusedInside(kind: seq<byte>, data: seq<byte>, bytes: seq<byte>)
    requires |kind| == 4 && |data| < TWO_32
    requires bytes != [] && ReadChunk(bytes) == None
    ensures ReadChunks(ChunkBytes(kind, data) + bytes) == None
  {
    ReadChunksCons(kind, data, bytes);
  }
}
