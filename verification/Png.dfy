/**
  The PNG encoder of the captcha images: chunk framing, the IHDR fields and the
  filter-0 scanlines. Sections are those of RFC 2083.
 */
module Png {
  import opened JsBits
  import opened Crc32
  import opened Options

  datatype Encoded = Encoded(png: seq<byte>) | LengthMismatch | OutOfRange

  const SIGNATURE: seq<byte> := [0x89, 0x50, 0x4e, 0x47, 0x0d, 0x0a, 0x1a, 0x0a]
  const IHDR: seq<byte> := [0x49, 0x48, 0x44, 0x52]
  const IDAT: seq<byte> := [0x49, 0x44, 0x41, 0x54]
  const IEND: seq<byte> := [0x49, 0x45, 0x4e, 0x44]

  // ---------------------------------------------------------------------
  // Writing
  // ---------------------------------------------------------------------

  /** writeUInt32BE of a value that is in range. */
  function Uint32BE(v: nat): (bytes: seq<byte>)
    requires v < TWO_32
    ensures |bytes| == 4
  {
    [(v / 0x100_0000) as byte, (v / 0x1_0000 % 256) as byte, (v / 256 % 256) as byte, (v % 256) as byte]
  }

  /** Section 3.2: length, type, data, and the CRC of type and data. */
  function ChunkBytes(kind: seq<byte>, data: seq<byte>): seq<byte>
    requires |data| < TWO_32
  {
    CrcFits(kind + data);
    Uint32BE(|data|) + (kind + data) + Uint32BE(Crc(kind + data))
  }

  lemma CrcFits(message: seq<byte>)
    ensures Crc(message) < TWO_32
  {
    ShiftInAllFits(ALL_ONES, message);
    Pow2Values();
    XorFits(ShiftInAll(ALL_ONES, message), ALL_ONES, 32);
  }

  function Header(width: nat, height: nat): seq<byte>
    requires width < TWO_32 && height < TWO_32
  {
    Uint32BE(width) + Uint32BE(height) + [8, 6, 0, 0, 0]
  }

  /** Where row y starts in a buffer of rows of the given size. */
  function RowStart(y: nat, size: nat): nat {
    y * size
  }

  lemma RowStartNext(y: nat, rows: nat, size: nat)
    requires y < rows
    ensures RowStart(y + 1, size) == RowStart(y, size) + size <= RowStart(rows, size)
  {
    var more := rows - y - 1;
    assert rows * size == (y + 1) * size + more * size;
    assert more * size >= 0;
  }

  /** Each scanline behind its filter-type byte 0 (section 6.1). */
  function Filtered(pixels: seq<byte>, stride: nat, rows: nat): seq<byte>
    requires |pixels| == RowStart(rows, stride)
    decreases rows
  {
    if rows == 0 then []
    else
      RowStartNext(rows - 1, rows, stride);
      var start := RowStart(rows - 1, stride);
      Filtered(pixels[..start], stride, rows - 1) + [0] + pixels[start..]
  }

  lemma FilteredSnoc(pixels: seq<byte>, stride: nat, y: nat)
    requires RowStart(y + 1, stride) <= |pixels|
    ensures RowStart(y, stride) <= RowStart(y + 1, stride)
    ensures Filtered(pixels[..RowStart(y + 1, stride)], stride, y + 1)
         == Filtered(pixels[..RowStart(y, stride)], stride, y) + [0]
             + pixels[RowStart(y, stride)..RowStart(y + 1, stride)]
  {
    RowStartNext(y, y + 1, stride);
    hide RowStart;
    var upTo := pixels[..RowStart(y + 1, stride)];
    assert upTo[..RowStart(y, stride)] == pixels[..RowStart(y, stride)];
    assert upTo[RowStart(y, stride)..] == pixels[RowStart(y, stride)..RowStart(y + 1, stride)];
  }

  /** What encodePng returns, or which error it throws. */
  function Encode(rgba: seq<byte>, width: int, height: int, deflate: seq<byte> -> seq<byte>): Encoded {
    if |rgba| != width * height * 4 then LengthMismatch
    else if !(0 <= width < TWO_32 && 0 <= height < TWO_32) then OutOfRange
    else
      StrideTotal(width, height);
      var data := deflate(Filtered(rgba, width * 4, height));
      if |data| >= TWO_32 then OutOfRange
      else Encoded(SIGNATURE + ChunkBytes(IHDR, Header(width, height)) + ChunkBytes(IDAT, data) + ChunkBytes(IEND, []))
  }

  lemma StrideTotal(width: int, height: int)
    ensures width * height * 4 == height * (width * 4)
  {
  }

  /** buildChunk: None when the length field cannot hold the data's length. */
  method BuildChunk(checksum: Crc32Fallback, kind: seq<byte>, data: seq<byte>) returns (r: Option<seq<byte>>)
    requires checksum.Valid()
    modifies checksum
    ensures checksum.Valid()
    ensures r == if |data| < TWO_32 then Some(ChunkBytes(kind, data)) else None
  {
    if |data| >= TWO_32 {
      return None;
    }
    CrcFits(kind + data);
    var length := Uint32BE(|data|);
    var crc := checksum.Compute(kind + data);
    return Some(length + (kind + data) + Uint32BE(crc));
  }

  method EncodePng(checksum: Crc32Fallback, rgba: array<byte>, width: int, height: int, deflate: seq<byte> -> seq<byte>)
    returns (r: Encoded)
    requires checksum.Valid()
    modifies checksum
    ensures checksum.Valid()
    ensures r == Encode(rgba[..], width, height, deflate)
  {
    if rgba.Length != width * height * 4 {
      return LengthMismatch;
    }
    if !(0 <= width < TWO_32 && 0 <= height < TWO_32) {
      return OutOfRange;
    }
    StrideTotal(width, height);
    var raw := FilterRows(rgba, width * 4, height);
    var data := deflate(raw[..]);
    var ihdr := BuildChunk(checksum, IHDR, Header(width, height));
    var idat := BuildChunk(checksum, IDAT, data);
    if idat.None? {
      return OutOfRange;
    }
    var iend := BuildChunk(checksum, IEND, []);
    return Encoded(SIGNATURE + ihdr.value + idat.value + iend.value);
  }

  /** The scanline loop: every row copy stays inside both buffers and rows do not overlap. */
  method FilterRows(rgba: array<byte>, stride: nat, height: nat) returns (raw: array<byte>)
    requires rgba.Length == RowStart(height, stride)
    ensures fresh(raw)
    ensures raw[..] == Filtered(rgba[..], stride, height)
  {
    raw := new byte[RowStart(height, stride + 1)];
    assert RowStart(0, stride) == RowStart(0, stride + 1) == 0;
    for y := 0 to height
      invariant RowStart(y, stride + 1) <= raw.Length && RowStart(y, stride) <= rgba.Length
      invariant raw[..RowStart(y, stride + 1)] == Filtered(rgba[..RowStart(y, stride)], stride, y)
    {
      RowStartNext(y, height, stride);
      RowStartNext(y, height, stride + 1);
      FilteredSnoc(rgba[..], stride, y);
      CopyRow(rgba, RowStart(y, stride), raw, RowStart(y, stride + 1), stride);
      hide *;
      assert rgba[..][..RowStart(y, stride)] == rgba[..RowStart(y, stride)];
      assert rgba[..][..RowStart(y + 1, stride)] == rgba[..RowStart(y + 1, stride)];
    }
    assert raw[..] == raw[..RowStart(height, stride + 1)];
    assert rgba[..] == rgba[..RowStart(height, stride)];
  }

  /** raw[dst] = 0; rgba.copy(raw, dst + 1, src, src + stride) */
  method CopyRow(rgba: array<byte>, src: nat, raw: array<byte>, dst: nat, stride: nat)
    requires rgba != raw
    requires src + stride <= rgba.Length && dst + 1 + stride <= raw.Length
    modifies raw
    ensures raw[..dst + 1 + stride] == old(raw[..dst]) + [0] + rgba[..][src..src + stride]
    ensures raw[dst + 1 + stride..] == old(raw[dst + 1 + stride..])
  {
    raw[dst] := 0;
    forall i | 0 <= i < stride {
      raw[dst + 1 + i] := rgba[src + i];
    }
    assert raw[..dst] == old(raw[..dst]);
    assert raw[dst + 1..dst + 1 + stride] == rgba[..][src..src + stride];
    assert raw[..dst + 1 + stride] == raw[..dst] + [0] + raw[dst + 1..dst + 1 + stride];
  }
}
