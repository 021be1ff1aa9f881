/** The PNG encoder of the icon builder, and a reader that recovers the picture from what it writes. */
module Png {
  import opened Bytes
  import opened Wrappers
  import Crc

  const SIGNATURE: seq<Byte> := [137, 80, 78, 71, 13, 10, 26, 10]
  const IHDR: seq<Byte> := [73, 72, 68, 82]
  const IDAT: seq<Byte> := [73, 68, 65, 84]
  const IEND: seq<Byte> := [73, 69, 78, 68]

  function Words(data: seq<Byte>): seq<Crc.Octet> {
    seq(|data|, i requires 0 <= i < |data| => data[i] as bv32)
  }

  /** The CRC field of a chunk covers its type and its data. */
  function CrcField(data: seq<Byte>): (s: seq<Byte>)
    ensures |s| == 4
  {
    BigEndian(Crc.Checksum(Words(data)) as int, WORD)
  }

  // ---------------------------------------------------------------- the writer

  /** pngChunk; writing a length that does not fit in four bytes is refused. */
  function Chunk(kind: seq<Byte>, data: seq<Byte>): Option<seq<Byte>>
    requires |kind| == 4
  {
    if |data| < U32 then Some(BigEndian(|data|, WORD) + kind + data + CrcField(kind + data)) else None
  }

  /** The first `rows` scanlines of `width` bytes each, with the filter byte before each. */
  function Scanlines(pixels: seq<Byte>, width: nat, rows: nat): (raw: seq<Byte>)
    requires |pixels| == rows * width
  {
    if rows == 0 then []
    else
      var start := (rows - 1) * width;
      Scanlines(pixels[..start], width, rows - 1) + [0] + pixels[start..]
  }

  function Header(size: nat): seq<Byte>
    requires size < U32
  {
    BigEndian(size, WORD) + BigEndian(size, WORD) + [8, 6, 0, 0, 0]
  }

  function Joined(sig: seq<Byte>, header: Option<seq<Byte>>, data: Option<seq<Byte>>, end: Option<seq<Byte>>)
    : Option<seq<Byte>>
  {
    if header.Some? && data.Some? && end.Some? then Some(sig + header.value + data.value + end.value) else None
  }

  /** The whole file, for a square RGBA picture. */
  function File(pixels: seq<Byte>, size: nat, deflate: seq<Byte> -> seq<Byte>): Option<seq<Byte>>
    requires |pixels| == size * (size * 4)
  {
    if size >= U32 then None
    else Joined(SIGNATURE, Chunk(IHDR, Header(size)), Chunk(IDAT, deflate(Scanlines(pixels, size * 4, size))),
                Chunk(IEND, []))
  }

  // ---------------------------------------------------------------- a reader

  datatype ReadResult = ReadResult(kind: seq<Byte>, data: seq<Byte>, next: nat)

  function Checked(crcOf: seq<Byte> -> int, kind: seq<Byte>, data: seq<Byte>, crc: int, next: nat)
    : Option<ReadResult>
  {
    if crc == crcOf(kind + data) then Some(ReadResult(kind, data, next)) else None
  }

  function ReadChunkWith(crcOf: seq<Byte> -> int, s: seq<Byte>, at: nat): (r: Option<ReadResult>)
    ensures r.Some? ==> at < r.value.next <= |s| && |r.value.kind| == 4
  {
    if at + 12 > |s| then None
    else
      var length := ReadBigEndian(s, at, WORD);
      if at + 12 + length > |s| then None
      else
        Checked(crcOf, s[at + 4..at + 8], s[at + 8..at + 8 + length], ReadBigEndian(s, at + 8 + length, WORD),
                at + 12 + length)
  }

  /** One chunk at `at`: its length, type and data, refused when it runs over the end or its CRC is wrong. */
  function ReadChunk(s: seq<Byte>, at: nat): Option<ReadResult> {
    ReadChunkWith(data => Crc.Checksum(Words(data)) as int, s, at)
  }

  /** The pixels of `rows` scanlines, refused when a filter other than None was used. */
  function Strip(raw: seq<Byte>, width: nat, rows: nat): Option<seq<Byte>>
    decreases rows
  {
    if |raw| != rows * (width + 1) then None
    else if rows == 0 then Some([])
    else
      var start := (rows - 1) * (width + 1);
      if raw[start] != 0 then None
      else
        var before := Strip(raw[..start], width, rows - 1);
        if before.Some? then Some(before.value + raw[start + 1..]) else None
  }

  datatype Image = Image(width: nat, height: nat, pixels: seq<Byte>)

  /** Reads signature, IHDR, one IDAT and IEND, and nothing after, of an 8-bit RGBA picture. */
  function Read(s: seq<Byte>, inflate: seq<Byte> -> Option<seq<Byte>>): Option<Image> {
    if |s| < 8 || s[..8] != SIGNATURE then None
    else
      var header := ReadChunk(s, 8);
      if header.None? || header.value.kind != IHDR || |header.value.data| != 13
         || header.value.data[8..] != [8, 6, 0, 0, 0] then None
      else
        var width, height := ReadBigEndian(header.value.data, 0, WORD), ReadBigEndian(header.value.data, 4, WORD);
        var body := ReadChunk(s, header.value.next);
        if body.None? || body.value.kind != IDAT then None
        else
          var end := ReadChunk(s, body.value.next);
          if end.None? || end.value.kind != IEND || end.value.data != [] || end.value.next != |s| then None
          else
            var raw := inflate(body.value.data);
            var pixels := if raw.Some? then Strip(raw.value, width * 4, height) else None;
            if pixels.Some? then Some(Image(width, height, pixels.value)) else None
  }

  // ---------------------------------------------------------------- what is read is what was written

  /** The four fields of a chunk stand one after the other. */
  lemma FieldsStand(s: seq<Byte>, at: nat, length: seq<Byte>, kind: seq<Byte>, data: seq<Byte>, crc: seq<Byte>)
    requires |length| == 4 && |kind| == 4 && |crc| == 4 && Holds(s, at, length + kind + data + crc)
    ensures at + 12 + |data| <= |s|
    ensures Holds(s, at, length) && s[at + 4..at + 8] == kind && s[at + 8..at + 8 + |data|] == data
    ensures s[at + 8 + |data|..at + 12 + |data|] == crc
  {
    var whole := length + kind + data + crc;
    assert whole[..4] == length && whole[4..8] == kind && whole[8..8 + |data|] == data && whole[8 + |data|..] == crc;
    SliceOfSlice(s, at, |whole|, 0, 4);
    SliceOfSlice(s, at, |whole|, 4, 8);
    SliceOfSlice(s, at, |whole|, 8, 8 + |data|);
    SliceOfSlice(s, at, |whole|, 8 + |data|, 12 + |data|);
  }

  lemma SliceOfSlice(s: seq<Byte>, at: nat, n: nat, from: nat, to: nat)
    requires at + n <= |s| && from <= to <= n
    ensures s[at..at + n][from..to] == s[at + from..at + to]
  {
    var outer := s[at..at + n];
    assert |outer[from..to]| == |s[at + from..at + to]|;
    forall i | 0 <= i < to - from
      ensures outer[from..to][i] == s[at + from..at + to][i]
    {
      assert outer[from + i] == s[at + (from + i)];
    }
  }

  lemma FieldsRead(crcOf: seq<Byte> -> int, s: seq<Byte>, at: nat, kind: seq<Byte>, data: seq<Byte>, crc: int)
    requires at + 12 + |data| <= |s| && ReadBigEndian(s, at, WORD) == |data|
    requires s[at + 4..at + 8] == kind && s[at + 8..at + 8 + |data|] == data
    requires ReadBigEndian(s, at + 8 + |data|, WORD) == crc
    ensures ReadChunkWith(crcOf, s, at) == Checked(crcOf, kind, data, crc, at + 12 + |data|)
  {
  }

  lemma ReadsChecked(crcOf: seq<Byte> -> int, s: seq<Byte>, at: nat, kind: seq<Byte>, data: seq<Byte>, crc: nat)
    requires |kind| == 4 && |data| < U32 && crc < U32
    requires Holds(s, at, BigEndian(|data|, WORD) + kind + data + BigEndian(crc, WORD))
    ensures at + 12 + |data| <= |s| && ReadBigEndian(s, at + 8 + |data|, WORD) == crc
    ensures ReadChunkWith(crcOf, s, at) == Checked(crcOf, kind, data, crc, at + 12 + |data|)
  {
    FieldsStand(s, at, BigEndian(|data|, WORD), kind, data, BigEndian(crc, WORD));
    Ranges();
    BigEndianReadsBack(s, at, |data|, WORD);
    BigEndianReadsBack(s, at + 8 + |data|, crc, WORD);
    FieldsRead(crcOf, s, at, kind, data, crc);
  }

  /** The last four bytes of a chunk are, most significant first, the CRC of its type and data as section 3.4 of RFC
      2083 defines it, one bit at a time. */
  lemma ChunkCarriesItsCrc(s: seq<Byte>, at: nat, kind: seq<Byte>, data: seq<Byte>, chunk: seq<Byte>)
    requires |kind| == 4 && Chunk(kind, data) == Some(chunk) && Holds(s, at, chunk)
    ensures |chunk| == 12 + |data| && at + |chunk| <= |s|
    ensures ReadBigEndian(s, at + 8 + |data|, WORD) == Crc.Checksum(Words(kind + data)) as int
  {
    ReadsChecked(data => 0, s, at, kind, data, Crc.Checksum(Words(kind + data)) as int);
  }

  lemma ChunkReadsBack(s: seq<Byte>, at: nat, kind: seq<Byte>, data: seq<Byte>, chunk: seq<Byte>)
    requires |kind| == 4 && Chunk(kind, data) == Some(chunk) && Holds(s, at, chunk)
    ensures ReadChunk(s, at) == Some(ReadResult(kind, data, at + |chunk|))
  {
    ReadsChecked(data => Crc.Checksum(Words(data)) as int, s, at, kind, data, Crc.Checksum(Words(kind + data)) as int);
  }

  lemma {:induction false} ScanlinesLength(pixels: seq<Byte>, width: nat, rows: nat)
    requires |pixels| == rows * width
    ensures |Scanlines(pixels, width, rows)| == rows * (width + 1)
  {
    if rows > 0 { ScanlinesLength(pixels[..(rows - 1) * width], width, rows - 1); }
  }

  /** Stripping the filter bytes gives the pixels back. */
  lemma {:induction false} StripRecovers(pixels: seq<Byte>, width: nat, rows: nat)
    requires |pixels| == rows * width
    ensures Strip(Scanlines(pixels, width, rows), width, rows) == Some(pixels)
  {
    ScanlinesLength(pixels, width, rows);
    if rows > 0 {
      var start := (rows - 1) * width;
      var above := Scanlines(pixels[..start], width, rows - 1);
      var raw := Scanlines(pixels, width, rows);
      ScanlinesLength(pixels[..start], width, rows - 1);
      StripRecovers(pixels[..start], width, rows - 1);
      assert raw == above + [0] + pixels[start..];
      assert raw[..|above|] == above && raw[|above| + 1..] == pixels[start..];
      assert pixels == pixels[..start] + pixels[start..];
    }
  }

  lemma HeaderReadsBack(size: nat)
    requires size < U32
    ensures var h := Header(size);
            && |h| == 13 && ReadBigEndian(h, 0, WORD) == size && ReadBigEndian(h, 4, WORD) == size
            && h[8..] == [8, 6, 0, 0, 0]
  {
    var h := Header(size);
    assert h[0..4] == BigEndian(size, WORD) && h[4..8] == BigEndian(size, WORD);
    Ranges();
    BigEndianReadsBack(h, 0, size, WORD);
    BigEndianReadsBack(h, 4, size, WORD);
  }

  lemma ImageReads(s: seq<Byte>, head: seq<Byte>, data: seq<Byte>, p: nat, q: nat, pixels: seq<Byte>,
                   inflate: seq<Byte> -> Option<seq<Byte>>)
    requires |s| >= 8 && s[..8] == SIGNATURE && |head| == 13 && head[8..] == [8, 6, 0, 0, 0]
    requires ReadChunk(s, 8) == Some(ReadResult(IHDR, head, p))
    requires ReadChunk(s, p) == Some(ReadResult(IDAT, data, q))
    requires ReadChunk(s, q) == Some(ReadResult(IEND, [], |s|))
    requires var raw := inflate(data);
             && raw.Some?
             && Strip(raw.value, ReadBigEndian(head, 0, WORD) * 4, ReadBigEndian(head, 4, WORD)) == Some(pixels)
    ensures Read(s, inflate) == Some(Image(ReadBigEndian(head, 0, WORD), ReadBigEndian(head, 4, WORD), pixels))
  {
  }

  /** Whatever the encoder writes, the reader gets the same picture from it, for any lossless compression. */
  lemma FileReadsBack(pixels: seq<Byte>, size: nat, deflate: seq<Byte> -> seq<Byte>,
                      inflate: seq<Byte> -> Option<seq<Byte>>)
    requires |pixels| == size * (size * 4) && File(pixels, size, deflate).Some?
    requires forall raw :: inflate(deflate(raw)) == Some(raw)
    ensures Read(File(pixels, size, deflate).value, inflate) == Some(Image(size, size, pixels))
  {
    var s, head := File(pixels, size, deflate).value, Header(size);
    var raw := Scanlines(pixels, size * 4, size);
    var data := deflate(raw);
    var a, b, c := Chunk(IHDR, head).value, Chunk(IDAT, data).value, Chunk(IEND, []).value;
    ChunksStand(s, a, b, c);
    HeaderReadsBack(size);
    ChunkReadsBack(s, 8, IHDR, head, a);
    ChunkReadsBack(s, 8 + |a|, IDAT, data, b);
    ChunkReadsBack(s, 8 + |a| + |b|, IEND, [], c);
    StripRecovers(pixels, size * 4, size);
    assert inflate(deflate(raw)) == Some(raw);
    ImageReads(s, head, data, 8 + |a|, 8 + |a| + |b|, pixels, inflate);
  }

  lemma ChunksStand(s: seq<Byte>, a: seq<Byte>, b: seq<Byte>, c: seq<Byte>)
    requires s == SIGNATURE + a + b + c
    ensures Holds(s, 8, a) && Holds(s, 8 + |a|, b) && Holds(s, 8 + |a| + |b|, c) && 8 + |a| + |b| + |c| == |s|
    ensures s[..8] == SIGNATURE
  {
  }

  /** A chunk begins with its length, most significant byte first, and its type. */
  lemma ChunkBegins(kind: seq<Byte>, data: seq<Byte>, chunk: seq<Byte>)
    requires |kind| == 4 && Chunk(kind, data) == Some(chunk)
    ensures |chunk| == 12 + |data| && chunk[4..8] == kind && ReadBigEndian(chunk, 0, WORD) == |data|
  {
    FieldsStand(chunk, 0, BigEndian(|data|, WORD), kind, data, CrcField(kind + data));
    Ranges();
    BigEndianReadsBack(chunk, 0, |data|, WORD);
  }

  lemma HeaderStands(s: seq<Byte>, at: nat, size: nat)
    requires size < U32 && at + 13 <= |s| && s[at..at + 13] == Header(size)
    ensures ReadBigEndian(s, at, WORD) == size == ReadBigEndian(s, at + 4, WORD)
    ensures s[at + 8..at + 13] == [8, 6, 0, 0, 0]
  {
    var head, w := Header(size), BigEndian(size, WORD);
    assert head[0..4] == w && head[4..8] == w && head[8..13] == [8, 6, 0, 0, 0];
    SliceOfSlice(s, at, 13, 0, 4);
    SliceOfSlice(s, at, 13, 4, 8);
    SliceOfSlice(s, at, 13, 8, 13);
    Ranges();
    BigEndianReadsBack(s, at, size, WORD);
    BigEndianReadsBack(s, at + 4, size, WORD);
  }

  lemma FirstChunkStands(s: seq<Byte>, size: nat, crc: seq<Byte>)
    requires size < U32 && |crc| == 4 && Holds(s, 8, BigEndian(13, WORD) + IHDR + Header(size) + crc)
    ensures |s| >= 33 && ReadBigEndian(s, 8, WORD) == 13 && s[12..16] == IHDR && s[16..29] == Header(size)
  {
    FieldsStand(s, 8, BigEndian(13, WORD), IHDR, Header(size), crc);
    Ranges();
    BigEndianReadsBack(s, 8, 13, WORD);
  }

  /** The first bytes are those every PNG file has: the signature, the length and type of the header, and then the side
      twice, eight bits for each of four channels, and no interlacing. */
  lemma FileBegins(pixels: seq<Byte>, size: nat, deflate: seq<Byte> -> seq<Byte>)
    requires |pixels| == size * (size * 4) && File(pixels, size, deflate).Some?
    ensures var s := File(pixels, size, deflate).value;
            && |s| >= 33 && s[..8] == [137, 80, 78, 71, 13, 10, 26, 10]
            && ReadBigEndian(s, 8, WORD) == 13 && s[12..16] == [73, 72, 68, 82]
            && ReadBigEndian(s, 16, WORD) == size == ReadBigEndian(s, 20, WORD) && s[24..29] == [8, 6, 0, 0, 0]
  {
    var s, head := File(pixels, size, deflate).value, Header(size);
    var a, b, c := Chunk(IHDR, head).value, Chunk(IDAT, deflate(Scanlines(pixels, size * 4, size))).value,
                   Chunk(IEND, []).value;
    ChunksStand(s, a, b, c);
    FirstChunkStands(s, size, CrcField(IHDR + head));
    HeaderStands(s, 16, size);
  }

  /** What follows the header is one chunk of image data, the compressed scanlines. */
  lemma FileGoesOn(pixels: seq<Byte>, size: nat, deflate: seq<Byte> -> seq<Byte>)
    requires |pixels| == size * (size * 4) && File(pixels, size, deflate).Some?
    ensures var s, data := File(pixels, size, deflate).value, deflate(Scanlines(pixels, size * 4, size));
            && |s| == 57 + |data| && ReadBigEndian(s, 33, WORD) == |data|
            && s[37..41] == [73, 68, 65, 84] && s[41..41 + |data|] == data
  {
    var s, data := File(pixels, size, deflate).value, deflate(Scanlines(pixels, size * 4, size));
    var a, b, c := Chunk(IHDR, Header(size)).value, Chunk(IDAT, data).value, Chunk(IEND, []).value;
    ChunksStand(s, a, b, c);
    FieldsStand(s, 33, BigEndian(|data|, WORD), IDAT, data, CrcField(IDAT + data));
    Ranges();
    BigEndianReadsBack(s, 33, |data|, WORD);
  }

  /** And the last ones too: an empty IEND with its checksum. */
  lemma FileEnds(pixels: seq<Byte>, size: nat, deflate: seq<Byte> -> seq<Byte>)
    requires |pixels| == size * (size * 4) && File(pixels, size, deflate).Some?
    ensures var s := File(pixels, size, deflate).value;
            && |s| >= 12 && ReadBigEndian(s, |s| - 12, WORD) == 0 && s[|s| - 8..|s| - 4] == [73, 69, 78, 68]
            && ReadBigEndian(s, |s| - 4, WORD) == 0xae42_6082
  {
    var s := File(pixels, size, deflate).value;
    var a, b, c := Chunk(IHDR, Header(size)).value, Chunk(IDAT, deflate(Scanlines(pixels, size * 4, size))).value,
                   Chunk(IEND, []).value;
    ChunksStand(s, a, b, c);
    var at: nat := 8 + |a| + |b|;
    ChunkCarriesItsCrc(s, at, IEND, [], c);
    IendWords();
    Crc.ChecksumOfIend(8, Words(IEND + []));
    FieldsStand(s, at, BigEndian(0, WORD), IEND, [], CrcField(IEND + []));
    Ranges();
    BigEndianReadsBack(s, at, 0, WORD);
  }

  lemma BitsOfIE()
    ensures 73 as bv32 == 73 && 69 as bv32 == 69
  {
  }

  lemma BitsOfND()
    ensures 78 as bv32 == 78 && 68 as bv32 == 68
  {
  }

  lemma IendWords()
    ensures Words(IEND + []) == [73, 69, 78, 68]
  {
    BitsOfIE();
    BitsOfND();
    assert IEND + [] == [73, 69, 78, 68];
  }

  // ---------------------------------------------------------------- the code

  /** makePNG: the scanlines are copied into a buffer row by row. */
  method FillScanlines(pixels: seq<Byte>, width: nat, rows: nat) returns (raw: array<Byte>)
    requires |pixels| == rows * width
    ensures raw[..] == Scanlines(pixels, width, rows) && fresh(raw)
  {
    raw := new Byte[rows * (width + 1)](_ => 0);
    for y := 0 to rows
      invariant y * width <= |pixels| && y * (width + 1) <= raw.Length
      invariant raw[..y * (width + 1)] == Scanlines(pixels[..y * width], width, y)
    {
      RowFits(y, rows, width);
      CopyRow(raw, y * (width + 1), pixels[y * width..(y + 1) * width]);
      ghost var upper := pixels[..(y + 1) * width];
      assert upper[..y * width] == pixels[..y * width] && upper[y * width..] == pixels[y * width..(y + 1) * width];
    }
    assert pixels[..rows * width] == pixels;
  }

  lemma RowFits(y: nat, rows: nat, width: nat)
    requires y < rows
    ensures (y + 1) * width == y * width + width <= rows * width
    ensures (y + 1) * (width + 1) == y * (width + 1) + width + 1 <= rows * (width + 1)
  {
  }

  method CopyRow(raw: array<Byte>, base: nat, row: seq<Byte>)
    requires base + 1 + |row| <= raw.Length
    modifies raw
    ensures raw[..base + 1 + |row|] == old(raw[..base]) + [0] + row
  {
    raw[base] := 0;
    for k := 0 to |row|
      invariant raw[..base + 1 + k] == old(raw[..base]) + [0] + row[..k]
    {
      raw[base + 1 + k] := row[k];
    }
    assert row[..|row|] == row;
  }

  method MakePng(pixels: seq<Byte>, size: nat, deflate: seq<Byte> -> seq<Byte>) returns (png: Option<seq<Byte>>)
    requires |pixels| == size * (size * 4)
    ensures png == File(pixels, size, deflate)
  {
    if size >= U32 { return None; }
    var raw := FillScanlines(pixels, size * 4, size);
    png := Joined(SIGNATURE, Chunk(IHDR, Header(size)), Chunk(IDAT, deflate(raw[..])), Chunk(IEND, []));
  }
}
