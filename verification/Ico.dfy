/** The ICO builder: a directory of entries, each pointing at a PNG stored whole, and a reader for it. */
module Ico {
  import opened Bytes
  import opened Wrappers
  import Png

  // ---------------------------------------------------------------- the writer

  /** A side of 256 or more is written as 0. */
  function Side(n: int): Byte
    requires n >= 0
  {
    if n >= 256 then 0 else n
  }

  /** Where image i starts: after the directory of all n entries and the images before it. */
  function Offset(pngs: seq<seq<Byte>>, i: nat): nat
    requires i <= |pngs|
  {
    6 + 16 * |pngs| + Start(pngs, i)
  }

  /** The two sizes can be read from the image, and its length and offset fit in four bytes. */
  predicate Fits(png: seq<Byte>, offset: nat) {
    24 <= |png| < U32 && offset < U32
  }

  ghost predicate AllFit(pngs: seq<seq<Byte>>) {
    forall i :: 0 <= i < |pngs| ==> Fits(pngs[i], Offset(pngs, i))
  }

  function Entry(png: seq<Byte>, offset: nat): (e: seq<Byte>)
    requires Fits(png, offset)
    ensures |e| == 16
  {
    [Side(ReadBigEndian(png, 16, WORD)), Side(ReadBigEndian(png, 20, WORD)), 0, 0]
    + LittleEndian(1, HALF_WORD) + LittleEndian(32, HALF_WORD) + LittleEndian(|png|, WORD) + LittleEndian(offset, WORD)
  }

  ghost function Entries(pngs: seq<seq<Byte>>): (e: seq<seq<Byte>>)
    requires AllFit(pngs)
    ensures |e| == |pngs| && forall i :: 0 <= i < |e| ==> |e[i]| == 16
  {
    seq(|pngs|, i requires 0 <= i < |pngs| => Entry(pngs[i], Offset(pngs, i)))
  }

  function Header(count: nat): (h: seq<Byte>)
    requires count < U16
    ensures |h| == 6
  {
    LittleEndian(0, HALF_WORD) + LittleEndian(1, HALF_WORD) + LittleEndian(count, HALF_WORD)
  }

  /** The whole file, or None where a buffer read or write is out of range. */
  ghost function File(pngs: seq<seq<Byte>>): Option<seq<Byte>> {
    if |pngs| < U16 && AllFit(pngs)
    then Some(Header(|pngs|) + Join(Entries(pngs), |pngs|) + Join(pngs, |pngs|)) else None
  }

  // ---------------------------------------------------------------- a reader

  datatype Picture = Picture(width: nat, height: nat, data: seq<Byte>)

  /** A zero in the directory stands for 256. */
  function Shown(side: Byte): nat {
    if side == 0 then 256 else side
  }

  /** The picture directory entry i describes, refused when it lies outside the file or is not 32-bit. */
  function ReadEntry(s: seq<Byte>, i: nat): Option<Picture>
    requires 6 + 16 * i + 16 <= |s|
  {
    var at := 6 + 16 * i;
    var length, offset := ReadLittleEndian(s, at + 8, WORD), ReadLittleEndian(s, at + 12, WORD);
    if s[at + 2..at + 8] == [0, 0, 1, 0, 32, 0] && offset + length <= |s|
    then Some(Picture(Shown(s[at]), Shown(s[at + 1]), s[offset..offset + length])) else None
  }

  function Read(s: seq<Byte>): Option<seq<Picture>> {
    if |s| < 6 || s[..4] != [0, 0, 1, 0] || 6 + 16 * ReadLittleEndian(s, 4, HALF_WORD) > |s| then None
    else
      var n := ReadLittleEndian(s, 4, HALF_WORD);
      if forall i :: 0 <= i < n ==> ReadEntry(s, i).Some?
      then Some(seq(n, i requires 0 <= i < n => ReadEntry(s, i).value)) else None
  }

  // ---------------------------------------------------------------- what is read is what was written

  /** What the directory says of a PNG: its own bytes, and its sides as far as a byte can say them. */
  function Described(png: seq<Byte>): Picture
    requires |png| >= 24
  {
    Picture(Shown(Side(ReadBigEndian(png, 16, WORD))), Shown(Side(ReadBigEndian(png, 20, WORD))), png)
  }

  /** The fields of an entry, wherever it stands. */
  lemma EntryFields(s: seq<Byte>, at: nat, png: seq<Byte>, offset: nat)
    requires Fits(png, offset) && Holds(s, at, Entry(png, offset))
    ensures s[at] == Side(ReadBigEndian(png, 16, WORD)) && s[at + 1] == Side(ReadBigEndian(png, 20, WORD))
    ensures s[at + 2..at + 8] == [0, 0, 1, 0, 32, 0]
    ensures ReadLittleEndian(s, at + 8, WORD) == |png| && ReadLittleEndian(s, at + 12, WORD) == offset
  {
    var sides: seq<Byte> := [Side(ReadBigEndian(png, 16, WORD)), Side(ReadBigEndian(png, 20, WORD)), 0, 0]
                            + LittleEndian(1, HALF_WORD) + LittleEndian(32, HALF_WORD);
    var length, place := LittleEndian(|png|, WORD), LittleEndian(offset, WORD);
    Fields(s, at, sides, length, place);
    Ranges();
    LittleEndianReadsBack(s, at + 8, |png|, WORD);
    LittleEndianReadsBack(s, at + 12, offset, WORD);
    assert sides[2..] == [0, 0, 1, 0, 32, 0];
  }

  lemma Fields(s: seq<Byte>, at: nat, sides: seq<Byte>, length: seq<Byte>, place: seq<Byte>)
    requires |sides| == 8 && |length| == 4 && |place| == 4 && Holds(s, at, sides + length + place)
    ensures s[at] == sides[0] && s[at + 1] == sides[1] && s[at + 2..at + 8] == sides[2..]
    ensures Holds(s, at + 8, length) && Holds(s, at + 12, place)
  {
    var whole := sides + length + place;
    assert whole[0] == sides[0] && whole[1] == sides[1] && whole[2..8] == sides[2..];
    assert s[at..at + 16][0] == s[at] && s[at..at + 16][1] == s[at + 1];
    Png.SliceOfSlice(s, at, 16, 2, 8);
    HoldsWithin(s, at, sides, length, place);
    assert whole == sides + length + place + [];
    HoldsWithin(s, at, sides + length, place, []);
  }

  /** What stands in a later part of a file stands in the file, further on. */
  lemma HoldsFurtherOn(before: seq<Byte>, middle: seq<Byte>, after: seq<Byte>, at: nat, part: seq<Byte>)
    requires Holds(middle, at, part)
    ensures Holds(before + middle + after, |before| + at, part)
  {
  }

  /** Entries of 16 bytes and the images after them, each at the place the lengths give. */
  lemma Layout(header: seq<Byte>, entries: seq<seq<Byte>>, pngs: seq<seq<Byte>>, i: nat, s: seq<Byte>)
    requires |header| == 6 && |entries| == |pngs| && forall k :: 0 <= k < |entries| ==> |entries[k]| == 16
    requires s == header + Join(entries, |entries|) + Join(pngs, |pngs|) && i < |pngs|
    ensures Holds(s, 6 + 16 * i, entries[i]) && Holds(s, Offset(pngs, i), pngs[i])
    ensures 6 + 16 * |pngs| <= Offset(pngs, |pngs|) == |s|
  {
    var n := |pngs|;
    EvenStarts(entries, 16, n);
    EvenStarts(entries, 16, i);
    PartStands(entries, i, n);
    HoldsFurtherOn(header, Join(entries, n), Join(pngs, n), 16 * i, entries[i]);
    PartStands(pngs, i, n);
    assert s == (header + Join(entries, n)) + Join(pngs, n) + [];
    HoldsFurtherOn(header + Join(entries, n), Join(pngs, n), [], Start(pngs, i), pngs[i]);
  }

  /** Entry i gives its PNG's exact place and length, inside the file. */
  lemma EntryDelimitsItsPng(pngs: seq<seq<Byte>>, i: nat, s: seq<Byte>)
    requires File(pngs) == Some(s) && i < |pngs|
    ensures Fits(pngs[i], Offset(pngs, i)) && 6 + 16 * |pngs| <= Offset(pngs, |pngs|) == |s|
    ensures Holds(s, 6 + 16 * i, Entry(pngs[i], Offset(pngs, i)))
    ensures Holds(s, Offset(pngs, i), pngs[i])
  {
    Layout(Header(|pngs|), Entries(pngs), pngs, i, s);
  }

  /** No image overlaps the directory or another image, and there is no gap between one and the next. */
  lemma ImagesTileTheFile(pngs: seq<seq<Byte>>, i: nat, j: nat)
    requires i < j < |pngs|
    ensures 6 + 16 * |pngs| <= Offset(pngs, i) && Offset(pngs, i) + |pngs[i]| <= Offset(pngs, j)
    ensures j == i + 1 ==> Offset(pngs, j) == Offset(pngs, i) + |pngs[i]|
  {
    PartStands(pngs, i, j);
  }

  /** A file is made exactly when its images can be counted in two bytes, each is long enough to tell its size and short
      enough for four, and the last of them begins within their reach. */
  lemma FileIsMadeIff(pngs: seq<seq<Byte>>)
    ensures File(pngs).Some? <==>
              && |pngs| < 65536 && (forall i :: 0 <= i < |pngs| ==> 24 <= |pngs[i]| < 0x1_0000_0000)
              && (|pngs| > 0 ==> Offset(pngs, |pngs| - 1) < 0x1_0000_0000)
  {
    forall i | 0 <= i < |pngs| - 1
      ensures Offset(pngs, i) <= Offset(pngs, |pngs| - 1)
    {
      ImagesTileTheFile(pngs, i, |pngs| - 1);
    }
    if |pngs| > 0 && AllFit(pngs) { assert Fits(pngs[|pngs| - 1], Offset(pngs, |pngs| - 1)); }
  }

  /** Entry i of the file reads as this PNG. */
  ghost predicate ReadsAs(s: seq<Byte>, i: nat, png: seq<Byte>) {
    6 + 16 * i + 16 <= |s| && |png| >= 24 && ReadEntry(s, i) == Some(Described(png))
  }

  lemma FieldsRead(s: seq<Byte>, i: nat, at: nat, png: seq<Byte>, offset: nat)
    requires at == 6 + 16 * i && at + 16 <= |s| && |png| >= 24
    requires s[at] == Side(ReadBigEndian(png, 16, WORD)) && s[at + 1] == Side(ReadBigEndian(png, 20, WORD))
    requires s[at + 2..at + 8] == [0, 0, 1, 0, 32, 0]
    requires ReadLittleEndian(s, at + 8, WORD) == |png| && ReadLittleEndian(s, at + 12, WORD) == offset
    requires Holds(s, offset, png)
    ensures ReadsAs(s, i, png)
  {
  }

  lemma EntryReads(s: seq<Byte>, i: nat, png: seq<Byte>, offset: nat)
    requires Fits(png, offset) && Holds(s, 6 + 16 * i, Entry(png, offset)) && Holds(s, offset, png)
    ensures ReadsAs(s, i, png)
  {
    EntryFields(s, 6 + 16 * i, png, offset);
    FieldsRead(s, i, 6 + 16 * i, png, offset);
  }

  lemma EntryReadsBack(pngs: seq<seq<Byte>>, i: nat, s: seq<Byte>)
    requires File(pngs) == Some(s) && i < |pngs|
    ensures ReadsAs(s, i, pngs[i])
  {
    EntryDelimitsItsPng(pngs, i, s);
    EntryReads(s, i, pngs[i], Offset(pngs, i));
  }

  lemma HeaderReadsBack(s: seq<Byte>, n: nat, directory: seq<Byte>, images: seq<Byte>)
    requires n < U16 && s == Header(n) + directory + images
    ensures |s| >= 6 && s[..4] == [0, 0, 1, 0] && ReadLittleEndian(s, 4, HALF_WORD) == n
  {
    assert s[4..6] == LittleEndian(n, HALF_WORD);
    Ranges();
    LittleEndianReadsBack(s, 4, n, HALF_WORD);
  }

  lemma ReadIs(s: seq<Byte>, n: nat, pngs: seq<seq<Byte>>)
    requires 6 + 16 * n <= |s| && s[..4] == [0, 0, 1, 0] && ReadLittleEndian(s, 4, HALF_WORD) == n == |pngs|
    requires forall i: nat :: i < n ==> ReadsAs(s, i, pngs[i])
    ensures Read(s).Some? && |Read(s).value| == n
    ensures forall i :: 0 <= i < n ==> |pngs[i]| >= 24 && Read(s).value[i] == Described(pngs[i])
  {
    assert forall i: nat :: i < n ==> ReadsAs(s, i, pngs[i]) && ReadEntry(s, i).Some?;
  }

  /** Every image comes back whole, with its sides up to 255 exact and anything larger shown as 256. */
  lemma FileReadsBack(pngs: seq<seq<Byte>>, s: seq<Byte>)
    requires File(pngs) == Some(s)
    ensures Read(s).Some? && |Read(s).value| == |pngs|
    ensures forall i :: 0 <= i < |pngs| ==> |pngs[i]| >= 24 && Read(s).value[i] == Described(pngs[i])
  {
    HeaderReadsBack(s, |pngs|, Join(Entries(pngs), |pngs|), Join(pngs, |pngs|));
    EvenStarts(Entries(pngs), 16, |pngs|);
    forall i: nat | i < |pngs|
      ensures ReadsAs(s, i, pngs[i])
    {
      EntryReadsBack(pngs, i, s);
    }
    ReadIs(s, |pngs|, pngs);
  }

  /** A PNG that Png.File wrote tells its own size at bytes 16 and 20. */
  lemma PngTellsItsSize(pixels: seq<Byte>, size: nat, deflate: seq<Byte> -> seq<Byte>)
    requires |pixels| == size * (size * 4) && Png.File(pixels, size, deflate).Some?
    ensures var png := Png.File(pixels, size, deflate).value;
            |png| >= 24 && ReadBigEndian(png, 16, WORD) == size && ReadBigEndian(png, 20, WORD) == size
    ensures var png, side := Png.File(pixels, size, deflate).value, if 0 < size < 256 then size else 256;
            |png| >= 24 && Described(png) == Picture(side, side, png)
  {
    var png, head := Png.File(pixels, size, deflate).value, Png.Header(size);
    var raw := Png.Scanlines(pixels, size * 4, size);
    var a, b := Png.Chunk(Png.IHDR, head).value, Png.Chunk(Png.IDAT, deflate(raw)).value;
    var c := Png.Chunk(Png.IEND, []).value;
    Png.ChunksStand(png, a, b, c);
    Png.FieldsStand(png, 8, BigEndian(13, WORD), Png.IHDR, head, Png.CrcField(Png.IHDR + head));
    assert png[16..29] == head;
    SidesOfHeader(png, head, size);
  }

  lemma SidesOfHeader(png: seq<Byte>, head: seq<Byte>, size: nat)
    requires size < U32 && head == Png.Header(size) && |png| >= 29 && png[16..29] == head
    ensures ReadBigEndian(png, 16, WORD) == size && ReadBigEndian(png, 20, WORD) == size
  {
    assert head[0..4] == BigEndian(size, WORD) && head[4..8] == BigEndian(size, WORD);
    Png.SliceOfSlice(png, 16, 13, 0, 4);
    Png.SliceOfSlice(png, 16, 13, 4, 8);
    Ranges();
    BigEndianReadsBack(png, 16, size, WORD);
    BigEndianReadsBack(png, 20, size, WORD);
  }

  // ---------------------------------------------------------------- the code

  ghost predicate IsEntry(e: seq<Byte>, pngs: seq<seq<Byte>>, i: nat) {
    i < |pngs| && Fits(pngs[i], Offset(pngs, i)) && e == Entry(pngs[i], Offset(pngs, i))
  }

  ghost predicate EntriesSoFar(pngs: seq<seq<Byte>>, entries: seq<seq<Byte>>) {
    && |entries| <= |pngs|
    && forall i: nat :: i < |entries| ==> IsEntry(entries[i], pngs, i)
  }

  lemma EntriesGrow(pngs: seq<seq<Byte>>, entries: seq<seq<Byte>>, e: seq<Byte>)
    requires EntriesSoFar(pngs, entries) && IsEntry(e, pngs, |entries|)
    ensures EntriesSoFar(pngs, entries + [e])
  {
  }

  lemma AllEntries(pngs: seq<seq<Byte>>, entries: seq<seq<Byte>>)
    requires EntriesSoFar(pngs, entries) && |entries| == |pngs|
    ensures AllFit(pngs) && entries == Entries(pngs)
  {
    forall i: nat | i < |pngs|
      ensures Fits(pngs[i], Offset(pngs, i)) && entries[i] == Entry(pngs[i], Offset(pngs, i))
    {
      assert IsEntry(entries[i], pngs, i);
    }
  }

  /** Buffer.concat. */
  method Concat(parts: seq<seq<Byte>>) returns (s: seq<Byte>)
    ensures s == Join(parts, |parts|)
  {
    s := [];
    for k := 0 to |parts|
      invariant s == Join(parts, k)
    {
      s := s + parts[k];
    }
  }

  /** makeICO: the directory grows entry by entry while the running offset moves past each image. */
  method MakeIco(pngs: seq<seq<Byte>>) returns (file: Option<seq<Byte>>)
    ensures file == File(pngs)
  {
    if |pngs| >= U16 { return None; }
    var entries: seq<seq<Byte>> := [];
    var offset := 6 + 16 * |pngs|;
    for i := 0 to |pngs|
      invariant |entries| == i && EntriesSoFar(pngs, entries) && offset == Offset(pngs, i)
    {
      var png := pngs[i];
      if !Fits(png, offset) { return None; }
      var e := Entry(png, offset);
      EntriesGrow(pngs, entries, e);
      entries, offset := entries + [e], offset + |png|;
    }
    AllEntries(pngs, entries);
    var directory := Concat(entries);
    var images := Concat(pngs);
    file := Some(Header(|pngs|) + directory + images);
  }
}
