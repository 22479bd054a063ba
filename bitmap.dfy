/**
 * The picture of the image processor and its 24-bit BMP file format.
 *
 * An `Image` holds a width, a height and a grid of colours stored row by
 * row, bottom row first as in the file.  Colours are opaque: the model keeps
 * their three channels but none of their arithmetic.  The file format is
 * modelled by the two headers `Export` writes and the arithmetic `Read` uses
 * to recover the dimensions from them.
 */
module Bitmap {
  import opened Wrappers
  import opened CLib

  /** `Color`: three `double` channels. */
  datatype Color = Color(r: real, g: real, b: real)

  /** `Color()`: every channel zero. */
  const Black: Color := Color(0.0, 0.0, 0.0)

  /** An `unsigned char`. */
  type Byte = b: int | 0 <= b < 256

  /** The three members of an `Image`, as one value. */
  datatype Picture = Picture(width: nat, height: nat, colors: seq<seq<Color>>) {
    /** `height` stored rows of `width` cells each. */
    predicate Shaped() {
      |colors| == height && forall y | 0 <= y < |colors| :: |colors[y]| == width
    }
  }

  /** A row of `width` default colours. */
  function BlankRow(width: nat): seq<Color> {
    seq(width, _ => Black)
  }

  /** `height` rows of `width` default colours. */
  function Blank(width: nat, height: nat): seq<seq<Color>> {
    seq(height, _ => BlankRow(width))
  }

  lemma BlankShaped(width: nat, height: nat)
    ensures Picture(width, height, Blank(width, height)).Shaped()
    ensures forall y, x | 0 <= y < height && 0 <= x < width :: Blank(width, height)[y][x] == Black
  {
  }

  /**
   * The value `Normalize(coordinate, limit)` leaves in `coordinate`.  A
   * coordinate past the limit goes to the last cell, except one above
   * `SIZE_MAX / 2` (where a negative offset lands once it is a `size_t`),
   * which goes to 0.
   */
  function Normalize(coordinate: nat, limit: nat): (r: nat)
    requires coordinate < SIZE_MOD && limit < SIZE_MOD
    ensures r < SIZE_MOD
    ensures coordinate < limit ==> r == coordinate
    ensures 0 < limit ==> r < limit
  {
    if coordinate >= limit then
      if coordinate > SIZE_MAX / 2 then 0 else SizeT(limit - 1)
    else coordinate
  }

  /** A negative offset `-k`, once converted to `size_t`, is clamped to the first cell. */
  lemma NormalizeNegative(k: nat, limit: nat)
    requires 0 < k <= SIZE_MOD / 2 && limit <= SIZE_MOD / 2
    ensures Normalize(SizeT(-(k as int)), limit) == 0
  {
    assert SizeT(-(k as int)) == SIZE_MOD - k;
  }

  /** Any other coordinate past the limit is clamped to the last cell. */
  lemma NormalizeBeyond(coordinate: nat, limit: nat)
    requires 0 < limit <= coordinate <= SIZE_MAX / 2
    ensures Normalize(coordinate, limit) == limit - 1
  {
  }

  /** Clamping twice is clamping once. */
  lemma NormalizeIdempotent(coordinate: nat, limit: nat)
    requires coordinate < SIZE_MOD && 0 < limit < SIZE_MOD
    ensures Normalize(Normalize(coordinate, limit), limit) == Normalize(coordinate, limit)
  {
  }

  class Image {
    /** `m_width_`. */
    var width: nat
    /** `m_height_`. */
    var height: nat
    /** `m_colors_`: the stored rows, bottom row of the picture first. */
    var colors: seq<seq<Color>>

    function Snapshot(): Picture
      reads this
    {
      Picture(width, height, colors)
    }

    predicate Shaped()
      reads this
    {
      Snapshot().Shaped()
    }

    /** `Image(width, height)`: `height` rows, each then resized to `width` default colours. */
    constructor (width: nat, height: nat)
      requires width < SIZE_MOD && height < SIZE_MOD
      ensures Snapshot() == Picture(width, height, Blank(width, height))
    {
      var rows: seq<seq<Color>> := seq(height, _ => []);
      for i := 0 to height
        invariant |rows| == height
        invariant forall y | 0 <= y < i :: rows[y] == BlankRow(width)
        invariant forall y | i <= y < height :: rows[y] == []
      {
        rows := rows[i := BlankRow(width)];
      }
      this.width := width;
      this.height := height;
      colors := rows;
    }

    /** The cell `GetColor(x, y)` reads, at the clamped coordinates, exists. */
    predicate Readable(x: nat, y: nat)
      reads this
      requires x < SIZE_MOD && y < SIZE_MOD && width < SIZE_MOD && height < SIZE_MOD
    {
      Normalize(y, height) < |colors| && Normalize(x, width) < |colors[Normalize(y, height)]|
    }

    /** `GetColor(x, y)`: the cell at the clamped coordinates. */
    function GetColor(x: nat, y: nat): (c: Color)
      reads this
      requires x < SIZE_MOD && y < SIZE_MOD && width < SIZE_MOD && height < SIZE_MOD
      requires Readable(x, y)
      ensures x < width && y < height ==> c == colors[y][x]
    {
      colors[Normalize(y, height)][Normalize(x, width)]
    }

    /** On a non-empty image of the recorded shape every coordinate can be read. */
    lemma AlwaysReadable(x: nat, y: nat)
      requires x < SIZE_MOD && y < SIZE_MOD && width < SIZE_MOD && height < SIZE_MOD
      requires Shaped() && 0 < width && 0 < height
      ensures Readable(x, y)
    {
    }

    /** An offset past either edge reads the nearest cell on that edge. */
    lemma ReadsEdge(x: nat, y: nat)
      requires x < SIZE_MOD && y < SIZE_MOD && width < SIZE_MOD && height < SIZE_MOD
      requires Shaped() && 0 < width && 0 < height
      requires x <= SIZE_MAX / 2 && y <= SIZE_MAX / 2
      ensures Readable(x, y)
      ensures GetColor(x, y) == colors[if y < height then y else height - 1][if x < width then x else width - 1]
    {
    }

    /** `SetColor(color, x, y)`: cell `[y][x]`, which must exist, is overwritten and nothing else changes. */
    method SetColor(color: Color, x: nat, y: nat)
      requires y < |colors| && x < |colors[y]|
      modifies this
      ensures colors == old(colors)[y := old(colors)[y][x := color]]
      ensures width == old(width) && height == old(height)
      ensures old(Shaped()) ==> Shaped()
    {
      colors := colors[y := colors[y][x := color]];
    }

    /** `SetWidth(width)`: only the recorded width changes; the grid is left as it is. */
    method SetWidth(width: nat)
      modifies this
      ensures this.width == width && height == old(height) && colors == old(colors)
    {
      this.width := width;
    }

    /** `SetHeight(height)`: only the recorded height changes; the grid is left as it is. */
    method SetHeight(height: nat)
      modifies this
      ensures this.height == height && width == old(width) && colors == old(colors)
    {
      this.height := height;
    }

    /**
     * `Read(file)`, with the signature test and the decoding of the dimensions
     * as intended (see `AcceptsAsWritten` and `DecodeAsWritten`).  A file
     * that is not a bitmap leaves the image as it was; otherwise the
     * dimensions come from the information header, the grid is resized to
     * them and every cell is read from its three bytes, blue first, each
     * channel converted by `channel` (`static_cast<double>(v) / 255`).
     */
    method Read(file: seq<Byte>, channel: Byte -> real) returns (accepted: bool)
      requires |file| >= HeadersSize
      requires IsBitmap(file) ==> Fits(file)
      modifies this
      ensures accepted == IsBitmap(file)
      ensures !accepted ==> Snapshot() == old(Snapshot())
      ensures accepted ==> Snapshot() == Decoded(file, channel)
    {
      if !IsBitmap(file) {
        return false;
      }
      Reshape(HeaderWidth(file), HeaderHeight(file));
      for y := 0 to height
        invariant width == HeaderWidth(file) && height == HeaderHeight(file)
        invariant Shaped()
        invariant colors[..y] == Decoded(file, channel).colors[..y]
      {
        ReadRow(file, channel, y);
      }
      assert colors == colors[..height];
      return true;
    }

    /**
     * The dimensions and resizing steps of `Read`: the recorded dimensions
     * are replaced, the rows resized to the new height and each row to the
     * new width, keeping the cells already there.
     */
    method Reshape(width: nat, height: nat)
      modifies this
      ensures this.width == width && this.height == height && Shaped()
      ensures colors == seq(height, y requires 0 <= y < height =>
        Resized(Resized(old(colors), height, [])[y], width, Black))
    {
      this.width := width;
      this.height := height;
      colors := Resized(colors, height, []);
      ghost var rows := colors;
      for i := 0 to height
        invariant this.width == width && this.height == height && |colors| == height
        invariant forall y | 0 <= y < i :: colors[y] == Resized(rows[y], width, Black)
        invariant forall y | i <= y < height :: colors[y] == rows[y]
      {
        colors := colors[i := Resized(colors[i], width, Black)];
      }
    }

    /** One pass of `Read`'s outer pixel loop: row `y` is read from the file, the others are kept. */
    method ReadRow(file: seq<Byte>, channel: Byte -> real, y: nat)
      requires |file| >= HeadersSize && Fits(file)
      requires width == HeaderWidth(file) && height == HeaderHeight(file)
      requires Shaped() && y < height
      requires colors[..y] == Decoded(file, channel).colors[..y]
      modifies this
      ensures width == old(width) && height == old(height) && Shaped()
      ensures colors[..y + 1] == Decoded(file, channel).colors[..y + 1]
    {
      ghost var target := Decoded(file, channel).colors;
      for x := 0 to width
        invariant width == old(width) && height == old(height) && Shaped()
        invariant colors[..y] == target[..y]
        invariant colors[y][..x] == target[y][..x]
      {
        PixelInFile(file, width, height, y, x);
        var o := PixelOffset(width, y, x);
        SetColor(Color(channel(file[o + 2]), channel(file[o + 1]), channel(file[o])), x, y);
      }
      assert colors[y] == colors[y][..width];
      assert target[y] == target[y][..width];
    }

    /**
     * `Crop(width, height)`: a new image of the clamped size whose rows are
     * the last stored rows, each cut to its first cells.
     */
    method Crop(width: nat, height: nat) returns (cropped: Image)
      requires Shaped() && width < SIZE_MOD && height < SIZE_MOD
      ensures fresh(cropped) && cropped.Snapshot() == Cropped(Snapshot(), width, height)
    {
      var h := if height < this.height then height else this.height;
      var w := if width < this.width then width else this.width;
      cropped := new Image(w, h);
      ghost var target := Cropped(Snapshot(), width, height).colors;
      for j := 0 to h
        invariant cropped.width == w && cropped.height == h && |cropped.colors| == h
        invariant cropped.colors[..j] == target[..j]
        invariant forall k | j <= k < h :: cropped.colors[k] == BlankRow(w)
      {
        var row := cropped.colors[j];
        var source := colors[this.height - h + j];
        for i := 0 to w
          invariant |row| == w && row[..i] == source[..i]
        {
          row := row[i := source[i]];
        }
        assert row == source[..w];
        cropped.colors := cropped.colors[j := row];
        assert cropped.colors[..j + 1] == target[..j + 1];
      }
      assert cropped.colors == cropped.colors[..h];
    }
  }

  /** `std::vector::resize(n)` with `fill` for the new elements: the first elements are kept. */
  function Resized<T>(s: seq<T>, n: nat, fill: T): (r: seq<T>)
    ensures |r| == n
    ensures forall k | 0 <= k < n && k < |s| :: r[k] == s[k]
    ensures forall k | |s| <= k < n :: r[k] == fill
  {
    if n <= |s| then s[..n] else s + seq(n - |s|, _ => fill)
  }

  /** The smaller of two sizes, `std::min`. */
  function Min(a: nat, b: nat): nat {
    if a < b then a else b
  }

  /** `Image::Crop`'s result: the last `h'` stored rows, each cut to its first `w'` cells. */
  function Cropped(p: Picture, width: nat, height: nat): (q: Picture)
    requires p.Shaped()
    ensures q.Shaped() && q.width == Min(width, p.width) && q.height == Min(height, p.height)
  {
    var w, h := Min(width, p.width), Min(height, p.height);
    Picture(w, h, seq(h, j requires 0 <= j < h => p.colors[p.height - h + j][..w]))
  }

  /** The picture's rows from the top: the stored rows in reverse. */
  function TopDown(p: Picture): seq<seq<Color>> {
    seq(|p.colors|, t requires 0 <= t < |p.colors| => p.colors[|p.colors| - 1 - t])
  }

  /**
   * Because the rows are stored bottom first, keeping the last stored rows
   * and the first columns keeps the upper-left corner of the picture.
   */
  lemma CropKeepsUpperLeft(p: Picture, width: nat, height: nat)
    requires p.Shaped()
    ensures var q := Cropped(p, width, height);
      forall t, x | 0 <= t < q.height && 0 <= x < q.width :: TopDown(q)[t][x] == TopDown(p)[t][x]
  {
  }

  /** A crop at least as large as the image keeps it whole. */
  lemma CropWhole(p: Picture, width: nat, height: nat)
    requires p.Shaped() && p.width <= width && p.height <= height
    ensures Cropped(p, width, height) == p
  {
    var q := Cropped(p, width, height);
    assert forall j | 0 <= j < p.height :: q.colors[j] == p.colors[j];
  }

  /** Cropping again to the same size changes nothing. */
  lemma CropIdempotent(p: Picture, width: nat, height: nat)
    requires p.Shaped()
    ensures Cropped(Cropped(p, width, height), width, height) == Cropped(p, width, height)
  {
    var q := Cropped(p, width, height);
    CropWhole(q, width, height);
  }

  // ----- The file format -----

  const FileHeaderSize: nat := 14
  const InfoHeaderSize: nat := 40
  const HeadersSize: nat := FileHeaderSize + InfoHeaderSize

  /** `padding_amount`: the zero bytes that end each stored row of `width` pixels. */
  function Padding(width: nat): (pad: nat)
    ensures pad <= 3
    ensures (3 * width + pad) % 4 == 0
  {
    WrapKeepsFourth(width * 3);
    (4 - SizeT(width * 3) % 4) % 4
  }

  /** Wrapping around 2^64 does not change the remainder by 4. */
  lemma WrapKeepsFourth(v: nat)
    ensures SizeT(v) % 4 == v % 4
  {
    var q := v / SIZE_MOD;
    assert v == q * SIZE_MOD + SizeT(v);
    assert q * SIZE_MOD == 4 * (q * 0x4000_0000_0000_0000);
  }

  /** The bytes of a stored row: three per pixel, then the padding. */
  function RowSize(width: nat): nat {
    3 * width + Padding(width)
  }

  /** `file_size`, computed in `size_t`. */
  function FileSize(width: nat, height: nat): (size: nat)
    ensures size < SIZE_MOD
    ensures HeadersSize + height * RowSize(width) < SIZE_MOD ==> size == HeadersSize + height * RowSize(width)
  {
    assert width * height * 3 + Padding(width) * height == height * RowSize(width) by {
      Distribute(height, width, Padding(width));
    }
    SizeT(FileHeaderSize + InfoHeaderSize + width * height * 3 + Padding(width) * height)
  }

  lemma Distribute(h: nat, w: nat, pad: nat)
    ensures w * h * 3 + pad * h == h * (3 * w + pad)
  {
  }

  /** `static_cast<unsigned char>(v >> 0, 8, 16, 24)`: the low four bytes of `v`, least significant first. */
  function LittleEndian(v: nat): (bytes: seq<Byte>)
    ensures |bytes| == 4
  {
    [v % 0x100, v / 0x100 % 0x100, v / 0x1_0000 % 0x100, v / 0x100_0000 % 0x100]
  }

  /** Four bytes read as an unsigned 32-bit value, least significant first. */
  function Decode32(bytes: seq<Byte>): (v: nat)
    requires |bytes| == 4
    ensures v < 0x1_0000_0000
  {
    bytes[0] as int + bytes[1] as int * 0x100 + bytes[2] as int * 0x1_0000 + bytes[3] as int * 0x100_0000
  }

  /** Decoding the encoding gives the value modulo 2^32. */
  lemma DecodeEncode(v: nat)
    ensures Decode32(LittleEndian(v)) == v % 0x1_0000_0000
  {
    Expand(v);
  }

  /** A value is its four low bytes plus a multiple of 2^32. */
  lemma Expand(v: nat)
    ensures v == 0x1_0000_0000 * (v / 0x1_0000_0000) + Decode32(LittleEndian(v))
  {
    var q1 := v / 0x100;
    var q2 := q1 / 0x100;
    var q3 := q2 / 0x100;
    ShiftTwice(v);
    ShiftTwice(q1);
    assert v == 0x100 * q1 + v % 0x100;
    assert q1 == 0x100 * q2 + q1 % 0x100;
    assert q2 == 0x100 * q3 + q2 % 0x100;
    assert q3 == 0x100 * (q3 / 0x100) + q3 % 0x100;
  }

  /** Below 2^32 decoding the encoding gives the value itself. */
  lemma DecodeEncodeBelow(v: nat)
    requires v < 0x1_0000_0000
    ensures Decode32(LittleEndian(v)) == v
  {
    DecodeEncode(v);
  }

  /** Shifting right by two bytes is shifting right by one byte twice, and likewise for three and four. */
  lemma ShiftTwice(v: nat)
    ensures v / 0x1_0000 == v / 0x100 / 0x100
    ensures v / 0x100_0000 == v / 0x1_0000 / 0x100
    ensures v / 0x1_0000_0000 == v / 0x100_0000 / 0x100
  {
    var q1, q2 := v / 0x100, v / 0x100 / 0x100;
    assert v == 0x1_0000 * q2 + (q1 % 0x100 * 0x100 + v % 0x100);
    var q3 := q2 / 0x100;
    assert v == 0x100_0000 * q3 + (q2 % 0x100 * 0x1_0000 + q1 % 0x100 * 0x100 + v % 0x100);
    var q4 := q3 / 0x100;
    assert v == 0x1_0000_0000 * q4 + (q3 % 0x100 * 0x100_0000 + q2 % 0x100 * 0x1_0000 + q1 % 0x100 * 0x100 + v % 0x100);
  }

  /** Encoding the decoded value gives the bytes back. */
  lemma EncodeDecode(bytes: seq<Byte>)
    requires |bytes| == 4
    ensures LittleEndian(Decode32(bytes)) == bytes
  {
    var v := Decode32(bytes);
    var q1 := bytes[1] as int + bytes[2] as int * 0x100 + bytes[3] as int * 0x1_0000;
    var q2 := bytes[2] as int + bytes[3] as int * 0x100;
    assert v == 0x100 * q1 + bytes[0];
    assert v / 0x100 == q1 && q1 == 0x100 * q2 + bytes[1];
    assert v / 0x1_0000 == q2 && q2 == 0x100 * (bytes[3] as int) + bytes[2];
    assert v / 0x100_0000 == bytes[3];
  }

  /** The 14-byte file header `Export` writes. */
  function FileHeader(width: nat, height: nat): (header: seq<Byte>)
    ensures |header| == FileHeaderSize
  {
    ['B' as int, 'M' as int] + LittleEndian(FileSize(width, height)) + [0, 0, 0, 0, HeadersSize, 0, 0, 0]
  }

  /** The 40-byte information header `Export` writes. */
  function InfoHeader(width: nat, height: nat): (header: seq<Byte>)
    ensures |header| == InfoHeaderSize
  {
    [InfoHeaderSize, 0, 0, 0] + LittleEndian(width) + LittleEndian(height) + [1, 0, 24] + seq(25, _ => 0)
  }

  /**
   * The layout of the file header: the signature "BM", the file size in
   * bytes 2 to 5, the pixel data offset 54 in byte 10, zero elsewhere.
   */
  lemma FileHeaderLayout(width: nat, height: nat)
    ensures var header := FileHeader(width, height);
      && header[0] == 'B' as int && header[1] == 'M' as int
      && Decode32(header[2..6]) == FileSize(width, height) % 0x1_0000_0000
      && header[10] == HeadersSize
      && forall k | 6 <= k < 14 && k != 10 :: header[k] == 0
  {
    var header := FileHeader(width, height);
    assert header[2..6] == LittleEndian(FileSize(width, height));
    DecodeEncode(FileSize(width, height));
  }

  /**
   * The layout of the information header: its size 40 in byte 0, the width
   * in bytes 4 to 7, the height in bytes 8 to 11, one plane in byte 12,
   * 24 bits per pixel in byte 14, zero elsewhere.
   */
  lemma InfoHeaderLayout(width: nat, height: nat)
    ensures var header := InfoHeader(width, height);
      && header[0] == InfoHeaderSize
      && Decode32(header[4..8]) == width % 0x1_0000_0000
      && Decode32(header[8..12]) == height % 0x1_0000_0000
      && header[12] == 1 && header[14] == 24
      && (forall k | 1 <= k < 4 :: header[k] == 0)
      && header[13] == 0
      && (forall k | 15 <= k < 40 :: header[k] == 0)
  {
    var header := InfoHeader(width, height);
    assert header[4..8] == LittleEndian(width);
    assert header[8..12] == LittleEndian(height);
    DecodeEncode(width);
    DecodeEncode(height);
  }

  /** Both headers, as `Export` writes them before the pixels. */
  function Headers(width: nat, height: nat): (bytes: seq<Byte>)
    ensures |bytes| == HeadersSize
  {
    FileHeader(width, height) + InfoHeader(width, height)
  }

  /** The signature test `Read` evidently intends: the file starts with "BM". */
  predicate IsBitmap(file: seq<Byte>)
    requires |file| >= 2
  {
    file[0] == 'B' as int && file[1] == 'M' as int
  }

  /** `Read`'s signature test as written: a file is rejected only when neither byte matches. */
  predicate AcceptsAsWritten(file: seq<Byte>)
    requires |file| >= 2
  {
    !(file[0] != 'B' as int && file[1] != 'M' as int)
  }

  /** The test as written lets through files that are not bitmaps, such as one starting with "BA". */
  lemma SignatureLetsThrough(rest: seq<Byte>)
    ensures var file := ['B' as int, 'A' as int] + rest;
      AcceptsAsWritten(file) && !IsBitmap(file)
  {
  }

  /** Every bitmap passes both tests. */
  lemma BitmapAccepted(file: seq<Byte>)
    requires |file| >= 2 && IsBitmap(file)
    ensures AcceptsAsWritten(file)
  {
  }

  /**
   * How `Read` computes a dimension as written: each byte is multiplied by
   * an `int`, so the most significant byte times 2^24 overflows `int`
   * (undefined behaviour, `None`) once that byte is 128 or more.
   */
  function DecodeAsWritten(bytes: seq<Byte>): (r: Option<nat>)
    requires |bytes| == 4
    ensures r.Some? ==> r.value <= INT_MAX
  {
    if bytes[3] as int * 0x100_0000 > INT_MAX then None
    else Some(bytes[0] as int + bytes[1] as int * 0x100 + bytes[2] as int * 0x1_0000 + bytes[3] as int * 0x100_0000)
  }

  /** As written, decoding agrees with the unsigned reading exactly below 2^31. */
  lemma DecodeAsWrittenBelow(bytes: seq<Byte>)
    requires |bytes| == 4
    ensures DecodeAsWritten(bytes).Some? <==> Decode32(bytes) <= INT_MAX
    ensures DecodeAsWritten(bytes).Some? ==> DecodeAsWritten(bytes).value == Decode32(bytes)
  {
  }

  /** A width of 2^31, which `Export` writes faithfully, cannot be read back as written. */
  lemma LargeWidthUnreadable()
    ensures DecodeAsWritten(LittleEndian(0x8000_0000)).None?
    ensures Decode32(LittleEndian(0x8000_0000)) == 0x8000_0000
  {
    DecodeEncode(0x8000_0000);
  }

  /** The width a file records. */
  function HeaderWidth(file: seq<Byte>): nat
    requires |file| >= HeadersSize
  {
    Decode32(file[18..22])
  }

  /** The height a file records. */
  function HeaderHeight(file: seq<Byte>): nat
    requires |file| >= HeadersSize
  {
    Decode32(file[22..26])
  }

  /** Where the three bytes of pixel `x` of stored row `y` start. */
  function PixelOffset(width: nat, y: nat, x: nat): nat {
    HeadersSize + y * RowSize(width) + 3 * x
  }

  /** The file holds every stored row its headers announce, padding included. */
  predicate Fits(file: seq<Byte>)
    requires |file| >= HeadersSize
  {
    HeadersSize + HeaderHeight(file) * RowSize(HeaderWidth(file)) <= |file|
  }

  /** Every pixel of a fitting file lies within it. */
  lemma PixelInFile(file: seq<Byte>, width: nat, height: nat, y: nat, x: nat)
    requires |file| >= HeadersSize && width == HeaderWidth(file) && height == HeaderHeight(file) && Fits(file)
    requires y < height && x < width
    ensures PixelOffset(width, y, x) + 3 <= |file|
  {
    var row := RowSize(width);
    assert 3 * x + 3 <= row;
    assert y * row + row == (y + 1) * row;
    assert (y + 1) * row <= height * row by {
      MultiplyMonotone(y + 1, height, row);
    }
  }

  lemma MultiplyMonotone(a: nat, b: nat, c: nat)
    requires a <= b
    ensures a * c <= b * c
  {
  }

  /** The picture `Read` makes of a fitting bitmap file. */
  function Decoded(file: seq<Byte>, channel: Byte -> real): (p: Picture)
    requires |file| >= HeadersSize && Fits(file)
    ensures p.Shaped() && p.width == HeaderWidth(file) && p.height == HeaderHeight(file)
  {
    var width, height := HeaderWidth(file), HeaderHeight(file);
    Picture(width, height, seq(height, y requires 0 <= y < height => seq(width, x requires 0 <= x < width =>
      PixelInFile(file, width, height, y, x);
      var o := PixelOffset(width, y, x);
      Color(channel(file[o + 2]), channel(file[o + 1]), channel(file[o])))))
  }

  /**
   * The dimensions `Export` writes are read back by the intended decoding,
   * for every width and height that fit in 32 bits; the decoding as written
   * manages only those below 2^31.
   */
  lemma HeadersRoundTrip(width: nat, height: nat, rest: seq<Byte>)
    requires width < 0x1_0000_0000 && height < 0x1_0000_0000
    ensures var file := Headers(width, height) + rest;
      && IsBitmap(file) && AcceptsAsWritten(file)
      && HeaderWidth(file) == width && HeaderHeight(file) == height
      && (DecodeAsWritten(file[18..22]).Some? <==> width <= INT_MAX)
  {
    var file := Headers(width, height) + rest;
    DimensionBytes(width, height, rest);
    DecodeEncodeBelow(width);
    DecodeEncodeBelow(height);
    DecodeAsWrittenBelow(file[18..22]);
  }

  /** Where the dimensions sit in a file that starts with the headers. */
  lemma DimensionBytes(width: nat, height: nat, rest: seq<Byte>)
    ensures var file := Headers(width, height) + rest;
      && file[0] == 'B' as int && file[1] == 'M' as int
      && file[18..22] == LittleEndian(width) && file[22..26] == LittleEndian(height)
  {
    var file := Headers(width, height) + rest;
    var info := InfoHeader(width, height);
    assert file[18..22] == info[4..8];
    assert file[22..26] == info[8..12];
    assert info[4..8] == LittleEndian(width);
    assert info[8..12] == LittleEndian(height);
  }
}
