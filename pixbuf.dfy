/**
 * The pixel buffers the capture step works with: a gdk-pixbuf image as a
 * two-dimensional array of pixels indexed `[x, y]`, its packed row-major
 * RGBA byte layout (`read_pixel_bytes`), the `image` crate's RGBA buffer
 * built from those bytes (`ImageBuffer::from_vec`), and the block copy
 * `copy_area`.
 */
module Pixbuf {
  import opened Wrappers

  newtype byte = x: int | 0 <= x < 256

  /** One RGBA pixel, 8 bits per sample. */
  datatype Pixel = Pixel(r: byte, g: byte, b: byte, a: byte)

  datatype Colorspace = Rgb

  /** The layout arguments of `Pixbuf::new`. */
  datatype PixbufFormat = PixbufFormat(colorspace: Colorspace, hasAlpha: bool, bitsPerSample: nat)

  function NChannels(f: PixbufFormat): nat {
    (match f.colorspace case Rgb => 3) + (if f.hasAlpha then 1 else 0)
  }

  /** The formats whose pixels are four 8-bit samples, the layout `Pixel` holds. */
  predicate IsRgba8(f: PixbufFormat) {
    NChannels(f) == 4 && f.bitsPerSample == 8
  }

  /** The samples of one pixel, in memory order. */
  function Channels(p: Pixel): (cs: seq<byte>)
    ensures |cs| == 4
    ensures Pixel(cs[0], cs[1], cs[2], cs[3]) == p
  {
    [p.r, p.g, p.b, p.a]
  }

  /** The bytes of one row of pixels, left to right. */
  function RowBytes(row: seq<Pixel>): seq<byte> {
    if row == [] then [] else Channels(row[0]) + RowBytes(row[1..])
  }

  /** The bytes of an image given as rows, top to bottom, with no padding. */
  function ImageBytes(rows: seq<seq<Pixel>>): seq<byte> {
    if rows == [] then [] else RowBytes(rows[0]) + ImageBytes(rows[1..])
  }

  /** Where the first sample of pixel (x, y) sits in a packed RGBA buffer of width `w`. */
  function Offset(w: nat, x: nat, y: nat): nat {
    4 * (y * w + x)
  }

  lemma {:induction false} RowBytesLength(row: seq<Pixel>)
    ensures |RowBytes(row)| == 4 * |row|
  {
    if row != [] {
      RowBytesLength(row[1..]);
    }
  }

  /** Sample `c` of pixel `x` of a row sits at byte 4x + c. */
  lemma {:induction false} RowBytesAt(row: seq<Pixel>, x: nat, c: nat)
    requires x < |row| && c < 4
    ensures |RowBytes(row)| == 4 * |row|
    ensures RowBytes(row)[4 * x + c] == Channels(row[x])[c]
  {
    RowBytesLength(row);
    if x > 0 {
      RowBytesAt(row[1..], x - 1, c);
    }
  }

  lemma {:induction false} ImageBytesLength(rows: seq<seq<Pixel>>, w: nat)
    requires forall y :: 0 <= y < |rows| ==> |rows[y]| == w
    ensures |ImageBytes(rows)| == 4 * w * |rows|
  {
    if rows != [] {
      RowBytesLength(rows[0]);
      ImageBytesLength(rows[1..], w);
      assert 4 * w * |rows| == 4 * w + 4 * w * (|rows| - 1);
    }
  }

  /** Sample `c` of pixel (x, y) of an image of width `w` sits at `Offset(w, x, y) + c`. */
  lemma {:induction false} ImageBytesAt(rows: seq<seq<Pixel>>, w: nat, x: nat, y: nat, c: nat)
    requires forall k :: 0 <= k < |rows| ==> |rows[k]| == w
    requires x < w && y < |rows| && c < 4
    ensures |ImageBytes(rows)| == 4 * w * |rows|
    ensures Offset(w, x, y) + c < |ImageBytes(rows)|
    ensures ImageBytes(rows)[Offset(w, x, y) + c] == Channels(rows[y][x])[c]
  {
    ImageBytesLength(rows, w);
    RowBytesLength(rows[0]);
    if y == 0 {
      RowBytesAt(rows[0], x, c);
      assert Offset(w, x, y) + c == 4 * x + c;
    } else {
      ImageBytesAt(rows[1..], w, x, y - 1, c);
      assert Offset(w, x, y) == 4 * w + Offset(w, x, y - 1) by {
        assert y * w == w + (y - 1) * w;
      }
    }
  }

  /** An `ImageBuffer<Rgba<u8>, Vec<u8>>`: a width, a height and packed samples. */
  datatype RgbaImage = RgbaImage(width: nat, height: nat, data: seq<byte>) {

    /** The pixel at (x, y), read from its four samples. */
    function PixelAt(x: nat, y: nat): Pixel
      requires Offset(width, x, y) + 4 <= |data|
    {
      var i := Offset(width, x, y);
      Pixel(data[i], data[i + 1], data[i + 2], data[i + 3])
    }
  }

  /**
   * `ImageBuffer::from_vec(w, h, buf)`: an image when `buf` holds at least
   * the 4wh samples it needs, otherwise nothing.
   */
  function FromVec(w: nat, h: nat, buf: seq<byte>): (r: Option<RgbaImage>)
    ensures r.Some? <==> 4 * w * h <= |buf|
    ensures r.Some? ==> r.value.width == w && r.value.height == h && r.value.data == buf
  {
    if 4 * w * h <= |buf| then Some(RgbaImage(w, h, buf)) else None
  }

  /** Packing an image's pixels and reading them back gives every pixel unchanged. */
  lemma PixelRoundTrip(rows: seq<seq<Pixel>>, w: nat, x: nat, y: nat)
    requires forall k :: 0 <= k < |rows| ==> |rows[k]| == w
    requires x < w && y < |rows|
    ensures FromVec(w, |rows|, ImageBytes(rows)).Some?
    ensures Offset(w, x, y) + 4 <= |ImageBytes(rows)|
    ensures FromVec(w, |rows|, ImageBytes(rows)).value.PixelAt(x, y) == rows[y][x]
  {
    ImageBytesAt(rows, w, x, y, 0);
    ImageBytesAt(rows, w, x, y, 1);
    ImageBytesAt(rows, w, x, y, 2);
    ImageBytesAt(rows, w, x, y, 3);
  }

  /** The rows of a pixbuf, top to bottom, each left to right. */
  function RowsOf(p: array2<Pixel>): (rows: seq<seq<Pixel>>)
    reads p
    ensures |rows| == p.Length1
    ensures forall y :: 0 <= y < p.Length1 ==> |rows[y]| == p.Length0
    ensures forall x, y :: 0 <= x < p.Length0 && 0 <= y < p.Length1 ==> rows[y][x] == p[x, y]
  {
    seq(p.Length1, y requires 0 <= y < p.Length1 reads p =>
      seq(p.Length0, x requires 0 <= x < p.Length0 reads p => p[x, y]))
  }

  /**
   * `Pixbuf::new(colorspace, has_alpha, bits, width, height)` for a format
   * whose pixels are RGBA 8-bit: a fresh width-by-height buffer. Sizes of
   * zero or less are not part of this model.
   */
  method NewPixbuf(format: PixbufFormat, width: int, height: int) returns (p: array2<Pixel>)
    requires IsRgba8(format)
    requires 0 < width && 0 < height
    ensures fresh(p)
    ensures p.Length0 == width && p.Length1 == height
  {
    p := new Pixel[width, height];
  }

  /**
   * `Pixbuf::copy_area`: the width-by-height block of `src` at (srcX, srcY)
   * is copied into `dest` at (destX, destY); the rest of `dest` is unchanged.
   */
  method CopyArea(src: array2<Pixel>, srcX: int, srcY: int, width: int, height: int,
                  dest: array2<Pixel>, destX: int, destY: int)
    requires src != dest
    requires 0 <= width && 0 <= height
    requires 0 <= srcX && srcX + width <= src.Length0
    requires 0 <= srcY && srcY + height <= src.Length1
    requires 0 <= destX && destX + width <= dest.Length0
    requires 0 <= destY && destY + height <= dest.Length1
    modifies dest
    ensures forall i, j :: 0 <= i < dest.Length0 && 0 <= j < dest.Length1 ==>
      dest[i, j] ==
        if destX <= i < destX + width && destY <= j < destY + height
        then src[srcX + (i - destX), srcY + (j - destY)]
        else old(dest[i, j])
  {
    var j := 0;
    while j < height
      invariant 0 <= j <= height
      invariant forall i, j' :: 0 <= i < dest.Length0 && 0 <= j' < dest.Length1 ==>
        dest[i, j'] ==
          if destX <= i < destX + width && destY <= j' < destY + j
          then src[srcX + (i - destX), srcY + (j' - destY)]
          else old(dest[i, j'])
    {
      var i := 0;
      while i < width
        invariant 0 <= i <= width
        invariant forall i', j' :: 0 <= i' < dest.Length0 && 0 <= j' < dest.Length1 ==>
          dest[i', j'] ==
            if (destX <= i' < destX + width && destY <= j' < destY + j) ||
               (destX <= i' < destX + i && j' == destY + j)
            then src[srcX + (i' - destX), srcY + (j' - destY)]
            else old(dest[i', j'])
      {
        dest[destX + i, destY + j] := src[srcX + i, srcY + j];
        i := i + 1;
      }
      j := j + 1;
    }
  }
}
