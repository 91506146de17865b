/** The off-screen RGBA buffer behind the canvas (`ScreenBuffer`). Its
    `pixels` is the `data` of an `ImageData`: a `Uint8ClampedArray` holding
    four bytes (red, green, blue, alpha) per pixel, row after row. Such an
    array clamps every value stored into it to 0..255 and silently ignores a
    store at an index outside it. */
module Screen {

  /** The value a `Uint8ClampedArray` keeps when an integer is stored: the
      nearest byte, so bytes are kept as they are. */
  function ClampByte(v: int): (b: int)
    ensures 0 <= b <= 255
    ensures 0 <= v <= 255 ==> b == v
    ensures v < 0 ==> b == 0
    ensures v > 255 ==> b == 255
  {
    if v < 0 then 0 else if v > 255 then 255 else v
  }

  /** Every entry is a byte. */
  predicate AllBytes(s: seq<int>)
  {
    forall k :: 0 <= k < |s| ==> 0 <= s[k] <= 255
  }

  /** The index of the red byte of the pixel in column `x`, row `y`. */
  function PixelIndex(x: int, y: int, width: int): int
  {
    (y * width + x) * 4
  }

  /** The byte at index `k` after a `setPixel` whose red byte is at `idx`. */
  function PaintedByte(s: seq<int>, k: int, idx: int, r: int, g: int, b: int): int
    requires 0 <= k < |s|
  {
    if k == idx then ClampByte(r)
    else if k == idx + 1 then ClampByte(g)
    else if k == idx + 2 then ClampByte(b)
    else if k == idx + 3 then 255
    else s[k]
  }

  /** The buffer after the four stores of `setPixel` at `idx`: each of the
      indices `idx..idx+3` that lies inside the buffer takes the clamped red,
      green and blue values and an opaque alpha; every other byte is kept,
      and a buffer of bytes stays one. */
  function Painted(s: seq<int>, idx: int, r: int, g: int, b: int): (t: seq<int>)
    ensures |t| == |s|
    ensures forall k :: 0 <= k < |s| && !(idx <= k < idx + 4) ==> t[k] == s[k]
    ensures 0 <= idx && idx + 4 <= |s| ==> t[idx..idx + 4] == [ClampByte(r), ClampByte(g), ClampByte(b), 255]
    ensures AllBytes(s) ==> AllBytes(t)
  {
    seq(|s|, k requires 0 <= k < |s| => PaintedByte(s, k, idx, r, g, b))
  }

  /** A buffer that agrees with `PaintedByte` at every index is `Painted`. */
  lemma PaintedByBytes(s: seq<int>, t: seq<int>, idx: int, r: int, g: int, b: int)
    requires |t| == |s|
    requires forall k :: 0 <= k < |s| ==> t[k] == PaintedByte(s, k, idx, r, g, b)
    ensures t == Painted(s, idx, r, g, b)
  {
  }

  /** Byte by byte, also for a group of four that runs past either end of
      the buffer: each index `idx + i` inside the buffer holds the `i`-th of
      red, green, blue and alpha. */
  lemma PaintedGroup(s: seq<int>, idx: int, r: int, g: int, b: int)
    ensures forall k :: 0 <= k < |s| && idx <= k < idx + 4 ==>
              Painted(s, idx, r, g, b)[k] == [ClampByte(r), ClampByte(g), ClampByte(b), 255][k - idx]
  {
  }

  /** A pixel inside the canvas has all four of its bytes inside the buffer. */
  lemma PixelIndexInBounds(x: int, y: int, width: int, height: int)
    requires 0 <= x < width && 0 <= y < height
    ensures 0 <= PixelIndex(x, y, width)
    ensures PixelIndex(x, y, width) + 4 <= width * height * 4
  {
    assert y * width >= 0;
    assert y * width <= (height - 1) * width by {
      MultiplyMonotone(y, height - 1, width);
    }
    assert (height - 1) * width == height * width - width;
  }

  /** Two different pixels of the canvas own disjoint groups of four bytes. */
  lemma PixelIndexDisjoint(x1: int, y1: int, x2: int, y2: int, width: int)
    requires 0 <= x1 < width && 0 <= x2 < width
    requires 0 <= y1 && 0 <= y2
    requires (x1, y1) != (x2, y2)
    ensures PixelIndex(x1, y1, width) + 4 <= PixelIndex(x2, y2, width)
         || PixelIndex(x2, y2, width) + 4 <= PixelIndex(x1, y1, width)
  {
    if y1 < y2 {
      RowsApart(x1, y1, x2, y2, width);
    } else if y2 < y1 {
      RowsApart(x2, y2, x1, y1, width);
    }
  }

  lemma RowsApart(x1: int, y1: int, x2: int, y2: int, width: int)
    requires 0 <= x1 < width && 0 <= x2 < width
    requires 0 <= y1 < y2
    ensures PixelIndex(x1, y1, width) + 4 <= PixelIndex(x2, y2, width)
  {
    MultiplyMonotone(y1 + 1, y2, width);
    assert (y1 + 1) * width == y1 * width + width;
  }

  lemma MultiplyMonotone(a: int, b: int, c: int)
    requires a <= b && 0 <= c
    ensures a * c <= b * c
  {
    assert b * c - a * c == (b - a) * c;
  }

  /** No bounds check: a column one row-width too far addresses the pixel
      in the same column of the next row. */
  lemma ColumnOverflowWraps(x: int, y: int, width: int)
    ensures PixelIndex(x + width, y, width) == PixelIndex(x, y + 1, width)
  {
    assert (y + 1) * width == y * width + width;
  }

  /** After painting pixel `(x, y)` of a `width` by `height` buffer, reading
      that pixel back gives the clamped colour with an opaque alpha, and
      every other pixel of the canvas reads as before. */
  lemma PaintedReadBack(s: seq<int>, width: int, height: int, x: int, y: int,
                        r: int, g: int, b: int, x2: int, y2: int)
    requires |s| == width * height * 4
    requires 0 <= x < width && 0 <= y < height
    requires 0 <= x2 < width && 0 <= y2 < height
    ensures 0 <= PixelIndex(x, y, width) && PixelIndex(x, y, width) + 4 <= |s|
    ensures 0 <= PixelIndex(x2, y2, width) && PixelIndex(x2, y2, width) + 4 <= |s|
    ensures var t := Painted(s, PixelIndex(x, y, width), r, g, b);
            var i := PixelIndex(x, y, width);
            var j := PixelIndex(x2, y2, width);
            && t[i..i + 4] == [ClampByte(r), ClampByte(g), ClampByte(b), 255]
            && ((x2, y2) != (x, y) ==> t[j..j + 4] == s[j..j + 4])
  {
    var i := PixelIndex(x, y, width);
    var j := PixelIndex(x2, y2, width);
    PixelIndexInBounds(x, y, width, height);
    PixelIndexInBounds(x2, y2, width, height);
    assert 0 <= i && i + 4 <= |s| && 0 <= j && j + 4 <= |s|;
    if (x2, y2) != (x, y) {
      PixelIndexDisjoint(x, y, x2, y2, width);
      assert i + 4 <= j || j + 4 <= i;
    }
    PaintedSlices(s, i, j, r, g, b);
  }

  /** `PaintedReadBack` on buffer indices rather than pixel coordinates. */
  lemma PaintedSlices(s: seq<int>, i: int, j: int, r: int, g: int, b: int)
    requires 0 <= i && i + 4 <= |s| && 0 <= j && j + 4 <= |s|
    ensures var t := Painted(s, i, r, g, b);
            && t[i..i + 4] == [ClampByte(r), ClampByte(g), ClampByte(b), 255]
            && (i + 4 <= j || j + 4 <= i ==> t[j..j + 4] == s[j..j + 4])
  {
    var t := Painted(s, i, r, g, b);
    if i + 4 <= j || j + 4 <= i {
      assert forall k :: j <= k < j + 4 ==> t[k] == s[k];
    }
  }

  /** `ScreenBuffer`: the canvas size and its RGBA bytes. */
  class ScreenBuffer {
    const width: nat
    const height: nat
    var pixels: array<int>

    /** The buffer holds four bytes for every pixel of the canvas. */
    ghost predicate Valid()
      reads this, pixels
    {
      pixels.Length == width * height * 4 && AllBytes(pixels[..])
    }

    /** Takes the size of the canvas and the bytes of its image data, which
        the source reads from the page. */
    constructor(width: nat, height: nat, imageData: seq<int>)
      requires |imageData| == width * height * 4 && AllBytes(imageData)
      ensures Valid()
      ensures this.width == width && this.height == height
      ensures pixels[..] == imageData && fresh(pixels)
    {
      this.width := width;
      this.height := height;
      pixels := new int[|imageData|](k requires 0 <= k < |imageData| => imageData[k]);
    }

    /** `setPixel` at column `x`, row `y` (already rounded): the four stores
        at `(y*width + x)*4`. A store outside the buffer is dropped, as the
        typed array does. */
    method SetPixel(x: int, y: int, r: int, g: int, b: int)
      requires Valid()
      modifies pixels
      ensures Valid()
      ensures pixels[..] == Painted(old(pixels[..]), PixelIndex(x, y, width), r, g, b)
    {
      ghost var before := pixels[..];
      var idx := PixelIndex(x, y, width);
      if 0 <= idx < pixels.Length {
        pixels[idx] := ClampByte(r);
      }
      if 0 <= idx + 1 < pixels.Length {
        pixels[idx + 1] := ClampByte(g);
      }
      if 0 <= idx + 2 < pixels.Length {
        pixels[idx + 2] := ClampByte(b);
      }
      if 0 <= idx + 3 < pixels.Length {
        pixels[idx + 3] := 255;
      }
      assert forall k :: 0 <= k < pixels.Length ==> pixels[k] == PaintedByte(before, k, idx, r, g, b);
      PaintedByBytes(before, pixels[..], idx, r, g, b);
    }

    /** `clear`: the canvas is cleared to transparent black and its image data
        read again, so `pixels` becomes a new all-zero buffer of the same size. */
    method Clear()
      requires Valid()
      modifies this
      ensures Valid()
      ensures fresh(pixels)
      ensures forall k :: 0 <= k < pixels.Length ==> pixels[k] == 0
    {
      pixels := new int[width * height * 4](k => 0);
    }
  }
}
