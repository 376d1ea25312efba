/**
  src/shell-screenshot.c: converting the pixels of a premultiplied 32-bit image, little-endian, to separate bytes with
  straight alpha. Both images are byte buffers whose rows lie a stride apart.
 */
module Screenshot {
  import opened Bytes

  // What an unsigned int becomes when stored in a guchar.
  function Truncate(v: nat): byte {
    v % 256
  }

  // A channel value divided by the alpha, rounded to nearest, as a fraction of 255.
  function Straight(c: nat, alpha: nat): nat
    requires alpha > 0
  {
    (c * 255 + alpha / 2) / alpha
  }

  function FromBytes(b0: nat, b1: nat, b2: nat, b3: nat): nat {
    b0 + 0x100 * b1 + 0x1_0000 * b2 + 0x100_0000 * b3
  }

  // The uint32_t at an offset.
  function Word(s: seq<byte>, at: nat): nat
    requires at + 4 <= |s|
  {
    FromBytes(s[at], s[at + 1], s[at + 2], s[at + 3])
  }

  function Alpha(word: nat): nat { word / 0x100_0000 }
  function Red(word: nat): nat { (word / 0x1_0000) % 0x100 }
  function Green(word: nat): nat { (word / 0x100) % 0x100 }
  function Blue(word: nat): nat { word % 0x100 }

  lemma Split(high: nat, low: nat, unit: nat)
    requires low < unit
    ensures (high * unit + low) / unit == high && (high * unit + low) % unit == low
  {
    RowColumn(unit, high, low, high * unit + low);
  }

  // The channels are the bytes.
  lemma Channels(b0: nat, b1: nat, b2: nat, b3: nat)
    requires b0 < 256 && b1 < 256 && b2 < 256 && b3 < 256
    ensures
      var w := FromBytes(b0, b1, b2, b3);
      Blue(w) == b0 && Green(w) == b1 && Red(w) == b2 && Alpha(w) == b3 && w < 0x1_0000_0000
  {
    var high := b2 + 0x100 * b3;
    Split(b3, b0 + 0x100 * b1 + 0x1_0000 * b2, 0x100_0000);
    Split(high, b0 + 0x100 * b1, 0x1_0000);
    Split(b3, b2, 0x100);
    Split(b1 + 0x100 * high, b0, 0x100);
    Split(high, b1, 0x100);
  }

  // A channel without its alpha, as it is stored.
  function Stored(c: nat, alpha: nat): byte {
    if alpha == 0 then 0 else Truncate(Straight(c, alpha))
  }

  // What convert_alpha makes of a pixel: red, green, blue, alpha.
  function AlphaPixel(word: nat): (r: seq<byte>)
    ensures |r| == 4
  {
    var alpha := Alpha(word);
    [Stored(Red(word), alpha), Stored(Green(word), alpha), Stored(Blue(word), alpha), Truncate(alpha)]
  }

  // What convert_no_alpha makes of one.
  function OpaquePixel(word: nat): (r: seq<byte>)
    ensures |r| == 3
  {
    [Truncate(word / 0x1_0000), Truncate(word / 0x100), Truncate(word)]
  }

  // A 32-bit pixel whose colours are at most its alpha.
  predicate Premultiplied(word: nat) {
    word < 0x1_0000_0000 && Red(word) <= Alpha(word) && Green(word) <= Alpha(word) && Blue(word) <= Alpha(word)
  }

  // A straight channel value multiplied by the alpha again, as a fraction of 255, to the nearest number.
  function Premultiply(c: nat, alpha: nat): nat {
    (c * alpha + 127) / 255
  }

  lemma PremultiplyIsNearest(c: nat, alpha: nat)
    ensures -255 < 2 * (255 * Premultiply(c, alpha) - c * alpha) < 255
  {
  }

  lemma StraightBounds(c: nat, alpha: nat)
    requires 0 < alpha
    ensures c * 255 + alpha / 2 - alpha < Straight(c, alpha) * alpha <= c * 255 + alpha / 2
  {
    var n := c * 255 + alpha / 2;
    assert n == alpha * (n / alpha) + n % alpha;
    assert alpha * (n / alpha) == Straight(c, alpha) * alpha;
  }

  // Dividing by the alpha fits in a byte, and multiplying again restores the channel.
  lemma StraightRestores(c: nat, alpha: nat)
    requires 0 < alpha <= 255 && c <= alpha
    ensures Straight(c, alpha) <= 255 && Premultiply(Straight(c, alpha), alpha) == c
  {
    var u := Straight(c, alpha);
    StraightBounds(c, alpha);
    if u > 255 {
      Product(256, u, alpha);
    }
  }

  lemma Product(x: nat, y: nat, z: nat)
    requires x <= y
    ensures x * z <= y * z
  {
  }

  lemma ChannelRestored(c: nat, alpha: nat)
    requires alpha <= 255 && c <= alpha
    ensures Premultiply(Stored(c, alpha), alpha) == c
    ensures alpha > 0 ==> Stored(c, alpha) == Straight(c, alpha)
  {
    if alpha > 0 {
      StraightRestores(c, alpha);
    }
  }

  // Every premultiplied pixel is restored from what it was converted to.
  lemma PixelRestored(word: nat)
    requires Premultiplied(word)
    ensures
      var p := AlphaPixel(word);
      var alpha := p[3];
      && alpha == Alpha(word) && Premultiply(p[0], alpha) == Red(word)
      && Premultiply(p[1], alpha) == Green(word) && Premultiply(p[2], alpha) == Blue(word)
  {
    hide Red, Green, Blue, Stored, Premultiply;
    ChannelRestored(Red(word), Alpha(word));
    ChannelRestored(Green(word), Alpha(word));
    ChannelRestored(Blue(word), Alpha(word));
  }

  // ---------- rows and columns ----------

  function Row(stride: nat, i: nat): nat
    requires stride > 0
  {
    i / stride
  }

  function Column(stride: nat, i: nat): nat
    requires stride > 0
  {
    i % stride
  }

  // Where row y starts.
  function RowStart(stride: nat, y: nat): nat {
    y * stride
  }

  lemma NextRow(stride: nat, y: nat)
    ensures RowStart(stride, 0) == 0 && RowStart(stride, y + 1) == RowStart(stride, y) + stride
  {
  }

  lemma RowColumn(stride: nat, y: nat, k: nat, i: nat)
    requires k < stride
    ensures i == y * stride + k <==> Row(stride, i) == y && Column(stride, i) == k
  {
    assert i == Row(stride, i) * stride + Column(stride, i);
    if i == y * stride + k {
      var r := Row(stride, i);
      if r < y {
        Product(r + 1, y, stride);
      } else if r > y {
        Product(y + 1, r, stride);
      }
    }
  }

  // Row y of an image of this height is within a buffer of `size` bytes if the last row is.
  lemma Within(stride: nat, y: nat, height: nat, row: nat, size: nat)
    requires y < height && RowStart(stride, height - 1) + row <= size
    ensures RowStart(stride, y) + row <= size
  {
    Product(y, height - 1, stride);
  }

  // A source image and the position in it from where pixels are taken.
  datatype Source = Source(bytes: seq<byte>, stride: nat, x: nat, y: nat)

  function Start(stride: nat, x: nat, y: nat): nat {
    stride * y + x * 4
  }

  // The source pixel for column x of row y of the destination.
  function PixelAt(s: Source, y: nat, x: nat): nat {
    var at := Start(s.stride, s.x, s.y) + RowStart(s.stride, y) + 4 * x;
    if at + 4 <= |s.bytes| then Word(s.bytes, at) else 0
  }

  // Bytes of a destination pixel, with and without alpha.
  function Size(alpha: bool): nat {
    if alpha then 4 else 3
  }

  function Pixel(alpha: bool, word: nat): (r: seq<byte>)
    ensures |r| == Size(alpha)
  {
    if alpha then AlphaPixel(word) else OpaquePixel(word)
  }

  // Whether byte i belongs to a pixel of the rows before y or, in row y, to one before x.
  predicate Covered(alpha: bool, stride: nat, width: nat, y: nat, x: nat, i: nat) {
    stride > 0 && Column(stride, i) < Size(alpha) * width
    && (Row(stride, i) < y || (Row(stride, i) == y && Column(stride, i) < Size(alpha) * x))
  }

  /**
    Byte i of the destination after the rows before y, and in row y the pixels before x: that of the pixel it belongs
    to, or what it was.
   */
  function Expected(s: Source, alpha: bool, stride: nat, width: nat, y: nat, x: nat, was: byte, i: nat): byte {
    if Covered(alpha, stride, width, y, x, i) then
      var word := PixelAt(s, Row(stride, i), Column(stride, i) / Size(alpha));
      Pixel(alpha, word)[Column(stride, i) % Size(alpha)]
    else was
  }

  /**
    The whole image: byte c of the pixel in column x of row y is that of the source pixel there, and exactly the bytes
    of such pixels are covered.
   */
  lemma DestinationPixel(s: Source, alpha: bool, stride: nat, width: nat, height: nat, y: nat, x: nat, c: nat,
                         was: byte)
    requires y < height && x < width && c < Size(alpha) && Size(alpha) * width <= stride
    ensures
      var i := Place(alpha, stride, y, x, c);
      && Expected(s, alpha, stride, width, height, 0, was, i) == Pixel(alpha, PixelAt(s, y, x))[c]
      && Covered(alpha, stride, width, height, 0, i)
  {
    hide Row, Column, Size, Pixel, PixelAt;
    SizePositive(alpha, width);
    PixelPlace(Size(alpha), stride, width, y, x, Place(alpha, stride, y, x, c));
  }

  lemma CoveredIsPixel(alpha: bool, stride: nat, width: nat, height: nat, i: nat)
    requires Size(alpha) * width <= stride && Covered(alpha, stride, width, height, 0, i)
    ensures exists y, x, c ::
              0 <= y < height && 0 <= x < width && 0 <= c < Size(alpha) && i == Place(alpha, stride, y, x, c)
  {
    var y, k := Row(stride, i), Column(stride, i);
    var x, c := k / Size(alpha), k % Size(alpha);
    assert k == Size(alpha) * x + c;
    RowColumn(stride, y, k, i);
    assert i == Place(alpha, stride, y, x, c);
  }

  function Place(alpha: bool, stride: nat, y: nat, x: nat, c: nat): nat {
    RowStart(stride, y) + Size(alpha) * x + c
  }

  lemma NothingCovered(s: Source, alpha: bool, stride: nat, width: nat, was: byte, i: nat)
    ensures Expected(s, alpha, stride, width, 0, 0, was, i) == was
  {
  }

  lemma RowCovered(s: Source, alpha: bool, stride: nat, width: nat, y: nat, was: byte, i: nat)
    ensures Expected(s, alpha, stride, width, y, width, was, i) == Expected(s, alpha, stride, width, y + 1, 0, was, i)
  {
  }

  // Where the bytes of pixel x in row y are, and that no other byte of the row comes before x + 1 but not before x.
  lemma PixelPlace(size: nat, stride: nat, width: nat, y: nat, x: nat, i: nat)
    requires x < width && 0 < size && size * width <= stride
    ensures
      var base := RowStart(stride, y) + size * x;
      if base <= i < base + size then
        && Row(stride, i) == y && Column(stride, i) / size == x && Column(stride, i) % size == i - base
        && Column(stride, i) < size * (x + 1) && Column(stride, i) < size * width && Column(stride, i) >= size * x
      else
        Row(stride, i) == y ==> (Column(stride, i) < size * (x + 1) <==> Column(stride, i) < size * x)
  {
    var base := RowStart(stride, y) + size * x;
    Product(x + 1, width, size);
    assert size * (x + 1) == size * x + size;
    if base <= i < base + size {
      RowColumn(stride, y, size * x + (i - base), i);
      Split(x, i - base, size);
    } else if Row(stride, i) == y {
      RowColumn(stride, y, Column(stride, i), i);
    }
  }

  // One more pixel of row y: its bytes are the pixel's, all others are as they were.
  lemma PixelCovered(s: Source, alpha: bool, stride: nat, width: nat, y: nat, x: nat, was: byte, i: nat)
    requires x < width && Size(alpha) * width <= stride
    ensures
      var base := RowStart(stride, y) + Size(alpha) * x;
      Expected(s, alpha, stride, width, y, x + 1, was, i)
      == if base <= i < base + Size(alpha) then Pixel(alpha, PixelAt(s, y, x))[i - base]
         else Expected(s, alpha, stride, width, y, x, was, i)
  {
    hide Row, Column, Size, Pixel, PixelAt;
    SizePositive(alpha, width);
    PixelPlace(Size(alpha), stride, width, y, x, i);
  }

  lemma SizePositive(alpha: bool, width: nat)
    ensures Size(alpha) > 0 && Size(alpha) * width >= width
  {
  }

  // The body of convert_alpha's loops.
  method StorePixel(dest: array<byte>, at: nat, pixel: nat)
    requires at + 4 <= dest.Length
    modifies dest
    ensures forall i :: 0 <= i < dest.Length ==>
              dest[i] == if at <= i < at + 4 then Pixel(true, pixel)[i - at] else old(dest[i])
  {
    hide Truncate, Alpha, Red, Green, Blue;
    var alpha := Alpha(pixel);
    if alpha == 0 {
      dest[at + 0] := 0;
      dest[at + 1] := 0;
      dest[at + 2] := 0;
    } else {
      dest[at + 0] := Truncate((Red(pixel) * 255 + alpha / 2) / alpha);
      dest[at + 1] := Truncate((Green(pixel) * 255 + alpha / 2) / alpha);
      dest[at + 2] := Truncate((Blue(pixel) * 255 + alpha / 2) / alpha);
    }
    dest[at + 3] := Truncate(alpha);
    AlphaPixelIs(pixel);
  }

  // convert_alpha
  method ConvertAlpha(dest: array<byte>, destStride: nat, src: array<byte>, srcStride: nat, srcX: nat, srcY: nat,
                      width: nat, height: nat)
    requires dest != src && 4 * width <= destStride
    requires width > 0 && height > 0 ==>
               RowStart(destStride, height - 1) + 4 * width <= dest.Length
               && Start(srcStride, srcX, srcY) + RowStart(srcStride, height - 1) + 4 * width <= src.Length
    modifies dest
    ensures
      var s := Source(src[..], srcStride, srcX, srcY);
      forall i :: 0 <= i < dest.Length ==>
        dest[i] == Expected(s, true, destStride, width, height, 0, old(dest[i]), i)
  {
    hide Expected, Covered, PixelAt, Pixel, RowStart, Start, Word;
    ghost var s := Source(src[..], srcStride, srcX, srcY);
    ghost var was := dest[..];
    var srcAt := Start(srcStride, srcX, srcY);
    var destAt := 0;
    var y := 0;
    NextRow(destStride, 0);
    NextRow(srcStride, 0);
    forall i | 0 <= i < dest.Length
      ensures dest[i] == Expected(s, true, destStride, width, 0, 0, was[i], i)
    {
      NothingCovered(s, true, destStride, width, was[i], i);
    }
    while y < height
      invariant 0 <= y <= height && destAt == RowStart(destStride, y)
      invariant srcAt == Start(srcStride, srcX, srcY) + RowStart(srcStride, y)
      invariant forall i :: 0 <= i < dest.Length ==>
                  dest[i] == Expected(s, true, destStride, width, y, 0, was[i], i)
    {
      var x := 0;
      while x < width
        invariant 0 <= x <= width
        invariant forall i :: 0 <= i < dest.Length ==>
                    dest[i] == Expected(s, true, destStride, width, y, x, was[i], i)
      {
        Within(destStride, y, height, 4 * width, dest.Length);
        Within(srcStride, y, height, Start(srcStride, srcX, srcY) + 4 * width, src.Length);
        ghost var before := dest[..];
        WordIsPixel(s, y, x);
        StorePixel(dest, destAt + x * 4, Word(src[..], srcAt + 4 * x));
        forall i | 0 <= i < dest.Length
          ensures dest[i] == Expected(s, true, destStride, width, y, x + 1, was[i], i)
        {
          PixelCovered(s, true, destStride, width, y, x, was[i], i);
        }
        x := x + 1;
      }
      forall i | 0 <= i < dest.Length
        ensures dest[i] == Expected(s, true, destStride, width, y + 1, 0, was[i], i)
      {
        RowCovered(s, true, destStride, width, y, was[i], i);
      }
      NextRow(srcStride, y);
      NextRow(destStride, y);
      srcAt := srcAt + srcStride;
      destAt := destAt + destStride;
      y := y + 1;
    }
  }

  lemma WordIsPixel(s: Source, y: nat, x: nat)
    ensures
      var at := Start(s.stride, s.x, s.y) + RowStart(s.stride, y) + 4 * x;
      at + 4 <= |s.bytes| ==> PixelAt(s, y, x) == Word(s.bytes, at)
  {
  }

  lemma AlphaPixelIs(word: nat)
    ensures
      var alpha := Alpha(word);
      && Pixel(true, word)[3] == Truncate(alpha)
      && Pixel(true, word)[0] == (if alpha == 0 then 0 else Truncate((Red(word) * 255 + alpha / 2) / alpha))
      && Pixel(true, word)[1] == (if alpha == 0 then 0 else Truncate((Green(word) * 255 + alpha / 2) / alpha))
      && Pixel(true, word)[2] == (if alpha == 0 then 0 else Truncate((Blue(word) * 255 + alpha / 2) / alpha))
  {
  }

  // convert_no_alpha
  method ConvertNoAlpha(dest: array<byte>, destStride: nat, src: array<byte>, srcStride: nat, srcX: nat, srcY: nat,
                        width: nat, height: nat)
    requires dest != src && 3 * width <= destStride
    requires width > 0 && height > 0 ==>
               RowStart(destStride, height - 1) + 3 * width <= dest.Length
               && Start(srcStride, srcX, srcY) + RowStart(srcStride, height - 1) + 4 * width <= src.Length
    modifies dest
    ensures
      var s := Source(src[..], srcStride, srcX, srcY);
      forall i :: 0 <= i < dest.Length ==>
        dest[i] == Expected(s, false, destStride, width, height, 0, old(dest[i]), i)
  {
    hide Expected, Covered, PixelAt, RowStart, Start, Word;
    ghost var s := Source(src[..], srcStride, srcX, srcY);
    ghost var was := dest[..];
    var srcAt := Start(srcStride, srcX, srcY);
    var destAt := 0;
    var y := 0;
    NextRow(destStride, 0);
    NextRow(srcStride, 0);
    forall i | 0 <= i < dest.Length
      ensures dest[i] == Expected(s, false, destStride, width, 0, 0, was[i], i)
    {
      NothingCovered(s, false, destStride, width, was[i], i);
    }
    while y < height
      invariant 0 <= y <= height && destAt == RowStart(destStride, y)
      invariant srcAt == Start(srcStride, srcX, srcY) + RowStart(srcStride, y)
      invariant forall i :: 0 <= i < dest.Length ==>
                  dest[i] == Expected(s, false, destStride, width, y, 0, was[i], i)
    {
      var x := 0;
      while x < width
        invariant 0 <= x <= width
        invariant forall i :: 0 <= i < dest.Length ==>
                    dest[i] == Expected(s, false, destStride, width, y, x, was[i], i)
      {
        Within(destStride, y, height, 3 * width, dest.Length);
        Within(srcStride, y, height, Start(srcStride, srcX, srcY) + 4 * width, src.Length);
        var pixel := Word(src[..], srcAt + 4 * x);
        WordIsPixel(s, y, x);
        dest[destAt + x * 3 + 0] := Truncate(pixel / 0x1_0000);
        dest[destAt + x * 3 + 1] := Truncate(pixel / 0x100);
        dest[destAt + x * 3 + 2] := Truncate(pixel);
        forall i | 0 <= i < dest.Length
          ensures dest[i] == Expected(s, false, destStride, width, y, x + 1, was[i], i)
        {
          PixelCovered(s, false, destStride, width, y, x, was[i], i);
        }
        x := x + 1;
      }
      forall i | 0 <= i < dest.Length
        ensures dest[i] == Expected(s, false, destStride, width, y + 1, 0, was[i], i)
      {
        RowCovered(s, false, destStride, width, y, was[i], i);
      }
      NextRow(srcStride, y);
      NextRow(destStride, y);
      srcAt := srcAt + srcStride;
      destAt := destAt + destStride;
      y := y + 1;
    }
  }

  // Without alpha the colours are copied.
  lemma OpaqueColours(word: nat)
    requires word < 0x1_0000_0000
    ensures OpaquePixel(word) == [Red(word), Green(word), Blue(word)]
  {
  }
}
