/** Views of images in foreign memory with a signed row stride, and copying them onto a surface. */
module StridedImage {
  import opened Common
  import opened Pixels
  import opened Raster

  const SIZE_MAX: int := 0xFFFF_FFFF_FFFF_FFFF
  const PTRDIFF_MAX: int := 0x7FFF_FFFF_FFFF_FFFF
  datatype Failure = InvalidArgument | LengthError

  datatype Result<+T> = Made(value: T) | Refused(failure: Failure)

  // An image of pixels of a fixed size in bytes. The storage is so many bytes long; load gives the pixel at an offset.
  datatype View<S> = View(
    storage: nat,
    dimensions: Vec,
    rowZero: nat,
    stride: int,
    pixelBytes: nat,
    load: int -> S)

  function CheckedRowSize(dimensions: Vec, pixelBytes: nat): Result<nat>
    requires 0 < pixelBytes
  {
    if dimensions.x < 0 || dimensions.y < 0 then Refused(InvalidArgument)
    else if dimensions.x > SIZE_MAX / pixelBytes then Refused(LengthError)
    else Made(dimensions.x * pixelBytes)
  }

  function RequiredSize(dimensions: Vec, stride: nat, pixelBytes: nat): Result<nat>
    requires 0 < pixelBytes
  {
    var row := CheckedRowSize(dimensions, pixelBytes);
    if row.Refused? then row
    else if dimensions.y == 0 || row.value == 0 then Made(0)
    else if stride < row.value then Refused(InvalidArgument)
    else if stride > 0 && dimensions.y - 1 > (SIZE_MAX - row.value) / stride then Refused(LengthError)
    else Made((dimensions.y - 1) * stride + row.value)
  }

  function Packed<S>(bytes: nat, dimensions: Vec, pixelBytes: nat, load: int -> S): Result<View<S>>
    requires 0 < pixelBytes
  {
    var row := CheckedRowSize(dimensions, pixelBytes);
    if row.Refused? then Refused(row.failure)
    else if row.value > PTRDIFF_MAX then Refused(LengthError)
    else
      var size := RequiredSize(dimensions, row.value, pixelBytes);
      if size.Refused? then Refused(size.failure)
      else if bytes < size.value then Refused(InvalidArgument)
      else Made(View(bytes, dimensions, 0, row.value, pixelBytes, load))
  }

  function Abs(a: int): nat { if a < 0 then -a else a }

  // The storage begins at the row lowest in memory, which is the last one when the stride is negative.
  function FromRows<S>(present: bool, dimensions: Vec, stride: int, pixelBytes: nat, load: int -> S): Result<View<S>>
    requires 0 < pixelBytes
  {
    if stride == -PTRDIFF_MAX - 1 then Refused(InvalidArgument)
    else
      var size := RequiredSize(dimensions, Abs(stride), pixelBytes);
      if size.Refused? then Refused(size.failure)
      else if size.value > PTRDIFF_MAX then Refused(LengthError)
      else if size.value > 0 && !present then Refused(InvalidArgument)
      else if size.value == 0 then Made(View(0, dimensions, 0, stride, pixelBytes, load))
      else
        var rowZero := if stride < 0 && dimensions.y > 0 then Abs(stride) * (dimensions.y - 1) else 0;
        Made(View(size.value, dimensions, rowZero, stride, pixelBytes, load))
  }

  function PixelOffset<S>(v: View<S>, x: int, y: int): int { v.rowZero + y * v.stride + x * v.pixelBytes }

  predicate Holds<S>(v: View<S>, offset: int) { 0 <= offset && offset + v.pixelBytes <= v.storage }

  // Every pixel of the image lies in the storage.
  ghost predicate Valid<S>(v: View<S>) {
    && 0 < v.pixelBytes && 0 <= v.dimensions.x && 0 <= v.dimensions.y
    && forall x, y :: 0 <= x < v.dimensions.x && 0 <= y < v.dimensions.y ==> Holds(v, PixelOffset(v, x, y))
  }

  lemma QuotientTest(rows: nat, room: nat, stride: nat)
    requires 0 < stride
    ensures rows > room / stride <==> rows * stride > room
  {
    var q := room / stride;
    assert room == q * stride + room % stride;
    Multiples(stride, q, rows);
    if rows <= q { ProductOrder(rows, q, stride); }
  }

  // The overflow tests refuse exactly the sizes that do not fit.
  lemma RequiredSizeIsExact(dimensions: Vec, stride: nat, pixelBytes: nat)
    requires 0 < pixelBytes && 0 < dimensions.x && 0 < dimensions.y
    ensures RequiredSize(dimensions, stride, pixelBytes) ==
            if dimensions.x * pixelBytes > SIZE_MAX then Refused(LengthError)
            else if stride < dimensions.x * pixelBytes then Refused(InvalidArgument)
            else if (dimensions.y - 1) * stride + dimensions.x * pixelBytes > SIZE_MAX then Refused(LengthError)
            else Made((dimensions.y - 1) * stride + dimensions.x * pixelBytes)
  {
    QuotientTest(dimensions.x, SIZE_MAX, pixelBytes);
    ProductOrder(1, dimensions.x, pixelBytes);
    var row := dimensions.x * pixelBytes;
    if row <= SIZE_MAX && row <= stride {
      QuotientTest(dimensions.y - 1, SIZE_MAX - row, stride);
    }
  }

  lemma RowFits(x: int, width: nat, pixelBytes: nat)
    requires 0 <= x < width
    ensures 0 <= x * pixelBytes && x * pixelBytes + pixelBytes <= width * pixelBytes
  {
    ProductOrder(0, x, pixelBytes);
    ProductOrder(x + 1, width, pixelBytes);
    assert (x + 1) * pixelBytes == x * pixelBytes + pixelBytes;
  }

  // Whichever way the rows run, the start of each is a whole number of strides into the storage.
  lemma RowStart(y: int, height: nat, stride: int)
    requires 0 <= y < height
    ensures var rowZero := if stride < 0 then Abs(stride) * (height - 1) else 0;
            0 <= rowZero + y * stride <= (height - 1) * Abs(stride)
  {
    if stride < 0 {
      assert Abs(stride) * (height - 1) + y * stride == (height - 1 - y) * Abs(stride);
      ProductOrder(0, height - 1 - y, Abs(stride));
      ProductOrder(height - 1 - y, height - 1, Abs(stride));
    } else {
      ProductOrder(0, y, stride);
      ProductOrder(y, height - 1, stride);
    }
  }

  lemma FromRowsIsValid<S>(present: bool, dimensions: Vec, stride: int, pixelBytes: nat, load: int -> S)
    requires 0 < pixelBytes && FromRows(present, dimensions, stride, pixelBytes, load).Made?
    ensures Valid(FromRows(present, dimensions, stride, pixelBytes, load).value)
  {
    var v := FromRows(present, dimensions, stride, pixelBytes, load).value;
    forall x, y | 0 <= x < dimensions.x && 0 <= y < dimensions.y ensures Holds(v, PixelOffset(v, x, y)) {
      RequiredSizeIsExact(dimensions, Abs(stride), pixelBytes);
      RowFits(x, dimensions.x, pixelBytes);
      RowStart(y, dimensions.y, stride);
    }
  }

  lemma PackedIsValid<S>(bytes: nat, dimensions: Vec, pixelBytes: nat, load: int -> S)
    requires 0 < pixelBytes && Packed(bytes, dimensions, pixelBytes, load).Made?
    ensures Valid(Packed(bytes, dimensions, pixelBytes, load).value)
  {
    var v := Packed(bytes, dimensions, pixelBytes, load).value;
    forall x, y | 0 <= x < dimensions.x && 0 <= y < dimensions.y ensures Holds(v, PixelOffset(v, x, y)) {
      RequiredSizeIsExact(dimensions, v.stride, pixelBytes);
      RowFits(x, dimensions.x, pixelBytes);
      RowStart(y, dimensions.y, v.stride);
    }
  }

  // Reading a pixel of the storage.
  function Load<S>(v: View<S>, offset: int): S
    requires Holds(v, offset)
  {
    v.load(offset)
  }

  /** Copying. */

  // What the image does to a surface it is placed on.
  ghost function CopyOp<S>(v: View<S>, pos: Vec, op: (S, Pixel) -> Pixel): PixelOp {
    (p: Vec, pixel: Pixel) => op(v.load(PixelOffset(v, p.x - pos.x, p.y - pos.y)), pixel)
  }

  // The source rows and columns that fall on the surface are the clipped rectangle of the image.
  lemma CopyClip(source: Vec, dimensions: Vec, pos: Vec)
    requires 0 <= source.x && 0 <= source.y && 0 <= dimensions.x && 0 <= dimensions.y
    ensures var srcX, srcY, dstX, dstY := Max(0, -pos.x), Max(0, -pos.y), Max(0, pos.x), Max(0, pos.y);
            var width := Min(source.x - srcX, dimensions.x - dstX);
            var height := Min(source.y - srcY, dimensions.y - dstY);
            ClipRect(Rect(pos, source), dimensions) ==
            if width <= 0 || height <= 0 then None
            else Some(Clipped(Vec(dstX, dstY), Vec(dstX + width, dstY + height)))
  {
  }

  lemma OffsetOfRow<S>(v: View<S>, x: int, y: int, rowOffset: int)
    requires rowOffset == v.rowZero + y * v.stride
    ensures PixelOffset(v, x, y) == rowOffset + x * v.pixelBytes
    ensures v.rowZero + (y + 1) * v.stride == rowOffset + v.stride
  {
  }

  method CopyOperation<S>(v: View<S>, dst: array<Pixel>, dimensions: Vec, pos: Vec, op: (S, Pixel) -> Pixel)
    requires Valid(v)
    requires 0 <= dimensions.x && 0 <= dimensions.y && dst.Length == dimensions.x * dimensions.y
    modifies dst
    ensures dimensions.x > 0 ==>
              dst[..] == Painted(old(dst[..]), dimensions.x, Rect(pos, v.dimensions), CopyOp(v, pos, op))
  {
    var srcX, srcY := Max(0, -pos.x), Max(0, -pos.y);
    var dstX, dstY := Max(0, pos.x), Max(0, pos.y);
    var width := Min(v.dimensions.x - srcX, dimensions.x - dstX);
    var height := Min(v.dimensions.y - srcY, dimensions.y - dstY);
    ghost var rect, paint, before := Rect(pos, v.dimensions), CopyOp(v, pos, op), dst[..];
    CopyClip(v.dimensions, dimensions, pos);
    if width <= 0 || height <= 0 {
      if dimensions.x > 0 {
        NothingPainted(before, dimensions, rect, paint);
      }
      return;
    }
    ghost var c := Clipped(Vec(dstX, dstY), Vec(dstX + width, dstY + height));
    var rowOffset := v.rowZero + srcY * v.stride;
    var dstRow := dstY * dimensions.x + dstX;
    StartOfRaster(before, dimensions.x, c, paint);
    var y := 0;
    while y < height
      invariant 0 <= y <= height
      invariant rowOffset == v.rowZero + (srcY + y) * v.stride
      invariant dstRow == (dstY + y) * dimensions.x + dstX
      invariant Progress(dst[..], before, dimensions.x, c, paint, dstRow)
    {
      CopyRow(v, dst, dimensions, pos, op, srcX, srcY + y, width, rowOffset, dstRow, before, c);
      SkipToNextRow(dst[..], before, dimensions.x, c, paint, dstY + y, dstRow);
      OffsetOfRow(v, 0, srcY + y, rowOffset);
      rowOffset := rowOffset + v.stride;
      dstRow := dstRow + dimensions.x;
      y := y + 1;
    }
    RasterComplete(dst[..], before, dimensions, rect, paint, dstRow);
  }

  lemma SkipToNextRow(now: seq<Pixel>, before: seq<Pixel>, width: nat, c: Clipped, op: PixelOp, y: nat, row: int)
    requires 0 <= c.begin.x < c.end.x <= width && row == y * width + c.begin.x
    requires Progress(now, before, width, c, op, row + (c.end.x - c.begin.x))
    ensures row + width == (y + 1) * width + c.begin.x
    ensures Progress(now, before, width, c, op, row + width)
  {
    ProductOrder(0, y, width);
    assert (y + 1) * width == y * width + width;
    forall i | y * width + c.end.x <= i < row + width ensures !InClip(c, At(i, width)) {
      NoneBetween(width, c, y, i);
    }
    ProgressSkips(now, before, width, c, op, y * width + c.end.x, row + width);
  }

  // One row: every source pixel read lies in the storage, every destination pixel on the surface.
  method CopyRow<S>(v: View<S>, dst: array<Pixel>, dimensions: Vec, pos: Vec, op: (S, Pixel) -> Pixel, srcX: nat,
                    srcY: nat, width: nat, rowOffset: int, dstRow: int, ghost before: seq<Pixel>, ghost c: Clipped)
    requires Valid(v) && srcX + width <= v.dimensions.x && srcY < v.dimensions.y
    requires rowOffset == v.rowZero + srcY * v.stride
    requires 0 <= dimensions.y && 0 <= c.begin.x && c.end.x == c.begin.x + width <= dimensions.x
    requires c.begin.y <= pos.y + srcY < c.end.y && 0 <= pos.y + srcY < dimensions.y && c.begin.x == pos.x + srcX
    requires dstRow == (pos.y + srcY) * dimensions.x + c.begin.x && 0 < width
    requires dst.Length == dimensions.x * dimensions.y
    requires Progress(dst[..], before, dimensions.x, c, CopyOp(v, pos, op), dstRow)
    modifies dst
    ensures Progress(dst[..], before, dimensions.x, c, CopyOp(v, pos, op), dstRow + width)
  {
    ghost var y, paint := pos.y + srcY, CopyOp(v, pos, op);
    IndexInSurface(dimensions, 0, y);
    var x, at := 0, dstRow;
    while x < width
      invariant 0 <= x <= width && at == dstRow + x
      invariant Progress(dst[..], before, dimensions.x, c, paint, at)
    {
      ghost var now := dst[..];
      OffsetOfRow(v, srcX + x, srcY, rowOffset);
      var pixel := op(Load(v, rowOffset + (srcX + x) * v.pixelBytes), dst[at]);
      var next := at + 1;
      ProgressStepsTo(now, before, dimensions.x, c, paint, c.begin.x + x, y, at, pixel, next);
      dst[at] := pixel;
      assert dst[..] == now[at := pixel];
      x, at := x + 1, next;
    }
  }
}
