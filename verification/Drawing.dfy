/** Which pixels drawing touches, and from which bytes of an image it reads. */
module Drawing {
  import opened Common
  import opened Pixels
  import opened Raster
  import opened StridedImage
  import opened Surface

  // A surface holds its rows one after the other, and a change of a rectangle concerns the pixels in it alone.
  lemma PixelIsPainted(before: seq<Pixel>, width: nat, rect: Rect, op: PixelOp, x: nat, y: nat, i: nat)
    requires x < width && i == y * width + x && i < |before|
    ensures Painted(before, width, rect, op)[i] ==
            if rect.pos.x <= x < rect.pos.x + rect.size.x && rect.pos.y <= y < rect.pos.y + rect.size.y
            then op(Vec(x, y), before[i]) else before[i]
  {
    IndexIsAt(width, x, y);
  }

  // An image drawn at a position covers as many pixels from there as it has, each by its own one.
  lemma ImageIsCopied<S(!new)>(v: View<S>, pos: Vec, op: (S, Pixel) -> Pixel, before: seq<Pixel>, width: nat,
                               x: nat, y: nat, i: nat, column: int, row: int)
    requires x < width && i == y * width + x && i < |before|
    requires x == pos.x + column && y == pos.y + row
    ensures Painted(before, width, Rect(pos, v.dimensions), CopyOp(v, pos, op))[i] ==
            if 0 <= column < v.dimensions.x && 0 <= row < v.dimensions.y
            then op(v.load(PixelOffset(v, column, row)), before[i]) else before[i]
  {
    PixelIsPainted(before, width, Rect(pos, v.dimensions), CopyOp(v, pos, op), x, y, i);
  }

  // With a positive stride the rows lie in memory from the first to the last, with a negative one from the last to the
  // first; in a row the pixels follow each other.
  lemma RowsInMemory<S>(present: bool, dimensions: Vec, stride: int, pixelBytes: nat, load: int -> S, v: View<S>,
                        x: nat, y: nat, before: nat)
    requires 0 < pixelBytes && FromRows(present, dimensions, stride, pixelBytes, load) == Made(v)
    requires x < dimensions.x && y < dimensions.y
    requires before == if stride < 0 then dimensions.y - 1 - y else y
    ensures PixelOffset(v, x, y) == before * Abs(stride) + x * pixelBytes
    ensures v.dimensions == dimensions && v.storage == (dimensions.y - 1) * Abs(stride) + dimensions.x * pixelBytes
  {
    RequiredSizeIsExact(dimensions, Abs(stride), pixelBytes);
    ProductOrder(1, dimensions.x, pixelBytes);
    if stride < 0 {
      assert Abs(stride) * (dimensions.y - 1) + y * stride == (dimensions.y - 1 - y) * Abs(stride);
    }
  }

  // Two pixels of an image share no byte.
  lemma PixelsLieApart<S>(present: bool, dimensions: Vec, stride: int, pixelBytes: nat, load: int -> S, v: View<S>,
                          a: Vec, b: Vec)
    requires 0 < pixelBytes && FromRows(present, dimensions, stride, pixelBytes, load) == Made(v)
    requires InSurface(dimensions, a) && InSurface(dimensions, b) && a != b
    ensures PixelOffset(v, a.x, a.y) + pixelBytes <= PixelOffset(v, b.x, b.y)
            || PixelOffset(v, b.x, b.y) + pixelBytes <= PixelOffset(v, a.x, a.y)
  {
    var first := if stride < 0 then dimensions.y - 1 - a.y else a.y;
    var second := if stride < 0 then dimensions.y - 1 - b.y else b.y;
    RowsInMemory(present, dimensions, stride, pixelBytes, load, v, a.x, a.y, first);
    RowsInMemory(present, dimensions, stride, pixelBytes, load, v, b.x, b.y, second);
    RequiredSizeIsExact(dimensions, Abs(stride), pixelBytes);
    ProductOrder(1, dimensions.x, pixelBytes);
    PlacesLieApart(first, a.x, second, b.x, Abs(stride), dimensions.x, pixelBytes);
  }

  lemma PlacesLieApart(row: nat, x: nat, otherRow: nat, otherX: nat, stride: nat, width: nat, size: nat)
    requires x < width && otherX < width && width * size <= stride && (row != otherRow || x != otherX)
    ensures row * stride + x * size + size <= otherRow * stride + otherX * size
            || otherRow * stride + otherX * size + size <= row * stride + x * size
  {
    if row < otherRow || (row == otherRow && x < otherX) {
      EarlierPlace(row, x, otherRow, otherX, stride, width, size);
    } else {
      EarlierPlace(otherRow, otherX, row, x, stride, width, size);
    }
  }

  lemma EarlierPlace(row: nat, x: nat, otherRow: nat, otherX: nat, stride: nat, width: nat, size: nat)
    requires x < width && otherX < width && width * size <= stride
    requires row < otherRow || (row == otherRow && x < otherX)
    ensures row * stride + x * size + size <= otherRow * stride + otherX * size
  {
    assert (x + 1) * size == x * size + size;
    if row == otherRow {
      ProductOrder(x + 1, otherX, size);
    } else {
      ProductOrder(x + 1, width, size);
      ProductOrder(row + 1, otherRow, stride);
      assert (row + 1) * stride == row * stride + stride;
    }
  }

  // The square of a line's point reaches half the thickness to every side, an odd pixel more to the right and below.
  lemma BrushIsCentred(p: Vec, thickness: nat, q: Vec)
    requires 0 < thickness
    ensures InRect(Brush(p, thickness), q)
            <==> -((thickness - 1) / 2) <= q.x - p.x <= thickness / 2
                 && -((thickness - 1) / 2) <= q.y - p.y <= thickness / 2
  {
  }

  // A border has the pixels of the rectangle that are nearer to one of its edges than the thickness.
  lemma BorderIsNearEdges(rect: Rect, thickness: nat, p: Vec)
    requires 0 < thickness && InRect(rect, p)
    ensures InFrame(rect, thickness, p)
            <==> p.x - rect.pos.x < thickness || rect.pos.x + rect.size.x - 1 - p.x < thickness
                 || p.y - rect.pos.y < thickness || rect.pos.y + rect.size.y - 1 - p.y < thickness
  {
  }

  // Everything a rectangle holds gets the colour of a fill, and nothing else changes.
  lemma FillColours(before: seq<Pixel>, width: nat, rect: Rect, color: Pixel, x: nat, y: nat, i: nat)
    requires x < width && i == y * width + x && i < |before|
    ensures Painted(before, width, rect, FillOp(color))[i] == if InRect(rect, Vec(x, y)) then color else before[i]
  {
    PixelIsPainted(before, width, rect, FillOp(color), x, y, i);
  }
}
