/** The per-pixel colour of the colour-cubes pattern and the loop that fills
    one chunk of the RGBA float output buffer with it. */
module Render {
  import opened Palette
  import opened Geometry

  /** The colour generated for the pixel at absolute position (px, py): a
      palette colour chosen from the seed and the pixel's cell when the pixel
      lies inside its cube, the background otherwise. */
  function PixelColour(p: Params, px: real, py: real): (c: Rgba)
    requires ValidParams(p)
    ensures c.a == 1.0 && InUnitRange(c)
    ensures c == Background <==> !InteriorAt(p, px, py)
  {
    PaletteWellFormed();
    if InteriorAt(p, px, py) then
      Opaque(Colours[ColourIndex(p.seed, GridCell(p, px), GridCell(p, py))])
    else
      Background
  }

  /** Two interior pixels of the same cell get the same colour, whatever their
      position inside it: the colour of a cube depends on the seed and the cell
      index only. */
  lemma SameCellSameColour(p: Params, px: real, py: real, qx: real, qy: real)
    requires ValidParams(p)
    requires InteriorAt(p, px, py) && InteriorAt(p, qx, qy)
    requires GridCell(p, px) == GridCell(p, qx) && GridCell(p, py) == GridCell(p, qy)
    ensures PixelColour(p, px, py) == PixelColour(p, qx, qy)
  {
  }

  // ----- The output buffer of one chunk -----

  /** The first of the four slots of pixel (x, y) in a chunk `width` pixels
      wide, plus channel k. */
  function SlotIndex(width: nat, x: nat, y: nat, k: nat): (i: nat)
    ensures k < 4 ==> i / 4 == y * width + x && i % 4 == k
  {
    (y * width + x) * 4 + k
  }

  /** The values of the first x pixels of chunk row y, four channels per
      pixel, in the order the buffer stores them. */
  function RowPrefix(p: Params, roiX: int, roiY: int, y: nat, x: nat): (s: seq<real>)
    requires ValidParams(p)
    ensures |s| == 4 * x
  {
    if x == 0 then []
    else RowPrefix(p, roiX, roiY, y, x - 1)
         + Channels(PixelColour(p, (x - 1 + roiX) as real, (y + roiY) as real))
  }

  /** The first `rows` rows of a chunk `width` pixels wide. */
  function Rows(p: Params, roiX: int, roiY: int, width: nat, rows: nat): seq<real>
    requires ValidParams(p)
  {
    if rows == 0 then []
    else Rows(p, roiX, roiY, width, rows - 1) + RowPrefix(p, roiX, roiY, rows - 1, width)
  }

  /** The first `rows` rows hold four values per pixel. */
  lemma {:induction false} RowsLength(p: Params, roiX: int, roiY: int, width: nat, rows: nat)
    requires ValidParams(p)
    ensures |Rows(p, roiX, roiY, width, rows)| == rows * width * 4
  {
    if rows > 0 {
      RowsLength(p, roiX, roiY, width, rows - 1);
      NextRow(rows - 1, width);
    }
  }

  lemma NextRow(y: nat, width: nat)
    ensures (y + 1) * width * 4 == y * width * 4 + 4 * width
  {
  }

  /** The whole chunk buffer, row by row, four channels per pixel. */
  function ChunkBuffer(p: Params, roiX: int, roiY: int, width: nat, height: nat): (b: seq<real>)
    requires ValidParams(p)
    ensures |b| == width * height * 4
  {
    RowsLength(p, roiX, roiY, width, height);
    Rows(p, roiX, roiY, width, height)
  }

  lemma MulAtLeast(a: int, d: int)
    requires a >= 1 && d > 0
    ensures a * d >= d
  {
  }

  /** n = q * d + r with 0 <= r < d determines the quotient and the remainder. */
  lemma {:induction false} DivModUnique(n: int, d: int, q: int, r: int)
    requires d > 0 && 0 <= r < d && n == q * d + r
    ensures n / d == q && n % d == r
  {
    var q', r' := n / d, n % d;
    assert n == q' * d + r';
    assert (q' - q) * d == r - r';
    if q' > q {
      MulAtLeast(q' - q, d);
    } else if q' < q {
      MulAtLeast(q - q', d);
    }
  }

  /** Inside a chunk, the slots of a pixel fall in the buffer and decode back to
      the pixel's column, row and channel. */
  lemma {:induction false} SlotDecompose(width: nat, height: nat, x: nat, y: nat, k: nat)
    requires x < width && y < height && k < 4
    ensures SlotIndex(width, x, y, k) < width * height * 4
    ensures SlotIndex(width, x, y, k) / 4 == y * width + x
    ensures SlotIndex(width, x, y, k) % 4 == k
    ensures (y * width + x) % width == x && (y * width + x) / width == y
  {
    var m := y * width + x;
    assert m < (y + 1) * width;
    assert (y + 1) * width <= height * width;
    DivModUnique(SlotIndex(width, x, y, k), 4, m, k);
    DivModUnique(m, width, y, x);
  }

  /** Every slot of the buffer belongs to some pixel of the chunk. */
  lemma {:induction false} SlotCovered(width: nat, height: nat, i: nat)
    requires i < width * height * 4
    ensures width > 0
    ensures (i / 4) % width < width && (i / 4) / width < height && i % 4 < 4
    ensures SlotIndex(width, (i / 4) % width, (i / 4) / width, i % 4) == i
  {
    var m := i / 4;
    assert m < width * height;
    assert width > 0;
    var y := m / width;
    assert m == y * width + m % width;
  }

  /** Distinct (column, row, channel) triples of a chunk use distinct slots. */
  lemma SlotsDisjoint(width: nat, height: nat, x1: nat, y1: nat, k1: nat, x2: nat, y2: nat, k2: nat)
    requires x1 < width && y1 < height && k1 < 4
    requires x2 < width && y2 < height && k2 < 4
    requires SlotIndex(width, x1, y1, k1) == SlotIndex(width, x2, y2, k2)
    ensures x1 == x2 && y1 == y2 && k1 == k2
  {
    SlotDecompose(width, height, x1, y1, k1);
    SlotDecompose(width, height, x2, y2, k2);
  }

  /** Within a row prefix, slot 4 * x' + k holds channel k of pixel x' of the row. */
  lemma {:induction false} RowPrefixAt(p: Params, roiX: int, roiY: int, y: nat, x: nat, x': nat, k: nat)
    requires ValidParams(p)
    requires x' < x && k < 4
    ensures 4 * x' + k < 4 * x
    ensures RowPrefix(p, roiX, roiY, y, x)[4 * x' + k]
         == Channel(PixelColour(p, (x' + roiX) as real, (y + roiY) as real), k)
  {
    if x' < x - 1 {
      RowPrefixAt(p, roiX, roiY, y, x - 1, x', k);
    }
  }

  /** Within the first `rows` rows, slot k of pixel (x, y) holds channel k of
      that pixel's colour. */
  lemma {:induction false} RowsAt(p: Params, roiX: int, roiY: int, width: nat, rows: nat, x: nat, y: nat, k: nat)
    requires ValidParams(p)
    requires x < width && y < rows && k < 4
    ensures |Rows(p, roiX, roiY, width, rows)| == rows * width * 4
    ensures SlotIndex(width, x, y, k) < rows * width * 4
    ensures Rows(p, roiX, roiY, width, rows)[SlotIndex(width, x, y, k)]
         == Channel(PixelColour(p, (x + roiX) as real, (y + roiY) as real), k)
  {
    SlotDecompose(width, rows, x, y, k);
    RowsLength(p, roiX, roiY, width, rows);
    RowsLength(p, roiX, roiY, width, rows - 1);
    NextRow(rows - 1, width);
    assert SlotIndex(width, x, y, k) == y * width * 4 + (4 * x + k);
    if y < rows - 1 {
      SlotDecompose(width, rows - 1, x, y, k);
      RowsAt(p, roiX, roiY, width, rows - 1, x, y, k);
    } else {
      RowPrefixAt(p, roiX, roiY, y, width, x, k);
    }
  }

  /** Channel k of pixel (x, y) of the chunk is channel k of the colour of the
      absolute pixel (x + roiX, y + roiY). */
  lemma ChunkBufferAt(p: Params, roiX: int, roiY: int, width: nat, height: nat, x: nat, y: nat, k: nat)
    requires ValidParams(p)
    requires x < width && y < height && k < 4
    ensures SlotIndex(width, x, y, k) < width * height * 4
    ensures ChunkBuffer(p, roiX, roiY, width, height)[SlotIndex(width, x, y, k)]
         == Channel(PixelColour(p, (x + roiX) as real, (y + roiY) as real), k)
  {
    RowsAt(p, roiX, roiY, width, height, x, y, k);
  }

  /** Chunked rendering is consistent: two chunks of any origin and size that
      both contain the same absolute pixel hold the same value for it. */
  lemma ChunkIndependence(p: Params,
                          roiX1: int, roiY1: int, width1: nat, height1: nat, x1: nat, y1: nat,
                          roiX2: int, roiY2: int, width2: nat, height2: nat, x2: nat, y2: nat,
                          k: nat)
    requires ValidParams(p)
    requires x1 < width1 && y1 < height1 && x2 < width2 && y2 < height2 && k < 4
    requires x1 + roiX1 == x2 + roiX2 && y1 + roiY1 == y2 + roiY2
    ensures SlotIndex(width1, x1, y1, k) < width1 * height1 * 4
    ensures SlotIndex(width2, x2, y2, k) < width2 * height2 * 4
    ensures ChunkBuffer(p, roiX1, roiY1, width1, height1)[SlotIndex(width1, x1, y1, k)]
         == ChunkBuffer(p, roiX2, roiY2, width2, height2)[SlotIndex(width2, x2, y2, k)]
  {
    ChunkBufferAt(p, roiX1, roiY1, width1, height1, x1, y1, k);
    ChunkBufferAt(p, roiX2, roiY2, width2, height2, x2, y2, k);
  }

  /** A chunk of one pixel holds exactly the four channels of that pixel's colour. */
  lemma SinglePixelChunk(p: Params, roiX: int, roiY: int)
    requires ValidParams(p)
    ensures ChunkBuffer(p, roiX, roiY, 1, 1) == Channels(PixelColour(p, roiX as real, roiY as real))
  {
    assert Rows(p, roiX, roiY, 1, 1) == RowPrefix(p, roiX, roiY, 0, 1);
  }

  /** Every value of a chunk is a normalised channel, and every alpha slot holds 1. */
  lemma ChunkOpaque(p: Params, roiX: int, roiY: int, width: nat, height: nat)
    requires ValidParams(p)
    ensures var b := ChunkBuffer(p, roiX, roiY, width, height);
      forall i :: 0 <= i < |b| ==> 0.0 <= b[i] <= 1.0 && (i % 4 == 3 ==> b[i] == 1.0)
  {
    var b := ChunkBuffer(p, roiX, roiY, width, height);
    forall i | 0 <= i < |b|
      ensures 0.0 <= b[i] <= 1.0 && (i % 4 == 3 ==> b[i] == 1.0)
    {
      SlotOpaque(p, roiX, roiY, width, height, i);
    }
  }

  /** One slot of a chunk holds a normalised channel, and 1 when it is an alpha slot. */
  lemma SlotOpaque(p: Params, roiX: int, roiY: int, width: nat, height: nat, i: nat)
    requires ValidParams(p)
    requires i < width * height * 4
    ensures var b := ChunkBuffer(p, roiX, roiY, width, height);
      0.0 <= b[i] <= 1.0 && (i % 4 == 3 ==> b[i] == 1.0)
  {
    SlotCovered(width, height, i);
    var x, y, k := (i / 4) % width, (i / 4) / width, i % 4;
    ChunkBufferAt(p, roiX, roiY, width, height, x, y, k);
    var c := PixelColour(p, (x + roiX) as real, (y + roiY) as real);
    assert InUnitRange(c) && c.a == 1.0;
  }

  /** The colour of one pixel as the loop body computes it: offset from the
      centre of its cell, rotation, strict interior test, and for an interior
      pixel the palette entry the 32-bit hash of seed and cell selects. */
  method ShadePixel(p: Params, pixelX: real, pixelY: real) returns (colour: Rgba)
    requires ValidParams(p)
    ensures colour == PixelColour(p, pixelX, pixelY)
  {
    var (rotatedDx, rotatedDy) := Rotate(p, Offset(p, pixelX), Offset(p, pixelY));
    if Interior(p, rotatedDx, rotatedDy) {
      var ix := GridCell(p, pixelX);
      var iy := GridCell(p, pixelY);
      var hash := HashAsWritten(p.seed, ix, iy);
      var colourIdx := (hash % NumColours + NumColours) % NumColours;
      ColourIndexAsWritten(p.seed, ix, iy);
      var c := Colours[colourIdx];
      colour := Rgba(c.r, c.g, c.b, 1.0);
    } else {
      colour := Rgba(0.0, 0.0, 0.0, 1.0);
    }
  }

  /** Fills one chunk of the output buffer. Pixel (x, y) of the chunk is the
      absolute pixel (x + roiX, y + roiY); its four channels go to slots
      (y * width + x) * 4 + 0 .. 3, written row by row and pixel by pixel. */
  method Process(p: Params, roiX: int, roiY: int, width: nat, height: nat, outData: array<real>)
    requires ValidParams(p)
    requires outData.Length == width * height * 4
    modifies outData
    ensures outData[..] == ChunkBuffer(p, roiX, roiY, width, height)
  {
    var y := 0;
    while y < height
      invariant 0 <= y <= height
      invariant y * width * 4 <= outData.Length
      invariant outData[..y * width * 4] == Rows(p, roiX, roiY, width, y)
    {
      ProcessRow(p, roiX, roiY, width, height, y, outData, Rows(p, roiX, roiY, width, y));
      NextRow(y, width);
      y := y + 1;
    }
    ChunkLength(width, height);
    assert outData[..] == outData[..y * width * 4];
  }

  /** The inner loop of Process: fills row y of the chunk, after the rows
      above it, which hold `done`. */
  method ProcessRow(p: Params, roiX: int, roiY: int, width: nat, height: nat, y: nat,
                    outData: array<real>, ghost done: seq<real>)
    requires ValidParams(p)
    requires y < height && outData.Length == width * height * 4
    requires outData[..y * width * 4] == done
    modifies outData
    ensures y * width * 4 + 4 * width <= outData.Length
    ensures outData[..y * width * 4 + 4 * width] == done + RowPrefix(p, roiX, roiY, y, width)
    ensures forall j :: y * width * 4 + 4 * width <= j < outData.Length ==> outData[j] == old(outData[j])
  {
    RowInBounds(width, height, y);
    var rowStart := y * width * 4;
    var x := 0;
    while x < width
      invariant 0 <= x <= width
      invariant outData[..rowStart + 4 * x] == done + RowPrefix(p, roiX, roiY, y, x)
      invariant forall j :: rowStart + 4 * x <= j < outData.Length ==> outData[j] == old(outData[j])
    {
      FillPixel(p, roiX, roiY, width, y, x, rowStart + 4 * x, outData, done);
      x := x + 1;
    }
  }

  /** The body of the inner loop of Process: shades pixel (x, y) of the chunk
      and stores it at its slot n = (y * width + x) * 4, extending the filled
      prefix `done` + the first x pixels of row y by that pixel. */
  method FillPixel(p: Params, roiX: int, roiY: int, width: nat, y: nat, x: nat, n: nat,
                   outData: array<real>, ghost done: seq<real>)
    requires ValidParams(p)
    requires n == y * width * 4 + 4 * x && n + 4 <= outData.Length
    requires outData[..n] == done + RowPrefix(p, roiX, roiY, y, x)
    modifies outData
    ensures outData[..n + 4] == done + RowPrefix(p, roiX, roiY, y, x + 1)
    ensures forall j :: n + 4 <= j < outData.Length ==> outData[j] == old(outData[j])
  {
    var pixelIdx := (y * width + x) * 4;
    SlotOfPixel(width, x, y);
    var pixelX := (x + roiX) as real;
    var pixelY := (y + roiY) as real;

    var colour := ShadePixel(p, pixelX, pixelY);
    ghost var before := outData[..];
    StorePixel(outData, pixelIdx, colour);
    PixelStep(p, roiX, roiY, y, x, pixelIdx, colour, done, before, outData[..]);
  }

  /** Writes the four channels of a colour at slots n .. n + 3. */
  method StorePixel(outData: array<real>, n: nat, colour: Rgba)
    requires n + 4 <= outData.Length
    modifies outData
    ensures outData[..] == old(outData[..])[n := colour.r][n + 1 := colour.g][n + 2 := colour.b][n + 3 := colour.a]
  {
    outData[n + 0] := colour.r;
    outData[n + 1] := colour.g;
    outData[n + 2] := colour.b;
    outData[n + 3] := colour.a;
  }

  lemma SlotOfPixel(width: nat, x: nat, y: nat)
    ensures 0 <= y * width
    ensures (y * width + x) * 4 == y * width * 4 + 4 * x
  {
  }

  lemma ChunkLength(width: nat, height: nat)
    ensures height * width * 4 == width * height * 4
  {
  }

  /** Row y of a chunk `height` rows high ends inside the buffer. */
  lemma RowInBounds(width: nat, height: nat, y: nat)
    requires y < height
    ensures 0 <= y * width
    ensures y * width * 4 + 4 * width <= width * height * 4
  {
    NextRow(y, width);
    assert (y + 1) * width <= height * width;
  }

  /** One pass of the inner loop body: writing the colour of pixel x of row y
      at slot n extends the filled prefix of the buffer by that pixel. */
  lemma PixelStep(p: Params, roiX: int, roiY: int, y: nat, x: nat, n: nat, colour: Rgba,
                  done: seq<real>, before: seq<real>, after: seq<real>)
    requires ValidParams(p)
    requires n + 4 <= |before| == |after|
    requires before[..n] == done + RowPrefix(p, roiX, roiY, y, x)
    requires colour == PixelColour(p, (x + roiX) as real, (y + roiY) as real)
    requires after == before[n := colour.r][n + 1 := colour.g][n + 2 := colour.b][n + 3 := colour.a]
    ensures after[..n + 4] == done + RowPrefix(p, roiX, roiY, y, x + 1)
  {
    assert after[..n + 4] == before[..n] + Channels(colour);
    AppendPixel(done, p, roiX, roiY, y, x);
  }

  /** Appending pixel x to a row prefix that follows the rows before it. */
  lemma AppendPixel(rows: seq<real>, p: Params, roiX: int, roiY: int, y: nat, x: nat)
    requires ValidParams(p)
    ensures rows + RowPrefix(p, roiX, roiY, y, x + 1)
         == rows + RowPrefix(p, roiX, roiY, y, x)
            + Channels(PixelColour(p, (x + roiX) as real, (y + roiY) as real))
  {
  }

  // ----- Worked examples with the default cube size and spacing -----

  /** Cube size 30, spacing 1.2 (pitch 36), no rotation, seed 0. */
  function Defaults(): (p: Params)
    ensures ValidParams(p) && GridSize(p) == 36.0
  {
    Params(30.0, 1.2, 1.0, 0.0, 0)
  }

  /** Pixel (18, 18) is the centre of cell (0, 0); with seed 0 the hash is 0,
      the index 0, and the pixel is opaque red. */
  lemma CellCentreIsRed()
    ensures PixelColour(Defaults(), 18.0, 18.0) == Rgba(1.0, 0.0, 0.0, 1.0)
  {
    var p := Defaults();
    CellUnique(p, 18.0, 0);
    assert Offset(p, 18.0) == 0.0;
    OriginCellIsFirst();
  }

  /** Pixel (0, 0) lies 18 from its centre on both axes, beyond the half cube
      size 15, and is background. */
  lemma CellCornerIsBackground()
    ensures PixelColour(Defaults(), 0.0, 0.0) == Background
  {
    var p := Defaults();
    CellUnique(p, 0.0, 0);
    assert Offset(p, 0.0) == -18.0;
  }

  /** A one-pixel chunk at (18, 18) holds red, opaque. */
  lemma CentreChunk()
    ensures ChunkBuffer(Defaults(), 18, 18, 1, 1) == [1.0, 0.0, 0.0, 1.0]
  {
    SinglePixelChunk(Defaults(), 18, 18);
    CellCentreIsRed();
  }

  /** Pixel (32, 32) lies at offset (14, 14) from the centre of cell (0, 0);
      without rotation it is inside the cube, red for seed 0. */
  lemma CornerInsideUnrotated()
    ensures PixelColour(Defaults(), 32.0, 32.0) == Rgba(1.0, 0.0, 0.0, 1.0)
  {
    var p := Defaults();
    DefaultCornerOffset();
    RotateByZero(p, 14.0, 14.0);
    assert InteriorAt(p, 32.0, 32.0);
    OriginCellIsFirst();
  }

  /** Coordinate 32 lies in cell 0 of the default lattice, 14 above its centre. */
  lemma DefaultCornerOffset()
    ensures GridCell(Defaults(), 32.0) == 0 && Offset(Defaults(), 32.0) == 14.0
  {
    var p := Defaults();
    CellUnique(p, 32.0, 0);
    assert Centre(p, 32.0) == 18.0;
  }

  /** Rotated by 45 degrees (cosine equal to sine, squares summing to 1) the
      same offset (14, 14) lands 28 * cos 45 > 15 from the centre on the second
      axis, so pixel (32, 32) becomes background. */
  lemma CornerOutsideRotated(q: Params)
    requires q.cubeSize == 30.0 && q.spacing == 1.2
    requires q.cosAngle == q.sinAngle && q.cosAngle > 0.0
    requires q.cosAngle * q.cosAngle + q.sinAngle * q.sinAngle == 1.0
    ensures ValidParams(q) && PixelColour(q, 32.0, 32.0) == Background
  {
    CellUnique(q, 32.0, 0);
    assert Offset(q, 32.0) == 14.0;
    var c := q.cosAngle;
    var rdy := 14.0 * c + 14.0 * c;
    assert Rotate(q, 14.0, 14.0) == (0.0, rdy);
    assert rdy * rdy == 784.0 * (c * c) == 392.0;
    if rdy < 15.0 {
      ScaleLt(rdy, 15.0, rdy);
      ScaleLt(rdy, 15.0, 15.0);
    }
    assert !Interior(q, 0.0, rdy);
  }

  /** Rendering the one-pixel chunk at (18, 18) with the defaults yields opaque
      red; Process's contract is enough for a caller to know what it wrote. */
  method ProcessCentreChunk() returns (outData: array<real>)
    ensures outData[..] == [1.0, 0.0, 0.0, 1.0]
  {
    outData := new real[4];
    Process(Defaults(), 18, 18, 1, 1, outData);
    CentreChunk();
  }
}
