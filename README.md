# Colour cubes: a verified model of the pattern generator

This project models `process` from the `colorcubes1` GEGL operation. The
operation fills each output chunk of RGBA floats with a lattice of coloured
squares ("cubes") on a black background. For every pixel of a chunk the code
does four things:

- It maps the pixel to a lattice cell of pitch `cube_size * spacing` and
  computes the pixel's offset from the centre of that cell.
- It rotates the offset by one global angle.
- It tests the rotated offset strictly against half the cube size.
- It writes an opaque colour into the buffer. An interior pixel gets one of 7
  palette colours, chosen by an unsigned 32-bit hash of the seed and the cell
  index. Any other pixel gets opaque black.

The model has three modules:

- `Palette` (`palette.dfy`): the palette, a `gint` wrap-around and `guint`
  conversion written out, the hash as the C expression computes it, and its
  reference definition (the plain sum reduced modulo 2^32).
- `Geometry` (`geometry.dfy`): the render parameters, the grid mapping, the
  rotation and the interior test, all over real numbers.
- `Render` (`render.dfy`): the colour of one pixel and a recursive
  specification of the chunk buffer, row by row. It also holds `Process`, the
  imperative nested loop over an `array<real>`, proved to leave exactly that
  buffer, and worked examples with the default properties.

`Process` keeps the source's shape: an outer loop over rows and an inner loop
over the pixels of a row. The inner loop is factored into the method
`ProcessRow`, and its body into `FillPixel`. Within that body, `ShadePixel`
is the straight-line computation that picks the colour, and `StorePixel`
holds the four stores of one pixel.

The cosine and sine of the rotation angle are fields of the parameter record.
The code does not check the parameter ranges itself: the host framework
clamps the properties to their declared ranges. The model states those ranges
as a precondition, `ValidParams`, so that the pitch is at least 10 and never
zero.

The hash takes the code's reading, not a signed one. `hash` is a `guint`, so
`(hash % 7 + 7) % 7` is just the unsigned residue and the `+ 7` changes
nothing. A signed sum s normalised with `((s % 7) + 7) % 7` would give a
different index whenever `floor(s / 2^32)` is not a multiple of 7, for
example for every sum in [-2^32, 0), because 2^32 mod 7 = 4.
`SignedReadingDiffers` gives such a cell.

## Model

| member | source | states |
|---|---|---|
| Palette.PaletteWellFormed | AI_plugins/color_cubes_1/colorcubes1.c:86-95 | the palette has 7 entries; each, made opaque, lies in [0,1] per channel and differs from the black background |
| Palette.Channels | AI_plugins/color_cubes_1/colorcubes1.c:146-149 | a pixel occupies four buffer values, in the order red, green, blue, alpha |
| Palette.Wrap32 | AI_plugins/color_cubes_1/colorcubes1.c:141 | a `gint` result is a 32-bit signed value; it is the exact value when that fits, otherwise it differs by a multiple of 2^32 |
| Palette.ToUnsigned | AI_plugins/color_cubes_1/colorcubes1.c:141 | the `guint` conversion lies in [0, 2^32), keeps values already in range, and differs from its argument by a multiple of 2^32 |
| Palette.HashAsWritten | AI_plugins/color_cubes_1/colorcubes1.c:141 | the hash as the C expression evaluates it, left to right on wrapped `gint` values and converted to `guint`; it is below 2^32 |
| Palette.Hash | AI_plugins/color_cubes_1/colorcubes1.c:141 | the reference hash is below 2^32 |
| Palette.HashAsWrittenIsReduced | AI_plugins/color_cubes_1/colorcubes1.c:141 | for every seed and cell, the hash computed with wrap-around after every `gint` step equals `(seed + ix*73856093 + iy*19349663) mod 2^32` |
| Palette.ColourIndex | AI_plugins/color_cubes_1/colorcubes1.c:141-143 | the palette index lies in [0, 6], so the palette lookup is always in bounds |
| Palette.ColourIndexAsWritten | AI_plugins/color_cubes_1/colorcubes1.c:141-142 | `(hash % 7 + 7) % 7` on the unsigned hash equals `hash % 7`: the `+ 7` never changes the index |
| Palette.ColourIndexVersusSignedSum | AI_plugins/color_cubes_1/colorcubes1.c:141-142 | the index equals `(s - 4*floor(s / 2^32)) mod 7` for the mathematical sum s, and equals `s mod 7` when s lies in [0, 2^32) |
| Palette.SignedReadingDiffers | AI_plugins/color_cubes_1/colorcubes1.c:141-142 | for seed 0 and cell (-1, 0) the code's index is 1 while the signed residue of the sum is 4 |
| Palette.OriginCellIsFirst | AI_plugins/color_cubes_1/colorcubes1.c:141-143 | with seed 0, cell (0, 0) hashes to 0 and gets palette entry 0 |
| Geometry.ValidParams | AI_plugins/color_cubes_1/colorcubes1.c:29-37 | the clamped property ranges: cube size in [10, 200] and spacing in [1, 2] |
| Geometry.GridSize | AI_plugins/color_cubes_1/colorcubes1.c:116 | within the clamped ranges the pitch lies between one and two cube sizes, and in [10, 400] |
| Geometry.GridCell | AI_plugins/color_cubes_1/colorcubes1.c:117-122 | the cell k of coordinate v satisfies `k*g <= v < k*g + g` |
| Geometry.CellUnique | AI_plugins/color_cubes_1/colorcubes1.c:117-122 | every coordinate lies in exactly one cell: any k with `k*g <= v < k*g + g` is the computed cell |
| Geometry.Centre | AI_plugins/color_cubes_1/colorcubes1.c:121-122 | the centre `(floor(v/g) + 0.5) * g` of the cell of v lies within half a pitch of v: `c - g/2 <= v < c + g/2` |
| Geometry.Offset | AI_plugins/color_cubes_1/colorcubes1.c:116-126 | the offset from the computed centre satisfies `-g/2 <= d < g/2` |
| Geometry.CellPeriodic | AI_plugins/color_cubes_1/colorcubes1.c:117-122 | shifting a coordinate by n pitches shifts its cell index by n |
| Geometry.OffsetPeriodic | AI_plugins/color_cubes_1/colorcubes1.c:116-126 | shifting a coordinate by n pitches leaves its offset from the cell centre unchanged |
| Geometry.Rotate | AI_plugins/color_cubes_1/colorcubes1.c:130-131 | rotating the result back with the same coefficients recovers the offset scaled by cos² + sin² |
| Geometry.RotateByZero | AI_plugins/color_cubes_1/colorcubes1.c:129-131 | with cosine 1 and sine 0 (the default rotation 0) the rotated offset is the offset itself |
| Geometry.RotatePreservesLength | AI_plugins/color_cubes_1/colorcubes1.c:130-131 | when cos² + sin² = 1 the rotated offset has the same squared length as the offset |
| Geometry.Interior | AI_plugins/color_cubes_1/colorcubes1.c:134-135 | the test holds exactly when both rotated coordinates lie strictly between -cube_size/2 and cube_size/2 |
| Geometry.InteriorAt | AI_plugins/color_cubes_1/colorcubes1.c:116-135 | whether a pixel is inside a cube: the interior test on its rotated offset from the centre of its cell |
| Geometry.BoundaryIsExterior | AI_plugins/color_cubes_1/colorcubes1.c:134-135 | the interior test is strict: a rotated offset of exactly half a cube on either axis is not interior |
| Geometry.ClassificationPeriodic | AI_plugins/color_cubes_1/colorcubes1.c:116-135 | shifting a pixel by whole pitches on both axes does not change whether it is inside a cube |
| Geometry.TouchingCubes | AI_plugins/color_cubes_1/colorcubes1.c:116-135 | with spacing 1 and no rotation, a pixel is background exactly when it lies on a lattice line |
| Render.PixelColour | AI_plugins/color_cubes_1/colorcubes1.c:116-157 | every pixel colour is opaque with channels in [0,1], and it is the black background exactly when the pixel fails the interior test |
| Render.SameCellSameColour | AI_plugins/color_cubes_1/colorcubes1.c:138-143 | two interior pixels of the same cell get the same colour: it depends only on the seed and the cell index |
| Render.ShadePixel | AI_plugins/color_cubes_1/colorcubes1.c:112-157 | the loop body's computation, done step by step with the hash as written and the `(hash % 7 + 7) % 7` index, yields the pixel's colour |
| Render.SlotIndex | AI_plugins/color_cubes_1/colorcubes1.c:111 | slot `(y*width + x)*4 + k` of channel k < 4 decodes back: divided by 4 it is the pixel number `y*width + x`, and its remainder is k |
| Render.RowPrefix | AI_plugins/color_cubes_1/colorcubes1.c:109-157 | the first x pixels of a row occupy 4*x buffer values |
| Render.Rows | AI_plugins/color_cubes_1/colorcubes1.c:107-111 | the values of the first `rows` rows of the chunk, each row in pixel order, as the two loops write them |
| Render.RowsLength | AI_plugins/color_cubes_1/colorcubes1.c:107-111 | the first `rows` rows of a chunk `width` wide occupy `rows*width*4` values |
| Render.RowPrefixAt | AI_plugins/color_cubes_1/colorcubes1.c:111-157 | within a row, value 4*x + k is channel k of the colour of pixel x |
| Render.RowsAt | AI_plugins/color_cubes_1/colorcubes1.c:107-157 | within the first rows, slot `(y*width + x)*4 + k` is in range and holds channel k of the colour of pixel (x, y) |
| Render.ChunkBuffer | AI_plugins/color_cubes_1/colorcubes1.c:97-111 | the chunk buffer has `width*height*4` values |
| Render.ChunkBufferAt | AI_plugins/color_cubes_1/colorcubes1.c:111-157 | slot `(y*width + x)*4 + k` of the chunk is in range and holds channel k of the colour of the absolute pixel (x + roi.x, y + roi.y) |
| Render.SlotCovered | AI_plugins/color_cubes_1/colorcubes1.c:107-111 | every slot of `[0, width*height*4)` is slot k of some pixel (x, y) of the chunk |
| Render.SlotsDisjoint | AI_plugins/color_cubes_1/colorcubes1.c:107-111 | distinct (column, row, channel) triples use distinct slots, so no slot is written twice |
| Render.ChunkIndependence | AI_plugins/color_cubes_1/colorcubes1.c:111-143 | two chunks of any origins and sizes that contain the same absolute pixel hold the same values for it |
| Render.SinglePixelChunk | AI_plugins/color_cubes_1/colorcubes1.c:107-157 | a one-pixel chunk holds exactly the four channels of that pixel's colour |
| Render.ChunkOpaque | AI_plugins/color_cubes_1/colorcubes1.c:146-157 | every value of a chunk lies in [0,1], and every alpha slot holds 1 |
| Render.Process | AI_plugins/color_cubes_1/colorcubes1.c:102-160 | after the nested loops the whole buffer of length `width*height*4` equals the chunk specification, so every slot holds its pixel's channel |
| Render.ProcessRow | AI_plugins/color_cubes_1/colorcubes1.c:109-159 | the inner loop extends the filled prefix of the buffer by exactly row y, the row ends inside the buffer, and every slot after it keeps its value |
| Render.FillPixel | AI_plugins/color_cubes_1/colorcubes1.c:111-158 | one pass of the inner loop body extends the filled prefix by pixel x of row y and leaves every later slot unchanged |
| Render.StorePixel | AI_plugins/color_cubes_1/colorcubes1.c:146-157 | the four stores put the colour's channels at slots n .. n+3 and change nothing else |
| Render.PixelStep | AI_plugins/color_cubes_1/colorcubes1.c:111-157 | one pass of the inner loop body extends the filled prefix by the current pixel's four channels |
| Render.Defaults | AI_plugins/color_cubes_1/colorcubes1.c:29-37 | the default cube size 30 and spacing 1.2 are valid and give pitch 36 |
| Render.CellCentreIsRed | AI_plugins/color_cubes_1/colorcubes1.c:116-149 | with the defaults and seed 0, pixel (18, 18) is the centre of cell (0, 0) and is opaque red |
| Render.CellCornerIsBackground | AI_plugins/color_cubes_1/colorcubes1.c:116-157 | with the defaults, pixel (0, 0) lies 18 from its centre, beyond 15, and is opaque black |
| Render.CentreChunk | AI_plugins/color_cubes_1/colorcubes1.c:107-149 | the one-pixel chunk at (18, 18) is `[1, 0, 0, 1]` |
| Render.CornerInsideUnrotated | AI_plugins/color_cubes_1/colorcubes1.c:116-149 | without rotation, pixel (32, 32) lies at offset (14, 14) and is red for seed 0 |
| Render.CornerOutsideRotated | AI_plugins/color_cubes_1/colorcubes1.c:116-157 | rotated by 45 degrees, the same pixel moves outside its cube and becomes background |
| Render.ProcessCentreChunk | AI_plugins/color_cubes_1/colorcubes1.c:97-160 | the buffer that Process leaves for the one-pixel chunk at (18, 18) is `[1, 0, 0, 1]` |

## Left out

- Trigonometry: the conversion of `rotation` from degrees to radians and the calls to `cos` and `sin` (colorcubes1.c:129-131) are not modelled. Their results are the parameters `cosAngle` and `sinAngle`. Most contracts hold for arbitrary coefficients. `RotatePreservesLength` and `CornerOutsideRotated` assume they come from a true rotation (cos² + sin² = 1). `RotateByZero`, `TouchingCubes`, `Defaults` and the worked examples built on `Defaults` fix cosine 1 and sine 0 (angle 0).
- Palette.Wrap32: the model assumes that a signed `gint` overflow at colorcubes1.c:141 wraps modulo 2^32. The product `ix * 73856093` already overflows for |ix| >= 30, the product `iy * 19349663` for |iy| >= 111, and the two additions can too. ISO C leaves signed overflow undefined, so wrap-around is what compilers commonly produce, not a guarantee.
- Floating point: all coordinates, offsets and channels are exact reals. `gfloat` rounding, and a NaN or an infinity arising from it, are not modelled.
- The `(gint)floor` cast at colorcubes1.c:138-139 is modelled as the exact integer floor. A floor outside the `gint` range, for a pixel coordinate more than about 2^31 pitches from the origin, is not modelled.
- `pixel_idx` is a `gint` (colorcubes1.c:111). The model uses unbounded integers, so a chunk with more than 2^31 / 4 pixels, which would overflow it, is not modelled.
- Palette.Hash: the seed is an unbounded integer. The `gint` steps are modelled by `Wrap32`, and the proof holds for every seed, but the seed range the host chooses is not modelled.
- The GEGL plumbing is not modelled. This covers `prepare` (colorcubes1.c:58-63), `get_bounding_box` (:65-72), the buffer iterator (:97-100) and `gegl_op_class_init`. One iteration of the iterator is one call of `Process` on one chunk array, with the chunk origin passed as `roiX` and `roiY`. The iterator's choice of chunks is not modelled; `ChunkIndependence` shows it cannot change any pixel.
- The property declarations and their UI hints (colorcubes1.c:29-46) are not modelled as code. Their value ranges for cube size and spacing become `ValidParams`; the rotation range has no effect once cosine and sine are parameters.
- AI_plugins/color_cubes_2/colorcubes2.c is not part of this model. It is a meta-operation that wires child nodes together and holds no pixel computation.
- AI_plugins/hawaiian_flowers_2/hawaiian_flowers_2.c is not part of this model. It is the same kind of graph wiring, and the flower generator it calls, the operation `ai/lb:hawaiian-flowers-core` (hawaiian_flowers_2.c:126), is a separate operation whose pixel code this model does not cover.
- Configuration checking: the code never rejects a non-positive pitch. The model requires the clamped ranges instead of modelling an error path, because the framework guarantees them before `process` runs.
