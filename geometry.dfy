/** Grid mapping, rotation and the cube-interior test of the colour-cubes
    generator, over real numbers.

    The rotation angle enters only through its cosine and sine, which are
    taken as given parameters. */
module Geometry {

  /** The render parameters. `cosAngle` and `sinAngle` stand for the cosine and
      sine of the rotation angle; `seed` is the colour seed. */
  datatype Params = Params(cubeSize: real, spacing: real, cosAngle: real, sinAngle: real, seed: int)

  /** The ranges the host framework clamps the properties to. */
  predicate ValidParams(p: Params) {
    10.0 <= p.cubeSize <= 200.0 && 1.0 <= p.spacing <= 2.0
  }

  /** The lattice pitch: never smaller than a cube and never zero. */
  function GridSize(p: Params): (g: real)
    requires ValidParams(p)
    ensures p.cubeSize <= g <= 2.0 * p.cubeSize
    ensures 10.0 <= g <= 400.0
  {
    p.cubeSize * p.spacing
  }

  /** The index of the lattice cell that holds coordinate v on one axis:
      the cell spans [k * g, k * g + g) for the pitch g. */
  function GridCell(p: Params, v: real): (k: int)
    requires ValidParams(p)
    ensures k as real * GridSize(p) <= v < k as real * GridSize(p) + GridSize(p)
  {
    FloorOfQuotient(v, GridSize(p));
    (v / GridSize(p)).Floor
  }

  /** The floor of v / g brackets v between consecutive multiples of g. */
  lemma FloorOfQuotient(v: real, g: real)
    requires g > 0.0
    ensures (v / g).Floor as real * g <= v < (v / g).Floor as real * g + g
  {
    var q := v / g;
    var k := q.Floor;
    assert q * g == v;
    assert k as real <= q < k as real + 1.0;
    ScaleLe(k as real, q, g);
    ScaleLt(q, k as real + 1.0, g);
    assert v < (k as real + 1.0) * g;
    ScaleSum(k as real, 1.0, g);
    assert (k as real + 1.0) * g == k as real * g + 1.0 * g;
    assert 1.0 * g == g;
  }

  lemma ScaleLe(a: real, b: real, g: real)
    requires a <= b && g > 0.0
    ensures a * g <= b * g
  {
  }

  lemma ScaleLt(a: real, b: real, g: real)
    requires a < b && g > 0.0
    ensures a * g < b * g
  {
  }

  lemma UnscaleLe(a: real, v: real, g: real)
    requires g > 0.0 && a * g <= v
    ensures a <= v / g
  {
  }

  lemma UnscaleLt(v: real, b: real, g: real)
    requires g > 0.0 && v < b * g
    ensures v / g < b
  {
  }

  /** Every coordinate lies in exactly one cell: the cell k satisfying
      k * g <= v < k * g + g is the one GridCell computes. */
  lemma {:induction false} CellUnique(p: Params, v: real, k: int)
    requires ValidParams(p)
    requires k as real * GridSize(p) <= v < k as real * GridSize(p) + GridSize(p)
    ensures GridCell(p, v) == k
  {
    var g := GridSize(p);
    ScaleSum(k as real, 1.0, g);
    assert (k as real + 1.0) * g == k as real * g + 1.0 * g;
    assert 1.0 * g == g;
    UnscaleLe(k as real, v, g);
    UnscaleLt(v, k as real + 1.0, g);
    assert k as real <= v / g < k as real + 1.0;
  }

  /** The centre of the cell that holds v. */
  function Centre(p: Params, v: real): (c: real)
    requires ValidParams(p)
    ensures c - GridSize(p) / 2.0 <= v < c + GridSize(p) / 2.0
  {
    (GridCell(p, v) as real + 0.5) * GridSize(p)
  }

  /** The signed distance of v from the centre of its cell: within half a
      pitch, closed below and open above. */
  function Offset(p: Params, v: real): (d: real)
    requires ValidParams(p)
    ensures -GridSize(p) / 2.0 <= d < GridSize(p) / 2.0
  {
    v - Centre(p, v)
  }

  /** Moving a coordinate v by n pitches, to w, moves its cell by n. */
  lemma {:induction false} CellPeriodic(p: Params, v: real, w: real, n: int)
    requires ValidParams(p)
    requires w == v + n as real * GridSize(p)
    ensures GridCell(p, w) == GridCell(p, v) + n
  {
    var g := GridSize(p);
    var k := GridCell(p, v);
    ScaleSum(k as real, n as real, g);
    assert (k + n) as real == k as real + n as real;
    assert (k + n) as real * g == k as real * g + n as real * g;
    assert (k + n) as real * g <= w < (k + n) as real * g + g;
    CellUnique(p, w, k + n);
  }

  /** Moving a coordinate v by a whole number of pitches, to w, leaves its
      offset from the centre of its cell unchanged. */
  lemma {:induction false} OffsetPeriodic(p: Params, v: real, w: real, n: int)
    requires ValidParams(p)
    requires w == v + n as real * GridSize(p)
    ensures Offset(p, w) == Offset(p, v)
  {
    var g := GridSize(p);
    var k := GridCell(p, v);
    CellPeriodic(p, v, w, n);
    ScaleSum(k as real + 0.5, n as real, g);
    assert (k + n) as real + 0.5 == (k as real + 0.5) + n as real;
    assert Centre(p, w) == Centre(p, v) + n as real * g;
  }

  lemma ScaleSum(a: real, b: real, g: real)
    ensures (a + b) * g == a * g + b * g
  {
  }

  /** The offset (dx, dy) rotated by the global angle. Rotating back with the
      same coefficients recovers the offset scaled by cos² + sin², which is 1
      for a true rotation. */
  function Rotate(p: Params, dx: real, dy: real): (r: (real, real))
    ensures var n := p.cosAngle * p.cosAngle + p.sinAngle * p.sinAngle;
      r.0 * p.cosAngle + r.1 * p.sinAngle == dx * n && r.1 * p.cosAngle - r.0 * p.sinAngle == dy * n
  {
    (dx * p.cosAngle - dy * p.sinAngle, dx * p.sinAngle + dy * p.cosAngle)
  }

  /** With cosine 1 and sine 0 (angle 0) the rotation leaves the offset alone. */
  lemma RotateByZero(p: Params, dx: real, dy: real)
    requires p.cosAngle == 1.0 && p.sinAngle == 0.0
    ensures Rotate(p, dx, dy) == (dx, dy)
  {
    assert dx * p.cosAngle - dy * p.sinAngle == dx;
    assert dx * p.sinAngle + dy * p.cosAngle == dy;
  }

  /** When the coefficients are those of a true rotation, the rotated offset
      has the same length as the offset. */
  lemma {:induction false} RotatePreservesLength(p: Params, dx: real, dy: real)
    requires p.cosAngle * p.cosAngle + p.sinAngle * p.sinAngle == 1.0
    ensures var (rx, ry) := Rotate(p, dx, dy); rx * rx + ry * ry == dx * dx + dy * dy
  {
    var c, s := p.cosAngle, p.sinAngle;
    var (rx, ry) := Rotate(p, dx, dy);
    calc {
      rx * rx + ry * ry;
      (dx * c - dy * s) * (dx * c - dy * s) + (dx * s + dy * c) * (dx * s + dy * c);
      dx * dx * (c * c + s * s) + dy * dy * (c * c + s * s);
      dx * dx + dy * dy;
    }
  }

  function Abs(x: real): real {
    if x < 0.0 then -x else x
  }

  /** The strict interior test on a rotated offset. */
  predicate Interior(p: Params, rdx: real, rdy: real): (b: bool)
    ensures b <==> var h := p.cubeSize * 0.5; -h < rdx < h && -h < rdy < h
  {
    Abs(rdx) < p.cubeSize * 0.5 && Abs(rdy) < p.cubeSize * 0.5
  }

  /** A rotated offset exactly half a cube from the centre on either axis is not interior. */
  lemma BoundaryIsExterior(p: Params, rdx: real, rdy: real)
    requires Abs(rdx) == p.cubeSize * 0.5 || Abs(rdy) == p.cubeSize * 0.5
    ensures !Interior(p, rdx, rdy)
  {
  }

  /** Whether the pixel at absolute position (px, py) lies inside a cube. */
  predicate InteriorAt(p: Params, px: real, py: real)
    requires ValidParams(p)
  {
    var (rdx, rdy) := Rotate(p, Offset(p, px), Offset(p, py));
    Interior(p, rdx, rdy)
  }

  /** The same rotation is applied in every cell: shifting a pixel by whole
      pitches on both axes, from (px, py) to (qx, qy), does not change its
      classification. */
  lemma {:induction false} ClassificationPeriodic(p: Params, px: real, py: real, qx: real, qy: real, m: int, n: int)
    requires ValidParams(p)
    requires qx == px + m as real * GridSize(p) && qy == py + n as real * GridSize(p)
    ensures InteriorAt(p, qx, qy) == InteriorAt(p, px, py)
  {
    OffsetPeriodic(p, px, qx, m);
    OffsetPeriodic(p, py, qy, n);
  }

  /** Whether v lies on a lattice line (a multiple of the pitch). */
  predicate OnGridLine(p: Params, v: real)
    requires ValidParams(p)
  {
    v == GridCell(p, v) as real * GridSize(p)
  }

  /** With spacing 1 and no rotation the cubes fill the lattice, and a pixel is
      background exactly when it lies on a lattice line. */
  lemma {:induction false} TouchingCubes(p: Params, px: real, py: real)
    requires ValidParams(p)
    requires p.spacing == 1.0 && p.cosAngle == 1.0 && p.sinAngle == 0.0
    ensures !InteriorAt(p, px, py) <==> OnGridLine(p, px) || OnGridLine(p, py)
  {
    var g := GridSize(p);
    assert g == p.cubeSize;
    RotateByZero(p, Offset(p, px), Offset(p, py));
    ScaleSum(GridCell(p, px) as real, 0.5, g);
    ScaleSum(GridCell(p, py) as real, 0.5, g);
  }
}
