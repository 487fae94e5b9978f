/** The fixed colour palette of the colour-cubes generator and the
    spatial hash that picks a palette entry for a grid cell.

    The hash is evaluated in C on `gint` (32-bit signed) operands and stored
    into a `guint`; `Wrap32` writes out the wrap-around a signed overflow is
    assumed to produce, `ToUnsigned` the conversion to `guint`, and `HashAsWrittenIsReduced` shows that the result is
    the plain integer sum reduced modulo 2^32. */
module Palette {

  /** An opaque palette entry: red, green, blue. */
  datatype Rgb = Rgb(r: real, g: real, b: real)

  /** An output pixel: red, green, blue, alpha. */
  datatype Rgba = Rgba(r: real, g: real, b: real, a: real)

  const NumColours: nat := 7

  /** Red, green, blue, yellow, cyan, magenta, orange. */
  const Colours: seq<Rgb> := [
    Rgb(1.0, 0.0, 0.0),
    Rgb(0.0, 1.0, 0.0),
    Rgb(0.0, 0.0, 1.0),
    Rgb(1.0, 1.0, 0.0),
    Rgb(0.0, 1.0, 1.0),
    Rgb(1.0, 0.0, 1.0),
    Rgb(1.0, 0.5, 0.0)
  ]

  /** The colour written for every pixel outside a cube. */
  const Background: Rgba := Rgba(0.0, 0.0, 0.0, 1.0)

  function Opaque(c: Rgb): Rgba {
    Rgba(c.r, c.g, c.b, 1.0)
  }

  predicate InUnitRange(c: Rgba) {
    0.0 <= c.r <= 1.0 && 0.0 <= c.g <= 1.0 && 0.0 <= c.b <= 1.0 && 0.0 <= c.a <= 1.0
  }

  /** Channel k of a pixel, in the order the output buffer stores them. */
  function Channel(c: Rgba, k: nat): real
    requires k < 4
  {
    if k == 0 then c.r else if k == 1 then c.g else if k == 2 then c.b else c.a
  }

  /** The four channels of a pixel, in buffer order. */
  function Channels(c: Rgba): (s: seq<real>)
    ensures |s| == 4 && forall k :: 0 <= k < 4 ==> s[k] == Channel(c, k)
  {
    [c.r, c.g, c.b, c.a]
  }

  /** Every palette entry is a valid, fully opaque colour distinct from the background. */
  lemma PaletteWellFormed()
    ensures |Colours| == NumColours
    ensures forall i :: 0 <= i < |Colours| ==>
      InUnitRange(Opaque(Colours[i])) && Opaque(Colours[i]) != Background
  {
  }

  // ----- 32-bit arithmetic -----

  const Modulus: int := 0x1_0000_0000
  const HalfModulus: int := 0x8000_0000

  const PrimeX: int := 73856093
  const PrimeY: int := 19349663

  predicate IsInt32(n: int) {
    -HalfModulus <= n < HalfModulus
  }

  /** The value a `gint` operation that mathematically yields n is taken to
      store: two's-complement wrap-around modulo 2^32. C leaves a signed
      overflow undefined; the model assumes the wrap-around that compilers
      commonly produce. */
  function Wrap32(n: int): (r: int)
    ensures IsInt32(r)
    ensures IsInt32(n) ==> r == n
    ensures r == n - Modulus * ((n + HalfModulus) / Modulus)
  {
    (n + HalfModulus) % Modulus - HalfModulus
  }

  /** The conversion of an integer value to `guint`. */
  function ToUnsigned(n: int): (r: nat)
    ensures r < Modulus
    ensures 0 <= n < Modulus ==> r == n
    ensures r == n - Modulus * (n / Modulus)
  {
    n % Modulus
  }

  /** The hash as the C expression computes it: `seed + ix * X + iy * Y`
      evaluated left to right on `gint` operands and assigned to a `guint`. */
  function HashAsWritten(seed: int, ix: int, iy: int): (h: nat)
    ensures h < Modulus
  {
    ToUnsigned(Wrap32(Wrap32(seed + Wrap32(ix * PrimeX)) + Wrap32(iy * PrimeY)))
  }

  /** Reference definition of the hash: the mathematical sum reduced modulo 2^32. */
  function Hash(seed: int, ix: int, iy: int): (h: nat)
    ensures h < Modulus
  {
    (seed + ix * PrimeX + iy * PrimeY) % Modulus
  }

  /** Two integers in [0, 2^32) that differ by a multiple of 2^32 are equal. */
  lemma {:induction false} SameResidue(a: int, b: int, q: int)
    requires 0 <= a < Modulus && 0 <= b < Modulus
    requires a == b + Modulus * q
    ensures a == b
  {
  }

  /** Wrapping every intermediate result to 32 bits does not change the
      final unsigned value: it is the full sum modulo 2^32. */
  lemma {:induction false} HashAsWrittenIsReduced(seed: int, ix: int, iy: int)
    ensures HashAsWritten(seed, ix, iy) == Hash(seed, ix, iy)
  {
    var sum := seed + ix * PrimeX + iy * PrimeY;
    var a := Wrap32(ix * PrimeX);
    var b := Wrap32(seed + a);
    var c := Wrap32(iy * PrimeY);
    var d := Wrap32(b + c);
    var qa := (ix * PrimeX + HalfModulus) / Modulus;
    var qb := (seed + a + HalfModulus) / Modulus;
    var qc := (iy * PrimeY + HalfModulus) / Modulus;
    var qd := (b + c + HalfModulus) / Modulus;
    var qe := d / Modulus;
    var h := ToUnsigned(d);
    assert h == sum - Modulus * (qa + qb + qc + qd + qe);
    assert Hash(seed, ix, iy) == sum - Modulus * (sum / Modulus);
    SameResidue(h, Hash(seed, ix, iy), sum / Modulus - (qa + qb + qc + qd + qe));
  }

  /** The palette index of a cell: the unsigned hash modulo the number of colours. */
  function ColourIndex(seed: int, ix: int, iy: int): (i: nat)
    ensures i < NumColours
    ensures i < |Colours|
  {
    Hash(seed, ix, iy) % NumColours
  }

  /** With seed 0, cell (0, 0) hashes to 0 and takes the first palette entry. */
  lemma OriginCellIsFirst()
    ensures Hash(0, 0, 0) == 0 && ColourIndex(0, 0, 0) == 0
  {
  }

  /** The C index expression `(hash % 7 + 7) % 7` on the unsigned hash
      yields ColourIndex: the `+ 7` can never change the result. */
  lemma ColourIndexAsWritten(seed: int, ix: int, iy: int)
    ensures (HashAsWritten(seed, ix, iy) % NumColours + NumColours) % NumColours
            == ColourIndex(seed, ix, iy)
  {
    HashAsWrittenIsReduced(seed, ix, iy);
  }

  /** Reading the hash as a signed sum, as one would for `((s mod 7) + 7) mod 7`
      on a signed s, is not what the code does. Because 2^32 mod 7 = 4, the index
      is the signed residue shifted by 4 for every multiple of 2^32 the sum lies
      below or above the range [0, 2^32). */
  lemma {:induction false} ColourIndexVersusSignedSum(seed: int, ix: int, iy: int)
    ensures var s := seed + ix * PrimeX + iy * PrimeY;
      ColourIndex(seed, ix, iy) == (s - 4 * (s / Modulus)) % NumColours
  ensures var s := seed + ix * PrimeX + iy * PrimeY;
      0 <= s < Modulus ==> ColourIndex(seed, ix, iy) == s % NumColours
  {
    var s := seed + ix * PrimeX + iy * PrimeY;
    var q := s / Modulus;
    assert Modulus == 4 + NumColours * 613566756;
    assert Hash(seed, ix, iy) == s - Modulus * q;
    assert Hash(seed, ix, iy) == (s - 4 * q) + NumColours * (-613566756 * q);
    ShiftByMultiple(s - 4 * q, -613566756 * q);
    if 0 <= s < Modulus {
      assert q == 0;
    }
  }

  /** Adding a multiple of 7 does not change a residue modulo 7. */
  lemma {:induction false} ShiftByMultiple(a: int, t: int)
    ensures (a + NumColours * t) % NumColours == a % NumColours
  {
    var q, r := a / NumColours, a % NumColours;
    assert a + NumColours * t == NumColours * (q + t) + r;
  }

  /** For the cell (-1, 0) with seed 0 the two readings disagree: the code
      gives index 1, a signed normalisation of the sum would give 4. */
  lemma SignedReadingDiffers()
    ensures ColourIndex(0, -1, 0) == 1
    ensures (0 + -1 * PrimeX + 0 * PrimeY) % NumColours == 4
  {
    ColourIndexVersusSignedSum(0, -1, 0);
  }
}
