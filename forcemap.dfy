/** The force map of the mass-movement engine: one accumulated value per pixel of
    the start-zone raster, row-major, `width` by `height`. Every update of a particle
    on the map adds a deposit, proportional to the density under it and to its
    horizontal speed, to the one pixel below it. */
module ForceMap {
  import opened Wrappers
  import opened XMath
  import opened Vectors
  import ArrayX

  /** A force map of `n` pixels, all zero, as `initParticles` creates it. */
  function Blank(n: nat): (fm: seq<real>)
    ensures |fm| == n && forall k :: 0 <= k < n ==> fm[k] == 0.0
  {
    seq(n, _ => 0.0)
  }

  /** The pixel (column, row) a particle at `pos` deposits to, if any: the map's x
      extent is spread over the width and its z extent, flipped, over the height,
      and the truncated coordinates must lie before the last column and the last
      row. So the last column and the last row never receive a deposit. */
  function PixelOf(pos: Vec3, width: nat, height: nat, rows: nat, cols: nat, cs: real): (r: Option<(nat, nat)>)
    requires 0 < rows && 0 < cols && 0.0 < cs
    ensures r.Some? ==> r.value.0 + 1 < width && r.value.1 + 1 < height
  {
    var xcoord := width as real * pos.x / (cols as real * cs);
    var ycoord := height as real - height as real * pos.z / (rows as real * cs);
    var xi, yi := Trunc(xcoord), Trunc(ycoord);
    if xi < width - 1 && 0 <= xi && yi < height - 1 && 0 <= yi then Some((xi, yi)) else None
  }

  /** The deposit `density * |velocity & (1, 0, 1)| * 0.00025`: never negative for a
      non-negative density, and zero when the particle moves only vertically. */
  function DepositAmount(density: real, vel: Vec3, sqrt: real -> real): (a: real)
    requires IsSqrt(sqrt)
    ensures 0.0 <= density ==> 0.0 <= a
    ensures vel.x == 0.0 && vel.z == 0.0 ==> a == 0.0
  {
    var horizontal := Vec3(vel.x * 1.0, vel.y * 0.0, vel.z * 1.0);
    assert horizontal == Mul(vel, Vec3(1.0, 0.0, 1.0));
    var mag := Length(horizontal, sqrt);
    DepositSigns(density, mag);
    density * mag * 0.00025
  }

  lemma DepositSigns(density: real, mag: real)
    requires 0.0 <= mag
    ensures 0.0 <= density ==> 0.0 <= density * mag * 0.00025
    ensures mag == 0.0 ==> density * mag * 0.00025 == 0.0
  {
  }

  /** The map position of pixel (column, row). */
  function PixelIndex(pixel: (nat, nat), width: nat, height: nat): (k: nat)
    requires pixel.0 < width && pixel.1 < height
    ensures k < width * height
  {
    ArrayX.Cell(pixel.1, pixel.0, height, width)
  }

  /** The force map after `amount` is added at `pixel`, or unchanged without one. */
  function Deposited(fm: seq<real>, width: nat, height: nat, pixel: Option<(nat, nat)>, amount: real): (r: seq<real>)
    requires |fm| == width * height
    requires pixel.Some? ==> pixel.value.0 < width && pixel.value.1 < height
    ensures |r| == |fm|
  {
    match pixel
    case None => fm
    case Some(p) =>
      var k := PixelIndex(p, width, height);
      fm[k := fm[k] + amount]
  }

  /** A deposit changes exactly one pixel, by the amount, and no other; without a
      pixel nothing changes. */
  lemma DepositedAt(fm: seq<real>, width: nat, height: nat, pixel: Option<(nat, nat)>, amount: real, k: nat)
    requires |fm| == width * height && k < |fm|
    requires pixel.Some? ==> pixel.value.0 < width && pixel.value.1 < height
    ensures pixel.Some? && k == PixelIndex(pixel.value, width, height) ==>
      Deposited(fm, width, height, pixel, amount)[k] == fm[k] + amount
    ensures pixel.None? || k != PixelIndex(pixel.value, width, height) ==>
      Deposited(fm, width, height, pixel, amount)[k] == fm[k]
  {
  }

  /** With a non-negative amount, no pixel of the force map ever decreases. */
  lemma DepositNeverDecreases(fm: seq<real>, width: nat, height: nat, pixel: Option<(nat, nat)>, amount: real)
    requires |fm| == width * height && 0.0 <= amount
    requires pixel.Some? ==> pixel.value.0 < width && pixel.value.1 < height
    ensures forall k :: 0 <= k < |fm| ==> fm[k] <= Deposited(fm, width, height, pixel, amount)[k]
  {
  }

  /** A pixel of the last column or the last row keeps its value. */
  lemma EdgeNeverDeposited(fm: seq<real>, pos: Vec3, width: nat, height: nat, rows: nat, cols: nat, cs: real,
                           amount: real, col: nat, row: nat)
    requires 0 < rows && 0 < cols && 0.0 < cs && |fm| == width * height
    requires col < width && row < height && (col == width - 1 || row == height - 1)
    ensures var pixel := PixelOf(pos, width, height, rows, cols, cs);
      Deposited(fm, width, height, pixel, amount)[PixelIndex((col, row), width, height)]
        == fm[PixelIndex((col, row), width, height)]
  {
    var pixel := PixelOf(pos, width, height, rows, cols, cs);
    if pixel.Some? {
      DistinctPixels((col, row), pixel.value, width, height);
    }
  }

  /** Different pixels have different map positions. */
  lemma DistinctPixels(a: (nat, nat), b: (nat, nat), width: nat, height: nat)
    requires a.0 < width && a.1 < height && b.0 < width && b.1 < height && a != b
    ensures PixelIndex(a, width, height) != PixelIndex(b, width, height)
  {
    if a.1 < b.1 {
      ArrayX.IndexOrdered(a.1, a.0, b.1, b.0, width);
    } else if b.1 < a.1 {
      ArrayX.IndexOrdered(b.1, b.0, a.1, a.0, width);
    }
  }
}
