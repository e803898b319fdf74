/** The terrain: a height map read from an ASCII elevation grid, its vertex and quad
    meshes, surface normals from neighbouring heights, and the grid-stepping ray
    trace, which reports the first cell it crosses that the ray is more than one
    cell size above. */
module Terrain {
  import XMath
  import ArrayX
  import Vectors

  /** The value `minHeight` starts from before the scan of the grid. */
  const MinHeightStart := 999999.0

  /** A mesh vertex. Only the position is modelled; texture coordinates, normal
      and colour are not. */
  datatype Vertex = Vertex(position: Vectors.Vec3)

  /** Four vertex indices, corners of one grid cell. */
  datatype Quad = Quad(a: nat, b: nat, c: nat, d: nat)

  /** The grid values with every value at or below the no-data marker replaced by 0. */
  function Clean(values: seq<real>, nodata: real): (c: seq<real>)
    ensures |c| == |values|
  {
    seq(|values|, k requires 0 <= k < |values| => if values[k] <= nodata then 0.0 else values[k])
  }

  lemma CleanValues(values: seq<real>, nodata: real, k: nat)
    requires k < |values|
    ensures values[k] <= nodata ==> Clean(values, nodata)[k] == 0.0
    ensures nodata < values[k] ==> Clean(values, nodata)[k] == values[k]
  {
  }

  /** The minimum a left-to-right scan of the first `n` values of `s` keeps,
      starting from `init`: each value below the current minimum replaces it. */
  function RunningMin(s: seq<real>, n: nat, init: real): real
    requires n <= |s|
  {
    if n == 0 then init
    else
      var p := RunningMin(s, n - 1, init);
      if s[n - 1] < p then s[n - 1] else p
  }

  /** The scan's result is at most the start and every scanned value, and is the
      start or one of them. */
  lemma {:induction false} RunningMinIsMin(s: seq<real>, n: nat, init: real)
    requires n <= |s|
    ensures RunningMin(s, n, init) <= init
    ensures forall k :: 0 <= k < n ==> RunningMin(s, n, init) <= s[k]
    ensures RunningMin(s, n, init) == init || exists k :: 0 <= k < n && RunningMin(s, n, init) == s[k]
  {
    if n != 0 {
      RunningMinIsMin(s, n - 1, init);
    }
  }

  /** Every value lowered by `m`. */
  function Shift(s: seq<real>, m: real): (r: seq<real>)
    ensures |r| == |s|
  {
    seq(|s|, k requires 0 <= k < |s| => s[k] - m)
  }

  /** The height map a load leaves: the cleaned grid, lowered by its running minimum
      when the meshes are generated. */
  function LoadedHeights(values: seq<real>, nodata: real, genVerts: bool): (h: seq<real>)
    ensures |h| == |values|
  {
    var c := Clean(values, nodata);
    if genVerts then Shift(c, RunningMin(c, |c|, MinHeightStart)) else c
  }

  /** Without the meshes, no-data cells read 0 and every other cell its value. */
  lemma LoadedHeightsPlain(values: seq<real>, nodata: real, k: nat)
    requires k < |values|
    ensures values[k] <= nodata ==> LoadedHeights(values, nodata, false)[k] == 0.0
    ensures nodata < values[k] ==> LoadedHeights(values, nodata, false)[k] == values[k]
  {
    CleanValues(values, nodata, k);
  }

  /** With the meshes, no height is negative, and the relief between any two cells
      is that of the cleaned grid. */
  lemma LoadedHeightsShifted(values: seq<real>, nodata: real, k: nat, l: nat)
    requires k < |values| && l < |values|
    ensures 0.0 <= LoadedHeights(values, nodata, true)[k]
    ensures var h, c := LoadedHeights(values, nodata, true), Clean(values, nodata);
      h[k] - h[l] == c[k] - c[l]
  {
    var c := Clean(values, nodata);
    RunningMinIsMin(c, |c|, MinHeightStart);
  }

  /** With the meshes, the lowest cell reads 0 as soon as one cleaned value is at
      most the starting minimum (a no-data cell, cleaned to 0, is one). */
  lemma LoadedHeightsTouchZero(values: seq<real>, nodata: real, k: nat)
    requires k < |values| && Clean(values, nodata)[k] <= MinHeightStart
    ensures exists l :: 0 <= l < |values| && LoadedHeights(values, nodata, true)[l] == 0.0
  {
    var c := Clean(values, nodata);
    var m := RunningMin(c, |c|, MinHeightStart);
    RunningMinIsMin(c, |c|, MinHeightStart);
    if m == MinHeightStart {
      assert LoadedHeights(values, nodata, true)[k] == 0.0;
    } else {
      var l :| 0 <= l < |c| && c[l] == m;
      assert LoadedHeights(values, nodata, true)[l] == 0.0;
    }
  }

  /** The row and column of flat position `k` in a row-major grid `w` wide. */
  function RowOf(k: nat, w: nat): nat
    requires 0 < w
    decreases k
  {
    if k < w then 0 else 1 + RowOf(k - w, w)
  }

  function ColOf(k: nat, w: nat): nat
    requires 0 < w
    decreases k
  {
    if k < w then k else ColOf(k - w, w)
  }

  /** Row and column invert the row-major `Index`. */
  lemma {:induction false} RowColOf(i: nat, j: nat, w: nat)
    requires j < w
    ensures RowOf(ArrayX.Index(i, j, w), w) == i && ColOf(ArrayX.Index(i, j, w), w) == j
    decreases i
  {
    if i != 0 {
      assert ArrayX.Index(i, j, w) - w == ArrayX.Index(i - 1, j, w);
      RowColOf(i - 1, j, w);
    }
  }

  /** The vertex at flat position `k` of a grid `xSize` cells wide: its column and
      row scaled by the cell size, at the given height. */
  function GridVertex(height: real, xSize: nat, cs: real, k: nat): Vertex
    requires 0 < xSize
  {
    Vertex(Vectors.Vec3(ColOf(k, xSize) as real * cs, height, RowOf(k, xSize) as real * cs))
  }

  /** The vertex of row `i`, column `j` sits at (j * cellSize, height, i * cellSize). */
  lemma GridVertexAt(height: real, xSize: nat, cs: real, i: nat, j: nat)
    requires j < xSize
    ensures GridVertex(height, xSize, cs, ArrayX.Index(i, j, xSize))
      == Vertex(Vectors.Vec3(j as real * cs, height, i as real * cs))
  {
    RowColOf(i, j, xSize);
  }

  /** `vs` holds the vertex of every cell of the height map `h`. */
  ghost predicate VertsLaid(h: seq<real>, vs: seq<Vertex>, xSize: nat, cs: real) {
    0 < xSize && |vs| == |h| && forall k :: 0 <= k < |h| ==> vs[k] == GridVertex(h[k], xSize, cs, k)
  }

  /** The quad of row `i`, column `j` of a grid of vertices `xSize` wide. */
  function QuadOf(i: nat, j: nat, xSize: nat): Quad {
    Quad(j + xSize * i, j + 1 + xSize * i, j + 1 + xSize * (i + 1), j + xSize * (i + 1))
  }

  /** A quad's corners are the four vertices around its cell, in order, and all of
      them exist. */
  lemma QuadCorners(i: nat, j: nat, xSize: nat, ySize: nat)
    requires i + 1 < ySize && j + 1 < xSize
    ensures var q := QuadOf(i, j, xSize);
      && q.a == ArrayX.Index(i, j, xSize) && q.b == ArrayX.Index(i, j + 1, xSize)
      && q.c == ArrayX.Index(i + 1, j + 1, xSize) && q.d == ArrayX.Index(i + 1, j, xSize)
      && q.a < q.b < q.c && q.d < q.c < xSize * ySize
  {
    ArrayX.IndexInRange(i + 1, j + 1, ySize, xSize);
    assert xSize * (i + 1) == xSize * i + xSize;
  }

  /** The quad at flat position `k` of a quad grid `qcols` wide. */
  function GridQuad(k: nat, qcols: nat, xSize: nat): Quad
    requires 0 < qcols
  {
    QuadOf(RowOf(k, qcols), ColOf(k, qcols), xSize)
  }

  /** `qs` holds the quad of every cell of a quad grid `qcols` wide. */
  ghost predicate QuadsLaid(qs: seq<Quad>, qcols: nat, xSize: nat) {
    0 < qcols ==> forall k :: 0 <= k < |qs| ==> qs[k] == GridQuad(k, qcols, xSize)
  }

  lemma GridQuadAt(i: nat, j: nat, qcols: nat, xSize: nat)
    requires j < qcols
    ensures GridQuad(ArrayX.Index(i, j, qcols), qcols, xSize) == QuadOf(i, j, xSize)
  {
    RowColOf(i, j, qcols);
  }

  /** The ray direction `trace` steps along: `end - start` normalised, then divided
      by its horizontal length, so that one step advances one cell width
      horizontally. A vertical ray (no horizontal part) gives the zero vector; the
      source divides by a zero length there. */
  function StepDirection(start: Vectors.Vec3, end: Vectors.Vec3, sqrt: real -> real): (r: Vectors.Vec3)
    requires Vectors.IsSqrt(sqrt)
    ensures start.x == end.x && start.z == end.z ==> r == Vectors.Zero3
    ensures !(start.x == end.x && start.z == end.z) ==>
      && Vectors.Abs(r.x) <= 1.0 && Vectors.Abs(r.z) <= 1.0 && 1.0 <= Vectors.Abs(r.x) + Vectors.Abs(r.z)
      && (r.x < 0.0 <==> end.x < start.x) && (r.z < 0.0 <==> end.z < start.z)
  {
    var a := Vectors.Sub(end, start);
    var d := Vectors.Normalized(a, sqrt);
    var s := sqrt(Vectors.Sq(d.x) + Vectors.Sq(d.z));
    Vectors.HorizontalLengthZero(d.x, d.z, s);
    if s == 0.0 then Vectors.Zero3
    else
      Vectors.DirectionSum(d.x, d.z, s);
      Vectors.ComponentAtMostOne(d.x, d.z, s);
      Vectors.ComponentAtMostOne(d.z, d.x, s);
      Vectors.QuotientSigns(d.x, s);
      Vectors.QuotientSigns(d.z, s);
      Vectors.Vec3(d.x / s, d.y / s, d.z / s)
  }

  /** One axis of the error accumulation in the `trace` loop: the step `u` is added
      to the error `e`, and once the error truncates to a non-zero integer the cell
      index moves by `d` and the error by `-d`. */
  function Advance(x: int, e: real, d: int, u: real): (int, real) {
    var e1 := e + u;
    if XMath.Trunc(e1) != 0 then (x + d, e1 - d as real) else (x, e1)
  }

  /** The error of an axis stays within one cell on the side the axis moves to. */
  predicate AxisInvariant(e: real, d: int, u: real) {
    || (d == 1 && 0.0 <= u <= 1.0 && 0.0 <= e < 1.0)
    || (d == -1 && -1.0 <= u < 0.0 && -1.0 < e <= 0.0)
  }

  /** How far an axis still is from the edge, `n` cells away, that it moves towards. */
  function EdgeDistance(x: int, e: real, d: int, n: int): real {
    if d == 1 then (n - x) as real - e else (x + 1) as real + e
  }

  /** Each step keeps the error in range, moves the index by at most one cell in the
      axis' direction, and brings the axis `|u|` closer to its edge. */
  lemma AdvanceStep(x: int, e: real, d: int, u: real, n: int)
    requires AxisInvariant(e, d, u)
    ensures var (x', e') := Advance(x, e, d, u);
      && AxisInvariant(e', d, u) && (x' == x || x' == x + d)
      && EdgeDistance(x', e', d, n) == EdgeDistance(x, e, d, n) - Vectors.Abs(u)
  {
    XMath.TruncNonZero(e + u);
  }

  /** What stays fixed during the walk of `trace`: the end cell `(endx, endz)`, the
      amounts `ux` and `uz` added to the errors of the two axes each turn, the
      directions `dx` and `dz` the axes move in, and how far the ray rises each turn. */
  datatype Course = Course(endx: int, endz: int, ux: real, uz: real, dx: int, dz: int, rise: real)

  /** A course that moves: each axis advances by at most one cell per turn and the
      two together by at least one, each in the direction of its sign. */
  predicate Steady(c: Course) {
    && Vectors.Abs(c.ux) <= 1.0 && Vectors.Abs(c.uz) <= 1.0 && 1.0 <= Vectors.Abs(c.ux) + Vectors.Abs(c.uz)
    && c.dx == (if c.ux < 0.0 then -1 else 1) && c.dz == (if c.uz < 0.0 then -1 else 1)
  }

  /** Where the walk of `trace` is at the top of a turn: the cell `(x, z)` (column,
      row), the errors `ex` and `ez` of the two axes, and the ray's height `y`. */
  datatype Probe = Probe(x: int, z: int, ex: real, ez: real, y: real)

  /** Both errors are in the range their axes keep them in. */
  predicate Poised(p: Probe, c: Course) {
    AxisInvariant(p.ex, c.dx, c.ux) && AxisInvariant(p.ez, c.dz, c.uz)
  }

  /** The end of a turn that does not stop the walk: both axes advance and the ray
      rises. */
  function Next(p: Probe, c: Course): (q: Probe)
    ensures Poised(p, c) ==> Poised(q, c)
  {
    var ax, az := Advance(p.x, p.ex, c.dx, c.ux), Advance(p.z, p.ez, c.dz, c.uz);
    var q := Probe(ax.0, az.0, ax.1, az.1, p.y + c.rise);
    if Poised(p, c) then
      AdvanceStep(p.x, p.ex, c.dx, c.ux, 0);
      AdvanceStep(p.z, p.ez, c.dz, c.uz, 0);
      q
    else q
  }

  /** The probe after `k` turns that did not stop the walk. */
  function Iterate(p: Probe, c: Course, k: nat): Probe
    decreases k
  {
    if k == 0 then p else Iterate(Next(p, c), c, k - 1)
  }

  class Terrain {
    var xCorner: real
    var yCorner: real
    var cellSize: real
    /** The height map's shape: `rows` (its `size_x`) by `cols` (its `size_y`),
        stored row-major in `heightMap`. */
    var rows: nat
    var cols: nat
    var heightMap: seq<real>
    var vertRows: nat
    var vertCols: nat
    var verts: seq<Vertex>
    var quadRows: nat
    var quadCols: nat
    var quads: seq<Quad>

    ghost predicate Valid()
      reads this
    {
      && |heightMap| == rows * cols
      && |verts| == vertRows * vertCols
      && |quads| == quadRows * quadCols
    }

    /** Empty grids, each of the shape an empty `xarray` has (0 by 1). */
    constructor ()
      ensures Valid()
      ensures rows == 0 && cols == 1 && vertRows == 0 && vertCols == 1 && quadRows == 0 && quadCols == 1
    {
      xCorner, yCorner, cellSize := 0.0, 0.0, 0.0;
      rows, cols := 0, 1;
      heightMap := [];
      vertRows, vertCols := 0, 1;
      verts := [];
      quadRows, quadCols := 0, 1;
      quads := [];
    }

    /** `loadFrom_DEM_ASCII`, after the header (`xSize` columns, `ySize` rows, the
        corner, the cell size, the no-data marker) and the `xSize * ySize` grid
        values, row by row, have been read. */
    method Load(xSize: nat, ySize: nat, xc: real, yc: real, cs: real, nodata: real,
                values: seq<real>, genVerts: bool)
      requires Valid()
      requires |values| == ySize * xSize
      requires genVerts ==> 1 <= xSize && 1 <= ySize
      modifies this
      ensures Valid()
      ensures xCorner == xc && yCorner == yc && cellSize == cs
      ensures rows == ySize && cols == xSize
      ensures heightMap == LoadedHeights(values, nodata, genVerts)
      ensures !genVerts ==> verts == old(verts) && vertRows == old(vertRows) && vertCols == old(vertCols)
      ensures !genVerts ==> quads == old(quads) && quadRows == old(quadRows) && quadCols == old(quadCols)
      ensures genVerts ==> vertRows == ySize && vertCols == xSize
      ensures genVerts ==> VertsLaid(heightMap, verts, xSize, cs)
      ensures genVerts ==> quadRows == ySize - 1 && quadCols == xSize - 1
      ensures genVerts ==> QuadsLaid(quads, xSize - 1, xSize)
    {
      var h, vs, qs := LoadGrids(values, nodata, genVerts, xSize, ySize, cs);
      heightMap := h;
      if genVerts {
        verts, vertRows, vertCols := vs, ySize, xSize;
        quads, quadRows, quadCols := qs, ySize - 1, xSize - 1;
      }
      xCorner, yCorner, cellSize := xc, yc, cs;
      rows, cols := ySize, xSize;
    }

    /** The three passes of the load over the grid values: the height map, and with
        `genVerts` the vertex and quad grids. */
    static method LoadGrids(values: seq<real>, nodata: real, genVerts: bool, xSize: nat, ySize: nat, cs: real)
      returns (heights: seq<real>, vs: seq<Vertex>, qs: seq<Quad>)
      requires |values| == ySize * xSize
      requires genVerts ==> 1 <= xSize && 1 <= ySize
      ensures heights == LoadedHeights(values, nodata, genVerts)
      ensures genVerts ==> VertsLaid(heights, vs, xSize, cs)
      ensures genVerts ==> |qs| == (ySize - 1) * (xSize - 1) && QuadsLaid(qs, xSize - 1, xSize)
    {
      ghost var c := Clean(values, nodata);
      var h, nv, minHeight := ReadPass(values, nodata, genVerts, xSize, ySize, cs);
      vs, qs := [], [];
      if genVerts {
        ShiftPass(h, nv, c, minHeight, xSize, ySize, cs);
        var q := QuadPass(xSize, ySize);
        vs, qs := nv[..], q[..];
      }
      heights := h[..];
    }

    /** The first pass of the load: each value read, no-data cleaned to 0, the
        vertex placed, and the running minimum kept. */
    static method ReadPass(values: seq<real>, nodata: real, genVerts: bool, xSize: nat, ySize: nat, cs: real)
      returns (h: array<real>, nv: array<Vertex>, minHeight: real)
      requires |values| == ySize * xSize
      requires genVerts ==> 1 <= xSize
      ensures fresh(h) && fresh(nv) && h.Length == |values| && nv.Length == (if genVerts then |values| else 0)
      ensures h[..] == Clean(values, nodata)
      ensures genVerts ==> VertsLaid(h[..], nv[..], xSize, cs)
      ensures minHeight == RunningMin(h[..], h.Length, MinHeightStart)
    {
      var n := ySize * xSize;
      h := new real[n];
      nv := new Vertex[if genVerts then n else 0];
      ghost var c := Clean(values, nodata);
      minHeight := MinHeightStart;
      var i, base := 0, 0;
      while i < ySize
        invariant 0 <= i <= ySize && base == i * xSize <= n
        invariant forall k :: 0 <= k < base ==> h[k] == c[k]
        invariant genVerts ==> forall k :: 0 <= k < base ==> nv[k] == GridVertex(c[k], xSize, cs, k)
        invariant minHeight == RunningMin(c, base, MinHeightStart)
      {
        assert (i + 1) * xSize == base + xSize;
        XMath.MulMonotone(i + 1, ySize, xSize);
        minHeight := ReadRow(values, nodata, genVerts, h, nv, c, i, base, xSize, cs, minHeight);
        i, base := i + 1, base + xSize;
      }
      assert h[..] == c;
      assert genVerts ==> VertsLaid(h[..], nv[..], xSize, cs);
    }

    /** One row of the first pass: the cells `base .. base + xSize` of row `i`. */
    static method ReadRow(values: seq<real>, nodata: real, genVerts: bool, h: array<real>, nv: array<Vertex>,
                          ghost c: seq<real>, i: nat, base: nat, xSize: nat, cs: real, m0: real)
      returns (minHeight: real)
      requires c == Clean(values, nodata) && h.Length == |c| && base == i * xSize && base + xSize <= |c|
      requires genVerts ==> 1 <= xSize && nv.Length == |c|
      requires forall k :: 0 <= k < base ==> h[k] == c[k]
      requires genVerts ==> forall k :: 0 <= k < base ==> nv[k] == GridVertex(c[k], xSize, cs, k)
      requires m0 == RunningMin(c, base, MinHeightStart)
      modifies h, nv
      ensures forall k :: 0 <= k < base + xSize ==> h[k] == c[k]
      ensures genVerts ==> forall k :: 0 <= k < base + xSize ==> nv[k] == GridVertex(c[k], xSize, cs, k)
      ensures minHeight == RunningMin(c, base + xSize, MinHeightStart)
    {
      minHeight := m0;
      var j := 0;
      while j < xSize
        invariant 0 <= j <= xSize
        invariant forall k :: 0 <= k < base + j ==> h[k] == c[k]
        invariant genVerts ==> forall k :: 0 <= k < base + j ==> nv[k] == GridVertex(c[k], xSize, cs, k)
        invariant minHeight == RunningMin(c, base + j, MinHeightStart)
      {
        var k := base + j;
        var v := if values[k] <= nodata then 0.0 else values[k];
        h[k] := v;
        if genVerts {
          nv[k] := Vertex(Vectors.Vec3(j as real * cs, v, i as real * cs));
          GridVertexAt(v, xSize, cs, i, j);
        }
        minHeight := if v < minHeight then v else minHeight;
        j := j + 1;
      }
    }

    /** The second pass of the load: every height and every vertex lowered by the
        minimum. */
    static method ShiftPass(h: array<real>, nv: array<Vertex>, ghost c: seq<real>, minHeight: real,
                            xSize: nat, ySize: nat, cs: real)
      requires h.Length == |c| == ySize * xSize
      requires h[..] == c && VertsLaid(c, nv[..], xSize, cs)
      modifies h, nv
      ensures h[..] == Shift(c, minHeight)
      ensures VertsLaid(h[..], nv[..], xSize, cs)
    {
      ghost var s := Shift(c, minHeight);
      var i := 0;
      while i < ySize
        invariant 0 <= i <= ySize && i * xSize <= |c|
        invariant forall k :: 0 <= k < i * xSize ==> h[k] == s[k] && nv[k] == GridVertex(s[k], xSize, cs, k)
        invariant forall k :: i * xSize <= k < |c| ==> h[k] == c[k] && nv[k] == GridVertex(c[k], xSize, cs, k)
      {
        var j := 0;
        while j < xSize
          invariant 0 <= j <= xSize && i * xSize + j <= |c|
          invariant forall k :: 0 <= k < i * xSize + j ==> h[k] == s[k] && nv[k] == GridVertex(s[k], xSize, cs, k)
          invariant forall k :: i * xSize + j <= k < |c| ==> h[k] == c[k] && nv[k] == GridVertex(c[k], xSize, cs, k)
        {
          var k := i * xSize + j;
          ArrayX.IndexInRange(i, j, ySize, xSize);
          var p := nv[k].position;
          nv[k] := Vertex(p.(y := p.y - minHeight));
          h[k] := h[k] - minHeight;
          j := j + 1;
        }
        assert (i + 1) * xSize == i * xSize + xSize;
        i := i + 1;
      }
      assert h[..] == s;
      assert VertsLaid(h[..], nv[..], xSize, cs);
    }

    /** The third pass of the load: the quad grid, one quad per cell between four
        vertices. */
    static method QuadPass(xSize: nat, ySize: nat) returns (qs: array<Quad>)
      requires 1 <= xSize && 1 <= ySize
      ensures fresh(qs) && qs.Length == (ySize - 1) * (xSize - 1)
      ensures QuadsLaid(qs[..], xSize - 1, xSize)
    {
      var qcols := xSize - 1;
      var n := (ySize - 1) * qcols;
      qs := new Quad[n];
      var i, base := 0, 0;
      while i < ySize - 1
        invariant 0 <= i <= ySize - 1 && base == i * qcols <= n
        invariant 0 < qcols ==> forall k :: 0 <= k < base ==> qs[k] == GridQuad(k, qcols, xSize)
      {
        assert (i + 1) * qcols == base + qcols;
        XMath.MulMonotone(i + 1, ySize - 1, qcols);
        QuadRow(qs, i, base, xSize);
        i, base := i + 1, base + qcols;
      }
      assert QuadsLaid(qs[..], qcols, xSize);
    }

    /** One row of the quad pass: the quads `base .. base + xSize - 1` of row `i`. */
    static method QuadRow(qs: array<Quad>, i: nat, base: nat, xSize: nat)
      requires 1 <= xSize && base == i * (xSize - 1) && base + (xSize - 1) <= qs.Length
      requires 1 < xSize ==> forall k :: 0 <= k < base ==> qs[k] == GridQuad(k, xSize - 1, xSize)
      modifies qs
      ensures 1 < xSize ==> forall k :: 0 <= k < base + (xSize - 1) ==> qs[k] == GridQuad(k, xSize - 1, xSize)
    {
      var j := 0;
      while j < xSize - 1
        invariant 0 <= j <= xSize - 1
        invariant 1 < xSize ==> forall k :: 0 <= k < base + j ==> qs[k] == GridQuad(k, xSize - 1, xSize)
      {
        var q := Quad(j + xSize * i, j + 1 + xSize * i, j + 1 + xSize * (i + 1), j + xSize * (i + 1));
        qs[base + j] := q;
        GridQuadAt(i, j, xSize - 1, xSize);
        j := j + 1;
      }
    }
  
    /** `heightMap(row, col)`. */
    function Height(row: int, col: int): real
      reads this
      requires Valid() && 0 <= row < rows && 0 <= col < cols
    {
      heightMap[ArrayX.Cell(row, col, rows, cols)]
    }

    /** Cell `(x, z)` (column, row) lies on the height map. */
    predicate InMap(c: (int, int))
      reads this
    {
      0 <= c.0 < cols && 0 <= c.1 < rows
    }

    /** `computeNormal(i, j)`: the row and column are clamped onto the map, and the
        normal is the unit vector (dx, cellSize, dz), where dx and dz are the rises
        from the cell to its neighbours at the previous column and row (zero at the
        first column and row). */
    function ComputeNormal(i: int, j: int, sqrt: real -> real): (n: Vectors.Vec3)
      reads this
      requires Valid() && 0 < rows && 0 < cols && Vectors.IsSqrt(sqrt)
      ensures cellSize != 0.0 ==> Vectors.LengthSqr(n) == 1.0
      ensures 0.0 < cellSize <==> 0.0 < n.y
      ensures var r, c := XMath.ClampInt(i, 0, rows - 1), XMath.ClampInt(j, 0, cols - 1);
        && (c == 0 ==> n.x == 0.0)
        && (c != 0 ==> (0.0 < n.x <==> Height(r, c) < Height(r, c - 1)) && (n.x < 0.0 <==> Height(r, c - 1) < Height(r, c)))
      ensures var r, c := XMath.ClampInt(i, 0, rows - 1), XMath.ClampInt(j, 0, cols - 1);
        && (r == 0 ==> n.z == 0.0)
        && (r != 0 ==> (0.0 < n.z <==> Height(r, c) < Height(r - 1, c)) && (n.z < 0.0 <==> Height(r - 1, c) < Height(r, c)))
    {
      var r := XMath.ClampInt(i, 0, rows - 1);
      var c := XMath.ClampInt(j, 0, cols - 1);
      var dx := Height(r, if c != 0 then c - 1 else c) - Height(r, c);
      var dz := Height(if r != 0 then r - 1 else r, c) - Height(r, c);
      var v := Vectors.Vec3(dx, cellSize, dz);
      Vectors.Normalized(v, sqrt)
    }

    /** The cell `trace` starts from: the start point's cell, clamped onto the map. */
    function StartCell(start: Vectors.Vec3): (c: (int, int))
      reads this
      requires 0 < rows && 0 < cols && 0.0 < cellSize
      ensures InMap(c)
    {
      (XMath.ClampInt(XMath.Trunc(start.x / cellSize), 0, cols - 1),
       XMath.ClampInt(XMath.Trunc(start.z / cellSize), 0, rows - 1))
    }

    /** The end point's cell, not clamped. */
    function EndCell(end: Vectors.Vec3): (int, int)
      reads this
      requires 0.0 < cellSize
    {
      (XMath.Trunc(end.x / cellSize), XMath.Trunc(end.z / cellSize))
    }

    /** How far the ray of `trace` rises per step of direction `dir`. */
    function Rise(dir: Vectors.Vec3): real
      reads this
    {
      dir.y * cellSize
    }

    /** The walk of `trace` stops before looking at a cell that is off the map or is
        the end cell. */
    predicate Leaves(p: Probe, c: Course)
      reads this
    {
      !InMap((p.x, p.z)) || (p.x == c.endx && p.z == c.endz)
    }

    /** The ray is more than one cell size above the probe's cell. */
    predicate Above(p: Probe)
      reads this
      requires Valid() && InMap((p.x, p.z))
    {
      Height(p.z, p.x) + cellSize - p.y < 0.0
    }

    /** The probe's cell is looked at and the walk goes on past it. */
    predicate Goes(p: Probe, c: Course)
      reads this
      requires Valid()
    {
      !Leaves(p, c) && !Above(p)
    }

    /** The hit reported at the probe's cell: the cell's corner moved by the axis
        errors, at one cell size above the cell's height. */
    function HitAt(p: Probe): Vectors.Vec3
      reads this
      requires Valid() && InMap((p.x, p.z))
    {
      Vectors.Vec3((p.x as real + p.ex) * cellSize, Height(p.z, p.x) + cellSize, (p.z as real + p.ez) * cellSize)
    }

    /** The outcome of the walk of `trace` from probe `p`: no hit once the cell is
        off the map or the end cell; a hit at the first cell the ray is more than one
        cell size above, with that cell's normal; otherwise the walk goes on from
        the next probe. It ends because every turn brings the two axes together at
        least one cell closer to the edges they move towards. A miss leaves `hit`
        and `normal` as they were. */
    function WalkFrom(p: Probe, c: Course, sqrt: real -> real, hitIn: Vectors.Vec3, normalIn: Vectors.Vec3)
      : (r: (bool, Vectors.Vec3, Vectors.Vec3))
      reads this
      requires Valid() && 0 < rows && 0 < cols && Vectors.IsSqrt(sqrt) && Steady(c) && Poised(p, c)
      ensures !r.0 ==> r.1 == hitIn && r.2 == normalIn
      decreases (EdgeDistance(p.x, p.ex, c.dx, cols) + EdgeDistance(p.z, p.ez, c.dz, rows)).Floor
    {
      if Leaves(p, c) then (false, hitIn, normalIn)
      else if Above(p) then (true, HitAt(p), ComputeNormal(p.z, p.x, sqrt))
      else
        AdvanceStep(p.x, p.ex, c.dx, c.ux, cols);
        AdvanceStep(p.z, p.ez, c.dz, c.uz, rows);
        WalkFrom(Next(p, c), c, sqrt, hitIn, normalIn)
    }

    /** One turn of the walk: a hit at a cell the ray is above, and otherwise the
        walk from the next probe, which is at least one cell closer to the edges. */
    lemma WalkTurn(p: Probe, c: Course, sqrt: real -> real, hitIn: Vectors.Vec3, normalIn: Vectors.Vec3)
      requires Valid() && 0 < rows && 0 < cols && Vectors.IsSqrt(sqrt) && Steady(c) && Poised(p, c)
      requires !Leaves(p, c)
      ensures Above(p) ==> WalkFrom(p, c, sqrt, hitIn, normalIn) == (true, HitAt(p), ComputeNormal(p.z, p.x, sqrt))
      ensures !Above(p) ==> WalkFrom(p, c, sqrt, hitIn, normalIn) == WalkFrom(Next(p, c), c, sqrt, hitIn, normalIn)
      ensures var q := Next(p, c);
        (EdgeDistance(q.x, q.ex, c.dx, cols) + EdgeDistance(q.z, q.ez, c.dz, rows)).Floor
          < (EdgeDistance(p.x, p.ex, c.dx, cols) + EdgeDistance(p.z, p.ez, c.dz, rows)).Floor
    {
      AdvanceStep(p.x, p.ex, c.dx, c.ux, cols);
      AdvanceStep(p.z, p.ez, c.dz, c.uz, rows);
    }

    /** The walk stops at its first turn `k` that does not go on: it misses when that
        turn's cell is off the map or the end cell, and otherwise hits there. */
    lemma {:induction false} WalkFirstStop(p: Probe, c: Course, sqrt: real -> real,
                                           hitIn: Vectors.Vec3, normalIn: Vectors.Vec3, k: nat)
      requires Valid() && 0 < rows && 0 < cols && Vectors.IsSqrt(sqrt) && Steady(c) && Poised(p, c)
      requires forall j :: 0 <= j < k ==> Goes(Iterate(p, c, j), c)
      ensures var q := Iterate(p, c, k);
        && (Leaves(q, c) ==> WalkFrom(p, c, sqrt, hitIn, normalIn) == (false, hitIn, normalIn))
        && (!Leaves(q, c) && Above(q) ==>
              WalkFrom(p, c, sqrt, hitIn, normalIn) == (true, HitAt(q), ComputeNormal(q.z, q.x, sqrt)))
      decreases k
    {
      if k != 0 {
        assert Goes(Iterate(p, c, 0), c);
        var n := Next(p, c);
        forall j | 0 <= j < k - 1
          ensures Goes(Iterate(n, c, j), c)
        {
          assert Iterate(p, c, j + 1) == Iterate(n, c, j);
        }
        WalkFirstStop(n, c, sqrt, hitIn, normalIn, k - 1);
      }
    }

    /** The course `trace` walks from `start` towards `end`: the end cell, the
        direction divided by its horizontal length, the sign of each of its
        horizontal components, and the rise per turn. */
    function CourseOf(start: Vectors.Vec3, end: Vectors.Vec3, sqrt: real -> real): (c: Course)
      reads this
      requires 0.0 < cellSize && Vectors.IsSqrt(sqrt)
      ensures !(start.x == end.x && start.z == end.z) ==> Steady(c)
    {
      var dir := StepDirection(start, end, sqrt);
      var e := EndCell(end);
      Course(e.0, e.1, dir.x, dir.z, if dir.x < 0.0 then -1 else 1, if dir.z < 0.0 then -1 else 1, Rise(dir))
    }

    /** What `trace(start, end, hit, normal)` reports. When the start and end cells
        coincide, the ray hits iff the start is at most one cell size above the
        cell's height, at the start point lowered onto the cell. A vertical ray
        between different cells misses. Otherwise it is the walk from the start
        cell with both errors 0. A miss leaves `hit` and `normal` as they were. */
    function TraceOf(start: Vectors.Vec3, end: Vectors.Vec3, hitIn: Vectors.Vec3, normalIn: Vectors.Vec3,
                     sqrt: real -> real): (r: (bool, Vectors.Vec3, Vectors.Vec3))
      reads this
      requires Valid() && 0 < rows && 0 < cols && 0.0 < cellSize && Vectors.IsSqrt(sqrt)
      ensures !r.0 ==> r.1 == hitIn && r.2 == normalIn
      ensures var s := StartCell(start);
        s == EndCell(end) ==>
          && (r.0 <==> start.y <= Height(s.1, s.0) + cellSize)
          && (r.0 ==> r.1 == Vectors.Vec3(start.x, Height(s.1, s.0), start.z) && r.2 == ComputeNormal(s.1, s.0, sqrt))
      ensures StartCell(start) != EndCell(end) && start.x == end.x && start.z == end.z ==> !r.0
    {
      var s := StartCell(start);
      if s == EndCell(end) then
        if Height(s.1, s.0) + cellSize - start.y < 0.0 then (false, hitIn, normalIn)
        else (true, Vectors.Vec3(start.x, Height(s.1, s.0), start.z), ComputeNormal(s.1, s.0, sqrt))
      else if start.x == end.x && start.z == end.z then (false, hitIn, normalIn)
      else WalkFrom(Probe(s.0, s.1, 0.0, 0.0, start.y), CourseOf(start, end, sqrt), sqrt, hitIn, normalIn)
    }

    /** `trace(start, end, hit, normal)`: the start and end cells, the same-cell test,
        then the walk. */
    method Trace(start: Vectors.Vec3, end: Vectors.Vec3, hitIn: Vectors.Vec3, normalIn: Vectors.Vec3,
                 sqrt: real -> real)
      returns (found: bool, hit: Vectors.Vec3, normal: Vectors.Vec3)
      requires Valid() && 0 < rows && 0 < cols && 0.0 < cellSize && Vectors.IsSqrt(sqrt)
      ensures (found, hit, normal) == TraceOf(start, end, hitIn, normalIn, sqrt)
    {
      found, hit, normal := false, hitIn, normalIn;
      var dir := StepDirection(start, end, sqrt);
      var s, e := StartCell(start), EndCell(end);
      var x, z, endx, endz := s.0, s.1, e.0, e.1;
      var prevBelow := Height(z, x) + cellSize - start.y < 0.0;
      if x == endx && z == endz {
        if !prevBelow {
          found := true;
          hit := Vectors.Vec3(start.x, Height(z, x), start.z);
          normal := ComputeNormal(z, x, sqrt);
        }
        return;
      }
      if dir == Vectors.Zero3 {
        return;
      }
      var dx := if dir.x < 0.0 then -1 else 1;
      var dz := if dir.z < 0.0 then -1 else 1;
      var c := Course(endx, endz, dir.x, dir.z, dx, dz, Rise(dir));
      assert c == CourseOf(start, end, sqrt);
      found, hit, normal := Walk(Probe(x, z, 0.0, 0.0, start.y), c, hitIn, normalIn, sqrt);
    }

    /** The loop of `trace` from probe `p0`: the cell, errors and height are updated
        turn by turn until the cell is off the map or the end cell, or the ray is more
        than one cell size above it. */
    method Walk(p0: Probe, c: Course, hitIn: Vectors.Vec3, normalIn: Vectors.Vec3, sqrt: real -> real)
      returns (found: bool, hit: Vectors.Vec3, normal: Vectors.Vec3)
      requires Valid() && 0 < rows && 0 < cols && Vectors.IsSqrt(sqrt) && Steady(c) && Poised(p0, c)
      ensures (found, hit, normal) == WalkFrom(p0, c, sqrt, hitIn, normalIn)
    {
      var p := p0;
      while InMap((p.x, p.z)) && (p.x != c.endx || p.z != c.endz)
        invariant Poised(p, c)
        invariant WalkFrom(p, c, sqrt, hitIn, normalIn) == WalkFrom(p0, c, sqrt, hitIn, normalIn)
        decreases (EdgeDistance(p.x, p.ex, c.dx, cols) + EdgeDistance(p.z, p.ez, c.dz, rows)).Floor
      {
        WalkTurn(p, c, sqrt, hitIn, normalIn);
        if Height(p.z, p.x) + cellSize - p.y < 0.0 {
          return true, HitAt(p), ComputeNormal(p.z, p.x, sqrt);
        }
        p := Next(p, c);
      }
      return false, hitIn, normalIn;
    }
  }
}
