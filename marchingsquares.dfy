/** Marching squares over a raster of float values: every cell of four pixels
    gets a case index from which of its corners lie above the threshold, and the
    case emits its contour segments, translated to the cell. `reducePolygons`
    then joins polygons whose ends meet and drops the emptied ones. */
module MarchingSquares {
  import opened Wrappers
  import opened Vectors

  /** `Polygon2d`: a polyline of points. */
  datatype Polygon = Polygon(points: seq<Vec2>)

  // ------------------------------------------------------------------ offset

  /** The points moved by `offset`. */
  function Shift(points: seq<Vec2>, offset: Vec2): (r: seq<Vec2>)
    ensures |r| == |points|
  {
    seq(|points|, k requires 0 <= k < |points| => Add2(points[k], offset))
  }

  /** Shifting back by the opposite offset gives the points back. */
  lemma ShiftInverse(points: seq<Vec2>, offset: Vec2)
    ensures Shift(Shift(points, offset), Vec2(-offset.x, -offset.y)) == points
  {
    var back := Shift(Shift(points, offset), Vec2(-offset.x, -offset.y));
    assert forall k :: 0 <= k < |points| ==> back[k] == points[k];
  }

  /** Two shifts are one shift by the sum of the offsets. */
  lemma ShiftTwice(points: seq<Vec2>, a: Vec2, b: Vec2)
    ensures Shift(Shift(points, a), b) == Shift(points, Add2(a, b))
  {
  }

  /** `Polygon2d::addOffset`: every point moved by `offset`, in place. */
  method AddOffset(p: Polygon, offset: Vec2) returns (q: Polygon)
    ensures q.points == Shift(p.points, offset)
  {
    var points := p.points;
    for i := 0 to |points|
      invariant |points| == |p.points|
      invariant forall k :: 0 <= k < i ==> points[k] == Add2(p.points[k], offset)
      invariant forall k :: i <= k < |points| ==> points[k] == p.points[k]
    {
      points := points[i := Add2(points[i], offset)];
    }
    q := Polygon(points);
  }

  // -------------------------------------------------------------- case table

  /** The corners of a cell in the order of `pixelVal`: (i, j), (i + 1, j),
      (i + 1, j + 1), (i, j + 1), as offsets from (i, j). */
  function Corner(c: nat): Vec2
    requires c < 4
  {
    [Vec2(0.0, 0.0), Vec2(1.0, 0.0), Vec2(1.0, 1.0), Vec2(0.0, 1.0)][c]
  }

  /** Whether corner `c` lies above the threshold in case `n`: bit `c` of `n`. */
  predicate Above(n: nat, c: nat)
    requires c < 4
  {
    match c
    case 0 => n % 2 == 1
    case 1 => (n / 2) % 2 == 1
    case 2 => (n / 4) % 2 == 1
    case 3 => (n / 8) % 2 == 1
  }

  /** The midpoint of edge `e`, the one from corner `e` to the next corner. */
  function Mid(e: nat): Vec2
    requires e < 4
  {
    match e
    case 0 => Vec2(0.5, 0.0)
    case 1 => Vec2(1.0, 0.5)
    case 2 => Vec2(0.5, 1.0)
    case 3 => Vec2(0.0, 0.5)
  }

  /** `Mid(e)` is halfway between the two corners of edge `e`. */
  lemma MidIsMidpoint(e: nat)
    requires e < 4
    ensures Mid(e) == Vec2((Corner(e).x + Corner((e + 1) % 4).x) / 2.0, (Corner(e).y + Corner((e + 1) % 4).y) / 2.0)
  {
  }

  /** Whether the contour crosses edge `e` in case `n`: its two corners lie on
      opposite sides of the threshold. */
  predicate Crosses(n: nat, e: nat)
    requires e < 4
  {
    Above(n, e) != Above(n, (e + 1) % 4)
  }

  /** The midpoints of the edges the contour crosses in case `n`, by edge. */
  function Crossings(n: nat): seq<Vec2> {
    (if Crosses(n, 0) then [Mid(0)] else []) + (if Crosses(n, 1) then [Mid(1)] else [])
      + (if Crosses(n, 2) then [Mid(2)] else []) + (if Crosses(n, 3) then [Mid(3)] else [])
  }

  /** A two-point segment. */
  function Seg(a: Vec2, b: Vec2): Polygon {
    Polygon([a, b])
  }

  /** The case table `cases[16]` of `marchingSquares`: the segments of case `n`,
      between the midpoints of the bottom (y = 0), right (x = 1), top (y = 1) and
      left (x = 0) edges of the cell. */
  function Cases(n: nat): seq<Polygon>
    requires n < 16
  {
    match n
    case 0 => []
    case 1 => [Seg(Vec2(0.5, 0.0), Vec2(0.0, 0.5))]
    case 2 => [Seg(Vec2(1.0, 0.5), Vec2(0.5, 0.0))]
    case 3 => [Seg(Vec2(0.0, 0.5), Vec2(1.0, 0.5))]
    case 4 => [Seg(Vec2(0.5, 1.0), Vec2(1.0, 0.5))]
    case 5 => [Seg(Vec2(0.5, 1.0), Vec2(0.0, 0.5)), Seg(Vec2(0.5, 0.0), Vec2(1.0, 0.5))]
    case 6 => [Seg(Vec2(0.5, 1.0), Vec2(0.5, 0.0))]
    case 7 => [Seg(Vec2(0.5, 1.0), Vec2(0.0, 0.5))]
    case 8 => [Seg(Vec2(0.0, 0.5), Vec2(0.5, 1.0))]
    case 9 => [Seg(Vec2(0.5, 0.0), Vec2(0.5, 1.0))]
    case 10 => [Seg(Vec2(1.0, 0.5), Vec2(0.5, 1.0)), Seg(Vec2(0.0, 0.5), Vec2(0.5, 0.0))]
    case 11 => [Seg(Vec2(1.0, 0.5), Vec2(0.5, 1.0))]
    case 12 => [Seg(Vec2(1.0, 0.5), Vec2(0.0, 0.5))]
    case 13 => [Seg(Vec2(0.5, 0.0), Vec2(1.0, 0.5))]
    case 14 => [Seg(Vec2(0.0, 0.5), Vec2(0.5, 0.0))]
    case _ => []
  }

  /** All the points of `segs`, in order. */
  function Endpoints(segs: seq<Polygon>): seq<Vec2> {
    if segs == [] then [] else segs[0].points + Endpoints(segs[1..])
  }

  /** The case table: cases 0 and 15 emit nothing, cases 5 and 10 two segments,
      every other case one; every segment has two points; and the endpoints of a
      case are exactly the midpoints of the edges its contour crosses, each
      once. */
  lemma CaseTable(n: nat)
    requires n < 16
    ensures |Cases(n)| == 0 <==> n == 0 || n == 15
    ensures |Cases(n)| == 2 <==> n == 5 || n == 10
    ensures |Cases(n)| <= 2
    ensures forall k :: 0 <= k < |Cases(n)| ==> |Cases(n)[k].points| == 2
    ensures multiset(Endpoints(Cases(n))) == multiset(Crossings(n))
  {
    CaseSizes(n);
    CaseCrossings(n);
  }

  lemma CaseSizes(n: nat)
    requires n < 16
    ensures |Cases(n)| == 0 <==> n == 0 || n == 15
    ensures |Cases(n)| == 2 <==> n == 5 || n == 10
    ensures |Cases(n)| <= 2
    ensures forall k :: 0 <= k < |Cases(n)| ==> |Cases(n)[k].points| == 2
  {
  }

  lemma CaseCrossings(n: nat)
    requires n < 16
    ensures multiset(Endpoints(Cases(n))) == multiset(Crossings(n))
  {
    if n == 0 {
      CaseRow0();
    } else if n == 1 {
      CaseRow1();
    } else if n == 2 {
      CaseRow2();
    } else if n == 3 {
      CaseRow3();
    } else if n == 4 {
      CaseRow4();
    } else if n == 5 {
      CaseRow5();
    } else if n == 6 {
      CaseRow6();
    } else if n == 7 {
      CaseRow7();
    } else if n == 8 {
      CaseRow8();
    } else if n == 9 {
      CaseRow9();
    } else if n == 10 {
      CaseRow10();
    } else if n == 11 {
      CaseRow11();
    } else if n == 12 {
      CaseRow12();
    } else if n == 13 {
      CaseRow13();
    } else if n == 14 {
      CaseRow14();
    } else if n == 15 {
      CaseRow15();
    }
  }

  lemma SwapPoints(a: Vec2, b: Vec2)
    ensures multiset([b, a]) == multiset([a, b])
  {
  }

  lemma RotatePoints(a: Vec2, b: Vec2, c: Vec2, d: Vec2)
    ensures multiset([b, c, d, a]) == multiset([a, b, c, d])
  {
  }

  lemma HalfTurnPoints(a: Vec2, b: Vec2, c: Vec2, d: Vec2)
    ensures multiset([c, d, a, b]) == multiset([a, b, c, d])
  {
  }

  lemma CaseRow0()
    ensures multiset(Endpoints(Cases(0))) == multiset(Crossings(0))
  {
    assert Crossings(0) == [];
    assert Endpoints(Cases(0)) == [];
  }

  lemma CaseRow1()
    ensures multiset(Endpoints(Cases(1))) == multiset(Crossings(1))
  {
    assert Crossings(1) == [Mid(0), Mid(3)];
    assert Endpoints(Cases(1)) == [Mid(0), Mid(3)];
  }

  lemma CaseRow2()
    ensures multiset(Endpoints(Cases(2))) == multiset(Crossings(2))
  {
    assert Crossings(2) == [Mid(0), Mid(1)];
    assert Endpoints(Cases(2)) == [Mid(1), Mid(0)];
    SwapPoints(Mid(0), Mid(1));
  }

  lemma CaseRow3()
    ensures multiset(Endpoints(Cases(3))) == multiset(Crossings(3))
  {
    assert Crossings(3) == [Mid(1), Mid(3)];
    assert Endpoints(Cases(3)) == [Mid(3), Mid(1)];
    SwapPoints(Mid(1), Mid(3));
  }

  lemma CaseRow4()
    ensures multiset(Endpoints(Cases(4))) == multiset(Crossings(4))
  {
    assert Crossings(4) == [Mid(1), Mid(2)];
    assert Endpoints(Cases(4)) == [Mid(2), Mid(1)];
    SwapPoints(Mid(1), Mid(2));
  }

  lemma CaseRow5()
    ensures multiset(Endpoints(Cases(5))) == multiset(Crossings(5))
  {
    assert Crossings(5) == [Mid(0), Mid(1), Mid(2), Mid(3)];
    assert Endpoints(Cases(5)) == [Mid(2), Mid(3), Mid(0), Mid(1)];
    HalfTurnPoints(Mid(0), Mid(1), Mid(2), Mid(3));
  }

  lemma CaseRow6()
    ensures multiset(Endpoints(Cases(6))) == multiset(Crossings(6))
  {
    assert Crossings(6) == [Mid(0), Mid(2)];
    assert Endpoints(Cases(6)) == [Mid(2), Mid(0)];
    SwapPoints(Mid(0), Mid(2));
  }

  lemma CaseRow7()
    ensures multiset(Endpoints(Cases(7))) == multiset(Crossings(7))
  {
    assert Crossings(7) == [Mid(2), Mid(3)];
    assert Endpoints(Cases(7)) == [Mid(2), Mid(3)];
  }

  lemma CaseRow8()
    ensures multiset(Endpoints(Cases(8))) == multiset(Crossings(8))
  {
    assert Crossings(8) == [Mid(2), Mid(3)];
    assert Endpoints(Cases(8)) == [Mid(3), Mid(2)];
    SwapPoints(Mid(2), Mid(3));
  }

  lemma CaseRow9()
    ensures multiset(Endpoints(Cases(9))) == multiset(Crossings(9))
  {
    assert Crossings(9) == [Mid(0), Mid(2)];
    assert Endpoints(Cases(9)) == [Mid(0), Mid(2)];
  }

  lemma CaseRow10()
    ensures multiset(Endpoints(Cases(10))) == multiset(Crossings(10))
  {
    assert Crossings(10) == [Mid(0), Mid(1), Mid(2), Mid(3)];
    assert Endpoints(Cases(10)) == [Mid(1), Mid(2), Mid(3), Mid(0)];
    RotatePoints(Mid(0), Mid(1), Mid(2), Mid(3));
  }

  lemma CaseRow11()
    ensures multiset(Endpoints(Cases(11))) == multiset(Crossings(11))
  {
    assert Crossings(11) == [Mid(1), Mid(2)];
    assert Endpoints(Cases(11)) == [Mid(1), Mid(2)];
  }

  lemma CaseRow12()
    ensures multiset(Endpoints(Cases(12))) == multiset(Crossings(12))
  {
    assert Crossings(12) == [Mid(1), Mid(3)];
    assert Endpoints(Cases(12)) == [Mid(1), Mid(3)];
  }

  lemma CaseRow13()
    ensures multiset(Endpoints(Cases(13))) == multiset(Crossings(13))
  {
    assert Crossings(13) == [Mid(0), Mid(1)];
    assert Endpoints(Cases(13)) == [Mid(0), Mid(1)];
  }

  lemma CaseRow14()
    ensures multiset(Endpoints(Cases(14))) == multiset(Crossings(14))
  {
    assert Crossings(14) == [Mid(0), Mid(3)];
    assert Endpoints(Cases(14)) == [Mid(3), Mid(0)];
    SwapPoints(Mid(0), Mid(3));
  }

  lemma CaseRow15()
    ensures multiset(Endpoints(Cases(15))) == multiset(Crossings(15))
  {
    assert Crossings(15) == [];
    assert Endpoints(Cases(15)) == [];
  }

  /** The points of every case lie in the unit cell. */
  lemma CasePointsInCell(n: nat, k: nat, m: nat)
    requires n < 16 && k < |Cases(n)| && m < |Cases(n)[k].points|
    ensures 0.0 <= Cases(n)[k].points[m].x <= 1.0 && 0.0 <= Cases(n)[k].points[m].y <= 1.0
  {
  }

  // -------------------------------------------------------------- case index

  function Bit(b: bool): nat {
    if b then 1 else 0
  }

  /** The case index `b[0] + b[1]*2 + b[2]*4 + b[3]*8` of a cell whose corners
      hold `v0` .. `v3`, in `pixelVal` order: in [0, 15], with bit `c` set
      exactly when corner `c` lies above the threshold. */
  function CaseIndex(v0: real, v1: real, v2: real, v3: real, threshold: real): (n: nat)
    ensures n < 16
    ensures Above(n, 0) <==> v0 > threshold
    ensures Above(n, 1) <==> v1 > threshold
    ensures Above(n, 2) <==> v2 > threshold
    ensures Above(n, 3) <==> v3 > threshold
  {
    Bit(v0 > threshold) + Bit(v1 > threshold) * 2 + Bit(v2 > threshold) * 4 + Bit(v3 > threshold) * 8
  }

  /** The case index is a bijection: different above/below patterns give
      different cases. */
  lemma CaseIndexInjective(v: seq<real>, w: seq<real>, t: real)
    requires |v| == 4 && |w| == 4
    requires CaseIndex(v[0], v[1], v[2], v[3], t) == CaseIndex(w[0], w[1], w[2], w[3], t)
    ensures forall c :: 0 <= c < 4 ==> (v[c] > t <==> w[c] > t)
  {
    var n := CaseIndex(v[0], v[1], v[2], v[3], t);
    assert forall c :: 0 <= c < 4 ==> (Above(n, c) <==> v[c] > t) && (Above(n, c) <==> w[c] > t);
  }

  // ------------------------------------------------------------------ cells

  /** The case of cell (i, j) of a raster whose pixel (x, y) holds `value((x, y))`. */
  function CellCase(value: ((nat, nat)) -> real, threshold: real, i: nat, j: nat): (n: nat)
    ensures n < 16
  {
    CaseIndex(value((i, j)), value((i + 1, j)), value((i + 1, j + 1)), value((i, j + 1)), threshold)
  }

  /** The segments of case `n` moved to cell (i, j). */
  function Placed(segs: seq<Polygon>, i: nat, j: nat): (r: seq<Polygon>)
    ensures |r| == |segs|
  {
    seq(|segs|, k requires 0 <= k < |segs| => Polygon(Shift(segs[k].points, Vec2(i as real, j as real))))
  }

  /** What cell (i, j) emits: its case's segments, translated by (i, j). */
  function CellSegments(value: ((nat, nat)) -> real, threshold: real, i: nat, j: nat): seq<Polygon> {
    Placed(Cases(CellCase(value, threshold, i, j)), i, j)
  }

  /** What the cells (i, 0) .. (i, j - 1) of column `i` emit, in order. */
  function Column(value: ((nat, nat)) -> real, threshold: real, i: nat, j: nat): seq<Polygon> {
    if j == 0 then [] else Column(value, threshold, i, j - 1) + CellSegments(value, threshold, i, j - 1)
  }

  /** The number of cells along a side of `n` pixels. */
  function Cells(n: nat): nat {
    if n == 0 then 0 else n - 1
  }

  /** What the first `i` columns emit, each of `cells` cells. */
  function Columns(value: ((nat, nat)) -> real, threshold: real, i: nat, cells: nat): seq<Polygon> {
    if i == 0 then [] else Columns(value, threshold, i - 1, cells) + Column(value, threshold, i - 1, cells)
  }

  /** The loop over the case's segments for cell (i, j): each is copied, moved by
      (i, j) and appended. */
  method EmitCell(polygons: seq<Polygon>, value: ((nat, nat)) -> real, threshold: real, i: nat, j: nat)
    returns (out: seq<Polygon>)
    ensures out == polygons + CellSegments(value, threshold, i, j)
  {
    var n := CaseIndex(value((i, j)), value((i + 1, j)), value((i + 1, j + 1)), value((i, j + 1)), threshold);
    var segs := Cases(n);
    out := polygons;
    for p := 0 to |segs|
      invariant out == polygons + Placed(segs, i, j)[..p]
    {
      var q := AddOffset(segs[p], Vec2(i as real, j as real));
      out := out + [q];
    }
    assert Placed(segs, i, j)[..|segs|] == CellSegments(value, threshold, i, j);
  }

  /** The inner loop of `marchingSquares`: the cells of column `i`, in order. */
  method EmitColumn(polygons: seq<Polygon>, value: ((nat, nat)) -> real, threshold: real, i: nat, height: nat)
    returns (out: seq<Polygon>)
    ensures out == polygons + Column(value, threshold, i, Cells(height))
  {
    out := polygons;
    var j := 0;
    while j < Cells(height)
      invariant j <= Cells(height)
      invariant out == polygons + Column(value, threshold, i, j)
    {
      out := EmitCell(out, value, threshold, i, j);
      j := j + 1;
    }
  }

  /** The cell loops of `marchingSquares`, over a raster of `width` by `height`
      float values (after resizing), column by column: every cell appends its
      case's segments, translated to the cell. */
  method Contours(value: ((nat, nat)) -> real, threshold: real, width: nat, height: nat)
    returns (polygons: seq<Polygon>)
    ensures polygons == Columns(value, threshold, Cells(width), Cells(height))
  {
    polygons := [];
    var i := 0;
    while i < Cells(width)
      invariant i <= Cells(width)
      invariant polygons == Columns(value, threshold, i, Cells(height))
    {
      polygons := EmitColumn(polygons, value, threshold, i, height);
      i := i + 1;
    }
  }

  /** The points of `polygons` lie in [0, w] x [0, h], and each has two. */
  predicate SegmentsWithin(polygons: seq<Polygon>, w: real, h: real) {
    forall k :: 0 <= k < |polygons| ==>
      && |polygons[k].points| == 2
      && forall m :: 0 <= m < 2 ==> 0.0 <= polygons[k].points[m].x <= w && 0.0 <= polygons[k].points[m].y <= h
  }

  /** A cell emits two-point segments inside the cell. */
  lemma CellWithin(value: ((nat, nat)) -> real, threshold: real, i: nat, j: nat)
    ensures SegmentsWithin(CellSegments(value, threshold, i, j), i as real + 1.0, j as real + 1.0)
  {
    var n := CellCase(value, threshold, i, j);
    CaseTable(n);
    var segs := CellSegments(value, threshold, i, j);
    forall k, m | 0 <= k < |segs| && 0 <= m < 2
      ensures 0.0 <= segs[k].points[m].x <= i as real + 1.0 && 0.0 <= segs[k].points[m].y <= j as real + 1.0
    {
      CasePointsInCell(n, k, m);
    }
  }

  lemma WithinGrows(a: seq<Polygon>, w: real, h: real, w2: real, h2: real)
    requires SegmentsWithin(a, w, h) && w <= w2 && h <= h2
    ensures SegmentsWithin(a, w2, h2)
  {
  }

  lemma WithinAppend(a: seq<Polygon>, b: seq<Polygon>, w: real, h: real)
    requires SegmentsWithin(a, w, h) && SegmentsWithin(b, w, h)
    ensures SegmentsWithin(a + b, w, h)
  {
    var ab := a + b;
    forall k | 0 <= k < |ab|
      ensures |ab[k].points| == 2
      ensures forall m :: 0 <= m < 2 ==> 0.0 <= ab[k].points[m].x <= w && 0.0 <= ab[k].points[m].y <= h
    {
      if k < |a| {
        assert ab[k] == a[k];
      } else {
        assert ab[k] == b[k - |a|];
      }
    }
  }

  /** The first `j` cells of column `i` emit two-point segments inside
      [0, i + 1] x [0, j]. */
  lemma {:induction false} ColumnWithin(value: ((nat, nat)) -> real, threshold: real, i: nat, j: nat)
    ensures SegmentsWithin(Column(value, threshold, i, j), i as real + 1.0, j as real)
  {
    if j > 0 {
      ColumnWithin(value, threshold, i, j - 1);
      WithinGrows(Column(value, threshold, i, j - 1), i as real + 1.0, (j - 1) as real, i as real + 1.0, j as real);
      CellWithin(value, threshold, i, j - 1);
      WithinAppend(Column(value, threshold, i, j - 1), CellSegments(value, threshold, i, j - 1), i as real + 1.0, j as real);
    }
  }

  /** Everything the first `i` columns of `cells` cells emit is a two-point
      segment inside [0, i] x [0, cells]; so on a `width` by `height` raster,
      inside [0, width - 1] x [0, height - 1]. */
  lemma {:induction false} ColumnsWithin(value: ((nat, nat)) -> real, threshold: real, i: nat, cells: nat)
    ensures SegmentsWithin(Columns(value, threshold, i, cells), i as real, cells as real)
  {
    if i > 0 {
      ColumnsWithin(value, threshold, i - 1, cells);
      WithinGrows(Columns(value, threshold, i - 1, cells), (i - 1) as real, cells as real, i as real, cells as real);
      ColumnWithin(value, threshold, i - 1, cells);
      WithinAppend(Columns(value, threshold, i - 1, cells), Column(value, threshold, i - 1, cells), i as real, cells as real);
    }
  }

  // ------------------------------------------------------------ reduction

  /** Two points closer than the tolerance: squared distance below 0.00001. */
  predicate Close(p: Vec2, q: Vec2) {
    LengthSqr2(Sub2(p, q)) < 0.00001
  }

  /** Polygon `q` continues polygon `p`: both have points, and `p` ends where `q`
      starts. */
  predicate Joinable(p: Polygon, q: Polygon) {
    p.points != [] && q.points != [] && Close(p.points[|p.points| - 1], q.points[0])
  }

  /** `reducePolygons` may join polygon `j` onto polygon `i`. */
  predicate Mergeable(ps: seq<Polygon>, i: nat, j: nat) {
    i < |ps| && j < |ps| && i != j && Joinable(ps[i], ps[j])
  }

  /** No polygon continues another. */
  predicate NoJoins(ps: seq<Polygon>) {
    forall i, j :: 0 <= i < |ps| && 0 <= j < |ps| && i != j ==> !Joinable(ps[i], ps[j])
  }

  /** (a, b) comes at or after (i, j) in the scan order, row by row. */
  predicate AtOrAfter(a: nat, b: nat, i: nat, j: nat) {
    i < a || (i == a && j <= b)
  }

  /** The first pair the scan of `reducePolygons` finds, from (i, j) on: the
      first `i` in order, and for it the first `j`, that may be joined. None
      when there is none; otherwise a pair that may be joined, before which no
      pair may. */
  function FirstJoinFrom(ps: seq<Polygon>, i: nat, j: nat): (r: Option<(nat, nat)>)
    requires j <= |ps|
    ensures r.Some? ==> Mergeable(ps, r.value.0, r.value.1) && AtOrAfter(r.value.0, r.value.1, i, j)
    ensures r.Some? ==> forall a, b :: AtOrAfter(a, b, i, j) && !AtOrAfter(a, b, r.value.0, r.value.1) ==> !Mergeable(ps, a, b)
    ensures r.None? ==> forall a, b :: AtOrAfter(a, b, i, j) ==> !Mergeable(ps, a, b)
    decreases |ps| - i, |ps| - j
  {
    if |ps| <= i then None
    else if j == |ps| then FirstJoinFrom(ps, i + 1, 0)
    else if Mergeable(ps, i, j) then Some((i, j))
    else FirstJoinFrom(ps, i, j + 1)
  }

  function FirstJoin(ps: seq<Polygon>): (r: Option<(nat, nat)>)
    ensures r.None? <==> NoJoins(ps)
    ensures r.Some? ==> Mergeable(ps, r.value.0, r.value.1)
  {
    var r := FirstJoinFrom(ps, 0, 0);
    if r.Some? then
      assert !NoJoins(ps) by {
        var a, b := r.value.0, r.value.1;
        assert 0 <= a < |ps| && 0 <= b < |ps| && a != b && Joinable(ps[a], ps[b]);
      }
      r
    else
      assert NoJoins(ps) by {
        forall a, b | 0 <= a < |ps| && 0 <= b < |ps| && a != b
          ensures !Joinable(ps[a], ps[b])
        {
          assert AtOrAfter(a, b, 0, 0);
          assert !Mergeable(ps, a, b);
        }
      }
      r
  }

  /** The scan of `reducePolygons` for the first pair to join. */
  method FindJoin(ps: seq<Polygon>) returns (join: Option<(nat, nat)>)
    ensures join == FirstJoin(ps)
  {
    var i := 0;
    while i < |ps|
      invariant i <= |ps| && FirstJoinFrom(ps, i, 0) == FirstJoinFrom(ps, 0, 0)
    {
      var j := 0;
      while j < |ps|
        invariant j <= |ps| && FirstJoinFrom(ps, i, j) == FirstJoinFrom(ps, 0, 0)
      {
        if i != j && ps[i].points != [] && ps[j].points != []
          && Close(ps[i].points[|ps[i].points| - 1], ps[j].points[0])
        {
          return Some((i, j));
        }
        j := j + 1;
      }
      i := i + 1;
    }
    return None;
  }

  /** Polygon `i` extended by the points of polygon `j` after its first, and
      polygon `j` emptied. */
  function Merged(ps: seq<Polygon>, i: nat, j: nat): (r: seq<Polygon>)
    requires Mergeable(ps, i, j)
    ensures |r| == |ps|
  {
    ps[i := Polygon(ps[i].points + ps[j].points[1..])][j := Polygon([])]
  }

  /** The points of polygon `j` after its first appended to polygon `i`, and
      polygon `j` cleared, as one merge of `reducePolygons` does it. */
  method Merge(ps: seq<Polygon>, i: nat, j: nat) returns (merged: seq<Polygon>)
    requires Mergeable(ps, i, j)
    ensures merged == Merged(ps, i, j)
  {
    var points := ps[i].points;
    var k := 1;
    while k < |ps[j].points|
      invariant 1 <= k <= |ps[j].points|
      invariant points == ps[i].points + ps[j].points[1..k]
    {
      points := points + [ps[j].points[k]];
      k := k + 1;
    }
    assert ps[j].points[1..k] == ps[j].points[1..];
    merged := ps[i := Polygon(points)];
    merged := merged[j := Polygon([])];
  }

  function PointCount(p: Polygon): nat {
    |p.points|
  }

  function Occupied(p: Polygon): nat {
    if p.points == [] then 0 else 1
  }

  /** The total weight of the polygons of `ps`. */
  function Sum(ps: seq<Polygon>, weight: Polygon -> nat): nat {
    if ps == [] then 0 else Sum(ps[..|ps| - 1], weight) + weight(ps[|ps| - 1])
  }

  /** Replacing one polygon changes the total by the difference of weights. */
  lemma {:induction false} SumUpdate(ps: seq<Polygon>, k: nat, p: Polygon, weight: Polygon -> nat)
    requires k < |ps|
    ensures Sum(ps[k := p], weight) + weight(ps[k]) == Sum(ps, weight) + weight(p)
  {
    var qs := ps[k := p];
    var n := |ps| - 1;
    if k < n {
      assert qs[..n] == ps[..n][k := p];
      SumUpdate(ps[..n], k, p, weight);
    } else {
      assert qs[..n] == ps[..n];
    }
  }

  /** The total number of points. */
  function TotalPoints(ps: seq<Polygon>): nat {
    Sum(ps, PointCount)
  }

  /** The number of polygons with points. */
  function NonEmptyCount(ps: seq<Polygon>): nat {
    Sum(ps, Occupied)
  }

  /** A merge keeps the number of polygons, loses exactly one point (the first of
      polygon `j`) and empties exactly one polygon. */
  lemma MergedCounts(ps: seq<Polygon>, i: nat, j: nat)
    requires Mergeable(ps, i, j)
    ensures |Merged(ps, i, j)| == |ps|
    ensures TotalPoints(Merged(ps, i, j)) + 1 == TotalPoints(ps)
    ensures NonEmptyCount(Merged(ps, i, j)) + 1 == NonEmptyCount(ps)
  {
    var grown := ps[i := Polygon(ps[i].points + ps[j].points[1..])];
    SumUpdate(ps, i, grown[i], PointCount);
    SumUpdate(grown, j, Polygon([]), PointCount);
    SumUpdate(ps, i, grown[i], Occupied);
    SumUpdate(grown, j, Polygon([]), Occupied);
  }

  /** The polygons with points, in order. */
  function WithoutEmpty(ps: seq<Polygon>): (r: seq<Polygon>)
    ensures forall k :: 0 <= k < |r| ==> r[k].points != []
  {
    if ps == [] then []
    else WithoutEmpty(ps[..|ps| - 1]) + if ps[|ps| - 1].points == [] then [] else [ps[|ps| - 1]]
  }

  /** Dropping the empty polygons keeps every point and every polygon that has
      points, and nothing else. */
  lemma {:induction false} WithoutEmptyKeeps(ps: seq<Polygon>)
    ensures |WithoutEmpty(ps)| == NonEmptyCount(ps)
    ensures TotalPoints(WithoutEmpty(ps)) == TotalPoints(ps)
    ensures forall q :: q in WithoutEmpty(ps) <==> q in ps && q.points != []
  {
    if ps != [] {
      var init, last := ps[..|ps| - 1], ps[|ps| - 1];
      assert ps == init + [last];
      WithoutEmptyKeeps(init);
      var r := WithoutEmpty(ps);
      if last.points != [] {
        assert r == WithoutEmpty(init) + [last];
        assert r[..|r| - 1] == WithoutEmpty(init);
        assert TotalPoints(r) == TotalPoints(WithoutEmpty(init)) + |last.points|;
        assert NonEmptyCount(r) == NonEmptyCount(WithoutEmpty(init)) + 1;
      } else {
        assert r == WithoutEmpty(init);
      }
      assert TotalPoints(ps) == TotalPoints(init) + |last.points|;
      assert NonEmptyCount(ps) == NonEmptyCount(init) + Occupied(last);
    }
  }

  /** In a list of polygons without joins, the last polygon joins none before it. */
  lemma LastJoinsNone(init: seq<Polygon>, last: Polygon, q: Polygon)
    requires NoJoins(init + [last]) && q in init
    ensures !Joinable(q, last) && !Joinable(last, q)
  {
    var ps := init + [last];
    var m :| 0 <= m < |init| && init[m] == q;
    assert ps[m] == q && ps[|init|] == last;
  }

  /** Dropping the empty polygons creates no join. */
  lemma {:induction false} WithoutEmptyNoJoins(ps: seq<Polygon>)
    requires NoJoins(ps)
    ensures NoJoins(WithoutEmpty(ps))
  {
    if ps != [] {
      var init, last := ps[..|ps| - 1], ps[|ps| - 1];
      assert ps == init + [last];
      NoJoinsInit(init, last);
      WithoutEmptyNoJoins(init);
      WithoutEmptyKeeps(init);
      if last.points != [] {
        NoJoinsAppend(WithoutEmpty(init), init, last);
      }
    }
  }

  /** Without joins in a list, there are none in the list without its last polygon. */
  lemma NoJoinsInit(init: seq<Polygon>, last: Polygon)
    requires NoJoins(init + [last])
    ensures NoJoins(init)
  {
    var ps := init + [last];
    forall a, b | 0 <= a < |init| && 0 <= b < |init| && a != b ensures !Joinable(init[a], init[b]) {
      assert init[a] == ps[a] && init[b] == ps[b];
    }
  }

  /** Keeping some polygons of `init` in a list without joins, then appending the
      polygon that followed `init`, creates no join. */
  lemma NoJoinsAppend(kept: seq<Polygon>, init: seq<Polygon>, last: Polygon)
    requires NoJoins(kept) && NoJoins(init + [last])
    requires forall q :: q in kept ==> q in init
    ensures NoJoins(kept + [last])
  {
    var r := kept + [last];
    forall a, b | 0 <= a < |r| && 0 <= b < |r| && a != b ensures !Joinable(r[a], r[b]) {
      if a < |kept| && b < |kept| {
        assert r[a] == kept[a] && r[b] == kept[b];
      } else if a < |kept| {
        assert r[a] in kept;
        LastJoinsNone(init, last, r[a]);
      } else {
        assert r[b] in kept;
        LastJoinsNone(init, last, r[b]);
      }
    }
  }

  /** What `reducePolygons` leaves: join the first pair the scan finds, again and
      again, until no pair joins; then drop the emptied polygons. */
  function Reduced(ps: seq<Polygon>): seq<Polygon>
    decreases NonEmptyCount(ps)
  {
    match FirstJoin(ps)
    case None => WithoutEmpty(ps)
    case Some((i, j)) =>
      MergedCounts(ps, i, j);
      Reduced(Merged(ps, i, j))
  }

  /** The result of `reducePolygons` has no empty polygon and no two polygons
      that join, and it lost one point per merge, that is one per polygon that
      went away. */
  lemma {:induction false} ReducedProperties(ps: seq<Polygon>)
    ensures forall k :: 0 <= k < |Reduced(ps)| ==> Reduced(ps)[k].points != []
    ensures NoJoins(Reduced(ps))
    ensures |Reduced(ps)| <= NonEmptyCount(ps)
    ensures TotalPoints(ps) - TotalPoints(Reduced(ps)) == NonEmptyCount(ps) - |Reduced(ps)|
    decreases NonEmptyCount(ps)
  {
    match FirstJoin(ps)
    case None =>
      WithoutEmptyNoJoins(ps);
      WithoutEmptyKeeps(ps);
    case Some((i, j)) =>
      MergedCounts(ps, i, j);
      ReducedProperties(Merged(ps, i, j));
  }

  /** The last loop of `reducePolygons`: the polygons with points, in order. */
  method DropEmpty(ps: seq<Polygon>) returns (reduced: seq<Polygon>)
    ensures reduced == WithoutEmpty(ps)
  {
    reduced := [];
    for i := 0 to |ps|
      invariant reduced == WithoutEmpty(ps[..i])
    {
      assert ps[..i + 1][..i] == ps[..i];
      if ps[i].points != [] {
        reduced := reduced + [ps[i]];
      }
    }
    assert ps[..|ps|] == ps;
  }

  /** `reducePolygons`: merge until a whole scan finds nothing to merge, then
      keep the polygons with points. It ends, since every merge empties one more
      polygon, and leaves no empty polygon and no two polygons that join. */
  method ReducePolygons(polygons: seq<Polygon>) returns (reduced: seq<Polygon>)
    ensures reduced == Reduced(polygons)
    ensures forall k :: 0 <= k < |reduced| ==> reduced[k].points != []
    ensures NoJoins(reduced)
  {
    var ps := polygons;
    while true
      invariant Reduced(ps) == Reduced(polygons)
      decreases NonEmptyCount(ps)
    {
      var numReduced := 0;
      var join := FindJoin(ps);
      if join.Some? {
        var i, j := join.value.0, join.value.1;
        MergedCounts(ps, i, j);
        ps := Merge(ps, i, j);
        numReduced := numReduced + 1;
      }
      if numReduced == 0 {
        break;
      }
    }
    reduced := DropEmpty(ps);
    ReducedProperties(polygons);
  }
}
