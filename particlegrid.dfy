/** The particle grid of the mass-movement engine. The grid is `gridRows` by
    `gridCols` buckets stored row-major; a bucket lists the indices of the particles
    registered to its cell, duplicates allowed. This module gives registration,
    density and the grid's velocity update their meaning as functions; the
    simulation's methods are proved against them. */
module ParticleGrid {
  import opened XMath
  import opened Vectors
  import ArrayX
  import opened Particles

  type Bucket = seq<nat>
  type Grid = seq<Bucket>

  /** The grid coordinate of the map coordinate `p`: the map extent `mapN * cs`
      spread over `gridN` cells. */
  function GridCoord(p: real, gridN: nat, mapN: nat, cs: real): (g: real)
    requires 0 < mapN && 0.0 < cs
    ensures g * (mapN as real * cs) == p * gridN as real
    ensures 0.0 <= p ==> 0.0 <= g
  {
    var extent := mapN as real * cs;
    Positive(mapN as real, cs);
    QuotientTimes(p * gridN as real, extent);
    QuotientSign(p, gridN as real, extent);
    p * gridN as real / extent
  }

  lemma Positive(a: real, b: real)
    requires 0.0 < a && 0.0 < b
    ensures 0.0 < a * b
  {
  }

  lemma QuotientTimes(a: real, b: real)
    requires b != 0.0
    ensures a / b * b == a
  {
  }

  lemma QuotientSign(p: real, n: real, b: real)
    requires 0.0 <= n && 0.0 < b
    ensures 0.0 <= p ==> 0.0 <= p * n / b
  {
  }

  /** The nearer neighbour along one axis of a grid coordinate `g` truncated to `t`:
      the next cell when the fraction past `t` is at least one half, the previous
      cell otherwise. */
  function Neighbour(t: int, g: real): int {
    if g - t as real >= 0.5 then t + 1 else t - 1
  }

  /** The four cells `registerParticleToGrid` fills: the row and column of the point's
      own cell and of its nearer neighbours, each clamped into the grid. */
  datatype Cells = Cells(iy: nat, ix: nat, y1: nat, x1: nat)

  /** The cells of the grid point (x, y), x along the columns and y along the rows. */
  function CellsOf(x: real, y: real, gridRows: nat, gridCols: nat): (c: Cells)
    requires 0 < gridRows && 0 < gridCols
    ensures c.iy < gridRows && c.y1 < gridRows && c.ix < gridCols && c.x1 < gridCols
    ensures -1 <= c.x1 - c.ix <= 1 && -1 <= c.y1 - c.iy <= 1
  {
    var ix, iy := Trunc(x), Trunc(y);
    Cells(ClampInt(iy, 0, gridRows - 1), ClampInt(ix, 0, gridCols - 1),
          ClampInt(Neighbour(iy, y), 0, gridRows - 1), ClampInt(Neighbour(ix, x), 0, gridCols - 1))
  }

  /** For a coordinate inside a grid of `n` cells, the clamped neighbour is the cell
      on the side of the cell's centre that `g` lies on; it is the own cell only at
      the grid's first cell (below the centre) or its last (at or above the centre). */
  lemma NeighbourSide(g: real, n: nat)
    requires 0.0 <= g < n as real
    ensures var t := Trunc(g); var c := ClampInt(Neighbour(t, g), 0, n - 1);
      && 0 <= t < n
      && (c > t ==> c == t + 1 && g >= t as real + 0.5)
      && (c < t ==> c == t - 1 && g < t as real + 0.5)
      && (c == t ==> (t == 0 && g < 0.5) || (t == n - 1 && g >= t as real + 0.5))
  {
  }

  /** The flat bucket numbers of the four cells, in the order the source pushes to
      them: (iy, ix), (iy, x1), (y1, x1), (y1, ix). */
  function CellIndices(c: Cells, gridRows: nat, gridCols: nat): (ks: seq<nat>)
    requires c.iy < gridRows && c.y1 < gridRows && c.ix < gridCols && c.x1 < gridCols
    ensures |ks| == 4 && Below(ks, gridRows * gridCols)
  {
    [ArrayX.Cell(c.iy, c.ix, gridRows, gridCols), ArrayX.Cell(c.iy, c.x1, gridRows, gridCols),
     ArrayX.Cell(c.y1, c.x1, gridRows, gridCols), ArrayX.Cell(c.y1, c.ix, gridRows, gridCols)]
  }

  /** Every number in `ks` is below `n`. */
  predicate Below(ks: seq<nat>, n: nat) {
    forall j :: 0 <= j < |ks| ==> ks[j] < n
  }

  /** The four buckets a particle at map position `pos` registers to, for a map of
      `rows` by `cols` cells of side `cs`. */
  function RegistrationOf(pos: Vec3, gridRows: nat, gridCols: nat, rows: nat, cols: nat, cs: real): (ks: seq<nat>)
    requires 0 < gridRows && 0 < gridCols && 0 < rows && 0 < cols && 0.0 < cs
    ensures |ks| == 4 && Below(ks, gridRows * gridCols)
  {
    var c := CellsOf(GridCoord(pos.x, gridCols, cols, cs), GridCoord(pos.z, gridRows, rows, cs), gridRows, gridCols);
    CellIndices(c, gridRows, gridCols)
  }

  /** `v` pushed onto the back of the buckets `ks`, one after the other. */
  function Registered(g: Grid, ks: seq<nat>, v: nat): (r: Grid)
    requires Below(ks, |g|)
    ensures |r| == |g|
    decreases |ks|
  {
    if ks == [] then g else Registered(g[ks[0] := g[ks[0]] + [v]], ks[1..], v)
  }

  /** How often `k` occurs in `ks`. */
  function Occurrences(ks: seq<nat>, k: nat): nat
    decreases |ks|
  {
    if ks == [] then 0 else (if ks[0] == k then 1 else 0) + Occurrences(ks[1..], k)
  }

  function Repeat<T>(v: T, n: nat): (s: seq<T>)
    ensures |s| == n && forall e <- s :: e == v
  {
    seq(n, _ => v)
  }

  /** After registration, every bucket is what it was followed by `v` once per time
      it is listed. */
  lemma {:induction false} RegisteredBuckets(g: Grid, ks: seq<nat>, v: nat, k: nat)
    requires Below(ks, |g|)
    requires k < |g|
    ensures Registered(g, ks, v)[k] == g[k] + Repeat(v, Occurrences(ks, k))
    decreases |ks|
  {
    if ks != [] {
      var g1 := g[ks[0] := g[ks[0]] + [v]];
      assert Below(ks[1..], |g1|) by {
        assert forall j :: 0 <= j < |ks| - 1 ==> ks[1..][j] == ks[j + 1];
      }
      RegisteredBuckets(g1, ks[1..], v, k);
      var n := Occurrences(ks[1..], k);
      if ks[0] == k {
        assert g1[k] == g[k] + [v];
        assert g[k] + [v] + Repeat(v, n) == g[k] + Repeat(v, n + 1);
      } else {
        assert g1[k] == g[k];
      }
    }
  }

  /** The number of entries in the first `n` buckets. */
  function TotalUpTo(g: Grid, n: nat): nat
    requires n <= |g|
  {
    if n == 0 then 0 else TotalUpTo(g, n - 1) + |g[n - 1]|
  }

  function Total(g: Grid): nat {
    TotalUpTo(g, |g|)
  }

  lemma {:induction false} TotalUpToUpdate(g: Grid, k: nat, b: Bucket, n: nat)
    requires k < |g| && n <= |g|
    ensures TotalUpTo(g[k := b], n) == TotalUpTo(g, n) + (if k < n then |b| - |g[k]| else 0)
  {
    if n > 0 {
      TotalUpToUpdate(g, k, b, n - 1);
    }
  }

  /** A grid of `n` empty buckets. */
  function EmptyGrid(n: nat): (g: Grid)
    ensures |g| == n && forall k :: 0 <= k < n ==> g[k] == []
  {
    seq(n, _ => [])
  }

  /** A grid whose buckets are all empty holds no entry. */
  lemma {:induction false} TotalOfEmpty(g: Grid, n: nat)
    requires n <= |g| && forall k :: 0 <= k < |g| ==> g[k] == []
    ensures TotalUpTo(g, n) == 0
  {
    if n > 0 {
      TotalOfEmpty(g, n - 1);
    }
  }

  /** Registration adds exactly one entry per listed bucket. */
  lemma {:induction false} RegisteredTotal(g: Grid, ks: seq<nat>, v: nat)
    requires Below(ks, |g|)
    ensures Total(Registered(g, ks, v)) == Total(g) + |ks|
    decreases |ks|
  {
    if ks != [] {
      var g1 := g[ks[0] := g[ks[0]] + [v]];
      assert Below(ks[1..], |g1|) by {
        assert forall j :: 0 <= j < |ks| - 1 ==> ks[1..][j] == ks[j + 1];
      }
      TotalUpToUpdate(g, ks[0], g[ks[0]] + [v], |g|);
      RegisteredTotal(g1, ks[1..], v);
    }
  }

  /** The particle's own cell is the first of the four, so its bucket gains the
      particle. */
  lemma RegisteredInOwnCell(g: Grid, c: Cells, gridRows: nat, gridCols: nat, v: nat)
    requires c.iy < gridRows && c.y1 < gridRows && c.ix < gridCols && c.x1 < gridCols
    requires |g| == gridRows * gridCols
    ensures var k := ArrayX.Cell(c.iy, c.ix, gridRows, gridCols);
      |Registered(g, CellIndices(c, gridRows, gridCols), v)[k]| > |g[k]|
      && v in Registered(g, CellIndices(c, gridRows, gridCols), v)[k]
  {
    var ks := CellIndices(c, gridRows, gridCols);
    var k := ks[0];
    RegisteredBuckets(g, ks, v, k);
    assert Occurrences(ks, k) >= 1;
    assert Registered(g, ks, v)[k][|g[k]|] == v;
  }

  /** Every grid entry names one of the first `n` particles. */
  ghost predicate EntriesBelow(g: Grid, n: nat) {
    forall k, e :: 0 <= k < |g| && 0 <= e < |g[k]| ==> g[k][e] < n
  }

  /** Particle `i` is listed in no bucket. */
  ghost predicate Unlisted(g: Grid, i: nat) {
    forall k, e :: 0 <= k < |g| && 0 <= e < |g[k]| ==> g[k][e] != i
  }

  /** Registration keeps every entry below `n` when `v` is. */
  lemma RegisteredBelow(g: Grid, ks: seq<nat>, v: nat, n: nat)
    requires Below(ks, |g|)
    requires EntriesBelow(g, n) && v < n
    ensures EntriesBelow(Registered(g, ks, v), n)
  {
    var r := Registered(g, ks, v);
    forall k, e | 0 <= k < |r| && 0 <= e < |r[k]| ensures r[k][e] < n {
      RegisteredBuckets(g, ks, v, k);
      if e >= |g[k]| {
        assert r[k][e] == Repeat(v, Occurrences(ks, k))[e - |g[k]|];
      }
    }
  }

  /** Registration lists no particle other than `v` anew. */
  lemma RegisteredUnlisted(g: Grid, ks: seq<nat>, v: nat, i: nat)
    requires Below(ks, |g|)
    requires Unlisted(g, i) && v != i
    ensures Unlisted(Registered(g, ks, v), i)
  {
    var r := Registered(g, ks, v);
    forall k, e | 0 <= k < |r| && 0 <= e < |r[k]| ensures r[k][e] != i {
      RegisteredBuckets(g, ks, v, k);
      if e >= |g[k]| {
        assert r[k][e] == Repeat(v, Occurrences(ks, k))[e - |g[k]|];
      }
    }
  }

  /** The bucket `computeDensity` reads for the map point (x, z): the point's own
      cell, its column from x and its row from z, clamped into the grid. */
  function DensityCell(x: real, z: real, gridRows: nat, gridCols: nat, rows: nat, cols: nat, cs: real): (k: nat)
    requires 0 < gridRows && 0 < gridCols && 0 < rows && 0 < cols && 0.0 < cs
    ensures k < gridRows * gridCols
  {
    var i := ClampInt(Trunc(GridCoord(x, gridCols, cols, cs)), 0, gridCols - 1);
    var j := ClampInt(Trunc(GridCoord(z, gridRows, rows, cs)), 0, gridRows - 1);
    ArrayX.Cell(j, i, gridRows, gridCols)
  }

  /** The bucket density reads is the one a particle at the same point registers to
      first. */
  lemma DensityCellIsOwnCell(x: real, z: real, gridRows: nat, gridCols: nat, rows: nat, cols: nat, cs: real)
    requires 0 < gridRows && 0 < gridCols && 0 < rows && 0 < cols && 0.0 < cs
    ensures var c := CellsOf(GridCoord(x, gridCols, cols, cs), GridCoord(z, gridRows, rows, cs), gridRows, gridCols);
      DensityCell(x, z, gridRows, gridCols, rows, cols, cs) == CellIndices(c, gridRows, gridCols)[0]
  {
  }

  /** `computeDensity(x, z)`: the size of the point's bucket over the area of a grid
      cell, whose side is the terrain's cell size over the grid's column count. */
  function Density(g: Grid, x: real, z: real, gridRows: nat, gridCols: nat, rows: nat, cols: nat, cs: real): (d: real)
    requires 0 < gridRows && 0 < gridCols && 0 < rows && 0 < cols && 0.0 < cs
    requires |g| == gridRows * gridCols
    ensures 0.0 <= d
    ensures d * Sq(cs / gridCols as real) == |g[DensityCell(x, z, gridRows, gridCols, rows, cols, cs)]| as real
  {
    var side := cs / gridCols as real;
    var n := |g[DensityCell(x, z, gridRows, gridCols, rows, cols, cs)]| as real;
    AreaPositive(cs, gridCols as real);
    QuotientTimes(n, side * side);
    QuotientSign(n, 1.0, side * side);
    n / (side * side)
  }

  lemma AreaPositive(cs: real, n: real)
    requires 0.0 < cs && 0.0 < n
    ensures 0.0 < cs / n && 0.0 < (cs / n) * (cs / n) && Sq(cs / n) == (cs / n) * (cs / n)
  {
    var s := cs / n;
    Positive(s, s);
  }

  /** The sum of the velocities of the first `n` entries of bucket `b`. */
  function VelocitySum(ps: seq<Particle>, b: Bucket, n: nat): Vec3
    requires n <= |b| && Below(b, |ps|)
  {
    if n == 0 then Zero3 else Add(VelocitySum(ps, b, n - 1), ps[b[n - 1]].velocity)
  }

  /** `avgVel /= count`. */
  function Average(s: Vec3, count: real): Vec3
    requires count != 0.0
  {
    Vec3(s.x / count, s.y / count, s.z / count)
  }

  /** One entry's velocity after `updateGrid`: first pulled against the average by
      the viscosity over the count, then blended with the average by the clumping
      factor. */
  function Pulled(v: Vec3, avg: Vec3, visc: real, count: real, clump: real): Vec3
    requires count != 0.0
  {
    Add(Scale(1.0 - clump, Add(v, Scale(visc / count, Neg(avg)))), Scale(clump, avg))
  }

  /** The update is the combination `(1 - clump) v + (clump - (1 - clump) visc / count) avg`. */
  lemma PulledCombination(v: Vec3, avg: Vec3, visc: real, count: real, clump: real)
    requires count != 0.0
    ensures var a := clump - (1.0 - clump) * (visc / count);
      Pulled(v, avg, visc, count, clump) == Add(Scale(1.0 - clump, v), Scale(a, avg))
  {
    var k, s := 1.0 - clump, visc / count;
    var w := Scale(s, Neg(avg));
    ScaleOverAdd(k, v, w);
    ScaleNegScale(k, s, avg);
    AddScaled(Scale(k, v), -(k * s), clump, avg);
    assert -(k * s) + clump == clump - (1.0 - clump) * (visc / count);
  }

  lemma ScaleOverAdd(k: real, u: Vec3, w: Vec3)
    ensures Scale(k, Add(u, w)) == Add(Scale(k, u), Scale(k, w))
  {
  }

  lemma ScaleNegScale(k: real, s: real, u: Vec3)
    ensures Scale(k, Scale(s, Neg(u))) == Scale(-(k * s), u)
  {
    NegProduct(k, s, u.x);
    NegProduct(k, s, u.y);
    NegProduct(k, s, u.z);
  }

  lemma NegProduct(k: real, s: real, x: real)
    ensures k * (s * -x) == -(k * s) * x
  {
  }

  lemma AddScaled(u: Vec3, m: real, c: real, w: Vec3)
    ensures Add(Add(u, Scale(m, w)), Scale(c, w)) == Add(u, Scale(m + c, w))
  {
  }

  /** Without viscosity and clumping, the update changes nothing. */
  lemma PulledNeutral(v: Vec3, avg: Vec3, count: real)
    requires count != 0.0
    ensures Pulled(v, avg, 0.0, count, 0.0) == v
  {
  }

  /** With a clumping factor of 1, every entry takes the average velocity. */
  lemma PulledFullClump(v: Vec3, avg: Vec3, visc: real, count: real)
    requires count != 0.0
    ensures Pulled(v, avg, visc, count, 1.0) == avg
  {
  }

  /** Without viscosity, an entry moves the fraction `clump` of the way from its
      velocity to the average. */
  lemma PulledBlend(v: Vec3, avg: Vec3, count: real, clump: real)
    requires count != 0.0
    ensures Pulled(v, avg, 0.0, count, clump) == Add(v, Scale(clump, Sub(avg, v)))
  {
    assert 0.0 / count == 0.0;
  }

  /** The first `n` entries of bucket `b` pulled towards `avg`, one after the other. */
  function PullAll(ps: seq<Particle>, b: Bucket, n: nat, avg: Vec3, visc: real, count: real, clump: real): (r: seq<Particle>)
    requires n <= |b| && Below(b, |ps|)
    requires count != 0.0
    ensures |r| == |ps|
  {
    if n == 0 then ps
    else
      var q := PullAll(ps, b, n - 1, avg, visc, count, clump);
      var e := b[n - 1];
      q[e := q[e].(velocity := Pulled(q[e].velocity, avg, visc, count, clump))]
  }

  /** `updateGrid` on one bucket: an empty bucket is skipped; otherwise the average
      of its entries' velocities is taken once and every entry is pulled towards it. */
  function BucketUpdated(ps: seq<Particle>, b: Bucket, visc: real, clump: real): (r: seq<Particle>)
    requires Below(b, |ps|)
    ensures |r| == |ps|
  {
    if |b| == 0 then ps
    else
      var count := |b| as real;
      PullAll(ps, b, |b|, Average(VelocitySum(ps, b, |b|), count), visc, count, clump)
  }

  /** `updateGrid` on the first `n` buckets, in row-major order. */
  function GridUpdated(ps: seq<Particle>, g: Grid, n: nat, visc: real, clump: real): (r: seq<Particle>)
    requires n <= |g| && EntriesBelow(g, |ps|)
    ensures |r| == |ps|
  {
    if n == 0 then ps
    else
      var q := GridUpdated(ps, g, n - 1, visc, clump);
      assert Below(g[n - 1], |q|);
      BucketUpdated(q, g[n - 1], visc, clump)
  }

  /** Pulling changes velocities only. */
  lemma {:induction false} PullAllKeeps(ps: seq<Particle>, b: Bucket, n: nat, avg: Vec3, visc: real, count: real, clump: real, i: nat)
    requires n <= |b| && Below(b, |ps|)
    requires count != 0.0 && i < |ps|
    ensures PullAll(ps, b, n, avg, visc, count, clump)[i].position == ps[i].position
    ensures (forall m :: 0 <= m < n ==> b[m] != i) ==> PullAll(ps, b, n, avg, visc, count, clump)[i] == ps[i]
  {
    if n > 0 {
      PullAllKeeps(ps, b, n - 1, avg, visc, count, clump, i);
    }
  }

  /** The grid update changes velocities only, and only of particles some bucket
      lists. */
  lemma {:induction false} GridUpdatedKeeps(ps: seq<Particle>, g: Grid, n: nat, visc: real, clump: real, i: nat)
    requires n <= |g| && EntriesBelow(g, |ps|) && i < |ps|
    ensures GridUpdated(ps, g, n, visc, clump)[i].position == ps[i].position
    ensures Unlisted(g, i) ==> GridUpdated(ps, g, n, visc, clump)[i] == ps[i]
  {
    if n > 0 {
      var q := GridUpdated(ps, g, n - 1, visc, clump);
      GridUpdatedKeeps(ps, g, n - 1, visc, clump, i);
      assert Below(g[n - 1], |q|);
      var b := g[n - 1];
      if |b| != 0 {
        var count := |b| as real;
        var avg := Average(VelocitySum(q, b, |b|), count);
        PullAllKeeps(q, b, |b|, avg, visc, count, clump, i);
        if Unlisted(g, i) {
          assert forall m :: 0 <= m < |b| ==> b[m] != i by {
            forall m | 0 <= m < |b| ensures b[m] != i {
              assert g[n - 1][m] != i;
            }
          }
        }
      }
    }
  }

  /** Without viscosity and clumping, the grid update changes nothing. */
  lemma {:induction false} GridUpdatedNeutral(ps: seq<Particle>, g: Grid, n: nat)
    requires n <= |g| && EntriesBelow(g, |ps|)
    ensures GridUpdated(ps, g, n, 0.0, 0.0) == ps
  {
    if n > 0 {
      GridUpdatedNeutral(ps, g, n - 1);
      assert Below(g[n - 1], |ps|);
      var b := g[n - 1];
      if |b| != 0 {
        var count := |b| as real;
        PullAllNeutral(ps, b, |b|, Average(VelocitySum(ps, b, |b|), count), count);
      }
    }
  }

  lemma {:induction false} PullAllNeutral(ps: seq<Particle>, b: Bucket, n: nat, avg: Vec3, count: real)
    requires n <= |b| && Below(b, |ps|)
    requires count != 0.0
    ensures PullAll(ps, b, n, avg, 0.0, count, 0.0) == ps
  {
    if n > 0 {
      PullAllNeutral(ps, b, n - 1, avg, count);
      var e := b[n - 1];
      PulledNeutral(ps[e].velocity, avg, count);
      assert ps[e].(velocity := ps[e].velocity) == ps[e];
    }
  }
}
