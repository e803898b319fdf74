/** The mass-movement simulation: the settings, the terrain, the particles, the grid
    of buckets the particles register to and the force map they deposit into. One
    step clears the grid, updates every particle and then lets the grid pull the
    velocities of the particles sharing a cell together. */
module MassMovement {
  import opened Wrappers
  import opened XMath
  import opened Vectors
  import ArrayX
  import Settings
  import Terrain
  import XImage
  import opened Particles
  import opened ParticleGrid
  import ForceMap
  import opened StartZone

  /** `resetGrid`'s shape over a `rows` by `cols` map: the truncations of
      `gridSize * rows / 512` and `gridSize * cols / 512`. */
  function GridShape(gridSize: int, rows: nat, cols: nat): (r: (nat, nat))
    requires 0 <= gridSize
    ensures r.0 * 512 <= gridSize * rows < (r.0 + 1) * 512
    ensures r.1 * 512 <= gridSize * cols < (r.1 + 1) * 512
  {
    var n, m := gridSize * rows, gridSize * cols;
    ProductAsReal(gridSize, rows);
    ProductAsReal(gridSize, cols);
    (Trunc(gridSize as real * rows as real / 512.0), Trunc(gridSize as real * cols as real / 512.0))
  }

  lemma ProductIsNat(a: nat, b: nat)
    ensures 0 <= a * b
  {
  }

  lemma ProductAsReal(a: int, b: int)
    ensures (a * b) as real == a as real * b as real
  {
  }

  /** The grid has cells exactly when `gridSize` times each side of the map reaches 512. */
  lemma GridShapeNonEmpty(gridSize: int, rows: nat, cols: nat)
    requires 0 <= gridSize
    ensures var r := GridShape(gridSize, rows, cols);
      (0 < r.0 <==> 512 <= gridSize * rows) && (0 < r.1 <==> 512 <= gridSize * cols)
  {
  }

  /** A particle is updated only while it lies over the map, edges included. */
  predicate OnMap(pos: Vec3, rows: nat, cols: nat, cs: real) {
    !(pos.x < 0.0 || pos.z < 0.0 || pos.x > cols as real * cs || pos.z > rows as real * cs)
  }

  /** How many of the first `n` particles lie over the map. */
  function CountOnMap(ps: seq<Particle>, n: nat, rows: nat, cols: nat, cs: real): (c: nat)
    requires n <= |ps|
    ensures c <= n
  {
    if n == 0 then 0
    else CountOnMap(ps, n - 1, rows, cols, cs) + if OnMap(ps[n - 1].position, rows, cols, cs) then 1 else 0
  }

  /** What a sweep of `updateAllParticles` changes: the particles, the grid, the
      force map, and how many random draws have been made. */
  datatype State = State(particles: seq<Particle>, grid: Grid, forceMap: seq<real>, drawn: nat)

  class Simulation {
    const args: Settings.Values
    const terrain: Terrain.Terrain
    var particles: seq<Particle>
    /** The grid's shape: `gridRows` (its `size_x`) by `gridCols` (its `size_y`). */
    var gridRows: nat
    var gridCols: nat
    var grid: Grid
    /** The force map's shape and its pixel values, row-major. */
    var fmWidth: nat
    var fmHeight: nat
    var forceMap: seq<real>

    ghost predicate Valid()
      reads this
    {
      && |grid| == gridRows * gridCols
      && EntriesBelow(grid, |particles|)
      && |forceMap| == fmWidth * fmHeight
    }

    /** The terrain has cells to move over. */
    ghost predicate TerrainReady()
      reads terrain
    {
      terrain.Valid() && 0 < terrain.rows && 0 < terrain.cols && 0.0 < terrain.cellSize
    }

    /** The grid has cells to register to. */
    predicate GridReady()
      reads this`gridRows, this`gridCols
    {
      0 < gridRows && 0 < gridCols
    }

    /** The four settings the physics reads. */
    function Forces(): Particles.Forces {
      Particles.Forces(args.bounceFriction, args.stickyness, args.dampingForce, args.turbulanceForce)
    }

    /** `init(argsIn, terrainIn)`: the settings and the terrain; no particles, and the
        grid and the force map as an empty `xarray` (0 by 1) and an empty image (0 by 0)
        are. */
    constructor Init(argsIn: Settings.Values, terrainIn: Terrain.Terrain)
      ensures Valid() && args == argsIn && terrain == terrainIn
      ensures particles == [] && gridRows == 0 && gridCols == 1 && grid == []
      ensures fmWidth == 0 && fmHeight == 0 && forceMap == []
    {
      args, terrain := argsIn, terrainIn;
      particles := [];
      gridRows, gridCols, grid := 0, 1, [];
      fmWidth, fmHeight, forceMap := 0, 0, [];
    }

    /** `clearGrid`: every bucket is emptied, row by row; the grid's shape stays. */
    method ClearGrid()
      requires Valid()
      modifies this`grid
      ensures Valid() && grid == EmptyGrid(old(|grid|))
    {
      var rowsN, colsN, g := gridRows, gridCols, grid;
      var i, base := 0, 0;
      while i < rowsN
        invariant 0 <= i <= rowsN && base == i * colsN && |g| == rowsN * colsN
        invariant forall k :: 0 <= k < base ==> g[k] == []
      {
        MulMonotone(i + 1, rowsN, colsN);
        var j := 0;
        while j < colsN
          invariant 0 <= j <= colsN && base + colsN <= |g| == rowsN * colsN
          invariant forall k :: 0 <= k < base + j ==> g[k] == []
        {
          g := g[base + j := []];
          j := j + 1;
        }
        i, base := i + 1, base + colsN;
      }
      grid := g;
    }

    /** `initParticles`, given the start zone `img` the settings name: the start zone
        is walked once to count the particles and once more to spawn them, in order;
        the force map becomes an all-zero raster of the start zone's size; then the
        grid is reset. */
    method InitParticles(img: XImage.Image, rand: nat -> nat, drawn: nat) returns (drawnOut: nat, ghost pixels: seq<(nat, nat)>)
      requires TerrainReady() && img.Valid() && 0 < img.depth && 0 <= args.gridSize
      modifies this`particles, this`forceMap, this`fmWidth, this`fmHeight, this`grid, this`gridRows, this`gridCols
      ensures Valid()
      ensures fmWidth == img.width && fmHeight == img.height && forceMap == ForceMap.Blank(fmWidth * fmHeight)
      ensures pixels == old(Spawns(img, img.width))
      ensures SpawnedAs(particles, pixels, img.width, img.height, terrain.heightMap,
                        terrain.rows, terrain.cols, terrain.cellSize, args.initialHeight, rand, drawn)
      ensures drawnOut == drawn + 12 * |particles|
      ensures (gridRows, gridCols) == GridShape(args.gridSize, terrain.rows, terrain.cols)
      ensures grid == EmptyGrid(gridRows * gridCols)
    {
      var ps;
      ps, drawnOut := Populate(img, terrain.heightMap, terrain.rows, terrain.cols, terrain.cellSize,
                               args.initialHeight, rand, drawn);
      pixels := Spawns(img, img.width);
      var w, h := img.width, img.height;
      ProductIsNat(w, h);
      fmWidth, fmHeight := w, h;
      forceMap := ForceMap.Blank(w * h);
      particles := ps;
      ResetGrid();
    }

    /** `resetGrid`: a grid of the shape `GridShape` gives for the settings' grid size,
        every bucket empty. */
    method ResetGrid()
      requires |forceMap| == fmWidth * fmHeight && 0 <= args.gridSize
      modifies this`grid, this`gridRows, this`gridCols
      ensures Valid() && (gridRows, gridCols) == GridShape(args.gridSize, terrain.rows, terrain.cols)
      ensures grid == EmptyGrid(gridRows * gridCols)
    {
      var shape := GridShape(args.gridSize, terrain.rows, terrain.cols);
      gridRows, gridCols := shape.0, shape.1;
      grid := EmptyGrid(shape.0 * shape.1);
    }

    /** `registerParticleToGrid(i)`: particle `i` is pushed onto the four buckets of
        its cell and of its nearer neighbours. */
    method RegisterParticleToGrid(i: nat)
      requires Valid() && TerrainReady() && GridReady() && i < |particles|
      modifies this`grid
      ensures Valid()
      ensures grid == Registered(old(grid), RegistrationOf(particles[i].position, gridRows, gridCols,
                                                             terrain.rows, terrain.cols, terrain.cellSize), i)
    {
      var rows, cols, cs := terrain.rows, terrain.cols, terrain.cellSize;
      var gRows, gCols, g := gridRows, gridCols, grid;
      var pos := particles[i].position;
      var x := GridCoord(pos.x, gCols, cols, cs);
      var y := GridCoord(pos.z, gRows, rows, cs);
      var ix, iy := Trunc(x), Trunc(y);
      var ex, ey := x - ix as real, y - iy as real;
      var x1 := if ex >= 0.5 then ix + 1 else ix - 1;
      var y1 := if ey >= 0.5 then iy + 1 else iy - 1;
      ix := ClampInt(ix, 0, gCols - 1);
      iy := ClampInt(iy, 0, gRows - 1);
      x1 := ClampInt(x1, 0, gCols - 1);
      y1 := ClampInt(y1, 0, gRows - 1);
      ghost var ks := RegistrationOf(pos, gRows, gCols, rows, cols, cs);
      var k0, k1 := ArrayX.Cell(iy, ix, gRows, gCols), ArrayX.Cell(iy, x1, gRows, gCols);
      var k2, k3 := ArrayX.Cell(y1, x1, gRows, gCols), ArrayX.Cell(y1, ix, gRows, gCols);
      assert ks == [k0, k1, k2, k3];
      RegisteredFour(g, ks, i);
      RegisteredBelow(g, ks, i, |particles|);
      g := g[k0 := g[k0] + [i]];
      g := g[k1 := g[k1] + [i]];
      g := g[k2 := g[k2] + [i]];
      g := g[k3 := g[k3] + [i]];
      grid := g;
    }

    /** `updateParticle(i, dTime)`. A particle off the map is left as it is. Otherwise:
        gravity; the trace along the step; the density under the particle, from the
        grid as it is; damping without a collision, or the bounce at the hit, whose
        two draws are `rand(drawn)` and `rand(drawn + 1)`; the step; the registration
        at the new position; the deposit into the force map. */
    method UpdateParticle(i: nat, dTime: real, rand: nat -> nat, drawn: nat, sqrt: real -> real)
      returns (collision: bool, hit: Vec3, norm: Vec3, density: real, drawnOut: nat)
      requires Valid() && TerrainReady() && GridReady() && i < |particles| && IsSqrt(sqrt)
      modifies this`particles, this`grid, this`forceMap
      ensures Valid()
      ensures State(particles, grid, forceMap, drawnOut)
                == Updated(State(old(particles), old(grid), old(forceMap), drawn), i, dTime, rand, sqrt)
      ensures OnMap(old(particles[i].position), terrain.rows, terrain.cols, terrain.cellSize) ==>
        && (collision, hit, norm) == StepTrace(old(particles[i]), dTime, sqrt)
        && density == Density(old(grid), old(particles[i].position.x), old(particles[i].position.z),
                              gridRows, gridCols, terrain.rows, terrain.cols, terrain.cellSize) * 0.0001
    {
      ghost var s := State(particles, grid, forceMap, drawn);
      collision, hit, norm, density, drawnOut := false, Zero3, Zero3, 0.0, drawn;
      if !OnMap(particles[i].position, terrain.rows, terrain.cols, terrain.cellSize) {
        assert Updated(s, i, dTime, rand, sqrt) == s;
        return;
      }
      collision, hit, norm, density, drawnOut := UpdateOnMap(i, dTime, rand, drawn, sqrt);
    }

    /** `updateParticle(i, dTime)` for a particle over the map. */
    method UpdateOnMap(i: nat, dTime: real, rand: nat -> nat, drawn: nat, sqrt: real -> real)
      returns (collision: bool, hit: Vec3, norm: Vec3, density: real, drawnOut: nat)
      requires Valid() && TerrainReady() && GridReady() && i < |particles| && IsSqrt(sqrt)
      requires OnMap(particles[i].position, terrain.rows, terrain.cols, terrain.cellSize)
      modifies this`particles, this`grid, this`forceMap
      ensures Valid()
      ensures State(particles, grid, forceMap, drawnOut)
                == Updated(State(old(particles), old(grid), old(forceMap), drawn), i, dTime, rand, sqrt)
      ensures (collision, hit, norm) == StepTrace(old(particles[i]), dTime, sqrt)
      ensures density == Density(old(grid), old(particles[i].position.x), old(particles[i].position.z),
                                 gridRows, gridCols, terrain.rows, terrain.cols, terrain.cellSize) * 0.0001
    {
      ghost var s := State(particles, grid, forceMap, drawn);
      collision, hit, norm, density, drawnOut := Advance(i, dTime, rand, drawn, sqrt);
      ghost var m := (particles[i], density, collision);
      Settle(i, density, sqrt);
      assert State(particles, grid, forceMap, drawnOut) == Placed(s, i, m, sqrt);
    }

    /** The end of `updateParticle` for a moved particle `i`: its registration at its
        new position and its deposit, with the density read before the move. */
    method Settle(i: nat, density: real, sqrt: real -> real)
      requires Valid() && TerrainReady() && GridReady() && i < |particles| && IsSqrt(sqrt)
      modifies this`grid, this`forceMap
      ensures Valid()
      ensures grid == Registered(old(grid), RegistrationOf(particles[i].position, gridRows, gridCols,
                                                           terrain.rows, terrain.cols, terrain.cellSize), i)
      ensures forceMap == ForceMap.Deposited(old(forceMap), fmWidth, fmHeight,
                            ForceMap.PixelOf(particles[i].position, fmWidth, fmHeight,
                                             terrain.rows, terrain.cols, terrain.cellSize),
                            ForceMap.DepositAmount(density, particles[i].velocity, sqrt))
    {
      RegisterParticleToGrid(i);
      var rows, cols, cs := terrain.rows, terrain.cols, terrain.cellSize;
      Deposit(ForceMap.PixelOf(particles[i].position, fmWidth, fmHeight, rows, cols, cs),
              ForceMap.DepositAmount(density, particles[i].velocity, sqrt));
    }

    /** The motion part of `updateParticle` for a particle on the map: the new
        particle replaces the old one, and nothing else changes. */
    method Advance(i: nat, dTime: real, rand: nat -> nat, drawn: nat, sqrt: real -> real)
      returns (collision: bool, hit: Vec3, norm: Vec3, density: real, drawnOut: nat)
      requires Valid() && TerrainReady() && GridReady() && i < |particles| && IsSqrt(sqrt)
      modifies this`particles
      ensures Valid()
      ensures (collision, hit, norm) == StepTrace(old(particles[i]), dTime, sqrt)
      ensures density == Density(grid, old(particles[i].position.x), old(particles[i].position.z),
                                 gridRows, gridCols, terrain.rows, terrain.cols, terrain.cellSize) * 0.0001
      ensures |particles| == old(|particles|)
      ensures (particles[i], density, collision) == Motion(old(particles[i]), grid, drawn, dTime, rand, sqrt)
      ensures particles == old(particles)[i := particles[i]]
      ensures drawnOut == if collision then drawn + 2 else drawn
    {
      var rows, cols, cs := terrain.rows, terrain.cols, terrain.cellSize;
      var ps := particles;
      var p := ps[i];
      var f := Forces();
      p := p.(velocity := Falling(p.velocity, dTime));
      collision, hit, norm := terrain.Trace(p.position, Add(p.position, Scale(dTime, p.velocity)), Zero3, Zero3, sqrt);
      density := Density(grid, p.position.x, p.position.z, gridRows, gridCols, rows, cols, cs) * 0.0001;
      drawnOut := drawn;
      if !collision {
        p := p.(velocity := Damped(p.velocity, f.damping));
      } else {
        var f1 := Frand(rand(drawn));
        var f2 := Frand(rand(drawn + 1));
        drawnOut := drawn + 2;
        p := Bounced(p, hit, norm, f, density, dTime, f1, f2, sqrt);
      }
      p := Integrated(p, dTime);
      assert p == Moved(ps[i], dTime, collision, hit, norm, f, density, Frand(rand(drawn)), Frand(rand(drawn + 1)), sqrt);
      particles := ps[i := p];
    }

    /** The trace of `updateParticle` for particle `p`: from its position along one
        step of its velocity after gravity. */
    ghost function StepTrace(p: Particle, dTime: real, sqrt: real -> real): (bool, Vec3, Vec3)
      reads terrain
      requires TerrainReady() && IsSqrt(sqrt)
    {
      terrain.TraceOf(p.position, Add(p.position, Scale(dTime, Falling(p.velocity, dTime))), Zero3, Zero3, sqrt)
    }

    /** What `updateParticle` makes of a particle `p` over the map, given the grid
        `g` and the draws made so far: the moved particle, the density it read from
        the grid, and whether its step hit the terrain. */
    ghost function Motion(p: Particle, g: Grid, drawn: nat, dTime: real, rand: nat -> nat, sqrt: real -> real)
      : (Particle, real, bool)
      reads this`gridRows, this`gridCols, terrain
      requires TerrainReady() && GridReady() && IsSqrt(sqrt) && |g| == gridRows * gridCols
    {
      var t := StepTrace(p, dTime, sqrt);
      var density := Density(g, p.position.x, p.position.z, gridRows, gridCols,
                             terrain.rows, terrain.cols, terrain.cellSize) * 0.0001;
      (Moved(p, dTime, t.0, t.1, t.2, Forces(), density, Frand(rand(drawn)), Frand(rand(drawn + 1)), sqrt),
       density, t.0)
    }

    /** The effect of `updateParticle(i, dTime)` on the state `s`: nothing for a
        particle off the map; otherwise the moved particle, the grid with it
        registered at its new position, the force map with its deposit, and the
        draws of a bounce. */
    ghost function Updated(s: State, i: nat, dTime: real, rand: nat -> nat, sqrt: real -> real): (r: State)
      reads this`gridRows, this`gridCols, this`fmWidth, this`fmHeight, terrain
      requires TerrainReady() && GridReady() && IsSqrt(sqrt) && Fits(s) && i < |s.particles|
      ensures Fits(r) && |r.particles| == |s.particles| && s.drawn <= r.drawn
    {
      var rows, cols, cs := terrain.rows, terrain.cols, terrain.cellSize;
      if !OnMap(s.particles[i].position, rows, cols, cs) then s
      else
        Placed(s, i, Motion(s.particles[i], s.grid, s.drawn, dTime, rand, sqrt), sqrt)
    }

    /** The state `s` once particle `i` is replaced by the particle of the motion
        `m`, registered to the grid at its new position and deposited into the
        force map with the density of `m`, after the draws of a bounce. */
    ghost function Placed(s: State, i: nat, m: (Particle, real, bool), sqrt: real -> real): (r: State)
      reads this`gridRows, this`gridCols, this`fmWidth, this`fmHeight, terrain
      requires TerrainReady() && GridReady() && IsSqrt(sqrt) && Fits(s) && i < |s.particles|
      ensures Fits(r) && |r.particles| == |s.particles| && s.drawn <= r.drawn
    {
      var rows, cols, cs, q := terrain.rows, terrain.cols, terrain.cellSize, m.0;
      State(s.particles[i := q],
            Registered(s.grid, RegistrationOf(q.position, gridRows, gridCols, rows, cols, cs), i),
            ForceMap.Deposited(s.forceMap, fmWidth, fmHeight, ForceMap.PixelOf(q.position, fmWidth, fmHeight, rows, cols, cs),
                               ForceMap.DepositAmount(m.1, q.velocity, sqrt)),
            if m.2 then s.drawn + 2 else s.drawn)
    }

    /** The grid and the force map of `s` have this simulation's shapes. */
    ghost predicate Fits(s: State)
      reads this`gridRows, this`gridCols, this`fmWidth, this`fmHeight
    {
      |s.grid| == gridRows * gridCols && |s.forceMap| == fmWidth * fmHeight
    }

    /** The state after the first `n` particles of `s` are updated in turn with the
        default time step. */
    ghost function Sweep(s: State, n: nat, rand: nat -> nat, sqrt: real -> real): (r: State)
      reads this`gridRows, this`gridCols, this`fmWidth, this`fmHeight, terrain
      requires TerrainReady() && GridReady() && IsSqrt(sqrt) && Fits(s) && n <= |s.particles|
      ensures Fits(r) && |r.particles| == |s.particles|
      decreases n
    {
      if n == 0 then s else Updated(Sweep(s, n - 1, rand, sqrt), n - 1, DefaultTimeStep, rand, sqrt)
    }

    /** The deposit of `updateParticle`: `amount` is added at `pixel`, if any. */
    method Deposit(pixel: Option<(nat, nat)>, amount: real)
      requires Valid()
      requires pixel.Some? ==> pixel.value.0 < fmWidth && pixel.value.1 < fmHeight
      modifies this`forceMap
      ensures Valid() && forceMap == ForceMap.Deposited(old(forceMap), fmWidth, fmHeight, pixel, amount)
    {
      if pixel.Some? {
        var k := ForceMap.PixelIndex(pixel.value, fmWidth, fmHeight);
        forceMap := forceMap[k := forceMap[k] + amount];
      }
    }

    /** `updateAllParticles`: the grid is cleared; every particle in turn is updated
        with the default time step, so the grid ends up holding four entries for each
        particle over the map; then the grid update runs. A particle off the map is
        never moved, and the force map only grows. */
    method UpdateAllParticles(rand: nat -> nat, drawn: nat, sqrt: real -> real) returns (drawnOut: nat)
      requires Valid() && TerrainReady() && GridReady() && IsSqrt(sqrt)
      modifies this`particles, this`grid, this`forceMap
      ensures Valid() && |particles| == old(|particles|) && |forceMap| == old(|forceMap|)
      ensures Total(grid) == 4 * CountOnMap(old(particles), old(|particles|), terrain.rows, terrain.cols, terrain.cellSize)
      ensures forall j :: 0 <= j < |particles| && !OnMap(old(particles)[j].position, terrain.rows, terrain.cols, terrain.cellSize) ==>
                particles[j] == old(particles)[j]
      ensures forall k :: 0 <= k < |forceMap| ==> old(forceMap)[k] <= forceMap[k]
      ensures var s := Sweep(State(old(particles), EmptyGrid(old(|grid|)), old(forceMap), drawn), old(|particles|), rand, sqrt);
        && grid == s.grid && forceMap == s.forceMap && drawnOut == s.drawn
        && particles == GridUpdated(s.particles, grid, |grid|, args.viscosity, args.clumpingFactor)
    {
      ghost var ps0, fm0 := particles, forceMap;
      ghost var rows, cols, cs := terrain.rows, terrain.cols, terrain.cellSize;
      ClearGrid();
      TotalOfEmpty(grid, |grid|);
      drawnOut := drawn;
      ghost var s0 := State(ps0, grid, fm0, drawn);
      var i := 0;
      while i < |particles|
        invariant i <= |ps0| && Swept(i, ps0, fm0, rows, cols, cs)
        invariant State(particles, grid, forceMap, drawnOut) == Sweep(s0, i, rand, sqrt)
      {
        drawnOut := UpdateSwept(i, ps0, fm0, rand, drawnOut, sqrt);
        i := i + 1;
      }
      ghost var ps1 := particles;
      UpdateGrid();
      forall j | 0 <= j < |particles| && !OnMap(ps0[j].position, rows, cols, cs)
        ensures particles[j] == ps0[j]
      {
        GridUpdatedKeeps(ps1, grid, |grid|, args.viscosity, args.clumpingFactor, j);
      }
    }

    /** The state of `updateAllParticles` once the first `i` particles are updated:
        from the original particles `ps0` and force map `fm0`, the grid holds four
        entries per updated particle over the map and never lists a particle not yet
        updated or off the map; those particles are as they were; the force map has
        not decreased anywhere. */
    ghost predicate Swept(i: nat, ps0: seq<Particle>, fm0: seq<real>, rows: nat, cols: nat, cs: real)
      reads this
    {
      && Valid() && GridReady() && |particles| == |ps0| && |forceMap| == |fm0| && i <= |ps0|
      && Total(grid) == 4 * CountOnMap(ps0, i, rows, cols, cs)
      && (forall j :: i <= j < |particles| ==> particles[j] == ps0[j])
      && (forall j :: 0 <= j < i && !OnMap(ps0[j].position, rows, cols, cs) ==> particles[j] == ps0[j])
      && Pending(grid, ps0, i, rows, cols, cs)
      && (forall k :: 0 <= k < |fm0| ==> fm0[k] <= forceMap[k])
    }

    /** One turn of `updateAllParticles`' loop: particle `i` is updated. */
    method UpdateSwept(i: nat, ghost ps0: seq<Particle>, ghost fm0: seq<real>, rand: nat -> nat, drawn: nat,
                       sqrt: real -> real) returns (drawnOut: nat)
      requires TerrainReady() && IsSqrt(sqrt) && i < |ps0|
      requires Swept(i, ps0, fm0, terrain.rows, terrain.cols, terrain.cellSize)
      modifies this`particles, this`grid, this`forceMap
      ensures Swept(i + 1, ps0, fm0, terrain.rows, terrain.cols, terrain.cellSize)
      ensures State(particles, grid, forceMap, drawnOut)
                == Updated(State(old(particles), old(grid), old(forceMap), drawn), i, DefaultTimeStep, rand, sqrt)
    {
      var rows, cols, cs := terrain.rows, terrain.cols, terrain.cellSize;
      ghost var g, fm := grid, forceMap;
      var collision, hit, norm, density;
      collision, hit, norm, density, drawnOut := UpdateParticle(i, DefaultTimeStep, rand, drawn, sqrt);
      if OnMap(ps0[i].position, rows, cols, cs) {
        var ks := RegistrationOf(particles[i].position, gridRows, gridCols, rows, cols, cs);
        RegisteredTotal(g, ks, i);
        PendingRegistered(g, ks, ps0, i, rows, cols, cs);
        ForceMap.DepositNeverDecreases(fm, fmWidth, fmHeight,
          ForceMap.PixelOf(particles[i].position, fmWidth, fmHeight, rows, cols, cs),
          ForceMap.DepositAmount(density, particles[i].velocity, sqrt));
      }
    }

    /** `updateGrid`: the buckets in row-major order, each pulling its entries
        towards their average velocity. Only velocities change. */
    method UpdateGrid()
      requires Valid()
      modifies this`particles
      ensures Valid()
      ensures particles == GridUpdated(old(particles), grid, |grid|, args.viscosity, args.clumpingFactor)
    {
      var rowsN, colsN, g, ps := gridRows, gridCols, grid, particles;
      ghost var ps0 := ps;
      var visc, clump := args.viscosity, args.clumpingFactor;
      var i, base := 0, 0;
      while i < rowsN
        invariant 0 <= i <= rowsN && base == i * colsN && |g| == rowsN * colsN
        invariant EntriesBelow(g, |ps0|) && ps == GridUpdated(ps0, g, base, visc, clump)
      {
        NextRow(i, rowsN, colsN);
        ps := PullRow(ps0, ps, g, base, colsN, visc, clump);
        i, base := i + 1, base + colsN;
      }
      particles := ps;
    }
  }

  /** The row after row `i` starts `cols` buckets later and ends within the grid. */
  lemma NextRow(i: nat, rows: nat, cols: nat)
    requires i < rows
    ensures i * cols + cols == (i + 1) * cols <= rows * cols
  {
    MulMonotone(i + 1, rows, cols);
  }

  /** Registering to four buckets is four pushes, in order. */
  lemma RegisteredFour(g: Grid, ks: seq<nat>, v: nat)
    requires |ks| == 4 && Below(ks, |g|)
    ensures var g1 := g[ks[0] := g[ks[0]] + [v]];
      var g2 := g1[ks[1] := g1[ks[1]] + [v]];
      var g3 := g2[ks[2] := g2[ks[2]] + [v]];
      Registered(g, ks, v) == g3[ks[3] := g3[ks[3]] + [v]]
  {
    var g1 := g[ks[0] := g[ks[0]] + [v]];
    var g2 := g1[ks[1] := g1[ks[1]] + [v]];
    var g3 := g2[ks[2] := g2[ks[2]] + [v]];
    var g4 := g3[ks[3] := g3[ks[3]] + [v]];
    assert ks[1..][1..][1..][1..] == [];
    assert Registered(g3, ks[1..][1..][1..], v) == g4;
    assert Registered(g2, ks[1..][1..], v) == g4;
    assert Registered(g1, ks[1..], v) == g4;
  }

  /** The body of `updateGrid` for one bucket: an empty bucket is skipped; otherwise
      the entries' velocities are summed and counted, the sum divided by the count,
      and each entry in turn pulled towards that average. */
  method PullBucket(ps: seq<Particle>, b: Bucket, visc: real, clump: real) returns (r: seq<Particle>)
    requires Below(b, |ps|)
    ensures r == BucketUpdated(ps, b, visc, clump)
  {
    r := ps;
    if |b| == 0 {
      return;
    }
    var sum, count := Zero3, 0.0;
    var p := 0;
    while p < |b|
      invariant 0 <= p <= |b| && sum == VelocitySum(ps, b, p) && count == p as real
    {
      sum := Add(sum, ps[b[p]].velocity);
      count := count + 1.0;
      p := p + 1;
    }
    var avg := Average(sum, count);
    p := 0;
    while p < |b|
      invariant 0 <= p <= |b| && r == PullAll(ps, b, p, avg, visc, count, clump)
    {
      var e := b[p];
      var v := Add(r[e].velocity, Scale(visc / count, Neg(avg)));
      v := Add(Scale(1.0 - clump, v), Scale(clump, avg));
      r := r[e := r[e].(velocity := v)];
      p := p + 1;
    }
  }

  /** One row of `updateGrid`'s outer loop: the `cols` buckets from `base` on, in
      order, extend the updates of the buckets before them. */
  method PullRow(ghost ps0: seq<Particle>, ps: seq<Particle>, g: Grid, base: nat, cols: nat,
                 visc: real, clump: real) returns (r: seq<Particle>)
    requires base + cols <= |g| && EntriesBelow(g, |ps0|)
    requires ps == GridUpdated(ps0, g, base, visc, clump)
    ensures r == GridUpdated(ps0, g, base + cols, visc, clump)
  {
    r := ps;
    var j := 0;
    while j < cols
      invariant 0 <= j <= cols && r == GridUpdated(ps0, g, base + j, visc, clump)
    {
      assert Below(g[base + j], |r|);
      r := PullBucket(r, g[base + j], visc, clump);
      j := j + 1;
    }
  }

  /** No particle `j` of `ps0` that is at or after `i`, or off the map, is listed. */
  ghost predicate Pending(g: Grid, ps0: seq<Particle>, i: nat, rows: nat, cols: nat, cs: real) {
    forall j :: 0 <= j < |ps0| && (i <= j || !OnMap(ps0[j].position, rows, cols, cs)) ==> Unlisted(g, j)
  }

  /** Registering particle `i`, which is over the map, moves the pending boundary past it. */
  lemma PendingRegistered(g: Grid, ks: seq<nat>, ps0: seq<Particle>, i: nat, rows: nat, cols: nat, cs: real)
    requires Below(ks, |g|) && i < |ps0| && OnMap(ps0[i].position, rows, cols, cs)
    requires Pending(g, ps0, i, rows, cols, cs)
    ensures Pending(Registered(g, ks, i), ps0, i + 1, rows, cols, cs)
  {
    forall j | 0 <= j < |ps0| && (i + 1 <= j || !OnMap(ps0[j].position, rows, cols, cs))
      ensures Unlisted(Registered(g, ks, i), j)
    {
      RegisteredUnlisted(g, ks, i, j);
    }
  }
}
