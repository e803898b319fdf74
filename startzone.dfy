/** The start zone of `initParticles`: a raster whose pixels say how many particles
    to spawn, and where over the map each spawned particle starts. Pixel (i, j) is
    column i and row j; the pixels are visited column by column, each column top to
    bottom. */
module StartZone {
  import opened XMath
  import opened Vectors
  import ArrayX
  import XImage
  import opened Particles
  import opened ParticleGrid

  /** `int(getPixel(i, j).xyz().lengthSqr())`: the particles pixel (i, j) spawns.
      Each colour channel lies in [0, 1], so this is at most 3. */
  function PixelCount(img: XImage.Image, i: nat, j: nat): (n: nat)
    reads img, img.data
    requires img.Valid() && i < img.width && j < img.height && 0 < img.depth
    ensures n <= 3
  {
    var c := img.GetVoxel(i, j, 0);
    var v := Vec3(c.x, c.y, c.z);
    ChannelsAtMostThree(v);
    Trunc(LengthSqr(v))
  }

  lemma ChannelsAtMostThree(v: Vec3)
    requires 0.0 <= v.x <= 1.0 && 0.0 <= v.y <= 1.0 && 0.0 <= v.z <= 1.0
    ensures 0.0 <= LengthSqr(v) <= 3.0
  {
    SqAtMostOne(v.x);
    SqAtMostOne(v.y);
    SqAtMostOne(v.z);
    LengthSqrZero(v);
  }

  lemma QuotientBelow(a: nat, b: nat, w: nat)
    requires a < b * w
    ensures 0 < w && a / w < b
  {
    assert 0 < w;
    var q := a / w;
    assert q * w <= a;
    assert (b - q) * w > 0;
    PositiveFactor(b - q, w);
  }

  lemma PositiveFactor(x: int, w: nat)
    requires x * w > 0
    ensures x > 0
  {
  }

  /** The pixel of each particle spawned from the first `i` columns of the start
      zone, in spawning order: column after column, each as `ColumnSpawns` says. */
  function Spawns(img: XImage.Image, i: nat): (s: seq<(nat, nat)>)
    reads img, img.data
    requires img.Valid() && 0 < img.depth && i <= img.width
    ensures forall k :: 0 <= k < |s| ==> s[k].0 < i && s[k].1 < img.height
  {
    if i == 0 then [] else Spawns(img, i - 1) + ColumnSpawns(img, i - 1, img.height)
  }

  /** The pixel of each particle spawned from the first `j` pixels of column `i`:
      pixel after pixel, each repeated as often as it spawns. */
  function ColumnSpawns(img: XImage.Image, i: nat, j: nat): (s: seq<(nat, nat)>)
    reads img, img.data
    requires img.Valid() && 0 < img.depth && i < img.width && j <= img.height
    ensures forall k :: 0 <= k < |s| ==> s[k].0 == i && s[k].1 < j
  {
    if j == 0 then []
    else
      var before, pixel := ColumnSpawns(img, i, j - 1), Repeat((i, j - 1), PixelCount(img, i, j - 1));
      PixelsAppended(before, pixel, i, j - 1);
      before + pixel
  }

  /** Appending repeats of pixel (i, j) to pixels of column `i` above row `j` keeps
      every pixel in column `i` above row `j + 1`. */
  lemma PixelsAppended(before: seq<(nat, nat)>, pixel: seq<(nat, nat)>, i: nat, j: nat)
    requires forall k :: 0 <= k < |before| ==> before[k].0 == i && before[k].1 < j
    requires forall e <- pixel :: e == (i, j)
    ensures forall k :: 0 <= k < |before + pixel| ==> (before + pixel)[k].0 == i && (before + pixel)[k].1 < j + 1
  {
    var s := before + pixel;
    forall k | 0 <= k < |s| ensures s[k].0 == i && s[k].1 < j + 1 {
      if k >= |before| {
        assert s[k] == pixel[k - |before|];
        assert pixel[k - |before|] in pixel;
      }
    }
  }

  /** Jitter axis `c` (0 for x, 1 for y, 2 for z) after `n` rounds, round r adding
      `(frand() - 0.5) / 2` with the draw `rand(d + 3 r + c)`. */
  function JitterAxis(rand: nat -> nat, d: nat, c: nat, n: nat): real {
    if n == 0 then 0.0 else JitterAxis(rand, d, c, n - 1) + (Frand(rand(d + 3 * (n - 1) + c)) - 0.5) / 2.0
  }

  /** The jitter of one spawned particle: four rounds over the twelve draws from `d` on. */
  function Jittered(rand: nat -> nat, d: nat): Vec3 {
    Vec3(JitterAxis(rand, d, 0, 4), JitterAxis(rand, d, 1, 4), JitterAxis(rand, d, 2, 4))
  }

  /** Each round moves an axis by at most a quarter. */
  lemma {:induction false} JitterAxisBounds(rand: nat -> nat, d: nat, c: nat, n: nat)
    ensures -(n as real) / 4.0 <= JitterAxis(rand, d, c, n) <= n as real / 4.0
  {
    if n > 0 {
      JitterAxisBounds(rand, d, c, n - 1);
    }
  }

  /** The four jitter rounds of `initParticles`, from the draw `d` on. The jitter lies
      within one cell along every axis. */
  method Jitter(rand: nat -> nat, d: nat) returns (jv: Vec3)
    ensures jv == Jittered(rand, d)
    ensures -1.0 <= jv.x <= 1.0 && -1.0 <= jv.y <= 1.0 && -1.0 <= jv.z <= 1.0
  {
    jv := Vec3(0.0, 0.0, 0.0);
    var r := 0;
    while r < 4
      invariant 0 <= r <= 4
      invariant jv == Vec3(JitterAxis(rand, d, 0, r), JitterAxis(rand, d, 1, r), JitterAxis(rand, d, 2, r))
    {
      jv := jv.(x := jv.x + (Frand(rand(d + 3 * r)) - 0.5) / 2.0);
      jv := jv.(y := jv.y + (Frand(rand(d + 3 * r + 1)) - 0.5) / 2.0);
      jv := jv.(z := jv.z + (Frand(rand(d + 3 * r + 2)) - 0.5) / 2.0);
      r := r + 1;
    }
    JitterAxisBounds(rand, d, 0, 4);
    JitterAxisBounds(rand, d, 1, 4);
    JitterAxisBounds(rand, d, 2, 4);
  }

  /** The map column under start-zone column `i`: `cols * i / width`. */
  function SpawnCol(i: nat, width: nat, cols: nat): (x: nat)
    requires i < width && 0 < cols
    ensures x < cols
  {
    MulMonotone(i + 1, width, cols);
    QuotientBelow(cols * i, cols, width);
    cols * i / width
  }

  /** The map row of start-zone row `j`, flipped: `rows - rows * j / height`. It lies
      in [1, rows]. */
  function SpawnRow(j: nat, height: nat, rows: nat): (y: nat)
    requires j < height && 0 < rows
    ensures 1 <= y <= rows
  {
    MulMonotone(j + 1, height, rows);
    QuotientBelow(rows * j, rows, height);
    rows - rows * j / height
  }

  /** For the top row of the start zone the flipped row is `rows` itself, one past
      the last row of the map: the height read there, at `heightMap(rows, x)`, lies
      past the end of the height map. */
  lemma SpawnRowPastMap(height: nat, rows: nat, cols: nat, x: nat)
    requires 0 < height && 0 < rows && x < cols
    ensures SpawnRow(0, height, rows) == rows
    ensures ArrayX.Index(SpawnRow(0, height, rows), x, cols) >= rows * cols
  {
  }

  /** The row whose height a spawn reads: the flipped row, kept inside the map. Every
      row but the one past the map reads itself. */
  function LookupRow(y: nat, rows: nat): (r: nat)
    requires 1 <= y <= rows
    ensures r < rows && (y < rows ==> r == y) && (y == rows ==> r == rows - 1)
  {
    if y < rows then y else rows - 1
  }

  /** The particle spawned at `pixel` with jitter `jv`, over a map of `rows` by `cols`
      cells of side `cs` with heights `hm`: the one spawned over the pixel's map
      cell. */
  function Spawn(pixel: (nat, nat), width: nat, height: nat, hm: seq<real>, rows: nat, cols: nat, cs: real,
                 initialHeight: real, jv: Vec3): Particle
    requires pixel.0 < width && pixel.1 < height && 0 < rows && 0 < cols && |hm| == rows * cols
  {
    SpawnAt(SpawnCol(pixel.0, width, cols), SpawnRow(pixel.1, height, rows), hm, rows, cols, cs, initialHeight, jv)
  }

  /** The particle spawned over map cell (x, y): offset by the jitter in cells, at
      the height read at the cell plus `initialHeight`. */
  function SpawnAt(x: nat, y: nat, hm: seq<real>, rows: nat, cols: nat, cs: real, initialHeight: real,
                   jv: Vec3): Particle
    requires x < cols && 1 <= y <= rows && |hm| == rows * cols
  {
    Particle(Vec3(jv.x * cs + x as real * cs, hm[ArrayX.Cell(LookupRow(y, rows), x, rows, cols)] + initialHeight,
                  jv.z * cs + y as real * cs),
             Zero3)
  }

  /** A spawned particle is at rest, within one cell of its map cell along x and z,
      and `initialHeight` above the height read for it. */
  lemma SpawnPlacement(x: nat, y: nat, hm: seq<real>, rows: nat, cols: nat, cs: real, initialHeight: real, jv: Vec3)
    requires x < cols && 1 <= y <= rows && |hm| == rows * cols && 0.0 < cs
    requires -1.0 <= jv.x <= 1.0 && -1.0 <= jv.z <= 1.0
    ensures var p := SpawnAt(x, y, hm, rows, cols, cs, initialHeight, jv);
      && p.velocity == Zero3
      && x as real * cs - cs <= p.position.x <= x as real * cs + cs
      && y as real * cs - cs <= p.position.z <= y as real * cs + cs
      && p.position.y - initialHeight == hm[ArrayX.Cell(LookupRow(y, rows), x, rows, cols)]
  {
    WithinCell(jv.x, cs);
    WithinCell(jv.z, cs);
    Placement(SpawnAt(x, y, hm, rows, cols, cs, initialHeight, jv), jv.x * cs, jv.z * cs, x as real * cs,
              y as real * cs, hm[ArrayX.Cell(LookupRow(y, rows), x, rows, cols)], initialHeight, cs);
  }

  lemma Placement(p: Particle, dx: real, dz: real, cornerX: real, cornerZ: real, h: real, initialHeight: real,
                  cs: real)
    requires -cs <= dx <= cs && -cs <= dz <= cs
    requires p == Particle(Vec3(dx + cornerX, h + initialHeight, dz + cornerZ), Zero3)
    ensures p.velocity == Zero3 && p.position.y - initialHeight == h
    ensures cornerX - cs <= p.position.x <= cornerX + cs && cornerZ - cs <= p.position.z <= cornerZ + cs
  {
  }

  lemma WithinCell(k: real, cs: real)
    requires -1.0 <= k <= 1.0 && 0.0 < cs
    ensures -cs <= k * cs <= cs
  {
  }

  /** The particles one pixel spawns, appended to `ps`, with the draws from `drawn` on,
      twelve per particle. */
  method SpawnPixel(ps: seq<Particle>, ghost spawns: seq<(nat, nat)>, n: nat, pixel: (nat, nat), width: nat, height: nat,
                    hm: seq<real>, rows: nat, cols: nat, cs: real, initialHeight: real,
                    rand: nat -> nat, drawn: nat) returns (r: seq<Particle>, drawnOut: nat)
    requires pixel.0 < width && pixel.1 < height && 0 < rows && 0 < cols && |hm| == rows * cols
    requires spawns == Repeat(pixel, n)
    ensures |r| == |ps| + n && r[..|ps|] == ps && drawnOut == drawn + 12 * n
    ensures forall k :: |ps| <= k < |r| ==>
      r[k] == Spawn(spawns[k - |ps|], width, height, hm, rows, cols, cs, initialHeight,
                    Jittered(rand, drawn + 12 * (k - |ps|)))
  {
    r, drawnOut := ps, drawn;
    var p := 0;
    while p < n
      invariant 0 <= p <= n && |r| == |ps| + p && r[..|ps|] == ps && drawnOut == drawn + 12 * p
      invariant forall k :: |ps| <= k < |r| ==>
        r[k] == Spawn(spawns[k - |ps|], width, height, hm, rows, cols, cs, initialHeight,
                      Jittered(rand, drawn + 12 * (k - |ps|)))
    {
      var jv := Jitter(rand, drawnOut);
      var x := SpawnCol(pixel.0, width, cols);
      var y := SpawnRow(pixel.1, height, rows);
      var q := Particle(Vec3(jv.x * cs + x as real * cs, hm[ArrayX.Cell(LookupRow(y, rows), x, rows, cols)] + initialHeight,
                             jv.z * cs + y as real * cs),
                        Zero3);
      assert q == Spawn(spawns[p], width, height, hm, rows, cols, cs, initialHeight, Jittered(rand, drawnOut));
      r := r + [q];
      drawnOut := drawnOut + 12;
      p := p + 1;
    }
  }

  /** The counting loops of `initParticles`: how many particles the start zone spawns. */
  method CountSpawns(img: XImage.Image) returns (count: nat)
    requires img.Valid() && 0 < img.depth
    ensures count == |Spawns(img, img.width)|
  {
    var w := img.width;
    count := 0;
    var i := 0;
    while i < w
      invariant 0 <= i <= w && count == |Spawns(img, i)|
    {
      count := CountColumn(img, i, count);
      i := i + 1;
    }
  }

  /** The inner counting loop of `initParticles`, over column `i`. */
  method CountColumn(img: XImage.Image, i: nat, count0: nat) returns (count: nat)
    requires img.Valid() && 0 < img.depth && i < img.width
    ensures count == count0 + |ColumnSpawns(img, i, img.height)|
  {
    var h := img.height;
    count := count0;
    var j := 0;
    while j < h
      invariant 0 <= j <= h && count == count0 + |ColumnSpawns(img, i, j)|
    {
      count := count + PixelCount(img, i, j);
      j := j + 1;
    }
  }

  /** `ps` holds, in order, one particle per pixel of `sp`, the `k`-th spawned with the
      twelve draws from `drawn + 12 k` on. */
  ghost predicate SpawnedAs(ps: seq<Particle>, sp: seq<(nat, nat)>, width: nat, height: nat, hm: seq<real>,
                            rows: nat, cols: nat, cs: real, initialHeight: real, rand: nat -> nat, drawn: nat)
  {
    && |ps| == |sp|
    && forall k :: 0 <= k < |ps| ==>
         sp[k].0 < width && sp[k].1 < height && 0 < rows && 0 < cols && |hm| == rows * cols
         && ps[k] == Spawn(sp[k], width, height, hm, rows, cols, cs, initialHeight, Jittered(rand, drawn + 12 * k))
  }

  /** The two walks of `initParticles` over the start zone: the first counts the
      particles, which sizes the particle array; the second spawns exactly that
      many. */
  method Populate(img: XImage.Image, hm: seq<real>, rows: nat, cols: nat, cs: real, initialHeight: real,
                  rand: nat -> nat, drawn: nat) returns (ps: seq<Particle>, drawnOut: nat)
    requires img.Valid() && 0 < img.depth && 0 < rows && 0 < cols && |hm| == rows * cols
    ensures SpawnedAs(ps, Spawns(img, img.width), img.width, img.height, hm, rows, cols, cs, initialHeight, rand, drawn)
    ensures drawnOut == drawn + 12 * |ps|
  {
    var count := CountSpawns(img);
    ps, drawnOut := SpawnAll(img, hm, rows, cols, cs, initialHeight, rand, drawn);
    assert |ps| == count;
  }

  /** The spawning loops of `initParticles`: every pixel of the walk in turn spawns
      its particles. */
  method SpawnAll(img: XImage.Image, hm: seq<real>, rows: nat, cols: nat, cs: real, initialHeight: real,
                  rand: nat -> nat, drawn: nat) returns (ps: seq<Particle>, drawnOut: nat)
    requires img.Valid() && 0 < img.depth && 0 < rows && 0 < cols && |hm| == rows * cols
    ensures SpawnedAs(ps, Spawns(img, img.width), img.width, img.height, hm, rows, cols, cs, initialHeight, rand, drawn)
    ensures drawnOut == drawn + 12 * |ps|
  {
    var w := img.width;
    ps, drawnOut := [], drawn;
    var i := 0;
    ghost var sp: seq<(nat, nat)> := [];
    while i < w
      invariant 0 <= i <= w && drawnOut == drawn + 12 * |ps|
      invariant sp == Spawns(img, i)
      invariant SpawnedAs(ps, sp, w, img.height, hm, rows, cols, cs, initialHeight, rand, drawn)
    {
      ps, drawnOut := SpawnColumn(img, i, ps, sp, hm, rows, cols, cs, initialHeight, rand, drawn, drawnOut);
      sp := sp + ColumnSpawns(img, i, img.height);
      i := i + 1;
    }
  }

  /** The middle spawning loop of `initParticles`, over column `i`: its pixels'
      particles are appended, in order. */
  method SpawnColumn(img: XImage.Image, i: nat, ps0: seq<Particle>, ghost sp0: seq<(nat, nat)>, hm: seq<real>,
                     rows: nat, cols: nat, cs: real, initialHeight: real, rand: nat -> nat, drawn: nat,
                     drawn0: nat) returns (ps: seq<Particle>, drawnOut: nat)
    requires img.Valid() && 0 < img.depth && i < img.width && 0 < rows && 0 < cols && |hm| == rows * cols
    requires SpawnedAs(ps0, sp0, img.width, img.height, hm, rows, cols, cs, initialHeight, rand, drawn)
    requires drawn0 == drawn + 12 * |ps0|
    ensures SpawnedAs(ps, sp0 + ColumnSpawns(img, i, img.height), img.width, img.height, hm, rows, cols, cs,
                      initialHeight, rand, drawn)
    ensures drawnOut == drawn + 12 * |ps|
  {
    var w, h := img.width, img.height;
    ps, drawnOut := ps0, drawn0;
    var j := 0;
    while j < h
      invariant 0 <= j <= h && drawnOut == drawn + 12 * |ps|
      invariant SpawnedAs(ps, sp0 + ColumnSpawns(img, i, j), w, h, hm, rows, cols, cs, initialHeight, rand, drawn)
    {
      ps, drawnOut := SpawnFromPixel(img, i, j, sp0, ps, hm, rows, cols, cs, initialHeight, rand, drawn, drawnOut);
      j := j + 1;
    }
  }

  /** The body of the row loop of `initParticles`: pixel (i, j) spawns its particles. */
  method SpawnFromPixel(img: XImage.Image, i: nat, j: nat, ghost sp0: seq<(nat, nat)>, ps: seq<Particle>,
                        hm: seq<real>, rows: nat, cols: nat, cs: real, initialHeight: real, rand: nat -> nat,
                        drawn: nat, d: nat) returns (r: seq<Particle>, drawnOut: nat)
    requires img.Valid() && 0 < img.depth && i < img.width && j < img.height && 0 < rows && 0 < cols
    requires |hm| == rows * cols && d == drawn + 12 * |ps|
    requires SpawnedAs(ps, sp0 + ColumnSpawns(img, i, j), img.width, img.height, hm, rows, cols, cs, initialHeight,
                       rand, drawn)
    ensures SpawnedAs(r, sp0 + ColumnSpawns(img, i, j + 1), img.width, img.height, hm, rows, cols, cs,
                      initialHeight, rand, drawn)
    ensures drawnOut == drawn + 12 * |r|
  {
    var n := PixelCount(img, i, j);
    r, drawnOut := SpawnPixel(ps, Repeat((i, j), n), n, (i, j), img.width, img.height, hm, rows, cols, cs,
                              initialHeight, rand, d);
    ColumnStep(img, i, j, sp0, ps, r, hm, rows, cols, cs, initialHeight, rand, drawn, d);
  }

  /** One pass of the row loop of `initParticles` keeps the walk of column `i` so far. */
  lemma ColumnStep(img: XImage.Image, i: nat, j: nat, sp0: seq<(nat, nat)>,
                   ps: seq<Particle>, r: seq<Particle>, hm: seq<real>, rows: nat, cols: nat, cs: real,
                   initialHeight: real, rand: nat -> nat, drawn: nat, d0: nat)
    requires img.Valid() && 0 < img.depth && i < img.width && j < img.height && 0 < rows && 0 < cols
    requires |hm| == rows * cols
    requires SpawnedAs(ps, sp0 + ColumnSpawns(img, i, j), img.width, img.height, hm, rows, cols, cs, initialHeight,
                       rand, drawn)
    requires var n := PixelCount(img, i, j);
      && |r| == |ps| + n && r[..|ps|] == ps && d0 == drawn + 12 * |ps|
      && forall k :: |ps| <= k < |r| ==>
           r[k] == Spawn(Repeat((i, j), n)[k - |ps|], img.width, img.height, hm, rows, cols, cs, initialHeight,
                         Jittered(rand, d0 + 12 * (k - |ps|)))
    ensures SpawnedAs(r, sp0 + ColumnSpawns(img, i, j + 1), img.width, img.height, hm, rows, cols, cs,
                      initialHeight, rand, drawn)
  {
    var n := PixelCount(img, i, j);
    var sp := sp0 + ColumnSpawns(img, i, j);
    SpawnedStep(ps, r, sp, (i, j), n, img.width, img.height, hm, rows, cols, cs, initialHeight, rand, drawn, d0);
    assert ColumnSpawns(img, i, j + 1) == ColumnSpawns(img, i, j) + Repeat((i, j), n);
    assert sp0 + ColumnSpawns(img, i, j + 1) == sp + Repeat((i, j), n);
  }

  /** Appending the particles of one more pixel extends the walk by that pixel. */
  lemma SpawnedStep(ps: seq<Particle>, r: seq<Particle>, sp: seq<(nat, nat)>, pixel: (nat, nat), n: nat,
                    width: nat, height: nat, hm: seq<real>, rows: nat, cols: nat, cs: real, initialHeight: real,
                    rand: nat -> nat, drawn: nat, d0: nat)
    requires pixel.0 < width && pixel.1 < height && 0 < rows && 0 < cols && |hm| == rows * cols
    requires SpawnedAs(ps, sp, width, height, hm, rows, cols, cs, initialHeight, rand, drawn)
    requires |r| == |ps| + n && r[..|ps|] == ps && d0 == drawn + 12 * |ps|
    requires forall k :: |ps| <= k < |r| ==>
      r[k] == Spawn(Repeat(pixel, n)[k - |ps|], width, height, hm, rows, cols, cs, initialHeight,
                    Jittered(rand, d0 + 12 * (k - |ps|)))
    ensures SpawnedAs(r, sp + Repeat(pixel, n), width, height, hm, rows, cols, cs, initialHeight, rand, drawn)
  {
    var sp1 := sp + Repeat(pixel, n);
    forall k | 0 <= k < |r|
      ensures sp1[k].0 < width && sp1[k].1 < height
      ensures r[k] == Spawn(sp1[k], width, height, hm, rows, cols, cs, initialHeight, Jittered(rand, drawn + 12 * k))
    {
      if k < |ps| {
        assert r[k] == r[..|ps|][k];
      }
    }
  }
}
