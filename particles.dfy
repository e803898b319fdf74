/** A particle of the mass-movement engine and the per-particle physics of one step:
    gravity, damping, the bounce off the terrain and the integration of the position. */
module Particles {
  import opened Vectors

  datatype Particle = Particle(position: Vec3, velocity: Vec3)

  /** The acceleration of gravity, along y. */
  const Gravity: real := -9.8

  /** The time step `updateParticle` uses by default. */
  const DefaultTimeStep: real := 0.1667

  /** The four settings the physics reads. */
  datatype Forces = Forces(bounceFriction: real, stickyness: real, damping: real, turbulance: real)

  /** `velocity.y += dTime * -9.8`: gravity changes only the vertical speed. */
  function Falling(v: Vec3, dTime: real): (r: Vec3)
    ensures r.x == v.x && r.z == v.z
    ensures 0.0 < dTime ==> r.y < v.y
  {
    v.(y := v.y + dTime * Gravity)
  }

  /** `velocity += -velocity * damping`. */
  function Damped(v: Vec3, damping: real): Vec3 {
    Add(v, Scale(damping, Neg(v)))
  }

  /** Damping scales the velocity by `1 - damping`. */
  lemma DampingScales(v: Vec3, damping: real)
    ensures Damped(v, damping) == Scale(1.0 - damping, v)
  {
    DampedComponent(v.x, damping);
    DampedComponent(v.y, damping);
    DampedComponent(v.z, damping);
    var d := Damped(v, damping);
    assert d == Vec3(v.x + damping * -v.x, v.y + damping * -v.y, v.z + damping * -v.z);
  }

  lemma DampedComponent(x: real, damping: real)
    ensures x + damping * -x == (1.0 - damping) * x
  {
  }

  /** With a damping in [0, 2], damping never speeds the particle up. */
  lemma DampingNeverSpeedsUp(v: Vec3, damping: real)
    requires 0.0 <= damping <= 2.0
    ensures LengthSqr(Damped(v, damping)) <= LengthSqr(v)
  {
    var k := 1.0 - damping;
    DampingScales(v, damping);
    ScaleLengthSqr(k, v);
    LengthSqrZero(v);
    SqAtMostOne(k);
    AtMostFactor(LengthSqr(Scale(k, v)), Sq(k), LengthSqr(v));
  }

  lemma AtMostFactor(a: real, b: real, c: real)
    requires a == b * c && 0.0 <= b <= 1.0 && 0.0 <= c
    ensures a <= c
  {
    ProductAtMost(b, c);
  }

  /** With a damping in [0, 1), damping keeps the sign of every component. */
  lemma DampingKeepsDirection(v: Vec3, damping: real)
    requires 0.0 <= damping < 1.0
    ensures SameSigns(v, Damped(v, damping))
  {
    DampingScales(v, damping);
    ScaleSigns(1.0 - damping, v);
  }

  lemma SqAtMostOne(k: real)
    requires -1.0 <= k <= 1.0
    ensures Sq(k) <= 1.0
  {
    var a := Abs(k);
    SqAbs(k);
    ProductAtMost(a, Id(a));
    assert Sq(a) == a * Id(a) <= Id(a) == a <= 1.0;
  }

  lemma ProductAtMost(a: real, b: real)
    requires 0.0 <= a <= 1.0 && 0.0 <= b
    ensures a * b <= b
  {
  }

  /** The reflection `-(2 (n . u) n - u)` of `u` about the plane with normal `n`. */
  function Reflected(u: Vec3, n: Vec3): Vec3 {
    Neg(Sub(Scale(2.0 * Dot(n, u), n), u))
  }

  /** Against a unit normal, the reflection reverses the normal component and keeps
      the length. */
  lemma ReflectionMirrors(u: Vec3, n: Vec3)
    requires LengthSqr(n) == 1.0
    ensures Dot(Reflected(u, n), n) == -Dot(u, n)
    ensures LengthSqr(Reflected(u, n)) == LengthSqr(u)
  {
    var k := Dot(n, u);
    var c := 2.0 * k;
    assert Reflected(u, n) == Sub(u, Scale(c, n));
    DotSelf(n);
    DotSymmetric(n, u);
    DotSubScale(u, n, c);
    SubScaleLengthSqr(u, n, c);
    ReflectionAlgebra(Dot(u, n), k, c, Dot(n, n), LengthSqr(u), Sq(c), Sq(k));
  }

  lemma ReflectionAlgebra(d: real, k: real, c: real, nn: real, l: real, cc: real, kk: real)
    requires d == k && c == 2.0 * k && nn == 1.0 && cc == 4.0 * kk && kk == k * k
    ensures d - c * nn == -d
    ensures l - 2.0 * c * d + cc * nn == l
  {
  }

  lemma DotSelf(n: Vec3)
    ensures Dot(n, n) == LengthSqr(n)
  {
    SquareIsProduct(n.x);
    SquareIsProduct(n.y);
    SquareIsProduct(n.z);
  }

  lemma DotSymmetric(a: Vec3, b: Vec3)
    ensures Dot(a, b) == Dot(b, a)
  {
    ProductSymmetric(a.x, b.x);
    ProductSymmetric(a.y, b.y);
    ProductSymmetric(a.z, b.z);
  }

  lemma ProductSymmetric(a: real, b: real)
    ensures a * b == b * a
  {
  }

  lemma SquareIsProduct(a: real)
    ensures Sq(a) == a * a
  {
  }

  /** `(u - c n) . n == u . n - c (n . n)`. */
  lemma DotSubScale(u: Vec3, n: Vec3, c: real)
    ensures Dot(Sub(u, Scale(c, n)), n) == Dot(u, n) - c * Dot(n, n)
  {
    SubScaleTimes(u.x, n.x, c);
    SubScaleTimes(u.y, n.y, c);
    SubScaleTimes(u.z, n.z, c);
    Factor3(c, n.x * n.x, n.y * n.y, n.z * n.z);
  }

  lemma SubScaleTimes(a: real, n: real, c: real)
    ensures (a - c * n) * n == a * n - c * (n * n)
  {
  }

  lemma Factor3(c: real, a: real, b: real, d: real)
    ensures c * a + c * b + c * d == c * (a + b + d)
  {
  }

  /** `|u - c n|^2 == |u|^2 - 2 c (u . n) + c^2 |n|^2`. */
  lemma SubScaleLengthSqr(u: Vec3, n: Vec3, c: real)
    ensures LengthSqr(Sub(u, Scale(c, n))) == LengthSqr(u) - 2.0 * c * Dot(u, n) + Sq(c) * Dot(n, n)
  {
    Expand3Sq(u.x, u.y, u.z, n.x, n.y, n.z, c);
  }

  lemma Expand3Sq(ux: real, uy: real, uz: real, nx: real, ny: real, nz: real, c: real)
    ensures Sq(ux - c * nx) + Sq(uy - c * ny) + Sq(uz - c * nz)
         == Sq(ux) + Sq(uy) + Sq(uz) - 2.0 * c * (ux * nx + uy * ny + uz * nz) + Sq(c) * (nx * nx + ny * ny + nz * nz)
  {
    Expand3(ux, uy, uz, nx, ny, nz, c);
  }

  lemma Expand3(ux: real, uy: real, uz: real, nx: real, ny: real, nz: real, c: real)
    ensures (ux - c * nx) * (ux - c * nx) + (uy - c * ny) * (uy - c * ny) + (uz - c * nz) * (uz - c * nz)
         == ux * ux + uy * uy + uz * uz - 2.0 * c * (ux * nx + uy * ny + uz * nz)
            + c * c * (nx * nx + ny * ny + nz * nz)
  {
  }

  /** The collision lift: a point below the hit is moved halfway up to it; any other
      point stays where it is. */
  function Lifted(pos: Vec3, hit: Vec3): (r: Vec3)
    ensures r.x == pos.x && r.z == pos.z && pos.y <= r.y
    ensures pos.y < hit.y ==> r.y < hit.y && hit.y - r.y == (hit.y - pos.y) / 2.0
    ensures hit.y <= pos.y ==> r == pos
  {
    if pos.y < hit.y then pos.(y := pos.y + 0.5 * (hit.y - pos.y)) else pos
  }

  /** The velocity after a collision, from the velocity `v` before it: the unit
      reflection of `v` about the normal, scaled back to `v`'s length and by the
      bounce friction, plus a random horizontal turbulence of that length scaled by
      the turbulance force and the density, drawn from `f1` and `f2` in [0, 1]. When
      `length * dTime` is below the stickyness, the particle stops. */
  function BounceVelocity(v: Vec3, norm: Vec3, f: Forces, density: real, dTime: real,
                          f1: real, f2: real, sqrt: real -> real): Vec3
    requires IsSqrt(sqrt)
  {
    var length := Length(v, sqrt);
    var r := Reflected(Normalized(v, sqrt), norm);
    var vel := Add(Scale(1.0 - f.bounceFriction, Scale(length, r)),
                   Scale(density, Scale(f.turbulance, Scale(length, Vec3(f1 - 0.5, 0.0, f2 - 0.5)))));
    if length * dTime < f.stickyness then Scale(0.0, vel) else vel
  }

  /** A particle that hits while `|v| * dTime` is below the stickyness has exactly
      zero velocity. */
  lemma StickyStops(v: Vec3, norm: Vec3, f: Forces, density: real, dTime: real,
                    f1: real, f2: real, sqrt: real -> real)
    requires IsSqrt(sqrt) && Length(v, sqrt) * dTime < f.stickyness
    ensures BounceVelocity(v, norm, f, density, dTime, f1, f2, sqrt) == Zero3
  {
  }

  /** Without turbulence, a bounce off a unit normal that does not stick keeps the
      fraction `1 - bounceFriction` of the speed: the result is as long as `v` scaled
      by that fraction (whose squared length is `Sq(1 - bounceFriction) * |v|^2`,
      by `ScaleLengthSqr`). */
  lemma BounceKeepsSpeed(v: Vec3, norm: Vec3, f: Forces, density: real, dTime: real,
                         f1: real, f2: real, sqrt: real -> real)
    requires IsSqrt(sqrt) && LengthSqr(norm) == 1.0 && v != Zero3
    requires f.turbulance == 0.0 && f.stickyness <= Length(v, sqrt) * dTime
    ensures LengthSqr(BounceVelocity(v, norm, f, density, dTime, f1, f2, sqrt))
         == LengthSqr(Scale(1.0 - f.bounceFriction, v))
  {
    var length := Length(v, sqrt);
    var w := Scale(length, Reflected(Normalized(v, sqrt), norm));
    ReflectedKeepsLength(v, norm, sqrt);
    var k := 1.0 - f.bounceFriction;
    var t := Scale(density, Scale(f.turbulance, Scale(length, Vec3(f1 - 0.5, 0.0, f2 - 0.5))));
    assert t == Zero3;
    assert BounceVelocity(v, norm, f, density, dTime, f1, f2, sqrt) == Add(Scale(k, w), t) == Scale(k, w);
    ScaleSameLength(k, w, v);
  }

  lemma ScaleSameLength(k: real, w: Vec3, v: Vec3)
    requires LengthSqr(w) == LengthSqr(v)
    ensures LengthSqr(Scale(k, w)) == LengthSqr(Scale(k, v))
  {
    ScaleLengthSqr(k, w);
    ScaleLengthSqr(k, v);
    MulEqual(Sq(k), LengthSqr(w), LengthSqr(v));
  }

  lemma MulEqual(a: real, b: real, c: real)
    requires b == c
    ensures a * b == a * c
  {
  }

  /** The reflected unit direction, scaled back by the length of `v`, has the length of `v`. */
  lemma ReflectedKeepsLength(v: Vec3, norm: Vec3, sqrt: real -> real)
    requires IsSqrt(sqrt) && LengthSqr(norm) == 1.0 && v != Zero3
    ensures LengthSqr(Scale(Length(v, sqrt), Reflected(Normalized(v, sqrt), norm))) == LengthSqr(v)
  {
    var length := Length(v, sqrt);
    var r := Reflected(Normalized(v, sqrt), norm);
    ReflectionMirrors(Normalized(v, sqrt), norm);
    ScaleLengthSqr(length, r);
    assert LengthSqr(r) == 1.0;
    assert Sq(length) == LengthSqr(v);
  }

  /** The position and velocity after a collision at `hit` with normal `norm`, before
      the position is integrated. */
  function Bounced(p: Particle, hit: Vec3, norm: Vec3, f: Forces, density: real, dTime: real,
                   f1: real, f2: real, sqrt: real -> real): Particle
    requires IsSqrt(sqrt)
  {
    Particle(Lifted(p.position, hit), BounceVelocity(p.velocity, norm, f, density, dTime, f1, f2, sqrt))
  }

  /** `position += velocity * dTime`. */
  function Integrated(p: Particle, dTime: real): (r: Particle)
    ensures r.velocity == p.velocity && r.position == Add(p.position, Scale(dTime, p.velocity))
  {
    Particle(Add(p.position, Scale(dTime, p.velocity)), p.velocity)
  }

  /** One step of `updateParticle` for a particle on the map: gravity; then damping
      when the trace found no collision, or the bounce at `hit` with normal `norm`;
      then the position moves by the new velocity times `dTime`. */
  function Moved(p: Particle, dTime: real, collision: bool, hit: Vec3, norm: Vec3, f: Forces,
                 density: real, f1: real, f2: real, sqrt: real -> real): Particle
    requires IsSqrt(sqrt)
  {
    var fallen := Particle(p.position, Falling(p.velocity, dTime));
    var s := if collision then Bounced(fallen, hit, norm, f, density, dTime, f1, f2, sqrt)
             else Particle(fallen.position, Damped(fallen.velocity, f.damping));
    Integrated(s, dTime)
  }

  /** Without a collision, the particle falls, is damped and moves by its velocity. */
  lemma MovedFreely(p: Particle, dTime: real, hit: Vec3, norm: Vec3, f: Forces,
                    density: real, f1: real, f2: real, sqrt: real -> real)
    requires IsSqrt(sqrt)
    ensures var q := Moved(p, dTime, false, hit, norm, f, density, f1, f2, sqrt);
      && q.velocity == Scale(1.0 - f.damping, Falling(p.velocity, dTime))
      && q.position == Add(p.position, Scale(dTime, q.velocity))
  {
    DampingScales(Falling(p.velocity, dTime), f.damping);
  }

  /** A particle that sticks on collision ends the step at rest, at its lifted position. */
  lemma MovedSticks(p: Particle, dTime: real, hit: Vec3, norm: Vec3, f: Forces,
                    density: real, f1: real, f2: real, sqrt: real -> real)
    requires IsSqrt(sqrt) && Length(Falling(p.velocity, dTime), sqrt) * dTime < f.stickyness
    ensures var q := Moved(p, dTime, true, hit, norm, f, density, f1, f2, sqrt);
      q.velocity == Zero3 && q.position == Lifted(p.position, hit)
  {
    StickyStops(Falling(p.velocity, dTime), norm, f, density, dTime, f1, f2, sqrt);
    assert Scale(dTime, Zero3) == Zero3;
  }
}
