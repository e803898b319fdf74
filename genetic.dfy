/** The genetic optimiser of the simulation parameters. A gene holds eight loci in
    [0, 1], one per optimised parameter, and a fitness (a weighted mean squared
    error: lower is fitter). `combine` breeds two children from two parents,
    `crossover` exchanges one gene between two populations, and `runGA` breeds,
    sorts and prunes one population for a number of generations. Every `rand()`
    value is the next entry of a supplied stream `rand`, read from index `d` on;
    a `frand()` is `Frand` of such an entry, and `rand() % 2` a `Coin`. */
module Genetic {
  import opened XMath
  import Settings
  import Vectors

  /** The number of loci of a gene. */
  const Loci := 8

  /** The parameters the loci stand for, in locus order. */
  const Params: seq<Settings.Key> := [
    Settings.InitialHeight, Settings.BounceFriction, Settings.Stickyness, Settings.DampingForce,
    Settings.TurbulanceForce, Settings.ClumpingFactor, Settings.Viscosity, Settings.GridSize]

  /** The range each locus is spread over. */
  const MinVals: seq<real> := [0.0, 0.0, 0.1, 0.0, 0.25, 0.0, 0.0, 64.0]
  const MaxVals: seq<real> := [100.0, 0.25, 0.75, 0.15, 5.0, 1.0, 1.0, 512.0]

  /** The start values of `g_mutationChance` and `g_mutationScale`. */
  const DefaultMutationChance := 0.333
  const DefaultMutationScale := 0.25

  /** The fitness of a gene that has not been evaluated. */
  const Unevaluated := 999.0

  datatype Gene = Gene(fitness: real, sequence: seq<real>)

  /** A gene with its eight loci. */
  predicate Shaped(g: Gene) {
    |g.sequence| == Loci
  }

  /** A gene with its eight loci, all in [0, 1]. */
  predicate InUnit(g: Gene) {
    |g.sequence| == Loci && forall k :: 0 <= k < Loci ==> 0.0 <= g.sequence[k] <= 1.0
  }

  /** `rand() % 2` taken as a condition. */
  predicate Coin(r: nat) {
    r % 2 != 0
  }

  // ---------------------------------------------------------------- decoding

  lemma RangeWidth(k: nat)
    requires k < Loci
    ensures MinVals[k] < MaxVals[k]
  {
  }

  /** The parameter value locus value `s` stands for at locus `k`. */
  function Decode(s: real, k: nat): real
    requires k < Loci
  {
    s * (MaxVals[k] - MinVals[k]) + MinVals[k]
  }

  /** The locus value that stands for parameter value `v` at locus `k`. */
  function Encode(v: real, k: nat): real
    requires k < Loci
  {
    RangeWidth(k);
    (v - MinVals[k]) / (MaxVals[k] - MinVals[k])
  }

  /** Decoding maps [0, 1] onto the locus's range, and nothing outside [0, 1] into it. */
  lemma DecodeRange(s: real, k: nat)
    requires k < Loci
    ensures 0.0 <= s <= 1.0 <==> MinVals[k] <= Decode(s, k) <= MaxVals[k]
  {
    RangeWidth(k);
    ScaleRange(s, MaxVals[k] - MinVals[k]);
  }

  lemma ScaleRange(s: real, w: real)
    requires 0.0 < w
    ensures 0.0 <= s <= 1.0 <==> 0.0 <= s * w <= w
  {
    assert s * w - w == (s - 1.0) * w;
    if s < 0.0 {
      assert s * w < 0.0;
    }
    if 1.0 < s {
      assert (s - 1.0) * w > 0.0;
    }
  }

  /** Decoding and encoding are inverse to each other. */
  lemma DecodeEncode(v: real, s: real, k: nat)
    requires k < Loci
    ensures Decode(Encode(v, k), k) == v
    ensures Encode(Decode(s, k), k) == s
  {
    RangeWidth(k);
  }

  /** `evalFitness` copying a gene into the settings of a simulator: each
      optimised field gets its locus decoded, `gridSize` truncated to an `int`. */
  function Apply(g: Gene, args: Settings.Values): (r: Settings.Values)
    requires Shaped(g)
    ensures Settings.Get(r, Settings.GridSize) == Settings.Whole(Trunc(Decode(g.sequence[7], 7)))
  {
    var s := g.sequence;
    args.(initialHeight := Decode(s[0], 0), bounceFriction := Decode(s[1], 1),
          stickyness := Decode(s[2], 2), dampingForce := Decode(s[3], 3),
          turbulanceForce := Decode(s[4], 4), clumpingFactor := Decode(s[5], 5),
          viscosity := Decode(s[6], 6), gridSize := Trunc(Decode(s[7], 7)))
  }

  /** Applying a gene sets each of the seven real settings it optimises to its
      decoded locus. */
  lemma ApplySets(g: Gene, args: Settings.Values, k: nat)
    requires Shaped(g) && k < Loci - 1
    ensures Settings.Get(Apply(g, args), Params[k]) == Settings.Float(Decode(g.sequence[k], k))
  {
  }

  /** Applying a gene leaves every setting it does not optimise as it was. */
  lemma ApplyKeepsOthers(g: Gene, args: Settings.Values, key: Settings.Key)
    requires Shaped(g) && key !in Params
    ensures Settings.Get(Apply(g, args), key) == Settings.Get(args, key)
  {
  }

  /** A gene in [0, 1] gives every optimised field a value in its range; the grid
      size lies in [64, 512]. */
  lemma ApplyInRange(g: Gene, args: Settings.Values, k: nat)
    requires InUnit(g) && k < Loci - 1
    ensures Settings.Get(Apply(g, args), Params[k]).Float?
    ensures MinVals[k] <= Settings.Get(Apply(g, args), Params[k]).r <= MaxVals[k]
    ensures 64 <= Apply(g, args).gridSize <= 512
  {
    DecodeRange(g.sequence[k], k);
    DecodeRange(g.sequence[7], 7);
  }

  // ----------------------------------------------------------------- combine

  /** `u` lies within `s` of `x`. */
  predicate Near(u: real, x: real, s: real) {
    x - s <= u <= x + s
  }

  /** `u` and `v` are `x` and `y`, in either order. */
  predicate Swapped(u: real, v: real, x: real, y: real) {
    (u == x && v == y) || (u == y && v == x)
  }

  /** `u` and `v` are `x` and `y`, in either order, with one of the two moved by
      at most `s`. */
  predicate Inherited(u: real, v: real, x: real, y: real, s: real) {
    || (Near(u, x, s) && v == y) || (u == x && Near(v, y, s))
    || (Near(u, y, s) && v == x) || (u == y && Near(v, x, s))
  }

  /** The mutation `(frand() - frand()) * scale * frand()` of one locus, from the
      draws at `d`, `d + 1` and `d + 2`: never larger than the scale. */
  function Tridist(rand: nat -> nat, d: nat, scale: real): (t: real)
    ensures 0.0 <= scale ==> -scale <= t <= scale
  {
    var tri := Triangular(Frand(rand(d)) - Frand(rand(d + 1)), Frand(rand(d + 2)));
    if 0.0 <= scale then ScaleBound(tri, scale); tri * scale else tri * scale
  }

  /** The random factor `(frand() - frand()) * frand()` of a mutation, in [-1, 1]. */
  function Triangular(e: real, f: real): (t: real)
    requires -1.0 <= e <= 1.0 && 0.0 <= f <= 1.0
    ensures -1.0 <= t <= 1.0
  {
    UnitProduct(e, f);
    e * f
  }

  lemma UnitProduct(e: real, f: real)
    requires -1.0 <= e <= 1.0 && 0.0 <= f <= 1.0
    ensures -1.0 <= e * f <= 1.0
  {
    if 0.0 <= e {
      MulSigns(e, f);
      MulLe(f, 1.0, e);
      assert 0.0 <= f * e <= e;
    } else {
      MulSigns(e, f);
      MulLe(f, 1.0, -e);
      assert 0.0 <= f * -e <= -e;
    }
  }

  /** Multiplying by a non-negative factor keeps an order. */
  lemma MulLe(a: real, b: real, c: real)
    requires a <= b && 0.0 <= c
    ensures a * c <= b * c
  {
  }

  /** A factor in [-1, 1] keeps a non-negative bound. */
  lemma ScaleBound(e: real, s: real)
    requires -1.0 <= e <= 1.0 && 0.0 <= s
    ensures -s <= e * s <= s && -s <= s * e <= s
  {
  }

  /** The signs of a product. */
  lemma MulSigns(x: real, y: real)
    ensures 0.0 <= x && 0.0 <= y ==> 0.0 <= x * y
    ensures x <= 0.0 && 0.0 <= y ==> x * y <= 0.0
    ensures x <= 0.0 && y <= 0.0 ==> 0.0 <= x * y
  {
  }

  /** One pass of the locus loop of `combine` from the draws at `d`: a coin gives
      the first child the first parent's value (and the second the second's) or
      the reverse; then with chance `chance` a `Tridist` moves one of the two. The
      third component is the next unused draw. */
  function Locus(x: real, y: real, rand: nat -> nat, d: nat, chance: real, scale: real): (r: (real, real, nat))
    ensures d + 2 <= r.2
  {
    var pa := if Coin(rand(d)) then x else y;
    var pb := if Coin(rand(d)) then y else x;
    if Frand(rand(d + 1)) < chance then
      var t := Tridist(rand, d + 2, scale);
      if Coin(rand(d + 5)) then (pa + t, pb, d + 6) else (pa, pb + t, d + 6)
    else (pa, pb, d + 2)
  }

  /** Each locus gives one child one parent's value and the other child the other
      parent's value, one of them moved by at most the mutation scale; without the
      mutation draw the values are exactly the parents'. */
  lemma LocusInherits(x: real, y: real, rand: nat -> nat, d: nat, chance: real, scale: real)
    requires 0.0 <= scale
    ensures var r := Locus(x, y, rand, d, chance, scale); Inherited(r.0, r.1, x, y, scale)
    ensures !(Frand(rand(d + 1)) < chance) ==> var r := Locus(x, y, rand, d, chance, scale); Swapped(r.0, r.1, x, y)
  {
  }

  /** The locus loop of `combine` over the first `n` loci. */
  function LociPhase(a: seq<real>, b: seq<real>, rand: nat -> nat, d: nat, chance: real, scale: real, n: nat)
    : (r: (seq<real>, seq<real>, nat))
    requires n <= |a| && n <= |b|
    ensures |r.0| == n && |r.1| == n && d + 2 * n <= r.2
  {
    if n == 0 then ([], [], d)
    else
      var prev := LociPhase(a, b, rand, d, chance, scale, n - 1);
      var l := Locus(a[n - 1], b[n - 1], rand, prev.2, chance, scale);
      (prev.0 + [l.0], prev.1 + [l.1], l.2)
  }

  /** After the locus loop every locus is inherited from the parents, moved by at
      most the scale; with a mutation chance of at most zero it is the parents'
      values exactly. */
  lemma {:induction false} LociInherit(a: seq<real>, b: seq<real>, rand: nat -> nat, d: nat, chance: real, scale: real, n: nat)
    requires n <= |a| && n <= |b| && 0.0 <= scale
    ensures var r := LociPhase(a, b, rand, d, chance, scale, n);
      forall k :: 0 <= k < n ==> Inherited(r.0[k], r.1[k], a[k], b[k], scale)
    ensures chance <= 0.0 ==> var r := LociPhase(a, b, rand, d, chance, scale, n);
      forall k :: 0 <= k < n ==> Swapped(r.0[k], r.1[k], a[k], b[k])
  {
    if n > 0 {
      LociInherit(a, b, rand, d, chance, scale, n - 1);
      var prev := LociPhase(a, b, rand, d, chance, scale, n - 1);
      LocusInherits(a[n - 1], b[n - 1], rand, prev.2, chance, scale);
    }
  }

  /** `t` differs from `s` in at most one locus. */
  predicate AtMostOneMoved(t: seq<real>, s: seq<real>)
    requires |t| == |s|
  {
    forall k, q :: 0 <= k < q < |s| ==> t[k] == s[k] || t[q] == s[q]
  }

  lemma UpdateMovesOne(s: seq<real>, p: nat, v: real)
    requires p < |s|
    ensures AtMostOneMoved(s[p := v], s)
  {
  }

  /** The mutation step `scale * (frand() - frand())`: never larger than the scale. */
  function Spread(e: real, scale: real): (m: real)
    requires -1.0 <= e <= 1.0
    ensures 0.0 <= scale ==> -scale <= m <= scale
  {
    if 0.0 <= scale then ScaleBound(e, scale); scale * e else scale * e
  }

  /** The random mutation of `combine` from the draw at `d`: with chance `chance`
      one locus of one child moves by `scale * (frand() - frand())`. Only one child
      changes, at one locus, by at most the scale. */
  function PivotMutation(sa: seq<real>, sb: seq<real>, rand: nat -> nat, d: nat, chance: real, scale: real)
    : (r: (seq<real>, seq<real>, nat))
    requires |sa| == Loci && |sb| == Loci
    ensures |r.0| == Loci && |r.1| == Loci && d + 1 <= r.2
    ensures r.0 == sa || r.1 == sb
    ensures 0.0 <= scale ==> forall k :: 0 <= k < Loci ==> Near(r.0[k], sa[k], scale) && Near(r.1[k], sb[k], scale)
    ensures AtMostOneMoved(r.0, sa) && AtMostOneMoved(r.1, sb)
    ensures !(Frand(rand(d)) < chance) ==> r == (sa, sb, d + 1)
  {
    if Frand(rand(d)) < chance then
      var pivot := rand(d + 1) % Loci;
      var m := Spread(Frand(rand(d + 3)) - Frand(rand(d + 4)), scale);
      UpdateMovesOne(sa, pivot, sa[pivot] + m);
      UpdateMovesOne(sb, pivot, sb[pivot] + m);
      if Coin(rand(d + 2)) then (sa[pivot := sa[pivot] + m], sb, d + 5)
      else (sa, sb[pivot := sb[pivot] + m], d + 5)
    else
      UpdateMovesOne(sa, 0, sa[0]);
      UpdateMovesOne(sb, 0, sb[0]);
      (sa, sb, d + 1)
  }

  /** `alpha * x + (1 - alpha) * y` lies between `x` and `y`. */
  predicate Between(v: real, x: real, y: real) {
    (x <= v <= y) || (y <= v <= x)
  }

  /** The blend `alpha * x + (1 - alpha) * y` of two parents' values. */
  function Lerp(alpha: real, x: real, y: real): (v: real)
    requires 0.0 <= alpha <= 1.0
    ensures Between(v, x, y)
  {
    LerpBetween(alpha, x, y);
    alpha * x + (1.0 - alpha) * y
  }

  lemma LerpBetween(alpha: real, x: real, y: real)
    requires 0.0 <= alpha <= 1.0
    ensures Between(alpha * x + (1.0 - alpha) * y, x, y)
  {
    var v := alpha * x + (1.0 - alpha) * y;
    assert v - y == alpha * (x - y) && x - v == (1.0 - alpha) * (x - y);
    MulSigns(x - y, alpha);
    MulSigns(x - y, 1.0 - alpha);
    MulSigns(alpha, x - y);
    MulSigns(1.0 - alpha, x - y);
  }

  /** The random interpolation of `combine` from the draw at `d`: with chance
      `chance` one locus of one child becomes a blend of the two parents' values
      there. Only one child changes, at one locus, to a value between the parents'. */
  function Interpolation(sa: seq<real>, sb: seq<real>, a: seq<real>, b: seq<real>, rand: nat -> nat, d: nat, chance: real)
    : (r: (seq<real>, seq<real>, nat))
    requires |sa| == Loci && |sb| == Loci && |a| == Loci && |b| == Loci
    ensures |r.0| == Loci && |r.1| == Loci && d + 1 <= r.2
    ensures r.0 == sa || r.1 == sb
    ensures forall k :: 0 <= k < Loci ==> (r.0[k] == sa[k] || Between(r.0[k], a[k], b[k]))
    ensures forall k :: 0 <= k < Loci ==> (r.1[k] == sb[k] || Between(r.1[k], a[k], b[k]))
    ensures AtMostOneMoved(r.0, sa) && AtMostOneMoved(r.1, sb)
    ensures !(Frand(rand(d)) < chance) ==> r == (sa, sb, d + 1)
  {
    if Frand(rand(d)) < chance then
      var pivot := rand(d + 1) % Loci;
      var alpha := Frand(rand(d + 2));
      var v := Lerp(alpha, a[pivot], b[pivot]);
      UpdateMovesOne(sa, pivot, v);
      UpdateMovesOne(sb, pivot, v);
      if Coin(rand(d + 3)) then (sa[pivot := v], sb, d + 4) else (sa, sb[pivot := v], d + 4)
    else
      UpdateMovesOne(sa, 0, sa[0]);
      UpdateMovesOne(sb, 0, sb[0]);
      (sa, sb, d + 1)
  }

  /** Every locus put into [0, 1] by `fclamp`: values already there stay. */
  function Unit(s: seq<real>): (r: seq<real>)
    ensures |r| == |s|
    ensures forall k :: 0 <= k < |s| ==> 0.0 <= r[k] <= 1.0
    ensures forall k :: 0 <= k < |s| && 0.0 <= s[k] <= 1.0 ==> r[k] == s[k]
  {
    seq(|s|, k requires 0 <= k < |s| => FClamp(s[k], 0.0, 1.0))
  }

  /** `combine`: the two unevaluated children of `a` and `b`, and the next unused draw. */
  function Combined(a: Gene, b: Gene, rand: nat -> nat, d: nat, chance: real, scale: real): (r: (Gene, Gene, nat))
    requires Shaped(a) && Shaped(b)
    ensures InUnit(r.0) && InUnit(r.1) && r.0.fitness == Unevaluated && r.1.fitness == Unevaluated
    ensures d + 18 <= r.2
  {
    var l := LociPhase(a.sequence, b.sequence, rand, d, chance, scale, Loci);
    var p := PivotMutation(l.0, l.1, rand, l.2, chance, scale);
    var i := Interpolation(p.0, p.1, a.sequence, b.sequence, rand, p.2, chance);
    (Gene(Unevaluated, Unit(i.0)), Gene(Unevaluated, Unit(i.1)), i.2)
  }

  /** Without mutation (a chance of at most zero), the children of parents in
      [0, 1] split every locus between them: one child has one parent's value and
      the other child the other's. */
  lemma CombinedWithoutMutation(a: Gene, b: Gene, rand: nat -> nat, d: nat, chance: real, scale: real, k: nat)
    requires InUnit(a) && InUnit(b) && chance <= 0.0 && 0.0 <= scale && k < Loci
    ensures var r := Combined(a, b, rand, d, chance, scale);
      Swapped(r.0.sequence[k], r.1.sequence[k], a.sequence[k], b.sequence[k])
  {
    LociInherit(a.sequence, b.sequence, rand, d, chance, scale, Loci);
  }

  /** `combine`, step by step: the locus loop, the random mutation, the random
      interpolation, the clamping loop. */
  method Combine(a: Gene, b: Gene, rand: nat -> nat, d: nat, chance: real, scale: real)
    returns (newA: Gene, newB: Gene, drawnOut: nat)
    requires Shaped(a) && Shaped(b)
    ensures (newA, newB, drawnOut) == Combined(a, b, rand, d, chance, scale)
  {
    var sa, sb, cur := InheritLoci(a.sequence, b.sequence, rand, d, chance, scale);
    sa, sb, cur := Mutate(sa, sb, rand, cur, chance, scale);
    sa, sb, cur := Interpolate(sa, sb, a.sequence, b.sequence, rand, cur, chance);
    var ca := ClampLoci(sa);
    var cb := ClampLoci(sb);
    newA, newB, drawnOut := Gene(Unevaluated, ca), Gene(Unevaluated, cb), cur;
  }

  /** The locus loop of `combine`. */
  method InheritLoci(a: seq<real>, b: seq<real>, rand: nat -> nat, d: nat, chance: real, scale: real)
    returns (sa: seq<real>, sb: seq<real>, cur: nat)
    requires |a| == Loci && |b| == Loci
    ensures (sa, sb, cur) == LociPhase(a, b, rand, d, chance, scale, Loci)
  {
    sa, sb, cur := [], [], d;
    for i := 0 to Loci
      invariant (sa, sb, cur) == LociPhase(a, b, rand, d, chance, scale, i)
    {
      var x, y, next := InheritLocus(a[i], b[i], rand, cur, chance, scale);
      cur := next;
      sa, sb := sa + [x], sb + [y];
    }
  }

  /** One pass of the locus loop of `combine`. */
  method InheritLocus(x: real, y: real, rand: nat -> nat, d: nat, chance: real, scale: real)
    returns (u: real, v: real, next: nat)
    ensures (u, v, next) == Locus(x, y, rand, d, chance, scale)
  {
    if Coin(rand(d)) {
      u, v := x, y;
    } else {
      u, v := y, x;
    }
    if Frand(rand(d + 1)) < chance {
      var tridist := Tridist(rand, d + 2, scale);
      if Coin(rand(d + 5)) {
        u := u + tridist;
      } else {
        v := v + tridist;
      }
      next := d + 6;
    } else {
      next := d + 2;
    }
  }

  /** The random mutation of `combine`. */
  method Mutate(sa: seq<real>, sb: seq<real>, rand: nat -> nat, d: nat, chance: real, scale: real)
    returns (ta: seq<real>, tb: seq<real>, cur: nat)
    requires |sa| == Loci && |sb| == Loci
    ensures (ta, tb, cur) == PivotMutation(sa, sb, rand, d, chance, scale)
  {
    ta, tb := sa, sb;
    if Frand(rand(d)) < chance {
      var pivot := rand(d + 1) % Loci;
      if Coin(rand(d + 2)) {
        ta := ta[pivot := ta[pivot] + Spread(Frand(rand(d + 3)) - Frand(rand(d + 4)), scale)];
      } else {
        tb := tb[pivot := tb[pivot] + Spread(Frand(rand(d + 3)) - Frand(rand(d + 4)), scale)];
      }
      cur := d + 5;
    } else {
      cur := d + 1;
    }
  }

  /** The random interpolation of `combine`. */
  method Interpolate(sa: seq<real>, sb: seq<real>, a: seq<real>, b: seq<real>, rand: nat -> nat, d: nat, chance: real)
    returns (ta: seq<real>, tb: seq<real>, cur: nat)
    requires |sa| == Loci && |sb| == Loci && |a| == Loci && |b| == Loci
    ensures (ta, tb, cur) == Interpolation(sa, sb, a, b, rand, d, chance)
  {
    ta, tb := sa, sb;
    if Frand(rand(d)) < chance {
      var pivot := rand(d + 1) % Loci;
      var alpha := Frand(rand(d + 2));
      if Coin(rand(d + 3)) {
        ta := ta[pivot := Lerp(alpha, a[pivot], b[pivot])];
      } else {
        tb := tb[pivot := Lerp(alpha, a[pivot], b[pivot])];
      }
      cur := d + 4;
    } else {
      cur := d + 1;
    }
  }

  /** The clamping loop of `combine`, for one child. */
  method ClampLoci(s: seq<real>) returns (t: seq<real>)
    ensures t == Unit(s)
  {
    t := s;
    for i := 0 to |s|
      invariant |t| == |s|
      invariant forall k :: 0 <= k < i ==> t[k] == FClamp(s[k], 0.0, 1.0)
      invariant forall k :: i <= k < |s| ==> t[k] == s[k]
    {
      t := t[i := FClamp(t[i], 0.0, 1.0)];
    }
  }

  // --------------------------------------------------------------- selection

  /** A parent index of `runGA`: `frand()` cubed, which favours the front of the
      sorted population, scaled to its size `n`, truncated and clamped to
      [0, n - 1]. An empty population gives -1. */
  function PickIndex(n: nat, r: nat): (i: int)
    ensures 0 < n ==> 0 <= i < n
    ensures n == 0 ==> i == -1
  {
    ClampInt(Trunc(Cubed(Frand(r)) * n as real), 0, n - 1)
  }

  /** `af * af * af` for a draw `af` in [0, 1]: in [0, 1], and at most 1/8 for a
      draw of at most 1/2. */
  function Cubed(f: real): (c: real)
    requires 0.0 <= f <= 1.0
    ensures 0.0 <= c <= 1.0
    ensures f <= 0.5 ==> c <= 0.125
  {
    TripleBounds(f, f, f);
    f * f * f
  }

  /** A product of three factors in [0, 1] lies in [0, 1]; of three in [0, 1/2],
      in [0, 1/8]. */
  lemma TripleBounds(x: real, y: real, z: real)
    requires 0.0 <= x <= 1.0 && 0.0 <= y <= 1.0 && 0.0 <= z <= 1.0
    ensures 0.0 <= x * y * z <= 1.0
    ensures x <= 0.5 && y <= 0.5 && z <= 0.5 ==> x * y * z <= 0.125
  {
    MulBound(x, y, 1.0, 1.0);
    MulBound(x * y, z, 1.0, 1.0);
    if x <= 0.5 && y <= 0.5 && z <= 0.5 {
      MulBound(x, y, 0.5, 0.5);
      MulBound(x * y, z, 0.25, 0.5);
    }
  }

  /** Bounds on two non-negative factors bound their product. */
  lemma MulBound(a: real, b: real, ka: real, kb: real)
    requires 0.0 <= a <= ka && 0.0 <= b <= kb
    ensures 0.0 <= a * b <= ka * kb
  {
    MulSigns(a, b);
    MulLe(a, ka, b);
    MulLe(b, kb, ka);
  }

  /** The cube bias: every draw in the lower half of [0, 1] picks from the first
      eighth of the population. */
  lemma PickFavoursFit(n: nat, r: nat)
    requires Frand(r) <= 0.5
    ensures PickIndex(n, r) as real <= n as real / 8.0
  {
    var c := Cubed(Frand(r));
    MulBound(c, n as real, 0.125, n as real);
    var t := Trunc(c * n as real);
    assert 0 <= t && t as real <= 0.125 * n as real;
    assert PickIndex(n, r) <= t;
  }

  /** In a population of fewer than two genes every draw picks the same index, so
      the loop that looks for a second parent never ends. */
  lemma NarrowPopulationSticks(n: nat, r: nat, r': nat)
    requires n < 2
    ensures PickIndex(n, r) == PickIndex(n, r')
  {
  }

  /** The draws never stop giving a second, different index: what the selection
      loop of every generation needs in order to end. */
  ghost predicate Distinguishes(n: nat, rand: nat -> nat) {
    forall d: nat :: MovesOn(n, rand, d)
  }

  /** Some draw after `d` gives another index than the draw at `d`. */
  ghost predicate MovesOn(n: nat, rand: nat -> nat, d: nat) {
    exists k: nat :: d < k && PickIndex(n, rand(k)) != PickIndex(n, rand(d))
  }

  /** Only populations of at least two genes can have their selection end. */
  lemma SelectionNeedsTwo(n: nat, rand: nat -> nat)
    requires Distinguishes(n, rand)
    ensures 2 <= n
  {
    assert MovesOn(n, rand, 0);
    var k: nat :| 0 < k && PickIndex(n, rand(k)) != PickIndex(n, rand(0));
    if n < 2 {
      NarrowPopulationSticks(n, rand(k), rand(0));
    }
  }

  /** The parent selection of `runGA` from the draw at `d`: the first parent from
      that draw, the second from the first later draw that gives another index.
      `bound` is a draw known to give another index. */
  method PickParents(n: nat, rand: nat -> nat, d: nat, ghost bound: nat) returns (a: nat, b: nat, drawnOut: nat)
    requires d < bound && PickIndex(n, rand(bound)) != PickIndex(n, rand(d))
    ensures a < n && b < n && a != b
    ensures d + 2 <= drawnOut <= bound + 1
    ensures a == PickIndex(n, rand(d)) && b == PickIndex(n, rand(drawnOut - 1))
    ensures forall k :: d < k < drawnOut - 1 ==> PickIndex(n, rand(k)) == a
  {
    a := PickIndex(n, rand(d));
    var k := d + 1;
    var bi := PickIndex(n, rand(k));
    while bi == a
      invariant d < k <= bound && bi == PickIndex(n, rand(k))
      invariant forall q :: d < q < k ==> PickIndex(n, rand(q)) == a
      decreases bound - k
    {
      k := k + 1;
      bi := PickIndex(n, rand(k));
    }
    b, drawnOut := bi, k + 1;
  }

  // ------------------------------------------------------------------ sorting

  /** Non-decreasing fitness: the fittest gene first. */
  predicate SortedByFitness(s: seq<Gene>) {
    forall i, j :: 0 <= i < j < |s| ==> s[i].fitness <= s[j].fitness
  }

  /** Every gene before position `j` is no less fit than any gene after it. */
  predicate SettledBefore(s: seq<Gene>, j: nat) {
    forall p, q :: 0 <= p < q < |s| && p < j ==> s[p].fitness <= s[q].fitness
  }

  /** A pass of the inner loop of the exchange sort: position `j` ends up with a
      fittest gene of `s[j..]`, by swaps with the later positions. */
  method SettleFront(s: seq<Gene>, j: nat) returns (t: seq<Gene>)
    requires j < |s| && SettledBefore(s, j)
    ensures multiset(t) == multiset(s) && |t| == |s| && SettledBefore(t, j + 1)
  {
    t := s;
    var k := j + 1;
    while k < |t|
      invariant j < k <= |t| == |s| && multiset(t) == multiset(s)
      invariant SettledBefore(t, j)
      invariant forall q :: j < q < k ==> t[j].fitness <= t[q].fitness
    {
      if t[j].fitness > t[k].fitness {
        t := t[j := t[k]][k := t[j]];
      }
      k := k + 1;
    }
  }

  /** The exchange sort of `runGA`: by non-decreasing fitness, a permutation of the
      population. */
  method SortPopulation(pop: seq<Gene>) returns (s: seq<Gene>)
    ensures |s| == |pop| && SortedByFitness(s) && multiset(s) == multiset(pop)
  {
    s := pop;
    var j := 0;
    while j < |s|
      invariant 0 <= j <= |s| == |pop| && multiset(s) == multiset(pop) && SettledBefore(s, j)
    {
      s := SettleFront(s, j);
      j := j + 1;
    }
  }

  // --------------------------------------------------------------- generations

  /** The breeding step of a generation of `runGA` from the draw at `d`: pick two
      parents, the first from the draw at `d` and the second from the first later
      draw that gives another index, which is the draw before `parentsDrawn`; breed
      two children from them with the draws from `parentsDrawn` on, and evaluate
      them with `eval`. */
  method Breed(pop: seq<Gene>, eval: seq<real> -> real, rand: nat -> nat, d: nat, chance: real, scale: real,
               ghost bound: nat)
    returns (a: nat, b: nat, childA: Gene, childB: Gene, parentsDrawn: nat, drawnOut: nat)
    requires forall g <- pop :: Shaped(g)
    requires d < bound && PickIndex(|pop|, rand(bound)) != PickIndex(|pop|, rand(d))
    ensures a < |pop| && b < |pop| && a != b
    ensures d + 2 <= parentsDrawn
    ensures a == PickIndex(|pop|, rand(d)) && b == PickIndex(|pop|, rand(parentsDrawn - 1))
    ensures forall k :: d < k < parentsDrawn - 1 ==> PickIndex(|pop|, rand(k)) == a
    ensures var c := Combined(pop[a], pop[b], rand, parentsDrawn, chance, scale);
      childA.sequence == c.0.sequence && childB.sequence == c.1.sequence && drawnOut == c.2
    ensures childA.fitness == eval(childA.sequence) && childB.fitness == eval(childB.sequence)
    ensures InUnit(childA) && InUnit(childB)
    ensures d < drawnOut
  {
    var d1;
    a, b, d1 := PickParents(|pop|, rand, d, bound);
    parentsDrawn := d1;
    var ca, cb, d2 := Combine(pop[a], pop[b], rand, d1, chance, scale);
    childA := ca.(fitness := eval(ca.sequence));
    childB := cb.(fitness := eval(cb.sequence));
    drawnOut := d2;
  }

  /** One generation of `runGA` from the draw at `d`: breed two children, push
      them, sort, and pop the two least fit genes. */
  method Generation(pop: seq<Gene>, eval: seq<real> -> real, rand: nat -> nat, d: nat, chance: real, scale: real,
                    ghost bound: nat)
    returns (next: seq<Gene>, a: nat, b: nat, childA: Gene, childB: Gene, removed: seq<Gene>,
             parentsDrawn: nat, drawnOut: nat)
    requires forall g <- pop :: Shaped(g)
    requires d < bound && PickIndex(|pop|, rand(bound)) != PickIndex(|pop|, rand(d))
    ensures a < |pop| && b < |pop| && a != b
    ensures d + 2 <= parentsDrawn
    ensures a == PickIndex(|pop|, rand(d)) && b == PickIndex(|pop|, rand(parentsDrawn - 1))
    ensures forall k :: d < k < parentsDrawn - 1 ==> PickIndex(|pop|, rand(k)) == a
    ensures var c := Combined(pop[a], pop[b], rand, parentsDrawn, chance, scale);
      childA.sequence == c.0.sequence && childB.sequence == c.1.sequence && drawnOut == c.2
    ensures childA.fitness == eval(childA.sequence) && childB.fitness == eval(childB.sequence)
    ensures InUnit(childA) && InUnit(childB)
    ensures |next| == |pop| && |removed| == 2 && SortedByFitness(next)
    ensures multiset(next) + multiset(removed) == multiset(pop) + multiset{childA, childB}
    ensures forall g <- next, h <- removed :: g.fitness <= h.fitness
    ensures forall g <- next :: Shaped(g)
    ensures (forall g <- pop :: InUnit(g)) ==> forall g <- next :: InUnit(g)
    ensures forall g <- pop :: next[0].fitness <= g.fitness
    ensures d < drawnOut
  {
    a, b, childA, childB, parentsDrawn, drawnOut := Breed(pop, eval, rand, d, chance, scale, bound);
    var sorted := SortPopulation(pop + [childA, childB]);
    next, removed := sorted[..|pop|], sorted[|pop|..];
    PrunedKeeps(pop, childA, childB, sorted);
  }

  /** Sorting the grown population and popping its last two genes keeps the genes
      that are no less fit than those popped, of the right shape, in [0, 1] when
      the population and the children were, and never loses the fittest. */
  lemma PrunedKeeps(pop: seq<Gene>, childA: Gene, childB: Gene, sorted: seq<Gene>)
    requires forall g <- pop :: Shaped(g)
    requires InUnit(childA) && InUnit(childB)
    requires SortedByFitness(sorted) && multiset(sorted) == multiset(pop + [childA, childB])
    ensures |sorted| == |pop| + 2
    ensures multiset(sorted[..|pop|]) + multiset(sorted[|pop|..]) == multiset(pop) + multiset{childA, childB}
    ensures forall g <- sorted[..|pop|], h <- sorted[|pop|..] :: g.fitness <= h.fitness
    ensures forall g <- sorted :: Shaped(g)
    ensures (forall g <- pop :: InUnit(g)) ==> forall g <- sorted :: InUnit(g)
    ensures forall g <- pop :: sorted[0].fitness <= g.fitness
  {
    var grown := pop + [childA, childB];
    assert |sorted| == |multiset(sorted)| == |grown|;
    assert sorted == sorted[..|pop|] + sorted[|pop|..];
    assert multiset(grown) == multiset(pop) + multiset{childA, childB};
    forall g | g in sorted
      ensures Shaped(g) && ((forall h <- pop :: InUnit(h)) ==> InUnit(g))
    {
      assert g in multiset(grown);
    }
    forall g | g in pop
      ensures sorted[0].fitness <= g.fitness
    {
      assert g in multiset(sorted);
    }
  }

  /** `runGA`: sort the population, then run `numGenerations` generations. The
      population keeps its size, ends sorted, keeps its loci in [0, 1], and its
      fittest gene is at least as fit as every gene it started with. */
  method RunGA(numGenerations: int, population: seq<Gene>, eval: seq<real> -> real, rand: nat -> nat, d: nat,
               chance: real, scale: real)
    returns (result: seq<Gene>, drawnOut: nat)
    requires forall g <- population :: Shaped(g)
    requires 0 < numGenerations ==> Distinguishes(|population|, rand)
    ensures |result| == |population| && SortedByFitness(result)
    ensures forall g <- result :: Shaped(g)
    ensures numGenerations <= 0 ==> multiset(result) == multiset(population)
    ensures (forall g <- population :: InUnit(g)) ==> forall g <- result :: InUnit(g)
    ensures forall g <- population :: result[0].fitness <= g.fitness
  {
    var pop := SortPopulation(population);
    ghost var allIn := forall g <- population :: InUnit(g);
    forall g | g in pop
      ensures Shaped(g) && (allIn ==> InUnit(g))
    {
      assert g in multiset(population);
    }
    forall g | g in population
      ensures pop[0].fitness <= g.fitness
    {
      assert g in multiset(pop);
    }
    var cur: nat := d;
    var i := 0;
    while i < numGenerations
      invariant |pop| == |population| && SortedByFitness(pop)
      invariant forall g <- pop :: Shaped(g)
      invariant allIn ==> forall g <- pop :: InUnit(g)
      invariant forall g <- population :: pop[0].fitness <= g.fitness
      invariant 0 <= i && (numGenerations <= 0 ==> i == 0)
      invariant i == 0 ==> multiset(pop) == multiset(population)
    {
      assert MovesOn(|pop|, rand, cur);
      ghost var bound: nat :| cur < bound && PickIndex(|pop|, rand(bound)) != PickIndex(|pop|, rand(cur));
      ghost var best := pop[0];
      var next, _, _, _, _, _, _, d1 := Generation(pop, eval, rand, cur, chance, scale, bound);
      assert best in pop;
      pop, cur := next, d1;
      i := i + 1;
    }
    result, drawnOut := pop, cur;
  }

  // ---------------------------------------------------------------- crossover

  /** The index `crossover` draws: `frand()` squared, scaled to the size `n` of the
      first population, truncated and clamped to [0, n - 1]. */
  function CrossIndex(n: nat, r: nat): (i: int)
    ensures 0 < n ==> 0 <= i < n
  {
    var f := Frand(r);
    ClampInt(Trunc(f * f * n as real), 0, n - 1)
  }

  /** Populations `pa` and `pb` with their genes at position `i` exchanged. */
  function Exchanged(pa: seq<Gene>, pb: seq<Gene>, i: nat): (r: (seq<Gene>, seq<Gene>))
    requires i < |pa| && i < |pb|
    ensures |r.0| == |pa| && |r.1| == |pb|
  {
    (pa[i := pb[i]], pb[i := pa[i]])
  }

  /** An exchange moves the two genes at `i` across and leaves every other gene as
      it was; doing it twice gives back the two populations. */
  lemma ExchangedKeeps(pa: seq<Gene>, pb: seq<Gene>, i: nat)
    requires i < |pa| && i < |pb|
    ensures var r := Exchanged(pa, pb, i); r.0[i] == pb[i] && r.1[i] == pa[i]
    ensures var r := Exchanged(pa, pb, i); forall k :: 0 <= k < |pa| && k != i ==> r.0[k] == pa[k]
    ensures var r := Exchanged(pa, pb, i); forall k :: 0 <= k < |pb| && k != i ==> r.1[k] == pb[k]
    ensures var r := Exchanged(pa, pb, i); Exchanged(r.0, r.1, i) == (pa, pb)
  {
    var r := Exchanged(pa, pb, i);
    assert r.0[i := r.1[i]] == pa && r.1[i := r.0[i]] == pb;
  }

  /** No gene is lost or made by an exchange: the two populations together hold
      the same genes. */
  lemma ExchangedKeepsGenes(pa: seq<Gene>, pb: seq<Gene>, i: nat)
    requires i < |pa| && i < |pb|
    ensures var r := Exchanged(pa, pb, i); multiset(r.0) + multiset(r.1) == multiset(pa) + multiset(pb)
  {
    var r := Exchanged(pa, pb, i);
    assert multiset(r.0) == multiset(pa) - multiset{pa[i]} + multiset{pb[i]};
    assert multiset(r.1) == multiset(pb) - multiset{pb[i]} + multiset{pa[i]};
  }

  /** `crossover`: exchanges the genes at the drawn index of the two populations.
      The index is drawn against the first population, so the second must be at
      least that long. */
  method Crossover(pa: seq<Gene>, pb: seq<Gene>, r: nat) returns (qa: seq<Gene>, qb: seq<Gene>)
    requires 0 < |pa| && CrossIndex(|pa|, r) < |pb|
    ensures (qa, qb) == Exchanged(pa, pb, CrossIndex(|pa|, r))
  {
    var a := CrossIndex(|pa|, r);
    var tmp := pa[a];
    qa := pa[a := pb[a]];
    qb := pb[a := tmp];
  }

  // --------------------------------------------------------- initial population

  /** A locus of a gene of the initial population of `batchGA`, as written, from a
      draw `f`: `(f * max - min) / (max - min)`. */
  function InitialLocusAsWritten(f: real, k: nat): real
    requires k < Loci
  {
    RangeWidth(k);
    (f * MaxVals[k] - MinVals[k]) / (MaxVals[k] - MinVals[k])
  }

  /** As written, a zero draw gives the `stickyness`, `turbulanceForce` and
      `gridSize` loci values below 0, which decode below the bottom of their
      ranges; and at every locus whose range does not start at 0, the as-written
      locus differs from the draw for every draw below 1. */
  lemma InitialLocusBelowRange()
    ensures InitialLocusAsWritten(0.0, 2) < 0.0 && Decode(InitialLocusAsWritten(0.0, 2), 2) < MinVals[2]
    ensures InitialLocusAsWritten(0.0, 4) < 0.0 && Decode(InitialLocusAsWritten(0.0, 4), 4) < MinVals[4]
    ensures InitialLocusAsWritten(0.0, 7) < 0.0 && Decode(InitialLocusAsWritten(0.0, 7), 7) < MinVals[7]
    ensures forall f: real, k: nat | k < Loci && MinVals[k] != 0.0 && 0.0 <= f < 1.0 ::
      InitialLocusAsWritten(f, k) != f
  {
    forall f: real, k: nat | k < Loci && MinVals[k] != 0.0 && 0.0 <= f < 1.0
      ensures InitialLocusAsWritten(f, k) != f
    {
      RangeWidth(k);
    }
  }

  /** A locus of a gene of the initial population, as intended: the encoding of
      the draw spread over the locus's range. It lies in [0, 1] and decodes into
      the range. */
  function InitialLocus(f: real, k: nat): (s: real)
    requires k < Loci && 0.0 <= f <= 1.0
    ensures 0.0 <= s <= 1.0 && MinVals[k] <= Decode(s, k) <= MaxVals[k]
    ensures Decode(s, k) == f * (MaxVals[k] - MinVals[k]) + MinVals[k]
    ensures s == f
  {
    var v := f * (MaxVals[k] - MinVals[k]) + MinVals[k];
    DecodeEncode(v, f, k);
    DecodeRange(f, k);
    Encode(v, k)
  }

  /** A gene of the initial population from the eight draws at `d`, built with the
      corrected locus of `InitialLocus`. */
  function InitialGene(rand: nat -> nat, d: nat): (g: Gene)
    ensures InUnit(g) && g.fitness == Unevaluated
  {
    Gene(Unevaluated, [
      InitialLocus(Frand(rand(d)), 0), InitialLocus(Frand(rand(d + 1)), 1),
      InitialLocus(Frand(rand(d + 2)), 2), InitialLocus(Frand(rand(d + 3)), 3),
      InitialLocus(Frand(rand(d + 4)), 4), InitialLocus(Frand(rand(d + 5)), 5),
      InitialLocus(Frand(rand(d + 6)), 6), InitialLocus(Frand(rand(d + 7)), 7)])
  }

  /** The initial population of `batchGA`, with the corrected locus of
      `InitialLocus`: `size` unevaluated genes, each from the next eight draws,
      with every locus in [0, 1]. */
  method InitialPopulation(size: int, rand: nat -> nat, d: nat) returns (pop: seq<Gene>, drawnOut: nat)
    ensures |pop| == if size < 0 then 0 else size
    ensures forall i :: 0 <= i < |pop| ==> pop[i] == InitialGene(rand, d + 8 * i)
    ensures forall g <- pop :: InUnit(g) && g.fitness == Unevaluated
    ensures drawnOut == d + 8 * |pop|
  {
    pop := [];
    drawnOut := d;
    while |pop| < size
      invariant |pop| <= if size < 0 then 0 else size
      invariant forall i :: 0 <= i < |pop| ==> pop[i] == InitialGene(rand, d + 8 * i)
      invariant drawnOut == d + 8 * |pop|
    {
      pop := pop + [InitialGene(rand, drawnOut)];
      drawnOut := drawnOut + 8;
    }
  }
}
