/** The scalar helpers of the math header: float clamp, generic clamp, the uniform
    random draw, and the float-to-int conversion every index computation uses. */
module XMath {

  /** `fclamp`: `min` when `x` is below it, else `max` when `x` is above that, else `x`. */
  function FClamp(x: real, lo: real, hi: real): (r: real)
    ensures x < lo ==> r == lo
    ensures lo <= x && hi < x ==> r == hi
    ensures lo <= x <= hi ==> r == x
  {
    if x < lo then lo else if x > hi then hi else x
  }

  lemma FClampBounds(x: real, lo: real, hi: real)
    requires lo <= hi
    ensures lo <= FClamp(x, lo, hi) <= hi
    ensures lo <= x <= hi <==> FClamp(x, lo, hi) == x
  {
  }

  lemma FClampIdempotent(x: real, lo: real, hi: real)
    requires lo <= hi
    ensures FClamp(FClamp(x, lo, hi), lo, hi) == FClamp(x, lo, hi)
  {
    FClampBounds(x, lo, hi);
  }

  /** `less` is a strict total order on `T`, as `operator<` is on the types `clamp` is used with. */
  ghost predicate StrictTotalOrder<T(!new)>(less: (T, T) -> bool) {
    && (forall a :: !less(a, a))
    && (forall a, b, c :: less(a, b) && less(b, c) ==> less(a, c))
    && (forall a, b :: less(a, b) || a == b || less(b, a))
  }

  /** `clamp<T>`: the template version, over the order `T`'s `operator<` gives. */
  function Clamp<T>(v: T, lo: T, hi: T, less: (T, T) -> bool): (r: T)
    ensures less(v, lo) ==> r == lo
    ensures !less(v, lo) && less(hi, v) ==> r == hi
    ensures !less(v, lo) && !less(hi, v) ==> r == v
  {
    if less(v, lo) then lo else if less(hi, v) then hi else v
  }

  lemma ClampBounds<T(!new)>(v: T, lo: T, hi: T, less: (T, T) -> bool)
    requires StrictTotalOrder(less) && !less(hi, lo)
    ensures !less(Clamp(v, lo, hi, less), lo) && !less(hi, Clamp(v, lo, hi, less))
    ensures (!less(v, lo) && !less(hi, v)) <==> Clamp(v, lo, hi, less) == v
  {
  }

  lemma ClampIdempotent<T(!new)>(v: T, lo: T, hi: T, less: (T, T) -> bool)
    requires StrictTotalOrder(less) && !less(hi, lo)
    ensures Clamp(Clamp(v, lo, hi, less), lo, hi, less) == Clamp(v, lo, hi, less)
  {
    ClampBounds(v, lo, hi, less);
  }

  /** `clamp` at `int`, the instance the index code uses. */
  function ClampInt(v: int, lo: int, hi: int): (r: int)
    ensures lo <= hi ==> lo <= r <= hi
    ensures lo <= v <= hi ==> r == v
    ensures v < lo ==> r == lo
    ensures lo <= v && hi < v ==> r == hi
  {
    if v < lo then lo else if v > hi then hi else v
  }

  lemma ClampIntIsClamp(v: int, lo: int, hi: int)
    ensures ClampInt(v, lo, hi) == Clamp(v, lo, hi, (a: int, b: int) => a < b)
  {
  }

  const RandBuckets := 2048

  /** `frand`: `rand() % 2048` scaled by 1/2047; `r` is the value `rand()` returned.
      The result is one of the 2048 evenly spaced values k/2047 of [0, 1]. */
  function Frand(r: nat): (f: real)
    ensures 0.0 <= f <= 1.0
    ensures (f * 2047.0).Floor as real == f * 2047.0 && (f * 2047.0).Floor < RandBuckets
  {
    (r % RandBuckets) as real / 2047.0
  }

  /** Every one of those values is drawn, each by the `rand()` values congruent to it. */
  lemma FrandValues(r: nat, k: nat)
    requires k < RandBuckets
    ensures Frand(r) == k as real / 2047.0 <==> r % RandBuckets == k
  {
  }

  /** A C++ conversion from floating point to `int`: truncation toward zero. */
  function Trunc(x: real): (r: int)
    ensures 0.0 <= x ==> 0 <= r && r as real <= x < r as real + 1.0
    ensures x < 0.0 ==> r <= 0 && r as real - 1.0 < x <= r as real
  {
    if 0.0 <= x then x.Floor else -((-x).Floor)
  }

  lemma TruncNonZero(x: real)
    ensures Trunc(x) != 0 <==> x <= -1.0 || 1.0 <= x
  {
  }

  lemma MulMonotone(a: nat, b: nat, c: nat)
    requires a <= b
    ensures a * c <= b * c
  {
    assert b * c - a * c == (b - a) * c;
  }

  /** The quotient and remainder of a division by `n` are the only pair with
      `a == q * n + r` and `0 <= r < n`. */
  lemma DivModUnique(a: nat, n: nat, q: nat, r: nat)
    requires r < n && a == q * n + r
    ensures a % n == r && a / n == q
  {
    var q', r' := a / n, a % n;
    assert a == q' * n + r';
    SmallerQuotient(q, r, q', r', n);
    SmallerQuotient(q', r', q, r, n);
  }

  lemma SmallerQuotient(q1: nat, r1: nat, q2: nat, r2: nat, n: nat)
    requires r1 < n
    ensures q1 < q2 ==> q1 * n + r1 < q2 * n + r2
  {
    if q1 < q2 {
      assert q1 * n + n == (q1 + 1) * n;
      MulMonotone(q1 + 1, q2, n);
    }
  }
}
