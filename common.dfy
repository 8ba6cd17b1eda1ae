/** Numeric helpers shared by every component: JavaScript's Math.min/max,
    the clamp idiom Math.max(lo, Math.min(hi, x)), Math.floor/ceil/round,
    truncating `%` on numbers, and linear interpolation. Numbers are reals;
    the IEEE-754 double rounding of the source is not modelled. */
module Common {

  datatype Option<T> = None | Some(value: T)

  function Min(a: real, b: real): (r: real)
    ensures r <= a && r <= b
    ensures r == a || r == b
  {
    if a <= b then a else b
  }

  function Max(a: real, b: real): (r: real)
    ensures r >= a && r >= b
    ensures r == a || r == b
  {
    if a >= b then a else b
  }

  function Abs(x: real): (r: real)
    ensures r >= 0.0
    ensures r == x || r == -x
  {
    if x >= 0.0 then x else -x
  }

  /** Math.max(lo, Math.min(hi, x)), also THREE.MathUtils.clamp(x, lo, hi). */
  function Clamp(x: real, lo: real, hi: real): (r: real)
    ensures lo <= hi ==> lo <= r <= hi
    ensures lo <= x <= hi ==> r == x
    ensures lo <= hi && x < lo ==> r == lo
    ensures lo <= hi && x > hi ==> r == hi
  {
    Max(lo, Min(hi, x))
  }

  /** Math.floor */
  function Floor(x: real): (r: int)
    ensures r as real <= x < r as real + 1.0
  {
    x.Floor
  }

  /** Math.ceil */
  function Ceil(x: real): (r: int)
    ensures r as real - 1.0 < x <= r as real
  {
    -((-x).Floor)
  }

  /** Math.round: halves go towards +infinity. */
  function Round(x: real): (r: int)
    ensures x - 0.5 < r as real <= x + 0.5
  {
    (x + 0.5).Floor
  }

  /** Truncation towards zero, as `x | 0` does for small numbers. */
  function Trunc(x: real): (r: int)
    ensures 0.0 <= x ==> r as real <= x < r as real + 1.0
    ensures x < 0.0 ==> r as real - 1.0 < x <= r as real
  {
    if x >= 0.0 then x.Floor else -((-x).Floor)
  }

  /** JavaScript's `n % m` on numbers: the remainder of truncating division,
      carrying the sign of the dividend. */
  function JsRem(n: real, m: real): (r: real)
    requires m != 0.0
  {
    n - m * (Trunc(n / m) as real)
  }

  /** THREE.MathUtils.lerp */
  function Lerp(a: real, b: real, t: real): (r: real)
    ensures t == 0.0 ==> r == a
    ensures t == 1.0 ==> r == b
    ensures a <= b && 0.0 <= t <= 1.0 ==> a <= r <= b
    ensures b <= a && 0.0 <= t <= 1.0 ==> b <= r <= a
  {
    UnitStep(b - a, t, (b - a) * t);
    a + (b - a) * t
  }

  /** A step of p = d * t with t in [0, 1] goes at most the whole of d. */
  lemma UnitStep(d: real, t: real, p: real)
    requires p == d * t
    ensures t == 0.0 ==> p == 0.0
    ensures t == 1.0 ==> p == d
    ensures 0.0 <= t <= 1.0 && 0.0 <= d ==> 0.0 <= p <= d
    ensures 0.0 <= t <= 1.0 && d <= 0.0 ==> d <= p <= 0.0
  {
    if t == 0.0 {
      assert p == d * 0.0;
    } else if t == 1.0 {
      assert p == d * 1.0;
    } else {
      MulUnitBound(d, t);
    }
  }

  /** Scaling by a factor in [0, 1] stays between 0 and the scaled value. */
  lemma MulUnitBound(x: real, t: real)
    ensures 0.0 <= t <= 1.0 && 0.0 <= x ==> 0.0 <= x * t <= x
    ensures 0.0 <= t <= 1.0 && x <= 0.0 ==> x <= x * t <= 0.0
  {
    var p := x * t;
    assert x - p == x * (1.0 - t);
    if 0.0 <= t <= 1.0 && 0.0 <= x {
      NonNegProduct(x, t);
      NonNegProduct(x, 1.0 - t);
    }
    if 0.0 <= t <= 1.0 && x <= 0.0 {
      NonNegProduct(-x, t);
      NonNegProduct(-x, 1.0 - t);
      assert -x * t == -p;
      assert -x * (1.0 - t) == p - x;
    }
  }

  lemma NonNegProduct(a: real, b: real)
    requires 0.0 <= a && 0.0 <= b
    ensures 0.0 <= a * b
  {
  }

  /** A candidate for Math.sqrt: non-negative square roots of non-negative reals. */
  ghost predicate IsSqrt(sqrt: real -> real)
  {
    forall x :: 0.0 <= x ==> 0.0 <= sqrt(x) && sqrt(x) * sqrt(x) == x
  }

  lemma SqrtOfSquare(sqrt: real -> real, r: real)
    requires IsSqrt(sqrt)
    ensures sqrt(r * r) == Abs(r)
  {
    var s := sqrt(r * r);
    assert 0.0 <= s && s * s == r * r;
    var a := Abs(r);
    assert a * a == r * r;
    assert (s - a) * (s + a) == 0.0;
    ZeroProduct(s - a, s + a);
  }

  lemma ZeroProduct(x: real, y: real)
    requires x * y == 0.0
    ensures x == 0.0 || y == 0.0
  {
  }

  lemma SqrtStrictlyMonotone(sqrt: real -> real, a: real, b: real)
    requires IsSqrt(sqrt)
    requires 0.0 <= a < b
    ensures sqrt(a) < sqrt(b)
  {
    var sa, sb := sqrt(a), sqrt(b);
    assert sa * sa == a && sb * sb == b && 0.0 <= sa && 0.0 <= sb;
    assert (sb - sa) * (sb + sa) == b - a;
    PositiveProduct(sb - sa, sb + sa);
  }

  lemma DivSelf(n: real)
    requires n != 0.0
    ensures n / n == 1.0
  {
  }

  lemma PositiveMul(a: real, b: real)
    requires a > 0.0 && b > 0.0
    ensures a * b > 0.0
  {
  }

  lemma PositiveProduct(x: real, y: real)
    requires 0.0 <= y && x * y > 0.0
    ensures x > 0.0
  {
  }

  /** The remainder of truncating division lies strictly between -m and m,
      is non-negative for a non-negative dividend, and differs from the
      dividend by a whole multiple of m. */
  lemma JsRemBounds(n: real, m: real)
    requires m > 0.0
    ensures -m < JsRem(n, m) < m
    ensures 0.0 <= n ==> 0.0 <= JsRem(n, m)
    ensures n - JsRem(n, m) == m * (Trunc(n / m) as real)
  {
    var q := n / m;
    var t := Trunc(q) as real;
    var f := q - t;
    assert JsRem(n, m) == m * f by {
      assert n == m * q;
      assert m * f == m * q - m * t;
    }
    assert 0.0 <= n ==> 0.0 <= f by {
      if 0.0 <= n { assert 0.0 <= q; }
    }
    ScaledFraction(m, f, JsRem(n, m));
  }

  lemma ScaledFraction(m: real, f: real, r: real)
    requires m > 0.0 && -1.0 < f < 1.0 && r == m * f
    ensures -m < r < m
    ensures 0.0 <= f ==> 0.0 <= r
  {
    if 0.0 <= f {
      StrictlyBelow(m, f);
    } else {
      StrictlyBelow(m, -f);
      assert m * f == -(m * (-f));
    }
  }

  lemma StrictlyBelow(m: real, e: real)
    requires m > 0.0 && 0.0 <= e < 1.0
    ensures 0.0 <= m * e < m
  {
    assert m - m * e == m * (1.0 - e);
    assert m * (1.0 - e) > 0.0;
  }

  lemma NonNegMul(a: int, b: int)
    requires 0 <= a && 0 <= b
    ensures 0 <= a * b
  {
  }

  /** Euclidean division is characterised by its quotient and remainder. */
  lemma DivModUnique(k: int, w: int, q: int, r: int)
    requires w > 0 && 0 <= r < w && k == q * w + r
    ensures k / w == q && k % w == r
  {
    var q0, r0 := k / w, k % w;
    assert k == q0 * w + r0;
    assert (q - q0) * w == r0 - r;
    if q > q0 {
      assert (q - q0) * w == (q - q0 - 1) * w + w;
      NonNegMul(q - q0 - 1, w);
    } else if q < q0 {
      assert (q0 - q) * w == (q0 - q - 1) * w + w;
      NonNegMul(q0 - q - 1, w);
    }
  }

  /** A non-negative quotient below h for a dividend below h * w. */
  lemma DivBelow(k: nat, w: nat, h: nat)
    requires w > 0 && k < h * w
    ensures k / w < h
  {
    var q := k / w;
    assert k == q * w + k % w;
    assert q * w == (q - h) * w + h * w;
    if q >= h {
      NonNegMul(q - h, w);
    }
  }

  /** For a positive divisor the real quotient is bracketed like its
      numerator. */
  lemma DivBetween(x: real, n: real, q: real)
    requires n > 0.0 && q * n <= x < (q + 1.0) * n
    ensures q <= x / n < q + 1.0
  {
    var d := x / n;
    assert x == d * n;
    NonNegFactor(d - q, n, x - q * n);
    PositiveProduct(q + 1.0 - d, n);
  }

  lemma NonNegFactor(a: real, n: real, p: real)
    requires n > 0.0 && p == a * n && p >= 0.0
    ensures a >= 0.0
  {
  }

  /** The smoothing step `v += (t - v) * k`: the gap to the target shrinks
      by the factor 1 - k, and for k in [0, 1] the new value lies between
      the old value and the target. */
  function Approach(v: real, t: real, k: real): (r: real)
    ensures t - r == (1.0 - k) * (t - v)
    ensures 0.0 <= k <= 1.0 && v <= t ==> v <= r <= t
    ensures 0.0 <= k <= 1.0 && t <= v ==> t <= r <= v
  {
    ApproachFacts(v, t, k, (t - v) * k);
    v + (t - v) * k
  }

  lemma ApproachFacts(v: real, t: real, k: real, p: real)
    requires p == (t - v) * k
    ensures t - (v + p) == (1.0 - k) * (t - v)
    ensures 0.0 <= k <= 1.0 && v <= t ==> v <= v + p <= t
    ensures 0.0 <= k <= 1.0 && t <= v ==> t <= v + p <= v
  {
    assert (1.0 - k) * (t - v) == (t - v) - (t - v) * k;
    var g := t - v;
    MulUnitBound(g, k);
    assert p == g * k;
    if 0.0 <= k <= 1.0 && v <= t {
      assert 0.0 <= g * k <= g;
      assert 0.0 <= p <= g;
    }
    if 0.0 <= k <= 1.0 && t <= v {
      assert g <= g * k <= 0.0;
      assert g <= p <= 0.0;
    }
  }

  /** A drag move's velocity: the delta scaled by 16 / max(1, dt) with dt
      the milliseconds since the previous move, clamped to [-maxV, maxV]. */
  function DragVelocity(d: real, now: real, lastT: real, maxV: real): (v: real)
    requires 0.0 <= maxV
    ensures -maxV <= v <= maxV
    ensures var k := 16.0 / Max(1.0, now - lastT); -maxV <= d * k <= maxV ==> v == d * k
  {
    Clamp(d * (16.0 / Max(1.0, now - lastT)), -maxV, maxV)
  }

  /** Dividing by a positive number keeps order. */
  lemma DivMonotone(a: real, b: real, n: real)
    requires a <= b && n > 0.0
    ensures a / n <= b / n
  {
    var qa, qb := a / n, b / n;
    assert qa * n == a && qb * n == b;
    assert (qb - qa) * n == b - a;
    NonNegFactor(qb - qa, n, b - a);
  }

  /** A part over the whole lies in [0, 1]. */
  lemma UnitFraction(a: real, b: real)
    requires 0.0 <= a <= b && b > 0.0
    ensures 0.0 <= a / b <= 1.0
  {
    var q := a / b;
    assert q * b == a;
    NonNegFactor(q, b, a);
    assert (1.0 - q) * b == b - a;
    NonNegFactor(1.0 - q, b, b - a);
  }

  /** `s.startsWith(p)` */
  predicate StartsWith(s: string, p: string)
  {
    |p| <= |s| && s[..|p|] == p
  }

  /** The button and modifier keys of a mouse or pointer event. */
  datatype Buttons = Buttons(button: int, meta: bool, ctrl: bool, shift: bool, alt: bool)

  /** A primary-button press with no modifier key held. */
  predicate PlainPrimary(b: Buttons)
  {
    b.button == 0 && !b.meta && !b.ctrl && !b.shift && !b.alt
  }
}
