/**
 * The biased sampler `getRandomNumber(max, min)`: a uniform draw `u` in [0, 1)
 * is mapped to `int(min + (max - min) * (1 - u ** 0.5))`.
 *
 * The draw itself is not modelled; the functions here take `s`, the square
 * root of the draw, as a real number, and `IsRoot` says when `s` is the root
 * of a given draw `u`. The lemmas take `s` in the closed interval [0, 1],
 * which contains the root of every draw.
 */
module Sampler {

  /** Python's `int()` on a number: truncation toward zero. */
  function Trunc(x: real): (r: int)
    ensures 0.0 <= x ==> 0 <= r && r as real <= x < r as real + 1.0
    ensures x < 0.0 ==> r <= 0 && r as real - 1.0 < x <= r as real
  {
    if 0.0 <= x then x.Floor else -((-x).Floor)
  }

  /**
   * The value `min + (max - min) * (1 - s)` before it is truncated: the
   * point a fraction `1 - s` of the way from min to max, so a root of 0
   * lands on max and a root of 1 on min.
   */
  function Scaled(max: int, min: int, s: real): (r: real)
    ensures s == 0.0 ==> r == max as real
    ensures s == 1.0 ==> r == min as real
    ensures min == max ==> r == min as real
  {
    min as real + (max - min) as real * (1.0 - s)
  }

  /**
   * `s` is the non-negative square root of the draw `u`, that is `u ** 0.5`
   * in exact reals. Only a non-negative draw has one.
   */
  ghost predicate IsRoot(u: real, s: real): (r: bool)
    ensures r ==> 0.0 <= u
  {
    0.0 <= s && s * s == u
  }

  /**
   * getRandomNumber, with the parameters in the source's order (max first)
   * and the draw given by its square root `s`. For any bounds `min <= max`
   * and any root in [0, 1] the bucket is one of the keys min..max.
   */
  function Bucket(max: int, min: int, s: real): (r: int)
    ensures min <= max && 0.0 <= s <= 1.0 ==> min <= r <= max
  {
    // Both branches compute the same value; the first only brings in
    // ScaledInRange, whose precondition holds there.
    if min <= max && 0.0 <= s <= 1.0 then ScaledInRange(max, min, s); Trunc(Scaled(max, min, s))
    else Trunc(Scaled(max, min, s))
  }

  /** The untruncated value lies between the bounds. */
  lemma ScaledInRange(max: int, min: int, s: real)
    requires min <= max && 0.0 <= s <= 1.0
    ensures min as real <= Scaled(max, min, s) <= max as real
  {
  }

  lemma MulNonNegative(a: real, b: real)
    requires 0.0 <= a && 0.0 <= b
    ensures 0.0 <= a * b
  {
  }

  /** Truncating never moves a number across an integer bound. */
  lemma TruncMonotone(x: real, y: real)
    requires x <= y
    ensures Trunc(x) <= Trunc(y)
  {
  }

  /** Truncating an integer gives it back. */
  lemma TruncOfInt(n: int)
    ensures Trunc(n as real) == n
  {
  }

  /**
   * With non-negative bounds (as in the source, where min is 0) truncation
   * toward zero is the floor of the scaled value.
   */
  lemma BucketIsFloor(max: int, min: int, s: real)
    requires 0 <= min <= max && 0.0 <= s <= 1.0
    ensures Bucket(max, min, s) == Scaled(max, min, s).Floor
  {
    ScaledInRange(max, min, s);
  }

  /**
   * The edge draws: a root of 0 gives max, a root of 1 gives min, and a
   * single-value range always gives that value.
   */
  lemma BucketEndpoints(max: int, min: int, s: real)
    ensures Bucket(max, min, 0.0) == max
    ensures Bucket(max, min, 1.0) == min
    ensures min == max ==> Bucket(max, min, s) == min
  {
  }

  /**
   * A larger root never gives a larger bucket: the transform is
   * non-increasing in the draw.
   */
  lemma BucketMonotone(max: int, min: int, s1: real, s2: real)
    requires min <= max && s1 <= s2
    ensures Bucket(max, min, s2) <= Bucket(max, min, s1)
  {
    var d := (max - min) as real;
    assert d * (1.0 - s2) <= d * (1.0 - s1) by {
      MulNonNegative(d, s2 - s1);
      assert d * (1.0 - s1) - d * (1.0 - s2) == d * (s2 - s1);
    }
    TruncMonotone(Scaled(max, min, s2), Scaled(max, min, s1));
  }

  /**
   * With non-negative bounds and a non-trivial range, the top bucket max is
   * produced by the zero root and by no other.
   */
  lemma BucketIsMaxExactlyAtZero(max: int, min: int, s: real)
    requires 0 <= min < max && 0.0 <= s <= 1.0
    ensures Bucket(max, min, s) == max <==> s == 0.0
  {
  }

  /**
   * With non-negative bounds, the bottom bucket min is produced exactly when
   * the scaled distance `(max - min) * (1 - s)` stays below one.
   */
  lemma BucketIsMinExactly(max: int, min: int, s: real)
    requires 0 <= min <= max && 0.0 <= s <= 1.0
    ensures Bucket(max, min, s) == min <==> (max - min) as real * (1.0 - s) < 1.0
  {
  }

  /** A draw in [0, 1] has its square root in [0, 1]. */
  lemma RootInUnit(u: real, s: real)
    requires 0.0 <= u <= 1.0 && IsRoot(u, s)
    ensures 0.0 <= s <= 1.0
  {
  }

  /** The square root of a draw is unique: two roots of `s * s` are equal. */
  lemma RootUnique(u: real, s: real, t: real)
    requires IsRoot(u, s) && t >= 0.0 && t * t == u
    ensures s == t
  {
    assert (s - t) * (s + t) == s * s - t * t;
    if s + t > 0.0 {
      ZeroProduct(s - t, s + t);
    }
  }

  lemma ZeroProduct(a: real, b: real)
    requires a * b == 0.0 && b > 0.0
    ensures a == 0.0
  {
  }

  /**
   * The reference draws for the source's bounds 0 and 5000: u = 0 gives
   * 5000, u = 1 gives 0 and u = 0.25 gives 2500.
   */
  lemma ReferenceDraws(s0: real, s1: real, sq: real)
    requires IsRoot(0.0, s0) && IsRoot(1.0, s1) && IsRoot(0.25, sq)
    ensures Bucket(5000, 0, s0) == 5000
    ensures Bucket(5000, 0, s1) == 0
    ensures Bucket(5000, 0, sq) == 2500
  {
    RootUnique(0.0, s0, 0.0);
    RootUnique(1.0, s1, 1.0);
    RootUnique(0.25, sq, 0.5);
    BucketEndpoints(5000, 0, 0.0);
    assert Scaled(5000, 0, 0.5) == 2500.0;
    TruncOfInt(2500);
  }
}
