/** The radial refractive-index profile: the integer radii sampled across the
    fibre, the step-index values at those radii, and the relative index
    difference the graded branch recomputes from the two indices. */
module Profile {
  import opened Common
  import opened RealArith

  /** The number of integer radii on each side of the axis:
      `int(int(2 * claddingRadius) / 2)`. */
  function HalfWidth(claddingRadius: real): (m: int)
  {
    Trunc(Trunc(2.0 * claddingRadius) as real / 2.0)
  }

  /** For a non-negative cladding radius the two truncations amount to its floor;
      for a negative one they give no positive count. */
  lemma HalfWidthIsFloor(claddingRadius: real)
    ensures 0.0 <= claddingRadius ==> HalfWidth(claddingRadius) == claddingRadius.Floor
    ensures claddingRadius < 0.0 ==> HalfWidth(claddingRadius) <= 0
  {
    var t := Trunc(2.0 * claddingRadius);
    if 0.0 <= claddingRadius {
      var k := claddingRadius.Floor;
      TruncIsFloor(2.0 * claddingRadius);
      assert 2 * k <= t <= 2 * k + 1;
      assert k as real <= t as real / 2.0 < k as real + 1.0;
    }
  }

  /** The radii `range(-m, m)` with `m` the half width. */
  function Radii(claddingRadius: real): (xs: seq<int>)
    ensures |xs| == if 0 <= HalfWidth(claddingRadius) then 2 * HalfWidth(claddingRadius) else 0
    ensures |xs| > 0 ==> xs[0] == -HalfWidth(claddingRadius) && xs[|xs| - 1] == HalfWidth(claddingRadius) - 1
    ensures forall i :: 0 < i < |xs| ==> xs[i] == xs[i - 1] + 1
  {
    var m := HalfWidth(claddingRadius);
    if m <= 0 then [] else seq(2 * m, i => i - m)
  }

  /** A non-negative cladding radius samples exactly the integers in
      `[-floor(claddingRadius), floor(claddingRadius))`, each at its own offset. */
  lemma RadiiSpan(claddingRadius: real, r: int)
    requires 0.0 <= claddingRadius
    ensures |Radii(claddingRadius)| == 2 * claddingRadius.Floor
    ensures r in Radii(claddingRadius) <==> -claddingRadius.Floor <= r < claddingRadius.Floor
  {
    HalfWidthIsFloor(claddingRadius);
    var xs, m := Radii(claddingRadius), claddingRadius.Floor;
    if -m <= r < m {
      assert xs[r + m] == r;
    }
  }

  /** A negative cladding radius samples no radius at all. */
  lemma RadiiOfNegativeCladding(claddingRadius: real)
    requires claddingRadius < 0.0
    ensures Radii(claddingRadius) == []
  {
    HalfWidthIsFloor(claddingRadius);
  }

  /** Whether a sampled radius lies in the closed core interval `[-a, a]`. */
  predicate InCore(r: int, coreRadius: real)
  {
    -coreRadius <= r as real <= coreRadius
  }

  /** The step-index values: `n1` in the core, boundary included, `n2` outside. */
  function StepIndices(xs: seq<int>, n1: real, n2: real, coreRadius: real): (ys: seq<real>)
    ensures |ys| == |xs|
    ensures forall i :: 0 <= i < |xs| && InCore(xs[i], coreRadius) ==> ys[i] == n1
    ensures forall i :: 0 <= i < |xs| && !InCore(xs[i], coreRadius) ==> ys[i] == n2
  {
    seq(|xs|, i requires 0 <= i < |xs| =>
      if (xs[i] as real) < -coreRadius || (xs[i] as real) > coreRadius then n2 else n1)
  }

  /** With distinct indices, a value is the core index exactly at core radii. */
  lemma StepIndexIsCoreExactlyInCore(xs: seq<int>, n1: real, n2: real, coreRadius: real, i: int)
    requires n1 != n2 && 0 <= i < |xs|
    ensures StepIndices(xs, n1, n2, coreRadius)[i] == n1 <==> InCore(xs[i], coreRadius)
  {
  }

  /** The step profile takes the same value at opposite radii. */
  lemma StepIndicesSymmetric(xs: seq<int>, n1: real, n2: real, coreRadius: real, i: int, j: int)
    requires 0 <= i < |xs| && 0 <= j < |xs| && xs[j] == -xs[i]
    ensures StepIndices(xs, n1, n2, coreRadius)[i] == StepIndices(xs, n1, n2, coreRadius)[j]
  {
    assert InCore(xs[i], coreRadius) <==> InCore(xs[j], coreRadius);
  }

  /** The relative index difference recomputed from the two indices,
      `(n1^2 - n2^2) / (2 n1^2)`; it never exceeds one half, and it is
      non-negative when the cladding index is no larger in magnitude. */
  function GradedDelta(n1: real, n2: real): (d: real)
    requires n1 != 0.0
    ensures 2.0 * (n1 * n1) * d == n1 * n1 - n2 * n2
    ensures d <= 0.5
    ensures n2 * n2 <= n1 * n1 ==> 0.0 <= d
  {
    SquarePositive(n1);
    GradedDeltaBounds(n1, n2);
    (n1 * n1 - n2 * n2) / (2.0 * (n1 * n1))
  }

  lemma GradedDeltaBounds(n1: real, n2: real)
    requires n1 != 0.0
    ensures 2.0 * (n1 * n1) * ((n1 * n1 - n2 * n2) / (2.0 * (n1 * n1))) == n1 * n1 - n2 * n2
    ensures (n1 * n1 - n2 * n2) / (2.0 * (n1 * n1)) <= 0.5
    ensures n2 * n2 <= n1 * n1 ==> 0.0 <= (n1 * n1 - n2 * n2) / (2.0 * (n1 * n1))
  {
    SquarePositive(n1);
    SquareNonNegative(n2);
    var q, a := 2.0 * (n1 * n1), n1 * n1 - n2 * n2;
    calc { q; == 2.0 * (n1 * n1); > 0.0; }
    DivMul(a, q);
    var d := a / q;
    if 0.5 < d { MulStrict(q, 0.5, d); }
    if d < 0.0 { MulStrict(q, d, 0.0); }
  }
}
