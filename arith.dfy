/** Facts about products and quotients of reals that the fibre derivation
    relies on, each stated over plain variables. */
module RealArith {

  lemma MulPos(a: real, b: real)
    requires 0.0 < a && 0.0 < b
    ensures 0.0 < a * b
  {
  }

  lemma MulMono(a: real, b: real, c: real)
    requires 0.0 <= a && b <= c
    ensures a * b <= a * c
  {
    assert a * c - a * b == a * (c - b);
    if 0.0 < a && b < c { MulPos(a, c - b); }
  }

  lemma MulStrict(a: real, b: real, c: real)
    requires 0.0 < a && b < c
    ensures a * b < a * c
  {
    assert a * c - a * b == a * (c - b);
    MulPos(a, c - b);
  }

  lemma SquarePositive(x: real)
    requires x != 0.0
    ensures 0.0 < x * x
  {
    if x < 0.0 { MulPos(-x, -x); } else { MulPos(x, x); }
  }

  lemma SquareNonNegative(x: real)
    ensures 0.0 <= x * x
  {
    if x != 0.0 { SquarePositive(x); }
  }

  /** Squaring is strictly increasing on the non-negative reals. */
  lemma SquareStrict(a: real, b: real)
    requires 0.0 <= a < b
    ensures a * a < b * b
  {
    calc {
      a * a;
    <= { MulMono(a, a, b); }
      a * b;
    == b * a;
    < { MulStrict(b, a, b); }
      b * b;
    }
  }

  lemma DivMul(a: real, q: real)
    requires q != 0.0
    ensures q * (a / q) == a
  {
  }

  lemma Cancel(q: real, a: real, b: real)
    requires q != 0.0 && q * a == q * b
    ensures a == b
  {
    assert q * (a - b) == 0.0;
    if a < b {
      if 0.0 < q { MulPos(q, b - a); } else { MulPos(-q, b - a); }
    } else if b < a {
      if 0.0 < q { MulPos(q, a - b); } else { MulPos(-q, a - b); }
    }
  }

  /** A non-negative square root `s` of `x` is at most one exactly when `x`
      is, and is zero exactly when `x` is. */
  lemma RootBound(s: real, x: real)
    requires 0.0 <= s && s * s == x
    ensures s <= 1.0 <==> x <= 1.0
    ensures s == 0.0 <==> x == 0.0
  {
    if s <= 1.0 { MulMono(s, s, 1.0); } else { MulMono(s, 1.0, s); }
    if s != 0.0 {
      calc { x; == s * s; > { MulPos(s, s); } 0.0; }
    }
  }

  /** A real lies in [-1, 1] exactly when its square is at most one. */
  lemma SquareAtMostOne(y: real)
    ensures -1.0 <= y <= 1.0 <==> y * y <= 1.0
  {
    if 0.0 <= y {
      RootBound(y, y * y);
    } else {
      assert (-y) * (-y) == y * y;
      RootBound(-y, y * y);
    }
  }
}
