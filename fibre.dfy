/** An optical fibre: its construction from either explicit core and cladding
    indices or a core index and a relative index difference, the optical
    properties derived once at construction, and the refractive-index profile
    it plots across its radius. */
module Fibre {
  import opened Common
  import opened RealArith
  import opened Profile

  /** The math library the derivation calls. Only the square root is
      constrained; the arcsine and the radian-to-degree conversion stay
      uninterpreted, and their domain is checked where they are applied. */
  datatype Maths = Maths(sqrt: real -> real, asin: real -> real, degrees: real -> real)
  {
    /** `sqrt` returns the non-negative root of a non-negative argument. */
    ghost predicate SqrtIsRoot()
    {
      forall x: real :: 0.0 <= x ==> 0.0 <= sqrt(x) && sqrt(x) * sqrt(x) == x
    }
  }

  /** Arguments `math.sqrt` accepts without raising a domain error. */
  predicate InSqrtDomain(x: real)
  {
    0.0 <= x
  }

  /** Arguments `math.asin` accepts without raising a domain error. */
  predicate InAsinDomain(x: real)
  {
    -1.0 <= x <= 1.0
  }

  /** Why construction raises: a missing material description, a core index
      below the cladding index, or a math domain error. */
  datatype FibreError = IncompleteInformation | CoreBelowCladding | MathDomainError

  /** What construction sets: the profile kind, both indices, the numerical
      aperture, the two angles in degrees, and the relative index difference
      (set only in the difference form). */
  datatype Properties = Properties(
    index: string, n1: real, n2: real, na: real,
    criticalAngle: real, acceptanceAngle: real, delta: Option<real>)

  /** Construction from explicit indices. */
  function ExplicitForm(n1: real, n2: real, index: string, m: Maths): (r: Result<Properties, FibreError>)
    requires n1 != 0.0
  {
    if n1 < n2 then Err(CoreBelowCladding)
    else if !InSqrtDomain(n1 * n1 - n2 * n2) then Err(MathDomainError)
    else
      var na := m.sqrt(n1 * n1 - n2 * n2);
      if !InAsinDomain(n2 / n1) || !InAsinDomain(na) then Err(MathDomainError)
      else Ok(Properties(index, n1, n2, na, m.degrees(m.asin(n2 / n1)), m.degrees(m.asin(na)), None))
  }

  /** Construction from the core index and the relative index difference. */
  function DifferenceForm(n1: real, delta: real, index: string, m: Maths): (r: Result<Properties, FibreError>)
  {
    if !InSqrtDomain(2.0 * delta) then Err(MathDomainError)
    else
      var na := n1 * m.sqrt(2.0 * delta);
      if !InAsinDomain(1.0 - delta) || !InAsinDomain(na) then Err(MathDomainError)
      else Ok(Properties(index, n1, n1 * (1.0 - delta), na,
                         m.degrees(m.asin(1.0 - delta)), m.degrees(m.asin(na)), Some(delta)))
  }

  /** The constructor. A truthy index difference selects the difference form
      and any cladding index is then ignored; otherwise both indices must be
      truthy. */
  function Derive(coreN: Option<real>, claddingN: Option<real>, indexDifference: Option<real>,
                  index: string, m: Maths): (r: Result<Properties, FibreError>)
    ensures r == Err(IncompleteInformation) <==>
              !Truthy(coreN) || (!Truthy(indexDifference) && !Truthy(claddingN))
    ensures r == Err(CoreBelowCladding) <==>
              !Truthy(indexDifference) && Truthy(coreN) && Truthy(claddingN) && coreN.value < claddingN.value
    ensures r.Ok? ==> r.value.index == index && r.value.n1 == coreN.value && r.value.n1 != 0.0
                      && InAsinDomain(r.value.na)
    ensures r.Ok? && !Truthy(indexDifference) ==>
              && r.value.n2 == claddingN.value && r.value.n2 <= r.value.n1
              && r.value.n2 * r.value.n2 <= r.value.n1 * r.value.n1
              && r.value.na == m.sqrt(coreN.value * coreN.value - claddingN.value * claddingN.value)
              && InAsinDomain(r.value.n2 / r.value.n1)
              && r.value.criticalAngle == m.degrees(m.asin(r.value.n2 / r.value.n1))
              && r.value.delta == None
    ensures r.Ok? && Truthy(indexDifference) ==>
              && r.value.n2 == r.value.n1 * (1.0 - indexDifference.value)
              && 0.0 < indexDifference.value <= 2.0
              && r.value.na == r.value.n1 * m.sqrt(2.0 * indexDifference.value)
              && r.value.criticalAngle == m.degrees(m.asin(1.0 - indexDifference.value))
              && r.value.delta == indexDifference
    ensures r.Ok? ==> r.value.acceptanceAngle == m.degrees(m.asin(r.value.na))
  {
    if !Truthy(indexDifference) then
      if !Truthy(coreN) || !Truthy(claddingN) then Err(IncompleteInformation)
      else ExplicitForm(coreN.value, claddingN.value, index, m)
    else if !Truthy(coreN) then Err(IncompleteInformation)
    else DifferenceForm(coreN.value, indexDifference.value, index, m)
  }

  // ---------------------------------------------------------------------------
  // Properties of the derivation

  /** With a core index no smaller than the cladding index and no smaller
      square, the critical-angle argument `n2/n1` is a valid arcsine argument,
      and it is positive when the cladding index is. */
  lemma CriticalArgumentInDomain(n1: real, n2: real)
    requires n1 != 0.0 && n2 <= n1 && n2 * n2 <= n1 * n1
    ensures InAsinDomain(n2 / n1)
    ensures 0.0 < n2 ==> 0.0 < n2 / n1 <= 1.0
  {
    var q := n2 / n1;
    DivMul(n2, n1);
    if 0.0 < n1 {
      if 1.0 < q { MulStrict(n1, 1.0, q); }
      if q < -1.0 {
        assert (-n2) * (-n2) == n2 * n2;
        MulStrict(n1, q, -1.0);
        SquareStrict(n1, -n2);
      }
      if 0.0 < n2 && q <= 0.0 { MulMono(n1, q, 0.0); }
    } else {
      if n2 < n1 {
        assert (-n2) * (-n2) == n2 * n2 && (-n1) * (-n1) == n1 * n1;
        SquareStrict(-n1, -n2);
      }
      assert n2 == n1;
    }
  }

  /** In the explicit form the numerical aperture is the non-negative root of
      `n1^2 - n2^2`. */
  lemma ExplicitFormAperture(coreN: Option<real>, claddingN: Option<real>, indexDifference: Option<real>,
                             index: string, m: Maths)
    requires m.SqrtIsRoot() && !Truthy(indexDifference)
    requires Derive(coreN, claddingN, indexDifference, index, m).Ok?
    ensures var p := Derive(coreN, claddingN, indexDifference, index, m).value;
            0.0 <= p.na && p.na * p.na == p.n1 * p.n1 - p.n2 * p.n2
  {
    var p := Derive(coreN, claddingN, indexDifference, index, m).value;
    assert InSqrtDomain(p.n1 * p.n1 - p.n2 * p.n2);
  }

  /** In the explicit form with a positive core index, the numerical aperture
      lies between zero and the core index. */
  lemma ApertureAtMostCoreIndex(coreN: Option<real>, claddingN: Option<real>, indexDifference: Option<real>,
                                index: string, m: Maths)
    requires m.SqrtIsRoot() && !Truthy(indexDifference) && Truthy(coreN) && 0.0 < coreN.value
    requires Derive(coreN, claddingN, indexDifference, index, m).Ok?
    ensures var p := Derive(coreN, claddingN, indexDifference, index, m).value;
            0.0 <= p.na <= coreN.value
  {
    var p := Derive(coreN, claddingN, indexDifference, index, m).value;
    ExplicitFormAperture(coreN, claddingN, indexDifference, index, m);
    SquareNonNegative(p.n2);
    if p.n1 < p.na {
      SquareStrict(p.n1, p.na);
    }
  }

  /** Explicit-form construction succeeds exactly when the core index is no
      smaller than the cladding index and `0 <= n1^2 - n2^2 <= 1`; an index
      order that passes but a square difference that does not is a math
      domain error. */
  lemma ExplicitFormSucceeds(coreN: Option<real>, claddingN: Option<real>, indexDifference: Option<real>,
                             index: string, m: Maths)
    requires m.SqrtIsRoot() && !Truthy(indexDifference) && Truthy(coreN) && Truthy(claddingN)
    ensures var n1, n2 := coreN.value, claddingN.value;
            Derive(coreN, claddingN, indexDifference, index, m).Ok? <==>
              n2 <= n1 && 0.0 <= n1 * n1 - n2 * n2 <= 1.0
    ensures coreN.value >= claddingN.value && Derive(coreN, claddingN, indexDifference, index, m).Err? ==>
              Derive(coreN, claddingN, indexDifference, index, m) == Err(MathDomainError)
  {
    var n1, n2 := coreN.value, claddingN.value;
    if n2 <= n1 && 0.0 <= coreN.value * coreN.value - claddingN.value * claddingN.value {
      CriticalArgumentInDomain(n1, n2);
      var s := m.sqrt(coreN.value * coreN.value - claddingN.value * claddingN.value);
      assert 0.0 <= s && s * s == coreN.value * coreN.value - claddingN.value * claddingN.value;
      RootBound(s, coreN.value * coreN.value - claddingN.value * claddingN.value);
    }
  }

  /** Equal indices are accepted and give a zero numerical aperture. */
  lemma EqualIndicesZeroAperture(n: real, indexDifference: Option<real>, index: string, m: Maths)
    requires m.SqrtIsRoot() && !Truthy(indexDifference) && n != 0.0
    ensures Derive(Some(n), Some(n), indexDifference, index, m).Ok?
    ensures Derive(Some(n), Some(n), indexDifference, index, m).value.na == 0.0
  {
    var s := m.sqrt(n * n - n * n);
    assert n * n - n * n == 0.0;
    assert 0.0 <= s && s * s == 0.0;
    RootBound(s, 0.0);
    CriticalArgumentInDomain(n, n);
  }

  /** In the difference form, `NA^2 = 2 delta n1^2`, and the aperture is
      non-negative for a positive core index. */
  lemma DifferenceFormAperture(coreN: Option<real>, claddingN: Option<real>, indexDifference: Option<real>,
                               index: string, m: Maths)
    requires m.SqrtIsRoot() && Truthy(indexDifference)
    requires Derive(coreN, claddingN, indexDifference, index, m).Ok?
    ensures var p := Derive(coreN, claddingN, indexDifference, index, m).value;
            && p.na * p.na == 2.0 * indexDifference.value * (p.n1 * p.n1)
            && (0.0 < p.n1 ==> 0.0 <= p.na)
  {
    var p := Derive(coreN, claddingN, indexDifference, index, m).value;
    var d := indexDifference.value;
    var s := m.sqrt(2.0 * d);
    assert 0.0 <= s && s * s == 2.0 * d;
    calc {
      p.na * p.na;
    == (p.n1 * s) * (p.n1 * s);
    == (p.n1 * p.n1) * (s * s);
    == (p.n1 * p.n1) * (2.0 * d);
    == 2.0 * d * (p.n1 * p.n1);
    }
    if 0.0 < p.n1 { MulMono(p.n1, 0.0, s); }
  }

  /** Difference-form construction succeeds exactly when `0 < delta <= 2`
      and `2 delta n1^2 <= 1`. */
  lemma DifferenceFormSucceeds(coreN: Option<real>, claddingN: Option<real>, indexDifference: Option<real>,
                               index: string, m: Maths)
    requires m.SqrtIsRoot() && Truthy(indexDifference) && Truthy(coreN)
    ensures var n1, d := coreN.value, indexDifference.value;
            Derive(coreN, claddingN, indexDifference, index, m).Ok? <==>
              0.0 < d <= 2.0 && 2.0 * d * (n1 * n1) <= 1.0
  {
    var n1, d := coreN.value, indexDifference.value;
    if 0.0 <= 2.0 * d {
      var s := m.sqrt(2.0 * d);
      assert 0.0 <= s && s * s == 2.0 * d;
      var na := n1 * s;
      calc {
        na * na;
      == (n1 * n1) * (s * s);
      == 2.0 * d * (n1 * n1);
      }
      SquareAtMostOne(na);
    }
  }

  /** The difference form ignores whatever cladding index is passed. */
  lemma CladdingIgnoredInDifferenceForm(coreN: Option<real>, claddingN: Option<real>, otherCladdingN: Option<real>,
                                        indexDifference: Option<real>, index: string, m: Maths)
    requires Truthy(indexDifference)
    ensures Derive(coreN, claddingN, indexDifference, index, m)
         == Derive(coreN, otherCladdingN, indexDifference, index, m)
  {
  }

  /** Indices 1.48 and 1.46 give `NA^2 = 0.0588`, so `NA` lies in (0.2424, 0.2425). */
  lemma ApertureExample(index: string, m: Maths)
    requires m.SqrtIsRoot()
    ensures var r := Derive(Some(1.48), Some(1.46), None, index, m);
            r.Ok? && r.value.na * r.value.na == 0.0588 && 0.2424 < r.value.na < 0.2425
  {
    var s := m.sqrt(1.48 * 1.48 - 1.46 * 1.46);
    assert 0.0 <= s && s * s == 0.0588;
    RootBound(s, 0.0588);
    if 0.2425 <= s {
      calc {
        0.0588;
      == s * s;
      >= { MulMono(s, 0.2425, s); }
        s * 0.2425;
      >= { MulMono(0.2425, 0.2425, s); }
        0.2425 * 0.2425;
      }
    }
    if s <= 0.2424 {
      calc {
        0.0588;
      == s * s;
      <= { MulMono(s, s, 0.2424); }
        s * 0.2424;
      <= { MulMono(0.2424, s, 0.2424); }
        0.2424 * 0.2424;
      }
    }
  }

  /** On every constructed fibre the recomputed relative index difference lies
      in [0, 1/2]. */
  lemma GradedDeltaInRange(coreN: Option<real>, claddingN: Option<real>, indexDifference: Option<real>,
                           index: string, m: Maths)
    requires Derive(coreN, claddingN, indexDifference, index, m).Ok?
    ensures var p := Derive(coreN, claddingN, indexDifference, index, m).value;
            p.n2 * p.n2 <= p.n1 * p.n1 && 0.0 <= GradedDelta(p.n1, p.n2) <= 0.5
  {
    var p := Derive(coreN, claddingN, indexDifference, index, m).value;
    if Truthy(indexDifference) {
      var k := 1.0 - indexDifference.value;
      assert -1.0 <= k <= 1.0;
      SquareAtMostOne(k);
      SquareNonNegative(p.n1);
      calc {
        p.n2 * p.n2;
      == (p.n1 * p.n1) * (k * k);
      <= { MulMono(p.n1 * p.n1, k * k, 1.0); }
        p.n1 * p.n1;
      }
    }
  }

  /** For a difference-form fibre the recomputed difference is
      `delta - delta^2 / 2`, not the `delta` it was built with. */
  lemma GradedDeltaOfDifferenceForm(coreN: Option<real>, claddingN: Option<real>, indexDifference: Option<real>,
                                    index: string, m: Maths)
    requires Truthy(indexDifference)
    requires Derive(coreN, claddingN, indexDifference, index, m).Ok?
    ensures var p := Derive(coreN, claddingN, indexDifference, index, m).value;
            GradedDelta(p.n1, p.n2) == indexDifference.value - indexDifference.value * indexDifference.value / 2.0
  {
    var p := Derive(coreN, claddingN, indexDifference, index, m).value;
    var d := indexDifference.value;
    var k := 1.0 - d;
    var q := 2.0 * (p.n1 * p.n1);
    SquarePositive(p.n1);
    calc { q; == 2.0 * (p.n1 * p.n1); > 0.0; }
    calc {
      q * GradedDelta(p.n1, p.n2);
    == p.n1 * p.n1 - p.n2 * p.n2;
    == p.n1 * p.n1 - (p.n1 * p.n1) * (k * k);
    == (p.n1 * p.n1) * (1.0 - k * k);
    == (p.n1 * p.n1) * (2.0 * d - d * d);
    == q * (d - d * d / 2.0);
    }
    Cancel(q, GradedDelta(p.n1, p.n2), d - d * d / 2.0);
  }

  // ---------------------------------------------------------------------------
  // The fibre object and its profile plot

  /** The sampled radii and the index at each. */
  datatype Plot = Plot(x: seq<int>, y: seq<real>)

  /** `NameError`: the graded branch's index formula calls `sqrt`, a name the
      module never imports, so building its list fails as soon as the list is
      non-empty. `UnboundLocalError`: an index other than "Step" or "Graded"
      leaves the lists unassigned when they are handed to the plot. */
  datatype PlotError = NameError | UnboundLocalError

  class OpticalFibre {
    const index: string
    const n1: real
    const n2: real
    const na: real
    const criticalAngle: real
    const acceptanceAngle: real
    /** Set by the difference form; overwritten by a graded plot. */
    var delta: Option<real>

    /** Every constructed fibre has a non-zero core index whose square bounds
        the cladding index's. */
    ghost predicate Valid()
    {
      n1 != 0.0 && n2 * n2 <= n1 * n1
    }

    function Snapshot(): Properties
      reads this
    {
      Properties(index, n1, n2, na, criticalAngle, acceptanceAngle, delta)
    }

    constructor (p: Properties)
      requires p.n1 != 0.0 && p.n2 * p.n2 <= p.n1 * p.n1
      ensures Valid() && Snapshot() == p
    {
      index, n1, n2, na := p.index, p.n1, p.n2, p.na;
      criticalAngle, acceptanceAngle, delta := p.criticalAngle, p.acceptanceAngle, p.delta;
    }

    /** Construction: the derived fibre, or the error construction raises. */
    static method Create(coreN: Option<real>, claddingN: Option<real>, indexDifference: Option<real>,
                         index: string, m: Maths) returns (r: Result<OpticalFibre, FibreError>)
      ensures r.Err? ==> Derive(coreN, claddingN, indexDifference, index, m) == Err(r.error)
      ensures r.Ok? ==> fresh(r.value) && r.value.Valid()
                        && Derive(coreN, claddingN, indexDifference, index, m) == Ok(r.value.Snapshot())
    {
      var d := Derive(coreN, claddingN, indexDifference, index, m);
      if d.Err? {
        return Err(d.error);
      }
      GradedDeltaInRange(coreN, claddingN, indexDifference, index, m);
      var f := new OpticalFibre(d.value);
      return Ok(f);
    }

    /** The profile across the cladding. A step fibre gives the radii and the
        step-index values and changes nothing; a graded fibre first overwrites
        `delta` with the recomputed difference, then yields empty lists when
        there are no radii and fails otherwise; any other index kind fails
        with the lists unassigned and changes nothing. */
    method PlotProfile(coreRadius: real, claddingRadius: real, alpha: real) returns (r: Result<Plot, PlotError>)
      requires Valid()
      modifies this`delta
      ensures index == "Step" ==>
                && delta == old(delta)
                && r == Ok(Plot(Radii(claddingRadius), StepIndices(Radii(claddingRadius), n1, n2, coreRadius)))
      ensures index == "Graded" ==>
                && delta == Some(GradedDelta(n1, n2))
                && (r.Ok? <==> Radii(claddingRadius) == [])
                && (r.Ok? ==> r.value == Plot([], []))
                && (r.Err? ==> r.error == NameError)
      ensures index != "Step" && index != "Graded" ==>
                delta == old(delta) && r == Err(UnboundLocalError)
      ensures Valid()
    {
      var xs := Radii(claddingRadius);
      if index == "Step" {
        r := Ok(Plot(xs, StepIndices(xs, n1, n2, coreRadius)));
      } else if index == "Graded" {
        delta := Some(GradedDelta(n1, n2));
        if |xs| == 0 {
          r := Ok(Plot([], []));
        } else {
          r := Err(NameError);
        }
      } else {
        r := Err(UnboundLocalError);
      }
    }
  }
}
