/**
 The escape-time test: iterate z <- z^2 + c from z = 0 at most
 `maxIterations` times and report the first iteration index at which
 |z|^2 exceeds 4.
 */
module Escape {
  import opened ComplexNumbers
  import opened Configuration

  datatype Option<T> = None | Some(value: T)

  /** Squared modulus beyond which a point has escaped. */
  const EscapeRadiusSqr: real := 4.0

  /** One step of the Mandelbrot recurrence, z^2 + c: from 0 it lands on c. */
  function Step(z: Complex, c: Complex): (r: Complex)
    ensures z == Zero ==> r == c
  {
    assert z == Zero ==> Mul(z, z) == Zero;
    Add(Mul(z, z), c)
  }

  /** The value of z after `n` steps from z = 0. */
  function Orbit(c: Complex, n: nat): Complex {
    if n == 0 then Zero else Step(Orbit(c, n - 1), c)
  }

  /**
   Iteration index `i` (counting from 0) is the one whose step produces
   Orbit(c, i + 1); it escapes when that value's |z|^2 exceeds 4.
   */
  predicate EscapesAt(c: Complex, i: nat) {
    NormSqr(Orbit(c, i + 1)) > EscapeRadiusSqr
  }

  /** `i` is an iteration index below the cap at which `c` escapes for the first time. */
  predicate IsFirstEscape(c: Complex, i: nat, maxIterations: nat) {
    i < maxIterations && EscapesAt(c, i) && forall j :: 0 <= j < i ==> !EscapesAt(c, j)
  }

  /** No iteration index below the cap escapes. */
  predicate StaysBounded(c: Complex, maxIterations: nat) {
    forall j :: 0 <= j < maxIterations ==> !EscapesAt(c, j)
  }

  /**
   Reference search for the first escaping iteration index in
   [from, maxIterations), stated directly on the orbit.
   */
  function FirstEscapeFrom(c: Complex, from: nat, maxIterations: nat): (r: Option<nat>)
    ensures r.None? ==> forall j :: from <= j < maxIterations ==> !EscapesAt(c, j)
    ensures r.Some? ==> from <= r.value < maxIterations && EscapesAt(c, r.value)
    ensures r.Some? ==> forall j :: from <= j < r.value ==> !EscapesAt(c, j)
    decreases maxIterations - from
  {
    if from >= maxIterations then None
    else if EscapesAt(c, from) then Some(from)
    else FirstEscapeFrom(c, from + 1, maxIterations)
  }

  function FirstEscape(c: Complex, maxIterations: nat): Option<nat> {
    FirstEscapeFrom(c, 0, maxIterations)
  }

  /** The first escaping index is unique. */
  lemma {:induction false} FirstEscapeUnique(c: Complex, i: nat, k: nat, maxIterations: nat)
    requires IsFirstEscape(c, i, maxIterations) && IsFirstEscape(c, k, maxIterations)
    ensures i == k
  {
  }

  /**
   The reference search finds exactly the first escape: it returns `Some(i)`
   if and only if `i` is the first escaping index, and `None` if and only if
   the point stays bounded for the whole cap.
   */
  lemma {:induction false} FirstEscapeCorrect(c: Complex, maxIterations: nat)
    ensures forall i: nat :: FirstEscape(c, maxIterations) == Some(i) <==> IsFirstEscape(c, i, maxIterations)
    ensures FirstEscape(c, maxIterations) == None <==> StaysBounded(c, maxIterations)
  {
    var r := FirstEscape(c, maxIterations);
    forall i: nat
      ensures r == Some(i) <==> IsFirstEscape(c, i, maxIterations)
    {
      if IsFirstEscape(c, i, maxIterations) && r.Some? {
        assert IsFirstEscape(c, r.value, maxIterations);
        FirstEscapeUnique(c, i, r.value, maxIterations);
      }
    }
  }

  /**
   The value `escape_time` reports, in terms of the reference search: the
   first escaping index plus the smoothing term of that iteration's |z|^2.
   */
  function ShadedEscape(c: Complex, maxIterations: nat, shade: real -> real): Option<real> {
    match FirstEscape(c, maxIterations)
    case None => None
    case Some(i) => Some(i as real + shade(NormSqr(Orbit(c, i + 1))))
  }

  /**
   What the loop reports when iteration index `i` is the first to escape:
   exactly the reference value, for the one first escape there is.
   */
  lemma {:induction false} ReportEscape(c: Complex, i: nat, maxIterations: nat, shade: real -> real, r: Option<real>)
    requires i < maxIterations && EscapesAt(c, i)
    requires forall j :: 0 <= j < i ==> !EscapesAt(c, j)
    requires r == Some(i as real + shade(NormSqr(Orbit(c, i + 1))))
    ensures r == ShadedEscape(c, maxIterations, shade)
    ensures r.None? <==> StaysBounded(c, maxIterations)
  {
    assert IsFirstEscape(c, i, maxIterations);
    FirstEscapeCorrect(c, maxIterations);
  }

  /** What the loop reports when no iteration index below the cap escapes. */
  lemma {:induction false} ReportBounded(c: Complex, maxIterations: nat, shade: real -> real, r: Option<real>)
    requires forall j :: 0 <= j < maxIterations ==> !EscapesAt(c, j)
    requires r == None
    ensures r == ShadedEscape(c, maxIterations, shade)
    ensures r.None? <==> StaysBounded(c, maxIterations)
  {
    FirstEscapeCorrect(c, maxIterations);
  }

  /**
   The escape-time loop. `shade` stands for the smoothing term
   1 - ln(log2(|z|^2) / 2), which is left uninterpreted.
   */
  method EscapeTime(c: Complex, settings: Settings, shade: real -> real) returns (r: Option<real>)
    ensures r == ShadedEscape(c, settings.maxIterations, shade)
    ensures r.None? <==> StaysBounded(c, settings.maxIterations)
    ensures settings.maxIterations == 0 ==> r.None?
  {
    var z := Zero;
    for i := 0 to settings.maxIterations
      invariant z == Orbit(c, i)
      invariant forall j :: 0 <= j < i ==> !EscapesAt(c, j)
    {
      z := Step(z, c);
      assert z == Orbit(c, i + 1);
      if NormSqr(z) > EscapeRadiusSqr {
        r := Some(i as real + shade(NormSqr(z)));
        ReportEscape(c, i, settings.maxIterations, shade, r);
        return;
      }
      assert !EscapesAt(c, i);
    }
    r := None;
    ReportBounded(c, settings.maxIterations, shade, r);
  }

  /**
   The reference value is `None` exactly when the point stays bounded, and is
   otherwise the first escaping index plus its smoothing term.
   */
  lemma {:induction false} ShadedEscapeCorrect(c: Complex, maxIterations: nat, shade: real -> real)
    ensures ShadedEscape(c, maxIterations, shade).None? <==> StaysBounded(c, maxIterations)
    ensures forall i: nat :: IsFirstEscape(c, i, maxIterations) ==>
              ShadedEscape(c, maxIterations, shade) == Some(i as real + shade(NormSqr(Orbit(c, i + 1))))
  {
    FirstEscapeCorrect(c, maxIterations);
  }

  lemma {:induction false} NormSqrZero()
    ensures NormSqr(Zero) == 0.0
  {
    assert Zero.re * Zero.re == 0.0 && Zero.im * Zero.im == 0.0;
  }

  /** A step from a real number with a real c stays on the real axis. */
  lemma {:induction false} StepOnRealAxis(x: real, a: real)
    ensures Step(Complex(x, 0.0), Complex(a, 0.0)) == Complex(x * x + a, 0.0)
  {
    assert Mul(Complex(x, 0.0), Complex(x, 0.0)) == Complex(x * x, 0.0) by {
      assert x * 0.0 == 0.0 && 0.0 * x == 0.0 && 0.0 * 0.0 == 0.0;
    }
  }

  /** A point of the real segment [-1/2, 0] lies well inside the radius-2 disc. */
  lemma {:induction false} SmallNegativeNormSqr(z: Complex)
    requires z.im == 0.0 && -0.5 <= z.re <= 0.0
    ensures NormSqr(z) <= 0.25
  {
    assert z.im * z.im == 0.0;
    SquareOfSmallNegative(z.re);
  }

  lemma {:induction false} SquareOfSmallNegative(x: real)
    requires -0.5 <= x <= 0.0
    ensures 0.0 <= x * x <= 0.25
  {
    assert x * x == (-x) * (-x);
    assert (-x) * (-x) <= 0.5 * (-x);
  }

  /** The orbit of 0 never leaves 0. */
  lemma {:induction false} OriginOrbit(n: nat)
    ensures Orbit(Zero, n) == Zero
  {
    if n > 0 {
      OriginOrbit(n - 1);
      OriginOrbitStep(n);
    }
  }

  lemma {:induction false} OriginOrbitStep(n: nat)
    requires n > 0 && Orbit(Zero, n - 1) == Zero
    ensures Orbit(Zero, n) == Zero
  {
  }

  lemma {:induction false} OriginNeverEscapesAt(j: nat)
    ensures !EscapesAt(Zero, j)
  {
    OriginOrbit(j + 1);
    NormSqrZero();
  }

  /** 0 never escapes, whatever the iteration cap. */
  lemma {:induction false} OriginStaysBounded(maxIterations: nat)
    ensures StaysBounded(Zero, maxIterations)
    ensures FirstEscape(Zero, maxIterations) == None
  {
    forall j | 0 <= j < maxIterations
      ensures !EscapesAt(Zero, j)
    {
      OriginNeverEscapesAt(j);
    }
    FirstEscapeCorrect(Zero, maxIterations);
  }

  /** A point already outside the radius-2 disc escapes at iteration index 0. */
  lemma {:induction false} FarPointEscapesAtOnce(c: Complex, maxIterations: nat)
    requires NormSqr(c) > EscapeRadiusSqr
    requires maxIterations >= 1
    ensures FirstEscape(c, maxIterations) == Some(0)
  {
    assert Orbit(c, 1) == c;
    assert EscapesAt(c, 0);
  }

  const MinusHalf: Complex := Complex(-0.5, 0.0)

  /** The orbit of -1/2 stays on the real segment [-1/2, 0]. */
  lemma {:induction false} MinusHalfOrbit(n: nat)
    ensures Orbit(MinusHalf, n).im == 0.0
    ensures -0.5 <= Orbit(MinusHalf, n).re <= 0.0
  {
    if n > 0 {
      MinusHalfOrbit(n - 1);
      var z := Orbit(MinusHalf, n - 1);
      var x := z.re;
      assert z == Complex(x, 0.0);
      StepOnRealAxis(x, -0.5);
      SquareOfSmallNegative(x);
    }
  }

  lemma {:induction false} MinusHalfNeverEscapesAt(j: nat)
    ensures !EscapesAt(MinusHalf, j)
  {
    MinusHalfOrbit(j + 1);
    SmallNegativeNormSqr(Orbit(MinusHalf, j + 1));
  }

  /** -1/2 never escapes, whatever the iteration cap. */
  lemma {:induction false} MinusHalfStaysBounded(maxIterations: nat)
    ensures StaysBounded(MinusHalf, maxIterations)
    ensures FirstEscape(MinusHalf, maxIterations) == None
  {
    forall j | 0 <= j < maxIterations
      ensures !EscapesAt(MinusHalf, j)
    {
      MinusHalfNeverEscapesAt(j);
    }
    FirstEscapeCorrect(MinusHalf, maxIterations);
  }
}
