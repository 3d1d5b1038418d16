/**
 * The shifted Lennard-Jones law for one pair: the size shift derived from the
 * diameter, the strict cutoff on the shifted separation and the closed-form
 * force/r, pair energy and pair virial.
 */
module PairPotential {
  import opened Outcomes

  /** The square root the force loop calls, supplied by the caller (the math library is not modelled). */
  ghost predicate IsSqrt(sqrt: real -> real) {
    forall x: real :: 0.0 <= x ==> 0.0 <= sqrt(x) && sqrt(x) * sqrt(x) == x
  }

  /** The size shift of a particle: diameter/2 - sigma/2, with sigma fixed at 1. */
  function Alpha(diameter: real): (a: real)
    ensures diameter == 1.0 ==> a == 0.0
    ensures 2.0 * a + 1.0 == diameter
  {
    diameter / 2.0 - 1.0 / 2.0
  }

  /** What one contributing pair adds: force magnitude over r, pair energy (already halved) and pair virial. */
  datatype PairTerms = PairTerms(forceDivr: real, energy: real, virial: real)

  /**
   * Evaluates the law at shifted separation radj with coefficients lj1, lj2.
   * The pair contributes only when radj < rCut (strictly); otherwise None.
   * The division by radj squared needs radj != 0 on the contributing side.
   */
  function PairEval(radj: real, lj1: real, lj2: real, rCut: real): (r: Option<PairTerms>)
    requires radj < rCut ==> radj != 0.0
    ensures r.Some? <==> radj < rCut
    ensures r.Some? ==> 6.0 * r.value.virial == radj * radj * r.value.forceDivr
    ensures r.Some? && lj1 == 0.0 && lj2 == 0.0 ==> r.value == PairTerms(0.0, 0.0, 0.0)
  {
    if radj < rCut then
      SquarePositive(radj);
      var r2inv := 1.0 / (radj * radj);
      var r6inv := r2inv * r2inv * r2inv;
      var forceDivr := r2inv * r6inv * (12.0 * lj1 * r6inv - 6.0 * lj2);
      var pairVirial := (1.0 / 6.0) * (radj * radj) * forceDivr;
      var pairEnergy := 0.5 * r6inv * (lj1 * r6inv - lj2);
      Some(PairTerms(forceDivr, pairEnergy, pairVirial))
    else
      None
  }

  lemma SquareMonotone(a: real, b: real)
    requires 0.0 <= a < b
    ensures a * a < b * b
  {
    calc {
      a * a;
    <= a * b;
    <  b * b;
    }
  }

  lemma PositiveProduct(a: real, b: real)
    requires 0.0 < a && 0.0 < b
    ensures 0.0 < a * b
  {
  }

  lemma SquarePositive(x: real)
    requires x != 0.0
    ensures x * x > 0.0
  {
    if x < 0.0 {
      assert x * x == (-x) * (-x);
    }
  }

  lemma Regroup(a: real, b: real, c: real, d: real, e: real)
    ensures (a * b * c) * (d * d * e) == (a * e) * (b * d) * (c * d)
  {
  }

  lemma UnitFactors(x: real, y: real, z: real)
    requires x == 1.0 && y == 1.0
    ensures x * y * z == z
  {
  }

  lemma InverseCube(s: real, a: real)
    requires a * s == 1.0
    ensures (a * a * a) * (s * s * s) == 1.0
  {
    assert (a * a * a) * (s * s * s) == (a * s) * (a * s) * (a * s);
  }

  /** With s = radj^2: the force/r expression times s^7 is 12 lj1 - 6 lj2 s^3. */
  lemma ForceLaw(s: real, lj1: real, lj2: real)
    requires s > 0.0
    ensures var r2inv := 1.0 / s;
            var r6inv := r2inv * r2inv * r2inv;
            var s3 := s * s * s;
            (r2inv * r6inv * (12.0 * lj1 * r6inv - 6.0 * lj2)) * (s3 * s3 * s) == 12.0 * lj1 - 6.0 * lj2 * s3
  {
    var r2inv := 1.0 / s;
    var r6inv := r2inv * r2inv * r2inv;
    var s3 := s * s * s;
    InverseCube(s, r2inv);
    var c := 12.0 * lj1 * r6inv - 6.0 * lj2;
    assert c * s3 == 12.0 * lj1 * (r6inv * s3) - 6.0 * lj2 * s3;
    Regroup(r2inv, r6inv, c, s3, s);
    UnitFactors(r2inv * s, r6inv * s3, c * s3);
  }

  /** With s = radj^2: the energy expression times s^6 is half of lj1 - lj2 s^3. */
  lemma EnergyLaw(s: real, lj1: real, lj2: real)
    requires s > 0.0
    ensures var r2inv := 1.0 / s;
            var r6inv := r2inv * r2inv * r2inv;
            var s3 := s * s * s;
            (0.5 * r6inv * (lj1 * r6inv - lj2)) * (s3 * s3) == 0.5 * (lj1 - lj2 * s3)
  {
    var r2inv := 1.0 / s;
    var r6inv := r2inv * r2inv * r2inv;
    var s3 := s * s * s;
    InverseCube(s, r2inv);
    var e := lj1 * r6inv - lj2;
    assert e * s3 == lj1 * (r6inv * s3) - lj2 * s3;
    assert (0.5 * r6inv * e) * (s3 * s3) == 0.5 * (r6inv * s3) * (e * s3);
  }

  /** A quantity scaled by a positive factor keeps its sign. */
  lemma SignOfScaled(f: real, k: real, v: real)
    requires 0.0 < k && f * k == v
    ensures f == 0.0 <==> v == 0.0
    ensures 0.0 < f <==> 0.0 < v
  {
    if 0.0 < f {
      PositiveProduct(f, k);
    } else if f < 0.0 {
      PositiveProduct(-f, k);
      assert (-f) * k == -(f * k);
    }
  }

  /**
   * The evaluated terms solve the inverse-12/inverse-6 law written without
   * divisions (s = radj^2): force/r times s^7 is 12 lj1 - 6 lj2 s^3 and the
   * energy times s^6 is half of lj1 - lj2 s^3. Hence the force vanishes exactly
   * where 2 lj1 == lj2 s^3, is repulsive (positive along the displacement)
   * exactly when 2 lj1 > lj2 s^3, and the energy vanishes exactly where
   * lj1 == lj2 s^3.
   */
  lemma {:induction false} PairEvalPowerLaw(radj: real, lj1: real, lj2: real, rCut: real)
    requires radj != 0.0 && radj < rCut
    ensures var t := PairEval(radj, lj1, lj2, rCut).value;
            var s := radj * radj;
            var s3 := s * s * s;
            && t.forceDivr * (s3 * s3 * s) == 12.0 * lj1 - 6.0 * lj2 * s3
            && t.energy * (s3 * s3) == 0.5 * (lj1 - lj2 * s3)
            && (t.forceDivr == 0.0 <==> 2.0 * lj1 == lj2 * s3)
            && (t.forceDivr > 0.0 <==> 2.0 * lj1 > lj2 * s3)
            && (t.energy == 0.0 <==> lj1 == lj2 * s3)
  {
    var t := PairEval(radj, lj1, lj2, rCut).value;
    var s := radj * radj;
    var s3 := s * s * s;
    SquarePositive(radj);
    var r2inv := 1.0 / s;
    var r6inv := r2inv * r2inv * r2inv;
    assert t.forceDivr == r2inv * r6inv * (12.0 * lj1 * r6inv - 6.0 * lj2);
    assert t.energy == 0.5 * r6inv * (lj1 * r6inv - lj2);
    ForceLaw(s, lj1, lj2);
    EnergyLaw(s, lj1, lj2);
    PositiveProduct(s, s);
    PositiveProduct(s * s, s);
    PositiveProduct(s3, s3);
    PositiveProduct(s3 * s3, s);
    SignOfScaled(t.forceDivr, s3 * s3 * s, 12.0 * lj1 - 6.0 * lj2 * s3);
    SignOfScaled(t.energy, s3 * s3, 0.5 * (lj1 - lj2 * s3));
  }
}
