/**
 * Properties of single list entries of a force pass: where exactly the cutoff
 * falls, and how an entry (i, k) compares with the mirrored entry (k, i) that a
 * full neighbour list also holds.
 */
module PairSymmetry {
  import opened Outcomes
  import opened Periodic
  import opened PairPotential
  import opened ParameterStore
  import opened Accumulation

  lemma SumOfSquaresNonNegative(d: Vec3)
    ensures 0.0 <= RSquared(d)
  {
    assert 0.0 <= d.x * d.x by { SquareNonNegative(d.x); }
    assert 0.0 <= d.y * d.y by { SquareNonNegative(d.y); }
    assert 0.0 <= d.z * d.z by { SquareNonNegative(d.z); }
  }

  lemma SquareNonNegative(x: real)
    ensures 0.0 <= x * x
  {
    if x < 0.0 {
      PositiveProduct(-x, -x);
    } else if x > 0.0 {
      PositiveProduct(x, x);
    }
  }

  /**
   * The exact cutoff. With a true square root, entry j of particle i's list
   * contributes iff its squared corrected distance is below the square of
   * rCut + diameter_i - 1 (the cutoff moved out by alpha_i + alpha_j, both
   * taken from particle i); when that shifted cutoff is negative nothing
   * contributes. A pair exactly at the shifted cutoff does not contribute.
   */
  lemma ExactCutoff(s: Snapshot, i: nat, j: nat)
    requires ValidSnapshot(s) && IsSqrt(s.sqrt)
    requires i < |s.nlist| && j < |s.nlist[i]|
    ensures var reach := s.rCut + s.p.diameter[i] - 1.0;
            var rsq := RSquared(Displacement(s, i, j));
            && (reach < 0.0 ==> PairContribution(s, i, j).None?)
            && (0.0 <= reach ==> (PairContribution(s, i, j).Some? <==> rsq < reach * reach))
  {
    var reach := s.rCut + s.p.diameter[i] - 1.0;
    var rsq := RSquared(Displacement(s, i, j));
    SumOfSquaresNonNegative(Displacement(s, i, j));
    var r := s.sqrt(rsq);
    assert 0.0 <= r && r * r == rsq;
    assert Radj(s, i, j) == r - 2.0 * Alpha(s.p.diameter[i]);
    assert Radj(s, i, j) < s.rCut <==> r < reach;
    if 0.0 <= reach {
      if r < reach {
        SquareMonotone(r, reach);
      } else if reach < r {
        SquareMonotone(reach, r);
      }
    }
  }

  /**
   * Entry j of particle i's list names k, and entry jb of k's list names i. In
   * a box centred on the origin both entries see the same distance, but each
   * subtracts twice the alpha of its own listing particle, so their shifted
   * separations differ by the difference of the two diameters.
   */
  lemma MirroredSeparation(s: Snapshot, i: nat, j: nat, jb: nat)
    requires ValidSnapshot(s) && s.box.Centred()
    requires i < |s.nlist| && j < |s.nlist[i]|
    requires jb < |s.nlist[s.nlist[i][j]]| && s.nlist[s.nlist[i][j]][jb] == i
    ensures var k := s.nlist[i][j];
            Radj(s, k, jb) == Radj(s, i, j) + s.p.diameter[i] - s.p.diameter[k]
  {
    var k := s.nlist[i][j];
    var raw := Vec3(s.p.x[i] - s.p.x[k], s.p.y[i] - s.p.y[k], s.p.z[i] - s.p.z[k]);
    assert Displacement(s, k, jb) == Wrap(s.box, Vec3(-raw.x, -raw.y, -raw.z));
    WrapMirrorDistance(s.box, raw);
    assert RSquared(Displacement(s, k, jb)) == RSquared(Displacement(s, i, j));
  }

  /**
   * The mirrored entry (k, i) sees the negated displacement of (i, k) when no
   * component of the latter lies on the closed lower face of a centred box. On
   * an axis where it does, the mirrored component is on a face too (-h or h),
   * so it need not be the negation.
   */
  lemma MirroredDisplacement(s: Snapshot, i: nat, j: nat, jb: nat)
    requires ValidSnapshot(s) && s.box.Centred()
    requires i < |s.nlist| && j < |s.nlist[i]|
    requires jb < |s.nlist[s.nlist[i][j]]| && s.nlist[s.nlist[i][j]][jb] == i
    ensures var d, e := Displacement(s, i, j), Displacement(s, s.nlist[i][j], jb);
            && (OffLowerFace(s.box, d) ==> e == Vec3(-d.x, -d.y, -d.z))
            && (d.x == s.box.xlo ==> e.x == s.box.xlo || e.x == s.box.xhi)
            && (d.y == s.box.ylo ==> e.y == s.box.ylo || e.y == s.box.yhi)
            && (d.z == s.box.zlo ==> e.z == s.box.zlo || e.z == s.box.zhi)
  {
    var k := s.nlist[i][j];
    var raw := Vec3(s.p.x[i] - s.p.x[k], s.p.y[i] - s.p.y[k], s.p.z[i] - s.p.z[k]);
    assert Displacement(s, k, jb) == Wrap(s.box, Vec3(-raw.x, -raw.y, -raw.z));
    WrapMirror(s.box, raw);
  }

  /**
   * Under the same conditions, with equal diameters and symmetric coefficient
   * matrices, the two entries agree on whether the pair contributes and on the
   * force/r, energy and virial of the pair law: the per-pair work a full list
   * does twice is the work a half list does once. With unequal diameters the
   * entries see different separations (MirroredSeparation), so the two
   * storage modes can disagree.
   */
  lemma MirroredPairAgrees(s: Snapshot, i: nat, j: nat, jb: nat)
    requires ValidSnapshot(s) && s.box.Centred()
    requires i < |s.nlist| && j < |s.nlist[i]|
    requires jb < |s.nlist[s.nlist[i][j]]| && s.nlist[s.nlist[i][j]][jb] == i
    requires s.p.diameter[s.nlist[i][j]] == s.p.diameter[i]
    requires IsSymmetric(s.lj1, s.ntypes) && IsSymmetric(s.lj2, s.ntypes)
    ensures var k := s.nlist[i][j];
            && (PairContribution(s, k, jb).Some? <==> PairContribution(s, i, j).Some?)
            && (PairContribution(s, i, j).Some? ==>
                  PairContribution(s, k, jb).value.terms == PairContribution(s, i, j).value.terms)
  {
    var k := s.nlist[i][j];
    MirroredSeparation(s, i, j, jb);
    var a, b := s.p.typ[i], s.p.typ[k];
    assert s.lj1[Cell(b, a, s.ntypes)] == s.lj1[Cell(a, b, s.ntypes)];
    assert s.lj2[Cell(b, a, s.ntypes)] == s.lj2[Cell(a, b, s.ntypes)];
  }

  /**
   * Half and full storage agree on one pair: with equal diameters, symmetric
   * matrices and a displacement off the lower faces, what k receives from the
   * full list's entry (k, i) is, channel by channel, what the half list's
   * third-law update gives k for entry (i, k), and both entries contribute or
   * neither does.
   */
  lemma MirroredEntryMatchesThirdLaw(s: Snapshot, i: nat, j: nat, jb: nat)
    requires ValidSnapshot(s) && s.box.Centred()
    requires i < |s.nlist| && j < |s.nlist[i]|
    requires jb < |s.nlist[s.nlist[i][j]]| && s.nlist[s.nlist[i][j]][jb] == i
    requires s.p.diameter[s.nlist[i][j]] == s.p.diameter[i]
    requires IsSymmetric(s.lj1, s.ntypes) && IsSymmetric(s.lj2, s.ntypes)
    requires OffLowerFace(s.box, Displacement(s, i, j))
    ensures var k := s.nlist[i][j];
            && (PairContribution(s, k, jb).Some? <==> PairContribution(s, i, j).Some?)
            && (PairContribution(s, i, j).Some? ==> forall ch: Channel ::
                  OnFirst(PairContribution(s, k, jb).value, ch) == OnSecond(PairContribution(s, i, j).value, ch))
  {
    var k := s.nlist[i][j];
    var here, there := PairContribution(s, i, j), PairContribution(s, k, jb);
    MirroredPairAgrees(s, i, j, jb);
    if here.Some? {
      MirroredDisplacement(s, i, j, jb);
      var d := here.value.d;
      assert there.value == Contribution(Vec3(-d.x, -d.y, -d.z), here.value.terms);
      forall ch: Channel
        ensures OnFirst(there.value, ch) == OnSecond(here.value, ch)
      {
        NegatedDisplacement(d, here.value.terms, ch);
      }
    }
  }

  /** The listing particle of the negated displacement receives what the third law gives the neighbour. */
  lemma NegatedDisplacement(d: Vec3, t: PairTerms, ch: Channel)
    ensures OnFirst(Contribution(Vec3(-d.x, -d.y, -d.z), t), ch) == OnSecond(Contribution(d, t), ch)
  {
  }
}
