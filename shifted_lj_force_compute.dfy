/**
 * The shifted Lennard-Jones force compute: the per-type-pair coefficient
 * matrices, the five per-particle accumulators and the force pass that fills
 * them from a neighbour list.
 */
module ShiftedLJ {
  import opened Outcomes
  import opened Sums
  import opened Periodic
  import opened PairPotential
  import opened ParameterStore
  import opened Accumulation

  datatype Error =
    | NegativeCutoff
    | NonexistentType(typ1: nat, typ2: nat)
    | InvalidLogQuantity(quantity: string)

  /** The names of the quantities this compute provides to the logger. */
  function GetProvidedLogQuantities(): seq<string> {
    ["slj_energy"]
  }

  class ShiftedLJForceCompute {
    const nparticles: nat
    const ntypes: nat
    const rCut: real

    /** Coefficient matrices, ntypes x ntypes, cell (t1, t2) at t1 * ntypes + t2. */
    const lj1: array<real>
    const lj2: array<real>

    /** Per-particle force components, potential energy and virial. */
    const fx: array<real>
    const fy: array<real>
    const fz: array<real>
    const pe: array<real>
    const virial: array<real>

    /**
     * The construction-time conditions (at least one type, a non-negative
     * cutoff) hold, and the arrays have their sizes and are pairwise distinct.
     */
    ghost predicate WellFormed() {
      && ntypes > 0 && rCut >= 0.0
      && lj1.Length == ntypes * ntypes && lj2.Length == ntypes * ntypes
      && fx.Length == nparticles && fy.Length == nparticles && fz.Length == nparticles
      && pe.Length == nparticles && virial.Length == nparticles
      && lj1 != lj2
      && lj1 != fx && lj1 != fy && lj1 != fz && lj1 != pe && lj1 != virial
      && lj2 != fx && lj2 != fy && lj2 != fz && lj2 != pe && lj2 != virial
      && fx != fy && fx != fz && fx != pe && fx != virial
      && fy != fz && fy != pe && fy != virial
      && fz != pe && fz != virial
      && pe != virial
    }

    /** WellFormed, and both coefficient matrices are symmetric, as setParams keeps them. */
    ghost predicate Valid()
      reads lj1, lj2
    {
      && WellFormed()
      && IsSymmetric(lj1[..], ntypes) && IsSymmetric(lj2[..], ntypes)
    }

    /** Allocates the matrices, zero-filled, and the accumulators; the cutoff has been checked. */
    constructor (nparticles: nat, ntypes: nat, rCut: real)
      requires ntypes > 0 && rCut >= 0.0
      ensures Valid()
      ensures this.nparticles == nparticles && this.ntypes == ntypes && this.rCut == rCut
      ensures lj1[..] == Zeros(ntypes) && lj2[..] == Zeros(ntypes)
      ensures fresh(lj1) && fresh(lj2) && fresh(fx) && fresh(fy) && fresh(fz) && fresh(pe) && fresh(virial)
    {
      this.nparticles := nparticles;
      this.ntypes := ntypes;
      this.rCut := rCut;
      lj1 := new real[ntypes * ntypes](_ => 0.0);
      lj2 := new real[ntypes * ntypes](_ => 0.0);
      fx := new real[nparticles](_ => 0.0);
      fy := new real[nparticles](_ => 0.0);
      fz := new real[nparticles](_ => 0.0);
      pe := new real[nparticles](_ => 0.0);
      virial := new real[nparticles](_ => 0.0);
      ZerosSymmetric(ntypes);
    }

    /** Construction: a negative cutoff is rejected; otherwise every coefficient starts at 0. */
    static method Create(nparticles: nat, ntypes: nat, rCut: real) returns (r: Result<ShiftedLJForceCompute, Error>)
      requires ntypes > 0
      ensures r.Failure? <==> rCut < 0.0
      ensures r.Failure? ==> r.error == NegativeCutoff
      ensures r.Success? ==> r.value.Valid() && fresh(r.value)
      ensures r.Success? ==> fresh(r.value.lj1) && fresh(r.value.lj2) && fresh(r.value.fx) && fresh(r.value.fy)
                             && fresh(r.value.fz) && fresh(r.value.pe) && fresh(r.value.virial)
      ensures r.Success? ==> r.value.ntypes == ntypes && r.value.nparticles == nparticles && r.value.rCut == rCut
      ensures r.Success? ==> r.value.lj1[..] == Zeros(ntypes) && r.value.lj2[..] == Zeros(ntypes)
    {
      if rCut < 0.0 {
        return Failure(NegativeCutoff);
      }
      var c := new ShiftedLJForceCompute(nparticles, ntypes, rCut);
      r := Success(c);
    }

    /**
     * Sets the coefficients of type pair (typ1, typ2) in both mirrored cells of
     * both matrices; a nonexistent type fails and changes nothing.
     */
    method SetParams(typ1: nat, typ2: nat, lj1Value: real, lj2Value: real) returns (r: Outcome<Error>)
      requires Valid()
      modifies lj1, lj2
      ensures r.Fail? <==> typ1 >= ntypes || typ2 >= ntypes
      ensures r.Fail? ==> r.error == NonexistentType(typ1, typ2)
      ensures lj1[..] == SetPair(old(lj1[..]), ntypes, typ1, typ2, lj1Value)
      ensures lj2[..] == SetPair(old(lj2[..]), ntypes, typ1, typ2, lj2Value)
      ensures Valid()
    {
      if typ1 >= ntypes || typ2 >= ntypes {
        return Fail(NonexistentType(typ1, typ2));
      }
      lj1[Cell(typ1, typ2, ntypes)] := lj1Value;
      lj1[Cell(typ2, typ1, ntypes)] := lj1Value;
      lj2[Cell(typ1, typ2, ntypes)] := lj2Value;
      lj2[Cell(typ2, typ1, ntypes)] := lj2Value;
      SetPairKeepsSymmetry(old(lj1[..]), ntypes, typ1, typ2, lj1Value);
      SetPairKeepsSymmetry(old(lj2[..]), ntypes, typ1, typ2, lj2Value);
      r := Pass;
    }

    /** The total potential energy: the sum of the per-particle energies. */
    function CalcEnergySum(): real
      reads pe
    {
      SeqSum(pe[..])
    }

    /** Answers the logger: the energy sum for the one provided name, an error for any other. */
    function GetLogValue(quantity: string): (r: Result<real, Error>)
      reads pe
      ensures r.Success? <==> quantity in GetProvidedLogQuantities()
      ensures r.Success? ==> r.value == CalcEnergySum()
      ensures r.Failure? ==> r.error == InvalidLogQuantity(quantity)
    {
      if quantity == "slj_energy" then Success(CalcEnergySum())
      else Failure(InvalidLogQuantity(quantity))
    }

    /** The accumulator array of a channel. */
    function Acc(ch: Channel): (a: array<real>)
      ensures WellFormed() ==> a.Length == nparticles
    {
      match ch
      case ForceX => fx
      case ForceY => fy
      case ForceZ => fz
      case Energy => pe
      case Virial => virial
    }

    /** Everything a force pass with these inputs reads, including this compute's current coefficients. */
    function PassInputs(p: ParticleArrays, box: BoxDim, nlist: seq<seq<nat>>, thirdLaw: bool, sqrt: real -> real): Snapshot
      reads lj1, lj2
    {
      Snapshot(p, box, nlist, thirdLaw, sqrt, ntypes, lj1[..], lj2[..], rCut)
    }

    /** The third-law update of neighbour k: the opposite force, the same energy and virial. */
    method AddToNeighbour(k: nat, d: Vec3, t: PairTerms)
      requires Valid() && k < nparticles
      modifies fx, fy, fz, pe, virial
      ensures forall ch: Channel, q :: 0 <= q < nparticles ==>
                Acc(ch)[q] == old(Acc(ch)[q]) + (if q == k then OnSecond(Contribution(d, t), ch) else 0.0)
    {
      fx[k] := fx[k] - d.x * t.forceDivr;
      fy[k] := fy[k] - d.y * t.forceDivr;
      fz[k] := fz[k] - d.z * t.forceDivr;
      pe[k] := pe[k] + t.energy;
      virial[k] := virial[k] + t.virial;
    }

    /**
     * Evaluates entry j of particle i's list: the periodically corrected
     * displacement, the shifted separation (with alpha_j taken from particle
     * i's diameter, as the force loop does) and the pair law with the
     * coefficients of the two particles' types.
     */
    method EvaluatePair(p: ParticleArrays, box: BoxDim, nlist: seq<seq<nat>>, thirdLaw: bool, sqrt: real -> real, ghost s: Snapshot, ghost t: PassTable, i: nat, j: nat)
      returns (d: Vec3, terms: Option<PairTerms>)
      requires Valid()
      requires s == PassInputs(p, box, nlist, thirdLaw, sqrt) && ValidSnapshot(s) && Tabulates(s, t)
      requires i < |nlist| && j < |nlist[i]|
      ensures t.cs[i][j] == if terms.Some? then Some(Contribution(d, terms.value)) else None
    {
      var alphai := Alpha(p.diameter[i]);
      var typei := p.typ[i];
      var row := typei * ntypes;
      var k := nlist[i][j];
      var dx := p.x[i] - p.x[k];
      var dy := p.y[i] - p.y[k];
      var dz := p.z[i] - p.z[k];
      var alphaj := Alpha(p.diameter[i]);
      var typej := p.typ[k];

      dx := WrapAxis(dx, box.xlo, box.xhi);
      dy := WrapAxis(dy, box.ylo, box.yhi);
      dz := WrapAxis(dz, box.zlo, box.zhi);
      d := Vec3(dx, dy, dz);

      var rsq := RSquared(d);
      var radj := sqrt(rsq) - alphai - alphaj;
      assert d == Displacement(s, i, j);
      assert radj == Radj(s, i, j);
      assert row + typej == Cell(typei, typej, ntypes);
      terms := PairEval(radj, lj1[row + typej], lj2[row + typej], rCut);
      assert t.cs[i][j] == PairContribution(s, i, j);
    }

    /** Clears the five accumulators, as every pass does before walking the lists. */
    method ZeroAccumulators()
      requires Valid()
      modifies fx, fy, fz, pe, virial
      ensures forall ch: Channel, q :: 0 <= q < nparticles ==> Acc(ch)[q] == 0.0
    {
      forall q | 0 <= q < nparticles { fx[q] := 0.0; }
      forall q | 0 <= q < nparticles { fy[q] := 0.0; }
      forall q | 0 <= q < nparticles { fz[q] := 0.0; }
      forall q | 0 <= q < nparticles { pe[q] := 0.0; }
      forall q | 0 <= q < nparticles { virial[q] := 0.0; }
    }

    /**
     * The body of the outer loop for particle i: walks i's list, summing what i
     * receives in five locals and, in half storage, updating each contributing
     * neighbour at once; the locals are added to i's accumulators at the end.
     */
    method AccumulateRow(p: ParticleArrays, box: BoxDim, nlist: seq<seq<nat>>, thirdLaw: bool, sqrt: real -> real,
                         ghost s: Snapshot, ghost t: PassTable, i: nat)
      requires Valid() && |nlist| == nparticles && i < |nlist|
      requires s == PassInputs(p, box, nlist, thirdLaw, sqrt) && ValidSnapshot(s) && Tabulates(s, t)
      requires forall ch: Channel, q :: 0 <= q < nparticles ==> Acc(ch)[q] == Done(t, ch, q, i)
      modifies fx, fy, fz, pe, virial
      ensures forall ch: Channel, q :: 0 <= q < nparticles ==> Acc(ch)[q] == Done(t, ch, q, i + 1)
    {
      var fxi, fyi, fzi, pei, viriali := 0.0, 0.0, 0.0, 0.0, 0.0;
      var list := nlist[i];
      RowStart(t, i);

      var j := 0;
      while j < |list|
        invariant 0 <= j <= |list|
        invariant PassInputs(p, box, nlist, thirdLaw, sqrt) == s
        invariant fxi == Own(t, ForceX, i, j) && fyi == Own(t, ForceY, i, j) && fzi == Own(t, ForceZ, i, j)
        invariant pei == Own(t, Energy, i, j) && viriali == Own(t, Virial, i, j)
        invariant forall ch: Channel, q :: 0 <= q < nparticles ==> Acc(ch)[q] == Partial(t, ch, q, i, j)
      {
        var k := list[j];
        var d, terms := EvaluatePair(p, box, nlist, thirdLaw, sqrt, s, t, i, j);
        EntryStep(t, i, j, if terms.Some? then Some(Contribution(d, terms.value)) else None);

        if terms.Some? {
          var forceDivr := terms.value.forceDivr;
          fxi := fxi + d.x * forceDivr;
          fyi := fyi + d.y * forceDivr;
          fzi := fzi + d.z * forceDivr;
          pei := pei + terms.value.energy;
          viriali := viriali + terms.value.virial;
          if thirdLaw {
            AddToNeighbour(k, d, terms.value);
          }
        }
        j := j + 1;
      }

      RowStep(t, i);
      fx[i] := fx[i] + fxi;
      fy[i] := fy[i] + fyi;
      fz[i] := fz[i] + fzi;
      pe[i] := pe[i] + pei;
      virial[i] := virial[i] + viriali;
    }

    /**
     * One force pass. The accumulators are zeroed, then every particle i walks
     * its neighbour list; each neighbour inside the cutoff adds its force,
     * energy and virial to i and, in half storage (thirdLaw), the opposite force
     * and the same energy and virial to the neighbour. The result depends only
     * on the inputs, never on what the accumulators held before.
     */
    method ComputeForces(p: ParticleArrays, box: BoxDim, nlist: seq<seq<nat>>, thirdLaw: bool, sqrt: real -> real)
      requires Valid()
      requires |nlist| == nparticles
      requires ValidSnapshot(PassInputs(p, box, nlist, thirdLaw, sqrt))
      modifies fx, fy, fz, pe, virial
      ensures forall ch: Channel, q :: 0 <= q < nparticles ==>
                Acc(ch)[q] == Accumulated(Tabulate(PassInputs(p, box, nlist, thirdLaw, sqrt)), ch, q)
      ensures thirdLaw ==> SeqSum(fx[..]) == 0.0 && SeqSum(fy[..]) == 0.0 && SeqSum(fz[..]) == 0.0
      ensures CalcEnergySum() == (if thirdLaw then 2.0 else 1.0) * ListTotal(Tabulate(PassInputs(p, box, nlist, thirdLaw, sqrt)), Energy)
    {
      ghost var s := PassInputs(p, box, nlist, thirdLaw, sqrt);
      ghost var t := Tabulation(s);
      ZeroAccumulators();
      PassStart(t);

      var i := 0;
      while i < |nlist|
        invariant 0 <= i <= |nlist|
        invariant PassInputs(p, box, nlist, thirdLaw, sqrt) == s
        invariant forall ch: Channel, q :: 0 <= q < nparticles ==> Acc(ch)[q] == Done(t, ch, q, i)
      {
        AccumulateRow(p, box, nlist, thirdLaw, sqrt, s, t, i);
        i := i + 1;
      }
      PassEnd(t);
      TabulateUnique(s, t);
      PassTotals(t, ForceX, fx[..]);
      PassTotals(t, ForceY, fy[..]);
      PassTotals(t, ForceZ, fz[..]);
      PassTotals(t, Energy, pe[..]);
    }
  }
}
