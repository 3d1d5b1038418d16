/**
 * What one computeForces pass computes, stated without loops: the per-pair
 * contribution (periodic correction, shifted separation, cutoff, pair law) and,
 * for every particle, the sum of what it receives from the pairs in its own
 * neighbour list plus, when the list is in half storage (third law), what it
 * receives as the neighbour in other particles' lists.
 */
module Accumulation {
  import opened Outcomes
  import opened Sums
  import opened Periodic
  import opened PairPotential
  import opened ParameterStore

  /** The read-only particle data of one pass: positions, diameters and type indices. */
  datatype ParticleArrays = ParticleArrays(x: seq<real>, y: seq<real>, z: seq<real>, diameter: seq<real>, typ: seq<nat>)

  /**
   * Everything one pass reads: particle data, box, neighbour lists and their
   * storage mode (thirdLaw is true for half storage), the square root in use,
   * and the force compute's own type count, coefficient matrices and cutoff.
   */
  datatype Snapshot = Snapshot(
    p: ParticleArrays,
    box: BoxDim,
    nlist: seq<seq<nat>>,
    thirdLaw: bool,
    sqrt: real -> real,
    ntypes: nat,
    lj1: seq<real>,
    lj2: seq<real>,
    rCut: real)

  /** Array sizes agree, the box is proper, and every type and neighbour index is in range. */
  ghost predicate Shaped(s: Snapshot) {
    var n := |s.nlist|;
    && |s.p.x| == n && |s.p.y| == n && |s.p.z| == n && |s.p.diameter| == n && |s.p.typ| == n
    && s.box.Valid()
    && |s.lj1| == s.ntypes * s.ntypes && |s.lj2| == s.ntypes * s.ntypes
    && (forall i :: 0 <= i < n ==> s.p.typ[i] < s.ntypes)
    && (forall i, j :: 0 <= i < n && 0 <= j < |s.nlist[i]| ==> s.nlist[i][j] < n)
  }

  /** The periodically corrected displacement x_i - x_k of entry j of particle i's list. */
  function Displacement(s: Snapshot, i: nat, j: nat): Vec3
    requires Shaped(s) && i < |s.nlist| && j < |s.nlist[i]|
  {
    var k := s.nlist[i][j];
    Wrap(s.box, Vec3(s.p.x[i] - s.p.x[k], s.p.y[i] - s.p.y[k], s.p.z[i] - s.p.z[k]))
  }

  /**
   * The shifted separation |d| - alpha_i - alpha_j of entry j of particle i's
   * list. As in the force loop, alpha_j is computed from particle i's own
   * diameter, so the neighbour's diameter plays no part.
   */
  function Radj(s: Snapshot, i: nat, j: nat): real
    requires Shaped(s) && i < |s.nlist| && j < |s.nlist[i]|
  {
    var alphai := Alpha(s.p.diameter[i]);
    var alphaj := Alpha(s.p.diameter[i]);
    s.sqrt(RSquared(Displacement(s, i, j))) - alphai - alphaj
  }

  /** Shaped, and no contributing pair sits at zero shifted separation (the law divides by radj^2). */
  ghost predicate ValidSnapshot(s: Snapshot) {
    && Shaped(s)
    && forall i, j :: 0 <= i < |s.nlist| && 0 <= j < |s.nlist[i]| ==> (Radj(s, i, j) < s.rCut ==> Radj(s, i, j) != 0.0)
  }

  /** A contributing pair: its corrected displacement and the terms of the law. */
  datatype Contribution = Contribution(d: Vec3, terms: PairTerms)

  /** The contribution of entry j of particle i's list, if the pair is inside the cutoff. */
  function PairContribution(s: Snapshot, i: nat, j: nat): (r: Option<Contribution>)
    requires ValidSnapshot(s) && i < |s.nlist| && j < |s.nlist[i]|
    ensures r.Some? <==> Radj(s, i, j) < s.rCut
    ensures r.Some? ==> r.value.d == Displacement(s, i, j)
  {
    var k := s.nlist[i][j];
    var c := Cell(s.p.typ[i], s.p.typ[k], s.ntypes);
    match PairEval(Radj(s, i, j), s.lj1[c], s.lj2[c], s.rCut)
    case None => None
    case Some(t) => Some(Contribution(Displacement(s, i, j), t))
  }

  /** The contributions of every list entry; row i holds those of particle i's list. */
  type Table = seq<seq<Option<Contribution>>>

  /**
   * A pass reduced to what its accumulation depends on: the neighbour lists,
   * their storage mode and the contribution of every entry.
   */
  datatype PassTable = PassTable(nlist: seq<seq<nat>>, thirdLaw: bool, cs: Table)
  {
    ghost predicate WellFormed() {
      && |cs| == |nlist|
      && (forall i :: 0 <= i < |nlist| ==> |cs[i]| == |nlist[i]|)
      && (forall i, j :: 0 <= i < |nlist| && 0 <= j < |nlist[i]| ==> nlist[i][j] < |nlist|)
    }
  }

  /** t is the pass of snapshot s: same lists and mode, and every entry holds that pair's contribution. */
  ghost predicate Tabulates(s: Snapshot, t: PassTable)
    requires ValidSnapshot(s)
  {
    && t.nlist == s.nlist && t.thirdLaw == s.thirdLaw && t.WellFormed()
    && forall i, j {:trigger PairContribution(s, i, j)} :: 0 <= i < |s.nlist| && 0 <= j < |s.nlist[i]| ==>
         t.cs[i][j] == PairContribution(s, i, j)
  }

  function Tabulate(s: Snapshot): (t: PassTable)
    requires ValidSnapshot(s)
    ensures Tabulates(s, t)
  {
    PassTable(s.nlist, s.thirdLaw,
         seq(|s.nlist|, (i: int) requires 0 <= i < |s.nlist| =>
           seq(|s.nlist[i]|, (j: int) requires 0 <= j < |s.nlist[i]| => PairContribution(s, i, j))))
  }

  /** A snapshot has exactly one pass. */
  lemma TabulateUnique(s: Snapshot, t: PassTable)
    requires ValidSnapshot(s) && Tabulates(s, t)
    ensures t == Tabulate(s)
  {
    var u := Tabulate(s);
    forall i | 0 <= i < |t.cs|
      ensures t.cs[i] == u.cs[i]
    {
      forall j | 0 <= j < |t.cs[i]|
        ensures t.cs[i][j] == u.cs[i][j]
      {
        assert t.cs[i][j] == PairContribution(s, i, j);
      }
    }
  }

  /** The pass of s, named without exposing how Tabulate builds it. */
  lemma Tabulation(s: Snapshot) returns (t: PassTable)
    requires ValidSnapshot(s)
    ensures Tabulates(s, t)
  {
    t := Tabulate(s);
  }

  /** The five per-particle accumulators: three force components, potential energy and virial. */
  datatype Channel = ForceX | ForceY | ForceZ | Energy | Virial
  {
    predicate IsForce() {
      ForceX? || ForceY? || ForceZ?
    }
  }

  /** Under the third law the neighbour gets the opposite force and the same energy and virial. */
  function Mirror(ch: Channel, v: real): real {
    if ch.IsForce() then -v else v
  }

  /** What the listing particle i receives from a contributing pair. */
  function OnFirst(c: Contribution, ch: Channel): real {
    match ch
    case ForceX => c.d.x * c.terms.forceDivr
    case ForceY => c.d.y * c.terms.forceDivr
    case ForceZ => c.d.z * c.terms.forceDivr
    case Energy => c.terms.energy
    case Virial => c.terms.virial
  }

  /** What the neighbour k receives from a contributing pair when the third law is used. */
  function OnSecond(c: Contribution, ch: Channel): (r: real)
    ensures r == Mirror(ch, OnFirst(c, ch))
  {
    match ch
    case ForceX => -(c.d.x * c.terms.forceDivr)
    case ForceY => -(c.d.y * c.terms.forceDivr)
    case ForceZ => -(c.d.z * c.terms.forceDivr)
    case Energy => c.terms.energy
    case Virial => c.terms.virial
  }

  function FirstTerm(t: PassTable, ch: Channel, i: nat, j: nat): real
    requires t.WellFormed() && i < |t.nlist| && j < |t.nlist[i]|
  {
    match t.cs[i][j]
    case None => 0.0
    case Some(c) => OnFirst(c, ch)
  }

  function SecondTerm(t: PassTable, ch: Channel, i: nat, j: nat): (r: real)
    requires t.WellFormed() && i < |t.nlist| && j < |t.nlist[i]|
    ensures r == Mirror(ch, FirstTerm(t, ch, i, j))
  {
    match t.cs[i][j]
    case None => 0.0
    case Some(c) => OnSecond(c, ch)
  }

  /** What particle i receives from the first j entries of its own list. */
  function Own(t: PassTable, ch: Channel, i: nat, j: nat): real
    requires t.WellFormed() && i < |t.nlist| && j <= |t.nlist[i]|
    decreases j
  {
    if j == 0 then 0.0 else Own(t, ch, i, j - 1) + FirstTerm(t, ch, i, j - 1)
  }

  /** What particle i receives from its whole list. */
  function OwnRow(t: PassTable, ch: Channel, i: nat): real
    requires t.WellFormed() && i < |t.nlist|
  {
    Own(t, ch, i, |t.nlist[i]|)
  }

  /** What particle q receives as the neighbour in the first j entries of particle i's list. */
  function ReactRow(t: PassTable, ch: Channel, q: nat, i: nat, j: nat): real
    requires t.WellFormed() && i < |t.nlist| && j <= |t.nlist[i]|
    decreases j
  {
    if j == 0 then 0.0
    else ReactRow(t, ch, q, i, j - 1) + (if t.nlist[i][j - 1] == q then SecondTerm(t, ch, i, j - 1) else 0.0)
  }

  /** What particle q receives as the neighbour in the lists of particles 0 .. i-1. */
  function React(t: PassTable, ch: Channel, q: nat, i: nat): real
    requires t.WellFormed() && i <= |t.nlist|
    decreases i
  {
    if i == 0 then 0.0 else React(t, ch, q, i - 1) + ReactRow(t, ch, q, i - 1, |t.nlist[i - 1]|)
  }

  /** The value a pass leaves in particle q's accumulator for ch. */
  function Accumulated(t: PassTable, ch: Channel, q: nat): real
    requires t.WellFormed() && q < |t.nlist|
  {
    OwnRow(t, ch, q) + (if t.thirdLaw then React(t, ch, q, |t.nlist|) else 0.0)
  }

  function OwnRows(t: PassTable, ch: Channel): nat -> real
    requires t.WellFormed()
  {
    (i: nat) => if i < |t.nlist| then OwnRow(t, ch, i) else 0.0
  }

  function RowReactions(t: PassTable, ch: Channel, i: nat, j: nat): nat -> real
    requires t.WellFormed() && i < |t.nlist| && j <= |t.nlist[i]|
  {
    (q: nat) => ReactRow(t, ch, q, i, j)
  }

  function Reactions(t: PassTable, ch: Channel, i: nat): nat -> real
    requires t.WellFormed() && i <= |t.nlist|
  {
    (q: nat) => React(t, ch, q, i)
  }

  function Accumulations(t: PassTable, ch: Channel): nat -> real
    requires t.WellFormed()
  {
    (q: nat) => if q < |t.nlist| then Accumulated(t, ch, q) else 0.0
  }

  /** The sum of ch over all particles after the pass. */
  function Total(t: PassTable, ch: Channel): real
    requires t.WellFormed()
  {
    Sum(|t.nlist|, Accumulations(t, ch))
  }

  /** The sum over all list entries of what the listing particle receives. */
  function ListTotal(t: PassTable, ch: Channel): real
    requires t.WellFormed()
  {
    Sum(|t.nlist|, OwnRows(t, ch))
  }

  /** Summed over all particles, the reactions to row i's first j entries mirror what i received from them. */
  lemma {:induction false} RowReactionTotal(t: PassTable, ch: Channel, i: nat, j: nat)
    requires t.WellFormed() && i < |t.nlist| && j <= |t.nlist[i]|
    ensures Sum(|t.nlist|, RowReactions(t, ch, i, j)) == Mirror(ch, Own(t, ch, i, j))
    decreases j
  {
    var n := |t.nlist|;
    if j == 0 {
      SumOfZeros(n, RowReactions(t, ch, i, 0));
    } else {
      var k := t.nlist[i][j - 1];
      var v := SecondTerm(t, ch, i, j - 1);
      var point: nat -> real := (q: nat) => if k == q then v else 0.0;
      SumOfSums(n, RowReactions(t, ch, i, j - 1), point, RowReactions(t, ch, i, j));
      SumOfPoint(n, k, v, point);
      RowReactionTotal(t, ch, i, j - 1);
    }
  }

  /** Summed over all particles, the reactions to rows 0 .. i-1 mirror what those rows' owners received. */
  lemma {:induction false} ReactionTotal(t: PassTable, ch: Channel, i: nat)
    requires t.WellFormed() && i <= |t.nlist|
    ensures Sum(|t.nlist|, Reactions(t, ch, i)) == Mirror(ch, Sum(i, OwnRows(t, ch)))
    decreases i
  {
    var n := |t.nlist|;
    if i == 0 {
      SumOfZeros(n, Reactions(t, ch, 0));
    } else {
      var row := RowReactions(t, ch, i - 1, |t.nlist[i - 1]|);
      SumOfSums(n, Reactions(t, ch, i - 1), row, Reactions(t, ch, i));
      ReactionTotal(t, ch, i - 1);
      RowReactionTotal(t, ch, i - 1, |t.nlist[i - 1]|);
    }
  }

  /**
   * Newton's third law over the whole pass. In half storage every force
   * component sums to zero over all particles and energy and virial are
   * counted for both participants (twice the list total); in full storage the
   * totals are exactly the list totals.
   */
  lemma NewtonThirdLawTotals(t: PassTable, ch: Channel)
    requires t.WellFormed()
    ensures t.thirdLaw && ch.IsForce() ==> Total(t, ch) == 0.0
    ensures t.thirdLaw && !ch.IsForce() ==> Total(t, ch) == 2.0 * ListTotal(t, ch)
    ensures !t.thirdLaw ==> Total(t, ch) == ListTotal(t, ch)
  {
    var n := |t.nlist|;
    var reactions: nat -> real := (q: nat) => if t.thirdLaw then React(t, ch, q, n) else 0.0;
    SumOfSums(n, OwnRows(t, ch), reactions, Accumulations(t, ch));
    if t.thirdLaw {
      SumCongruent(n, reactions, Reactions(t, ch, n));
      ReactionTotal(t, ch, n);
    } else {
      SumOfZeros(n, reactions);
    }
  }

  /**
   * The totals of one accumulator array as the pass leaves it: zero net force
   * in half storage, and energy and virial counted for both participants.
   */
  lemma PassTotals(t: PassTable, ch: Channel, a: seq<real>)
    requires t.WellFormed() && |a| == |t.nlist|
    requires forall q :: 0 <= q < |a| ==> a[q] == Accumulated(t, ch, q)
    ensures t.thirdLaw && ch.IsForce() ==> SeqSum(a) == 0.0
    ensures t.thirdLaw && !ch.IsForce() ==> SeqSum(a) == 2.0 * ListTotal(t, ch)
    ensures !t.thirdLaw ==> SeqSum(a) == ListTotal(t, ch)
  {
    SeqSumIsSum(a, Accumulations(t, ch));
    NewtonThirdLawTotals(t, ch);
  }

  /** What particle i receives from its own list depends on that list's row of the table alone. */
  lemma {:induction false} OwnDependsOnRow(t1: PassTable, t2: PassTable, ch: Channel, i: nat, j: nat)
    requires t1.WellFormed() && t2.WellFormed()
    requires i < |t1.nlist| && i < |t2.nlist| && t1.nlist[i] == t2.nlist[i] && t1.cs[i] == t2.cs[i]
    requires j <= |t1.nlist[i]|
    ensures Own(t1, ch, i, j) == Own(t2, ch, i, j)
    decreases j
  {
    if j > 0 {
      OwnDependsOnRow(t1, t2, ch, i, j - 1);
    }
  }

  /**
   * In full storage a pair (i, k) in i's list changes only i's accumulators:
   * particle q's result is fixed by q's own list and its entries, whatever the
   * other lists hold.
   */
  lemma FullStorageIsLocal(t1: PassTable, t2: PassTable, ch: Channel, q: nat)
    requires t1.WellFormed() && t2.WellFormed() && !t1.thirdLaw && !t2.thirdLaw
    requires q < |t1.nlist| && q < |t2.nlist| && t1.nlist[q] == t2.nlist[q] && t1.cs[q] == t2.cs[q]
    ensures Accumulated(t1, ch, q) == Accumulated(t2, ch, q)
  {
    OwnDependsOnRow(t1, t2, ch, q, |t1.nlist[q]|);
  }

  /** Particle q's accumulator once the outer loop has processed particles 0 .. i-1. */
  ghost function Done(t: PassTable, ch: Channel, q: nat, i: nat): real
    requires t.WellFormed() && i <= |t.nlist|
  {
    (if q < i && q < |t.nlist| then OwnRow(t, ch, q) else 0.0) + (if t.thirdLaw then React(t, ch, q, i) else 0.0)
  }

  /** Particle q's accumulator once the inner loop of particle i has processed j entries. */
  ghost function Partial(t: PassTable, ch: Channel, q: nat, i: nat, j: nat): real
    requires t.WellFormed() && i < |t.nlist| && j <= |t.nlist[i]|
  {
    Done(t, ch, q, i) + (if t.thirdLaw then ReactRow(t, ch, q, i, j) else 0.0)
  }

  lemma PassStart(t: PassTable)
    requires t.WellFormed()
    ensures forall ch: Channel, q: nat :: Done(t, ch, q, 0) == 0.0
  {
  }

  lemma RowStart(t: PassTable, i: nat)
    requires t.WellFormed() && i < |t.nlist|
    ensures forall ch: Channel, q: nat :: Partial(t, ch, q, i, 0) == Done(t, ch, q, i)
  {
  }

  /** One list entry whose contribution is c: the step the inner loop takes for it. */
  lemma EntryStep(t: PassTable, i: nat, j: nat, c: Option<Contribution>)
    requires t.WellFormed() && i < |t.nlist| && j < |t.nlist[i]|
    requires t.cs[i][j] == c
    ensures forall ch: Channel :: Own(t, ch, i, j + 1) == Own(t, ch, i, j) + (if c.Some? then OnFirst(c.value, ch) else 0.0)
    ensures forall ch: Channel, q: nat :: Partial(t, ch, q, i, j + 1)
              == Partial(t, ch, q, i, j) + (if t.thirdLaw && c.Some? && t.nlist[i][j] == q then OnSecond(c.value, ch) else 0.0)
  {
  }

  lemma RowStep(t: PassTable, i: nat)
    requires t.WellFormed() && i < |t.nlist|
    ensures forall ch: Channel, q: nat :: Done(t, ch, q, i + 1)
              == Partial(t, ch, q, i, |t.nlist[i]|) + (if q == i then OwnRow(t, ch, i) else 0.0)
  {
  }

  lemma PassEnd(t: PassTable)
    requires t.WellFormed()
    ensures forall ch: Channel, q: nat :: q < |t.nlist| ==> Done(t, ch, q, |t.nlist|) == Accumulated(t, ch, q)
  {
  }
}
