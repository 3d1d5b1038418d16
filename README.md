# Shifted Lennard-Jones force compute

A Dafny model of `ShiftedLJForceCompute`, the CPU pair-force compute of a
molecular-simulation code. It models the compute's own state and its
operations, and proves their properties:

- **Coefficient store.** Two `ntypes × ntypes` matrices `lj1` and `lj2` hold the
  coefficients. They are zeroed at construction. `setParams` writes one type
  pair into both mirrored cells, and fails on a nonexistent type.
- **Log interface.** The one log quantity is `slj_energy`.
- **Force pass.** `computeForces` does the following:
  - it clears five per-particle accumulators (`fx`, `fy`, `fz`, `pe`, `virial`);
  - it walks every particle's neighbour list;
  - it applies the single-shift periodic correction to each displacement;
  - it takes the shifted separation `radj = |d| - alpha_i - alpha_j`;
  - it applies the strict cutoff `radj < r_cut`;
  - it evaluates the closed-form inverse-12/inverse-6 law;
  - it adds the result to particle `i`;
  - when the list is in half storage (Newton's third law), it also adds the
    mirrored result to the neighbour `k` at once.

The files:

| file | module | contents |
|---|---|---|
| `outcomes.dfy` | `Outcomes` | `Option`, `Result` and `Outcome` |
| `sums.dfy` | `Sums` | finite sums of reals |
| `periodic.dfy` | `Periodic` | the box and the per-axis periodic correction |
| `pair_potential.dfy` | `PairPotential` | the size shift `alpha` and the pair law |
| `parameter_store.dfy` | `ParameterStore` | the flat coefficient matrices as values: the cell index `t1 * ntypes + t2`, one `setParams` write, sequences of writes |
| `accumulation.dfy` | `Accumulation` | the loop-free reference for a force pass |
| `pair_symmetry.dfy` | `PairSymmetry` | the exact cutoff and the mirrored-entry properties |
| `shifted_lj_force_compute.dfy` | `ShiftedLJ` | the class with its arrays and the imperative operations, each proved against the functions above |

`accumulation.dfy` builds its reference in four steps:

- `PairContribution` gives the contribution of one list entry.
- `Tabulate` collects those contributions into a table (`PassTable`).
- `Accumulated` gives, per particle and per channel, what the pass leaves in that accumulator. It is the sum over the particle's own list plus, in half storage, what the particle receives as a neighbour in the other lists.
- `Total` and `ListTotal` sum over particles.

The method `ShiftedLJForceCompute.ComputeForces` is proved to leave exactly
`Accumulated(Tabulate(snapshot), ch, q)` in accumulator `ch` of particle `q`.
The snapshot is built from the inputs and the current coefficient matrices,
so the result does not depend on what the accumulators held before. Calling
the method twice with the same inputs therefore leaves the same arrays.

Two details of the force loop are modelled as written:

- **alpha_j from particle i.** `alphaj` is computed from particle `i`'s
  diameter (`src/computes/ShiftedLJForceCompute.cc:247`), so the neighbour's
  diameter plays no part; `Accumulation.Radj` does the same. A symmetric shift
  would take `alpha_j` from `diameter[k]`. `PairSymmetry.MirroredSeparation`
  proves what this means: in a box centred on the origin (`lo == -hi` on every
  axis), entry `(k, i)` sees a shifted separation that differs from that of
  `(i, k)` by `diameter_i - diameter_k`. So in a centred box, for a
  displacement off the closed lower faces, half and full storage agree on a
  pair when the two diameters are equal
  (`PairSymmetry.MirroredEntryMatchesThirdLaw`), and can disagree otherwise.
- **Virial from radj².** The pair virial is `(1/6) · radj² · force/r`
  (line 290). The usual pair virial uses the unshifted `r²`, not `radj²`.

## Model

| member | source | states |
|---|---|---|
| `ShiftedLJ.ShiftedLJForceCompute.constructor` | src/computes/ShiftedLJForceCompute.cc:64-90 | both coefficient matrices have `ntypes * ntypes` cells, and every cell is 0; `Valid()` holds, so both matrices are symmetric |
| `ShiftedLJ.ShiftedLJForceCompute.Create` | src/computes/ShiftedLJForceCompute.cc:62-89 | construction fails with `NegativeCutoff` iff `r_cut < 0`; otherwise the new compute is `Valid()` (symmetric matrices) with all-zero `lj1` and `lj2`, and it and its seven arrays are freshly allocated |
| `ShiftedLJ.ShiftedLJForceCompute.SetParams` | src/computes/ShiftedLJForceCompute.cc:118-133 | fails with `NonexistentType(typ1, typ2)` iff a type index is `>= ntypes`, and then leaves both matrices unchanged; otherwise each matrix becomes `SetPair` of its old value; `Valid()` is kept, so both matrices stay symmetric |
| `ShiftedLJ.ShiftedLJForceCompute.GetLogValue` | src/computes/ShiftedLJForceCompute.cc:138-156 | succeeds iff the name is among the provided quantities (exactly `["slj_energy"]`), with the energy sum (the sum of `pe`); any other name fails with `InvalidLogQuantity` |
| `ShiftedLJ.ShiftedLJForceCompute.ZeroAccumulators` | src/computes/ShiftedLJForceCompute.cc:199-205 | afterwards every accumulator of every particle is 0 |
| `ShiftedLJ.ShiftedLJForceCompute.EvaluatePair` | src/computes/ShiftedLJForceCompute.cc:239-291 | the displacement and terms it computes are the entry's `PairContribution`: `None` exactly when the pair is outside the cutoff |
| `ShiftedLJ.ShiftedLJForceCompute.AddToNeighbour` | src/computes/ShiftedLJForceCompute.cc:302-309 | particle `k` gets minus the force `d · force/r` and the same energy and virial; no other accumulator changes |
| `ShiftedLJ.ShiftedLJForceCompute.AccumulateRow` | src/computes/ShiftedLJForceCompute.cc:208-321 | one outer-loop iteration takes every accumulator from the state after particles `0 .. i-1` to the state after `0 .. i` |
| `ShiftedLJ.ShiftedLJForceCompute.ComputeForces` | src/computes/ShiftedLJForceCompute.cc:163-335 | every accumulator ends equal to the loop-free reference `Accumulated`; in half storage each force array sums to 0; the energy sum is twice (half storage) or once (full storage) the total over all list entries |
| `ParameterStore.Zeros` | src/computes/ShiftedLJForceCompute.cc:87-89 | the zeroed matrix has `n * n` cells, all 0 |
| `ParameterStore.ZerosSymmetric` | src/computes/ShiftedLJForceCompute.cc:87-89 | the zeroed matrix the store starts from is symmetric |
| `ParameterStore.SetPair` | src/computes/ShiftedLJForceCompute.cc:120-132 | an out-of-range type leaves the matrix unchanged; otherwise cells `(t1, t2)` and `(t2, t1)` hold `v` |
| `ParameterStore.SetPairCells` | src/computes/ShiftedLJForceCompute.cc:126-132 | a write changes only its two mirrored cells; every other cell keeps its value |
| `ParameterStore.SetPairKeepsSymmetry` | src/computes/ShiftedLJForceCompute.cc:109-111 | one write keeps a symmetric matrix symmetric |
| `ParameterStore.WritesKeepSymmetry` | src/computes/ShiftedLJForceCompute.cc:109-111 | any sequence of writes keeps a symmetric matrix symmetric |
| `ParameterStore.UntouchedCellKeeps` | src/computes/ShiftedLJForceCompute.cc:109-111 | a pair never named by any write keeps its initial value, so it stays 0 in a store built from `Zeros` |
| `ParameterStore.LastWriteWins` | src/computes/ShiftedLJForceCompute.cc:126-132 | both cells of a pair hold the value of the last write naming that pair |
| `Periodic.WrapAxis` | src/computes/ShiftedLJForceCompute.cc:255-271 | at most one shift by `L = hi - lo`; `[lo, hi)` is unchanged; `[lo - L, hi + L)` lands in `[lo, hi)`; values farther out stay outside |
| `Periodic.WrapRange` | src/computes/ShiftedLJForceCompute.cc:255-271 | a displacement in the box is unchanged; the result is in the box iff every component was less than one box length outside |
| `Periodic.WrapAxisMirror` | src/computes/ShiftedLJForceCompute.cc:255-271 | in a centred box, wrapping `-d` negates the wrapped `d`, except on the closed lower face |
| `Periodic.WrapMirror` | src/computes/ShiftedLJForceCompute.cc:255-271 | in a centred box, wrapping `-d` gives exactly `-Wrap(d)` when the wrapped `d` is off the lower faces; on an axis where it is on the face `-h`, the mirrored component is `-h` or `h` |
| `Periodic.WrapMirrorDistance` | src/computes/ShiftedLJForceCompute.cc:255-275 | in a centred box, `-d` and `d` give the same wrapped squared distance |
| `PairPotential.Alpha` | src/computes/ShiftedLJForceCompute.cc:214 | `2 · alpha + 1 == diameter`, so a unit diameter has no shift |
| `PairPotential.PairEval` | src/computes/ShiftedLJForceCompute.cc:280-291 | the pair contributes iff `radj < r_cut` (strict); `6 · virial == radj² · force/r`; zero coefficients give zero terms |
| `PairPotential.PairEvalPowerLaw` | src/computes/ShiftedLJForceCompute.cc:283-291 | with `s = radj²`: `force/r · s⁷ = 12 lj1 - 6 lj2 s³` and `energy · s⁶ = (lj1 - lj2 s³) / 2`; the force is zero iff `2 lj1 = lj2 s³` and repulsive iff `2 lj1 > lj2 s³`; the energy is zero iff `lj1 = lj2 s³` |
| `Accumulation.PairContribution` | src/computes/ShiftedLJForceCompute.cc:239-291 | an entry contributes iff its shifted separation is below `r_cut`, and then its displacement is the wrapped `x_i - x_k` |
| `Accumulation.OnSecond` | src/computes/ShiftedLJForceCompute.cc:302-309 | the neighbour receives the negated force components and the same energy and virial as the listing particle |
| `Accumulation.RowReactionTotal` | src/computes/ShiftedLJForceCompute.cc:295-309 | summed over all particles, the third-law updates of one list mirror what the listing particle received |
| `Accumulation.ReactionTotal` | src/computes/ShiftedLJForceCompute.cc:295-309 | the same, over the lists of particles `0 .. i-1` |
| `Accumulation.NewtonThirdLawTotals` | src/computes/ShiftedLJForceCompute.cc:295-320 | half storage: each force component totals 0, and energy and virial total twice the list total; full storage: the totals are the list totals |
| `Accumulation.PassTotals` | src/computes/ShiftedLJForceCompute.cc:295-320 | the same totals for an accumulator array holding a pass's result |
| `Accumulation.FullStorageIsLocal` | src/computes/ShiftedLJForceCompute.cc:295-320 | in full storage, particle `q`'s result depends only on `q`'s own list and its entries |
| `Accumulation.TabulateUnique` | src/computes/ShiftedLJForceCompute.cc:231-291 | proof plumbing for `ComputeForces`: any table that holds every entry's `PairContribution` is `Tabulate(s)`, so the table the pass is proved against is the one the inputs determine |
| `PairSymmetry.ExactCutoff` | src/computes/ShiftedLJForceCompute.cc:275-280 | with a true square root, an entry contributes iff `rsq < (r_cut + diameter_i - 1)²` (nothing contributes when that reach is negative); a pair exactly at the reach does not contribute |
| `PairSymmetry.MirroredSeparation` | src/computes/ShiftedLJForceCompute.cc:244-276 | entries `(i, k)` and `(k, i)` in a centred box: `radj(k, i) == radj(i, k) + diameter_i - diameter_k` |
| `PairSymmetry.MirroredPairAgrees` | src/computes/ShiftedLJForceCompute.cc:247-291 | with equal diameters and symmetric matrices, both entries agree on contributing and on force/r, energy and virial |
| `PairSymmetry.MirroredDisplacement` | src/computes/ShiftedLJForceCompute.cc:244-271 | in a centred box, entry `(k, i)` has the negated displacement of `(i, k)` when that is off the lower faces; on a lower face the mirrored component is `-h` or `h` |
| `PairSymmetry.MirroredEntryMatchesThirdLaw` | src/computes/ShiftedLJForceCompute.cc:239-309 | with equal diameters, symmetric matrices and a displacement off the lower faces, the full list's entry `(k, i)` gives `k` on every channel what the half list's third-law update for `(i, k)` gives it, and both entries contribute or neither does |

## Left out

- The neighbour-list refresh and the storage-mode query (`m_nlist->compute`, `getStorageMode`, `getList`) belong to an external collaborator. The lists and the half/full flag are inputs of `ComputeForces`.
- Particle-data acquire and release, and the CUDA data-location flag, are memory plumbing.
- The profiler, the flop and memory-transfer accounting, and the diagnostic `n_calc` counter report on the pass; they do not change its result.
- The Python export is a binding only.
- `calcEnergySum` belongs to the base class, which is not part of this model. `CalcEnergySum` is defined as the sum of `pe`.
- The base-class allocation of the accumulator arrays is not part of this model. The constructor allocates them with `nparticles` entries.
- Floating point is modelled over `real`, without rounding. The square root is a parameter of the pass: `PairSymmetry.ExactCutoff` assumes it is a true square root, and the other results hold for any function.
- `ComputeForces` requires `radj != 0` for every pair inside the cutoff. The code divides by `radj²` there and would produce an infinite or NaN result (NaN when `lj1 == 0`, from `0 · inf`).
- The constructor cannot fail. `Create` models the `r_cut < 0` rejection (the exception) as a `Failure` result.
- The error paths print a message and throw. Here they are error values.
- The debugging asserts are preconditions: `ntypes > 0` of the constructor and `Create`; `typei < ntypes`, `k < N` and `box.xhi > box.xlo` of the pass.
- Half and full storage are related pair by pair (`MirroredEntryMatchesThirdLaw`), not list by list: relating two whole lists would need a notion of one list being the symmetric closure of the other, which is not modelled.
- The per-pair agreement of half and full storage is proved for a box centred on the origin only. `ComputeForces` accepts any box with `hi > lo`, and in a box that is not centred the two modes can disagree even with equal diameters: in the box `[0, 10)`, with particles at `x = 1` and `x = 0`, entry `(0, 1)` keeps the displacement `1` while the mirrored entry wraps `-1` to `9`, which can lie outside the cutoff.
- `MirroredEntryMatchesThirdLaw` excludes a displacement on the closed lower face `-h` of a centred box. There `-d` can wrap to `-h` as well as `d` (for example `d = h`), and then the full list's entry `(k, i)` gives `k` the force component `-h · force/r` while the third-law update gives it `+h · force/r`: the two modes disagree on that axis. `MirroredDisplacement` states what the mirrored component is there.
