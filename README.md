# Active-space density matrices, CCSD packing kernels and state averaging

This project is a Dafny model of three pieces of PySCF that sit around the
CASSCF active-space layer.

- **Orbital reordering and density embedding** (`future/mcscf/addons.py`).
  - `sort_mo` reorders molecular-orbital columns so the chosen active orbitals sit between the core and the virtual ones.
  - `_make_rdm1_on_mo` and `_make_rdm12_on_mo` embed active-space one- and two-body density matrices into the full orbital space. They fill in the closed-shell core terms.
  - `make_rdm1`, `make_rdm1s` and `make_rdm12` transform those matrices to the atomic-orbital basis.
  - `make_fock` builds the generalized Fock matrix from the core and active Coulomb and exchange integrals.
- **CCSD tensor-packing kernels** (`lib/cc/ccsd_pack.c`). These are loops over flat row-major buffers:
  - `CCmake_0213` computes a·v1 + b·v2 with axes 1 and 2 of v2 swapped;
  - `CCsum021` and `CCmake_021` do the same with the last two axes swapped;
  - `CCprecontract` packs the lower triangle of A + Aᵀ with a scaled diagonal.
- **State averaging with DMRG solvers** (`examples/dmrg/10-state_average.py`). `FakeCISolver` averages two singlet states and one triplet state. `FakeCISolver1` averages three states of different spatial symmetry. Each one forwards the CI-solver entry points to component solvers and combines the results with fixed weights.

Matrices are functions `(int, int) -> real`, four-index tensors are
`(int, int, int, int) -> real`, and sums are finite sums over integer ranges
(module `Linalg`). Doubles are exact reals.

Where the Python code fills arrays in place, the model does too:
- `_make_rdm1_on_mo` and `_make_rdm12_on_mo` are methods over `array2`/`array4`. Each is proved equal to a closed-form embedding function.
- The C kernels are methods over `array<real>`. They are proved against predicates that state every written slot of `out`.

The numpy compositions are functions, and lemmas prove what they compute.
The DMRG component solvers are objects whose behaviour is a record of
functions (`Engine`). Their `orbsym` field is the state the symmetry-averaging
dispatcher writes.

Modules, one per file:
- `Linalg` (`linalg.dfy`);
- `SortMo` (`sort_mo.dfy`);
- `Embed` (`embed.dfy`): `_make_rdm1_on_mo` and `_make_rdm12_on_mo`;
- `AoDensity` (`ao_density.dfy`): `make_rdm1`, `make_rdm1s` and `make_rdm12`;
- `Fock` (`fock.dfy`);
- `CcsdPack` (`ccsd_pack.dfy`);
- `StateAverage` (`state_average.dfy`).

## Model

| member | source | states |
|---|---|---|
| SortMo.Rebase | future/mcscf/addons.py:11-12 | with base != 0 every entry of the active list is one less than given; with base 0 the list is unchanged; the length is kept |
| SortMo.Complement | future/mcscf/addons.py:13 | the indices of range(n) that are not in the active list, exactly those, strictly ascending |
| SortMo.Normalize | future/mcscf/addons.py:14 | a numpy column index in [-ncols, ncols) names column j, or ncols + j when negative |
| SortMo.FirstBad | future/mcscf/addons.py:14 | the first entry of a column list numpy would reject, or the list length exactly when every entry is valid |
| SortMo.SelectColumns | future/mcscf/addons.py:14 | mo[:, order] fails exactly when some index is out of range; otherwise row r, position c holds mo[r][order[c]] |
| SortMo.SortMo | future/mcscf/addons.py:6-14 | the assertion fails exactly when len(caslst) != ncas; the call fails exactly when that assertion fails or some index of the stacked column order is outside numpy's [-ncols, ncols); on success the result picks the columns of the core complement, then caslst (rebased), then the remaining complement |
| SortMo.FrontBack | future/mcscf/addons.py:14 | idx[:ncore] and idx[ncore:] of an ascending list are duplicate-free, disjoint and concatenate back to the list |
| SortMo.ColumnOrderIsPermutation | future/mcscf/addons.py:10-14 | for distinct in-range active indices, the column order is a permutation of range(nmo) with the active list at positions ncore .. ncore+ncas-1 |
| SortMo.SortMoActiveBlock | future/mcscf/addons.py:6-14 | for square mo with distinct in-range caslst, sort_mo succeeds and column ncore+p of the result is column caslst[p] of mo |
| Embed.MakeRdm1OnMo | future/mcscf/addons.py:16-25 | returns a fresh nmo x nmo array: occupation 2 (docc) or 1 on the core diagonal, casdm1 on the active block, 0 elsewhere |
| Embed.ActiveBlock | future/mcscf/addons.py:66-67 | a fresh nmo^4 array that is zero except for casdm2 on the active block |
| Embed.AddCorePair | future/mcscf/addons.py:70-71 | one inner iteration adds 4 at [i,i,j,j] and then -2 at [i,j,j,i], advancing the loop state by one pair |
| Embed.SetCoreLeft | future/mcscf/addons.py:72 | dm2[i,i,active,active] becomes 2*casdm1; every other entry is unchanged |
| Embed.SetCoreRight | future/mcscf/addons.py:72 | dm2[active,active,i,i] becomes 2*casdm1; every other entry is unchanged |
| Embed.SetCoreOuter | future/mcscf/addons.py:73 | dm2[i,active,active,i] becomes -casdm1; every other entry is unchanged |
| Embed.SetCoreInner | future/mcscf/addons.py:73 | dm2[active,i,i,active] becomes -casdm1; every other entry is unchanged |
| Embed.SetCoreActive | future/mcscf/addons.py:72-73 | the four block assignments of core orbital i finish outer iteration i |
| Embed.AddCoreRow | future/mcscf/addons.py:69-71 | the inner loop over j adds the core-pair terms of core orbital i |
| Embed.MakeRdm12OnMo | future/mcscf/addons.py:59-74 | dm1 equals the docc embedding of casdm1, and every dm2 entry equals the closed-form embedded tensor |
| Embed.FinishedCoreLoop | future/mcscf/addons.py:68-73 | after all core rows, the tensor reached by the loop is the closed-form embedding |
| Embed.FinishedTensor | future/mcscf/addons.py:68-74 | an array in the loop's final state holds the closed-form embedded tensor entry by entry |
| Embed.Rdm1Trace | future/mcscf/addons.py:16-25 | trace of the embedded matrix = 2*ncore + tr(casdm1) (docc) or ncore + tr(casdm1) |
| Embed.Rdm2ClosedShell | future/mcscf/addons.py:66-73 | for core i != j: [i,i,j,j] = 4, [i,j,j,i] = -2, [i,j,i,j] = 0; [i,i,i,i] = 2; [i,i,p,q] = [p,q,i,i] = 2 casdm1[p,q]; [i,p,q,i] = [p,i,i,q] = -casdm1[p,q] |
| Embed.Rdm2Virtual | future/mcscf/addons.py:66-73 | every entry with a virtual index is 0 |
| Embed.Rdm2PairSymmetric | future/mcscf/addons.py:66-73 | the embedding keeps the pair symmetry [a,b,c,d] = [c,d,a,b] when casdm2 has it and casdm1 is symmetric |
| Embed.PairTraceActive | future/mcscf/addons.py:66-73 | for active a, b: sum_r dm2[a,b,r,r] = 2 ncore casdm1[a,b] + sum_r casdm2[a,b,r,r] |
| Embed.PairTraceCore | future/mcscf/addons.py:66-73 | for core a: sum_r dm2[a,a,r,r] = 4 ncore - 2 + 2 tr(casdm1) |
| Embed.PairTraceOther | future/mcscf/addons.py:66-73 | for a pair that is neither active-active nor a core diagonal, sum_r dm2[a,b,r,r] = 0 |
| Embed.Rdm2PartialTrace | future/mcscf/addons.py:59-74 | when casdm2 traces to (N-1) casdm1 over an N-electron active space, dm2 traces to (2 ncore + N - 1) dm1 over the whole space |
| AoDensity.MakeRdm1 | future/mcscf/addons.py:28-40 | each entry of mo . D . mo^T is sum_ab mo[mu,a] D[a,b] mo[nu,b], with D the embedded matrix (core occupation 2, casdm1 on the active block); the result is symmetric when casdm1 is |
| AoDensity.MakeRdm1s | future/mcscf/addons.py:43-57 | the alpha and beta results are the same double sums over the embedded matrices with core occupation 1 and casdm1a, casdm1b on the active block; each is symmetric when its active matrix is |
| AoDensity.MakeRdm12 | future/mcscf/addons.py:77-94 | the one-body part is exactly make_rdm1's result, and the two-body part is the four-index transform sum mo[w,a] mo[x,b] mo[y,c] mo[z,d] dm2[c,d,a,b] of the pair-exchanged embedded tensor |
| AoDensity.CongruenceAdd | future/mcscf/addons.py:39 | mo D mo^T is additive in D |
| AoDensity.SpinDensitiesSum | future/mcscf/addons.py:28-57 | make_rdm1s alpha + beta (core occupation 1 each) equals make_rdm1 (occupation 2) when casdm1 = casdm1a + casdm1b |
| AoDensity.SwapC1 | future/mcscf/addons.py:89-91 | exchanging index pairs after contracting the first index is contracting the third after the exchange |
| AoDensity.SwapC4 | future/mcscf/addons.py:90-92 | exchanging index pairs after contracting the last index is contracting the second after the exchange |
| AoDensity.C4C1 | future/mcscf/addons.py:89-93 | contracting the first and the last index with mo commute |
| AoDensity.C4C2 | future/mcscf/addons.py:89-93 | contracting the second and the last index with mo commute |
| AoDensity.C4C3 | future/mcscf/addons.py:89-93 | contracting the third and the last index with mo commute |
| AoDensity.PipelineIsTransform | future/mcscf/addons.py:89-94 | the dot/reshape/transpose(2,3,0,1)/dot pipeline equals the four-index transform sum mo[w,a] mo[x,b] mo[y,c] mo[z,d] T[c,d,a,b] |
| AoDensity.MakeRdm12Transform | future/mcscf/addons.py:77-94 | for pair-symmetric casdm2 and symmetric casdm1, the returned two-body matrix is the four-index transform of the embedded tensor |
| Fock.H1 | future/mcscf/addons.py:116 | each entry of mo^T . hcore . mo is sum_ab mo[a,p] hcore[a,b] mo[b,q]; symmetric when hcore is |
| Fock.Vj | future/mcscf/addons.py:111-112 | the Coulomb potential is symmetric in p, q whenever the jc_pp and aapp blocks are symmetric in their last two indices |
| Fock.Vk | future/mcscf/addons.py:113-114 | the exchange potential is symmetric in p, q whenever kc_pp[i,p,q,i], appa[t,p,q,u] = appa[u,q,p,t] and casdm1 are symmetric |
| Fock.MakeFock | future/mcscf/addons.py:97-118 | h1 + vj - vk/2 is symmetric whenever hcore and the integral blocks have those symmetries |
| Fock.RealErisSymmetric | future/mcscf/addons.py:110-114 | blocks cut from integrals with the real eight-fold symmetry, with a symmetric casdm1, have the symmetries Vj, Vk and MakeFock assume |
| Fock.DensityContraction | future/mcscf/addons.py:111-114 | contracting any matrix with the embedded density gives twice its core diagonal plus its active block weighted by casdm1 |
| Fock.VjFromIntegrals | future/mcscf/addons.py:111-112 | vj[p,q] = sum_rs D[r,s] (rs|pq) for integral blocks cut from one tensor (rs|pq) |
| Fock.VkFromIntegrals | future/mcscf/addons.py:113-114 | vk[p,q] = sum_rs D[r,s] (rp|qs) for integral blocks cut from the same tensor |
| Fock.FockFromIntegrals | future/mcscf/addons.py:97-118 | F[p,q] = h1[p,q] + sum_rs D[r,s] ((rs|pq) - (rp|qs)/2) with h1 = mo^T hcore mo |
| Linalg.CongruenceSymmetric | future/mcscf/addons.py:116 | a congruence C D C^T, such as h1 = mo^T hcore mo, is symmetric when D is |
| Fock.CoulombSymmetric | future/mcscf/addons.py:111-112 | the Coulomb contraction is symmetric in p, q under real 8-fold integral symmetry |
| Fock.ExchangeSymmetric | future/mcscf/addons.py:113-114 | the exchange contraction is symmetric in p, q for a symmetric density |
| Fock.FockSymmetric | future/mcscf/addons.py:97-118 | make_fock returns a symmetric matrix for symmetric hcore, casdm1 and real integrals |
| CcsdPack.Off4Injective | lib/cc/ccsd_pack.c:39-43 | distinct [i,j,k,l] have distinct offsets i m^3 + j m^2 + k m + l, so no slot is written twice |
| CcsdPack.Off3Injective | lib/cc/ccsd_pack.c:65-67 | distinct [i,j,k] have distinct offsets i m^2 + j m + k |
| CcsdPack.Line0213 | lib/cc/ccsd_pack.c:39-44 | the loop over l writes out[i,j,k,l] = a v1[i,j,k,l] + b v2[i,k,j,l] for all l and nothing past them |
| CcsdPack.Plane0213 | lib/cc/ccsd_pack.c:38-45 | the loop over k fills row j of block i |
| CcsdPack.Block0213 | lib/cc/ccsd_pack.c:37-45 | the loop over j fills block i |
| CcsdPack.Make0213 | lib/cc/ccsd_pack.c:25-46 | every out[i,j,k,l] (i < count; j, k, l < m) is a v1[i,j,k,l] + b v2[i,k,j,l]; slots past count m^3 are unchanged |
| CcsdPack.Transpose0213Involution | lib/cc/ccsd_pack.c:22-46 | with a = 0, b = 1 the kernel is transpose(0,2,1,3): applying it twice gives v2 back slot by slot |
| CcsdPack.SlotSum021 | lib/cc/ccsd_pack.c:67 | one inner-loop step writes out[i,j,k] = v1[i,j,k] + v2[i,k,j], leaves every later slot and both inputs' unread parts untouched, and advances the row invariant by one |
| CcsdPack.RowSum021 | lib/cc/ccsd_pack.c:65-68 | one row [i,j] gets out[i,j,k] = v1[i,j,k] + v2[i,k,j] |
| CcsdPack.BlockSum021 | lib/cc/ccsd_pack.c:61-69 | one block of CCsum021 |
| CcsdPack.Sum021 | lib/cc/ccsd_pack.c:52-71 | every out[i,j,k] is v1[i,j,k] + v2[i,k,j]; slots past count m^2 unchanged |
| CcsdPack.Slot021 | lib/cc/ccsd_pack.c:96 | one inner-loop step writes out[i,j,k] = a v1[i,j,k] + b v2[i,k,j], leaves every later slot and both inputs' unread parts untouched, and advances the row invariant by one |
| CcsdPack.Row021 | lib/cc/ccsd_pack.c:94-97 | one row [i,j] gets out[i,j,k] = a v1[i,j,k] + b v2[i,k,j] |
| CcsdPack.Block021 | lib/cc/ccsd_pack.c:90-98 | one block of CCmake_021 |
| CcsdPack.Make021 | lib/cc/ccsd_pack.c:76-100 | every out[i,j,k] is a v1[i,j,k] + b v2[i,k,j], including the a = b = 1 case handed to CCsum021; slots past count m^2 unchanged |
| CcsdPack.UnitMake021IsSum021 | lib/cc/ccsd_pack.c:79-81 | at a = b = 1 the general formula fills the same slots with the same values as CCsum021 |
| CcsdPack.Sum021IsUnitMake021 | lib/cc/ccsd_pack.c:79-81 | and conversely, so the delegation is exact |
| CcsdPack.Transpose021Involution | lib/cc/ccsd_pack.c:73-100 | with a = 0, b = 1 the kernel is transpose(0,2,1): applying it twice gives v2 back |
| CcsdPack.PackedSizeClosed | lib/cc/ccsd_pack.c:114-118 | count blocks of m(m+1)/2 packed slots fill count m(m+1)/2 slots |
| CcsdPack.OffPBound | lib/cc/ccsd_pack.c:118-126 | the running counter of block i stays below the start of block i+1: blocks neither overlap nor leave gaps |
| CcsdPack.OffPBlockOrder | lib/cc/ccsd_pack.c:118-120 | every packed slot of block i precedes every packed slot of a later block i' |
| CcsdPack.OffPRowOrder | lib/cc/ccsd_pack.c:120-126 | within one block, every packed slot of row j precedes every packed slot of a later row j' |
| CcsdPack.OffPInjective | lib/cc/ccsd_pack.c:118-126 | distinct lower-triangle entries have distinct packed offsets |
| CcsdPack.RowPre | lib/cc/ccsd_pack.c:121-125 | row j of block i: in[j,k] + in[k,j] for k < j, then in[j,j] diagfac |
| CcsdPack.BlockPre | lib/cc/ccsd_pack.c:117-127 | block i of CCprecontract, starting at i m(m+1)/2 |
| CcsdPack.Precontract | lib/cc/ccsd_pack.c:107-129 | every packed slot [i, j(j+1)/2 + k] holds in[j,k] + in[k,j] (k < j) or in[j,j] diagfac (k = j); slots past count m(m+1)/2 unchanged |
| CcsdPack.PackedEntries | lib/cc/ccsd_pack.c:102-126 | block i of the output, read as a matrix, is the lower triangle of A + A^T with diagfac A on the diagonal |
| CcsdPack.PackedRow | lib/cc/ccsd_pack.c:102-125 | for symmetric B, row j of the packed triangle against B is row j of A B left of the diagonal, plus column j of A B above it, plus diagfac times the diagonal term |
| CcsdPack.TriangleFold | lib/cc/ccsd_pack.c:102-105 | for symmetric B: sum over k <= j of packed[j,k] B[j,k] = sum_jk A[j,k] B[j,k] + (diagfac - 1) sum_j A[j,j] B[j,j] |
| CcsdPack.TriangleFoldUnit | lib/cc/ccsd_pack.c:102-105 | with diagfac = 1 the packed contraction with a symmetric B is exactly Tr(A B) |
| StateAverage.TripletSector | examples/dmrg/10-state_average.py:68 | (neleca+1, nelecb-1) keeps the electron count and raises 2 S_z by two |
| StateAverage.WeightedRdm1 | examples/dmrg/10-state_average.py:80-85 | fails exactly when fewer than three states are given; otherwise each entry is the w-weighted combination of the three components' one-body matrices |
| StateAverage.WeightedRdm12 | examples/dmrg/10-state_average.py:87-93 | fails exactly when fewer than three states are given; otherwise the same weights combine the one-body and the two-body matrices entry by entry |
| StateAverage.SpinCombine | examples/dmrg/10-state_average.py:69-70 | succeeds exactly when the singlet solver returned two roots and the triplet one; the state list is [r1[0], r1[1], r2] in order |
| StateAverage.SpinCombineAsWritten | examples/dmrg/10-state_average.py:69-70 | the example's own combination: same state list, but only e1[0] is needed |
| StateAverage.SpinEnergyDiscrepancy | examples/dmrg/10-state_average.py:69 | the example's energy exceeds the state-weighted one by w1 (e1[0] - e1[1]); they agree exactly when w1 = 0 or e1[0] = e1[1] |
| StateAverage.SpinEnergyCounterexample | examples/dmrg/10-state_average.py:47-70 | with weights .25/.25/.5 and energies -10, -9, -8 the example reports -9; the state-weighted average is -8.75 |
| StateAverage.SpinAverageSolver.Kernel | examples/dmrg/10-state_average.py:63-70 | solver 1 at nelec, solver 2 at the triplet sector; on success three states are returned |
| StateAverage.SpinAverageSolver.ApproxKernel | examples/dmrg/10-state_average.py:72-78 | the same routing through each component's approx_kernel |
| StateAverage.SpinAverageSolver.MakeRdm1 | examples/dmrg/10-state_average.py:80-85 | states 0 and 1 go to solver 1 at nelec, state 2 to solver 2 at the triplet sector; fails exactly when fewer than three states are given |
| StateAverage.SpinAverageSolver.MakeRdm12 | examples/dmrg/10-state_average.py:87-93 | the same routing for the one- and two-body matrices |
| StateAverage.SymmetryCombine | examples/dmrg/10-state_average.py:127-128 | succeeds exactly when every component returned a root; the states are [r1, r2, r3] in order |
| StateAverage.SymmetryAverageSolver.constructor | examples/dmrg/10-state_average.py:111-119 | the three components must use pairwise different scratch directories |
| StateAverage.SymmetryAverageSolver.Broadcast | examples/dmrg/10-state_average.py:123 | all three components' orbsym become the dispatcher's orbsym, and nothing else changes |
| StateAverage.SymmetryAverageSolver.Kernel | examples/dmrg/10-state_average.py:122-128 | broadcasts orbsym, then every component gets the same nelec and the broadcast labels; the result is their weighted energy and [r1, r2, r3] |
| StateAverage.SymmetryAverageSolver.ApproxKernel | examples/dmrg/10-state_average.py:130-136 | the same through approx_kernel, after the broadcast |
| StateAverage.SymmetryAverageSolver.MakeRdm1 | examples/dmrg/10-state_average.py:138-144 | broadcasts orbsym, then state k goes to component k with the same nelec; weighted one-body matrix |
| StateAverage.SymmetryAverageSolver.MakeRdm12 | examples/dmrg/10-state_average.py:146-153 | broadcasts orbsym, then the same weights combine the one- and two-body matrices |
| StateAverage.SpinAverageSolver.constructor | examples/dmrg/10-state_average.py:56-60 | the two components must use different scratch directories |
| StateAverage.ScratchDirectoriesDistinct | examples/dmrg/10-state_average.py:113-119 | the configured scratch paths are pairwise different |
| StateAverage.ExampleWeightsConvex | examples/dmrg/10-state_average.py:47-110 | both weight lists are non-negative and sum to one |
| StateAverage.MixBounds | examples/dmrg/10-state_average.py:127 | with convex weights the averaged energy lies between the lowest and highest component energy |
| StateAverage.SpinEnergyBounds | examples/dmrg/10-state_average.py:69-70 | the spin-averaged energy lies between the lowest and highest energy of the returned states |
| StateAverage.SymmetryEnergyBounds | examples/dmrg/10-state_average.py:127-128 | the symmetry-averaged energy lies between the lowest and highest component energy |
| StateAverage.WeightedRdm1Trace | examples/dmrg/10-state_average.py:80-85 | if every component's one-body matrix has trace N and the weights sum to one, so does the averaged one: the spin shift keeps the electron count |
| StateAverage.WeightedRdm12First | examples/dmrg/10-state_average.py:80-93 | when each component's make_rdm12 returns its make_rdm1 as first part, the dispatcher's make_rdm12 returns its make_rdm1 |
| StateAverage.EnergyMix | examples/dmrg/10-state_average.py:84-92 | the energy sum h1 D1 + 1/2 sum h2 D2 is linear: the energy of the weighted matrices is the weighted energy |
| StateAverage.CombinedEnergy | examples/dmrg/10-state_average.py:63-92 | when each state's energy is that of its own matrices, the weighted energy is the energy of the weighted matrices |
| StateAverage.SpinKernelEnergy | examples/dmrg/10-state_average.py:63-93 | for components whose root energies match their matrices, kernel's energy is the energy of make_rdm12 on the returned states |
| StateAverage.SpinApproxKernelEnergy | examples/dmrg/10-state_average.py:72-93 | the same for approx_kernel |
| StateAverage.SymmetryKernelEnergy | examples/dmrg/10-state_average.py:122-153 | the same for the symmetry dispatcher, all components evaluated with the broadcast labels |

## Left out

- Foreign code is not modelled. This covers `casscf.fci_mod` (the active-space RDMs), `update_ao2mo` (the integral blocks), `get_hcore`, and the DMRG solvers' internals and scratch-directory I/O. Each becomes an input of the model or a field of an `Engine` record.
- The CASSCF driver scripts are not modelled: molecule set-up, SCF/CASSCF runs and printing.
- `CCpack_tril` and `CCunpack_tril` are thin wrappers over library routines whose source is not part of this model.
- OpenMP: the parallel loops split the outer block loop into disjoint blocks, so they are modelled as sequential loops.
- Doubles are exact reals, so rounding is not modelled.
- `addons.py` uses Python 2's builtin `reduce`. The model reads `reduce(numpy.dot, (a, b, c))` as the product a·b·c.
- Default arguments (`fcivec=None`, `mo=None`, `base=0`, `docc=True`) are not modelled. The model always takes the values explicitly.
- `make_fock` computes `mocc` and never uses it. The model leaves it out.
- SortMo.SortMo: `mo` is rows of reals with an explicit column count. numpy shape errors other than out-of-range column indices are not modelled. `hstack` of the three selections is modelled as one column selection with the concatenated index list.
- CcsdPack.Make0213, CcsdPack.Sum021, CcsdPack.Make021: require `out != v2`. The C code has no such rule, and an aliased call would read slots it has already overwritten.
- CcsdPack.Precontract: requires `out != inp`, for the same reason.
- CcsdPack.Make0213, CcsdPack.Sum021, CcsdPack.Make021, CcsdPack.Precontract: `count` and `m` are natural numbers. The C `int` arithmetic `m*m*m` and `m*(m+1)/2` is done before widening to `size_t` and can overflow; that overflow is not modelled. A negative count or m makes the C loops do nothing and is not modelled either.
- CcsdPack.TriangleFold: the doc-comment trace identity is proved for one block read as a matrix (PackedEntries), not as a single statement over the flat buffer.
- AoDensity.MakeRdm12, AoDensity.MakeRdm12Transform: mo is taken as square (nao = nmo). numpy's `reshape(nmo,nmo,nmo,nmo)` at addons.py:91 raises ValueError when nao differs from nmo, for example after removal of linear dependencies; the model always returns a value and does not model that error.
- Embed.MakeRdm1OnMo, Embed.MakeRdm12OnMo: require `ncore + ncas <= nmo`. When the core and active orbitals do not fit, numpy's index and slice assignments at addons.py:21,24,64,67 raise IndexError or ValueError (apart from edge cases where a one-wide slice broadcasts into an empty one); that error path is not modelled.
- AoDensity.MakeRdm12Transform: the two-body result equals the natural four-index transform only when casdm2 is pair-symmetric and casdm1 symmetric. Without that, PipelineIsTransform states what the pipeline computes.
- StateAverage: results of the component solvers are modelled as root lists (`Roots`). A single-root solver's scalar energy and single state are a one-element list. A missing root or state, which would raise IndexError in Python, is an `Err` result.
- StateAverage.SpinAverageSolver.Kernel: the model returns the state-weighted energy. The example's own formula is SpinCombineAsWritten (see Findings).
- StateAverage.SpinAverageSolver.ApproxKernel: the model returns the state-weighted energy, as for Kernel. approx_kernel's own formula at 10-state_average.py:77 is the same as kernel's and is SpinCombineAsWritten (see Findings).
- StateAverage.SpinAverageSolver.Kernel, StateAverage.SpinAverageSolver.ApproxKernel: read the module-level `weights` and solver objects as fields fixed at construction. The script rebinds those globals between its two parts, and that rebinding is not modelled.
- StateAverage.SpinAverageSolver.constructor, StateAverage.SymmetryAverageSolver.constructor: state the scratch-directory rule as a precondition. What a DMRG run does when directories are shared is not modelled.
- `dmrgsolver1.weights = [.5, .5]` configures the singlet solver's own internal averaging, so it is part of the engine and not modelled.

## Findings

| source | as written | input that shows it | evidently intended | confidence | as-written member | corrected member |
|---|---|---|---|---|---|---|
| examples/dmrg/10-state_average.py:69,77 | `e_avg = e1[0]*(weights[0]+weights[1]) + e2*weights[2]`: the first singlet energy carries the weight of both singlet states, while make_rdm1/make_rdm12 weigh both singlet states separately | weights .25/.25/.5, singlet roots -10 and -9, triplet -8: reports -9 where the state average is -8.75 | `e1[0]*weights[0] + e1[1]*weights[1] + e2*weights[2]`, so the energy is the energy of the averaged density matrices | medium, not executed | StateAverage.SpinCombineAsWritten, StateAverage.SpinEnergyCounterexample, StateAverage.SpinEnergyDiscrepancy | StateAverage.SpinCombine, StateAverage.SpinKernelEnergy |
