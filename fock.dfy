/** The Fock matrix in the molecular-orbital basis (make_fock): the core
    Hamiltonian transformed to the orbitals plus Coulomb and exchange terms
    from the closed-shell core and the active one-body density. The
    integral blocks come from update_ao2mo and the core Hamiltonian from
    get_hcore; both are inputs here. */
module Fock {
  import opened Linalg
  import opened Embed

  /** A three-index array, read through its indices. */
  type Tensor3 = (int, int, int) -> real

  /** The integral blocks make_fock reads: jc_pp[i,p,q] for core i,
      aapp[t,u,p,q] for active t, u, kc_pp[i,p,q,j] for core i, j and
      appa[t,p,q,u] for active t, u (active indices counted from 0). */
  datatype Eris = Eris(jcPP: Tensor3, aapp: Tensor, kcPP: Tensor, appa: Tensor)

  /** One-electron part: mo^T . hcore . mo, summed over the nao AO rows.
      Entry (p, q) is sum_ab mo[a,p] hcore[a,b] mo[b,q], symmetric when
      hcore is. */
  function H1(mo: Mat, hcore: Mat, nao: nat): (r: Mat)
    ensures forall p, q :: r(p, q) == Sum(0, nao, ColSums(CongruenceTerms(Transpose(mo), hcore, p, q), nao))
    ensures (forall a, b :: hcore(a, b) == hcore(b, a)) ==> forall p, q :: r(p, q) == r(q, p)
  {
    CongruenceFacts(Transpose(mo), hcore, nao);
    Congruence(Transpose(mo), hcore, nao)
  }

  function CoreJ(eris: Eris, p: int, q: int): int -> real
  {
    i => eris.jcPP(i, p, q)
  }

  function ActiveJTerms(eris: Eris, casdm1: Mat, p: int, q: int, i: int): int -> real
  {
    j => casdm1(i, j) * eris.aapp(i, j, p, q)
  }

  function ActiveJ(eris: Eris, casdm1: Mat, ncas: nat, p: int, q: int): int -> real
  {
    i => Sum(0, ncas, ActiveJTerms(eris, casdm1, p, q, i))
  }

  function CoreK(eris: Eris, p: int, q: int): int -> real
  {
    i => eris.kcPP(i, p, q, i)
  }

  function ActiveKTerms(eris: Eris, casdm1: Mat, p: int, q: int, i: int): int -> real
  {
    j => casdm1(i, j) * eris.appa(i, p, q, j)
  }

  function ActiveK(eris: Eris, casdm1: Mat, ncas: nat, p: int, q: int): int -> real
  {
    i => Sum(0, ncas, ActiveKTerms(eris, casdm1, p, q, i))
  }

  /** The Coulomb blocks are symmetric in their last two indices. */
  ghost predicate JBlocksSymmetric(eris: Eris, ncore: nat, ncas: nat)
  {
    (forall i, p, q :: 0 <= i < ncore ==> eris.jcPP(i, p, q) == eris.jcPP(i, q, p)) &&
    (forall t, u, p, q :: 0 <= t < ncas && 0 <= u < ncas ==> eris.aapp(t, u, p, q) == eris.aapp(t, u, q, p))
  }

  /** The exchange blocks are symmetric under (p, q) exchange together with
      the matching swap of the density indices, and casdm1 is symmetric. */
  ghost predicate KBlocksSymmetric(eris: Eris, casdm1: Mat, ncore: nat, ncas: nat)
  {
    (forall i, p, q :: 0 <= i < ncore ==> eris.kcPP(i, p, q, i) == eris.kcPP(i, q, p, i)) &&
    (forall t, u, p, q :: 0 <= t < ncas && 0 <= u < ncas ==> eris.appa(t, p, q, u) == eris.appa(u, q, p, t)) &&
    (forall t, u :: 0 <= t < ncas && 0 <= u < ncas ==> casdm1(t, u) == casdm1(u, t))
  }

  /** vj = 2 sum_i jc_pp[i] + sum_ij casdm1[i,j] aapp[i,j]; symmetric
      whenever the Coulomb blocks are. */
  function Vj(eris: Eris, casdm1: Mat, ncore: nat, ncas: nat): (r: Mat)
    ensures JBlocksSymmetric(eris, ncore, ncas) ==> forall p, q :: r(p, q) == r(q, p)
  {
    CoulombParts(eris, casdm1, ncore, ncas);
    (p, q) => 2.0 * Sum(0, ncore, CoreJ(eris, p, q)) + Sum(0, ncas, ActiveJ(eris, casdm1, ncas, p, q))
  }

  /** vk = 2 sum_i kc_pp[i,:,:,i] + sum_ij casdm1[i,j] appa[i,:,:,j];
      symmetric whenever the exchange blocks and casdm1 are. */
  function Vk(eris: Eris, casdm1: Mat, ncore: nat, ncas: nat): (r: Mat)
    ensures KBlocksSymmetric(eris, casdm1, ncore, ncas) ==> forall p, q :: r(p, q) == r(q, p)
  {
    ExchangeParts(eris, casdm1, ncore, ncas);
    (p, q) => 2.0 * Sum(0, ncore, CoreK(eris, p, q)) + Sum(0, ncas, ActiveK(eris, casdm1, ncas, p, q))
  }

  /** make_fock: h1 + vj - vk/2, symmetric when hcore and the integral
      blocks are. */
  function MakeFock(mo: Mat, nao: nat, hcore: Mat, eris: Eris, casdm1: Mat, ncore: nat, ncas: nat): (r: Mat)
    ensures ((forall a, b :: hcore(a, b) == hcore(b, a)) && JBlocksSymmetric(eris, ncore, ncas) &&
             KBlocksSymmetric(eris, casdm1, ncore, ncas)) ==> forall p, q :: r(p, q) == r(q, p)
  {
    var h1, vj, vk := H1(mo, hcore, nao), Vj(eris, casdm1, ncore, ncas), Vk(eris, casdm1, ncore, ncas);
    (p, q) => h1(p, q) + vj(p, q) - 0.5 * vk(p, q)
  }

  /** Both sums of vj are symmetric in (p, q) for symmetric Coulomb blocks. */
  lemma CoulombParts(eris: Eris, casdm1: Mat, ncore: nat, ncas: nat)
    ensures JBlocksSymmetric(eris, ncore, ncas) ==>
              forall p, q :: Sum(0, ncore, CoreJ(eris, p, q)) == Sum(0, ncore, CoreJ(eris, q, p)) &&
                             Sum(0, ncas, ActiveJ(eris, casdm1, ncas, p, q)) == Sum(0, ncas, ActiveJ(eris, casdm1, ncas, q, p))
  {
    if JBlocksSymmetric(eris, ncore, ncas) {
      forall p, q
        ensures Sum(0, ncore, CoreJ(eris, p, q)) == Sum(0, ncore, CoreJ(eris, q, p))
        ensures Sum(0, ncas, ActiveJ(eris, casdm1, ncas, p, q)) == Sum(0, ncas, ActiveJ(eris, casdm1, ncas, q, p))
      {
        SumCongruent(0, ncore, CoreJ(eris, p, q), CoreJ(eris, q, p));
        forall t | 0 <= t < ncas
          ensures ActiveJ(eris, casdm1, ncas, p, q)(t) == ActiveJ(eris, casdm1, ncas, q, p)(t)
        {
          SumCongruent(0, ncas, ActiveJTerms(eris, casdm1, p, q, t), ActiveJTerms(eris, casdm1, q, p, t));
        }
        SumCongruent(0, ncas, ActiveJ(eris, casdm1, ncas, p, q), ActiveJ(eris, casdm1, ncas, q, p));
      }
    }
  }

  /** Both sums of vk are symmetric in (p, q) for symmetric exchange blocks:
      the active sum at (q, p) is the one at (p, q) summed in the other
      order. */
  lemma ExchangeParts(eris: Eris, casdm1: Mat, ncore: nat, ncas: nat)
    ensures KBlocksSymmetric(eris, casdm1, ncore, ncas) ==>
              forall p, q :: Sum(0, ncore, CoreK(eris, p, q)) == Sum(0, ncore, CoreK(eris, q, p)) &&
                             Sum(0, ncas, ActiveK(eris, casdm1, ncas, p, q)) == Sum(0, ncas, ActiveK(eris, casdm1, ncas, q, p))
  {
    if KBlocksSymmetric(eris, casdm1, ncore, ncas) {
      forall p, q
        ensures Sum(0, ncore, CoreK(eris, p, q)) == Sum(0, ncore, CoreK(eris, q, p))
        ensures Sum(0, ncas, ActiveK(eris, casdm1, ncas, p, q)) == Sum(0, ncas, ActiveK(eris, casdm1, ncas, q, p))
      {
        SumCongruent(0, ncore, CoreK(eris, p, q), CoreK(eris, q, p));
        ActiveExchangeSwap(eris, casdm1, ncore, ncas, p, q);
      }
    }
  }

  lemma ActiveExchangeSwap(eris: Eris, casdm1: Mat, ncore: nat, ncas: nat, p: int, q: int)
    requires KBlocksSymmetric(eris, casdm1, ncore, ncas)
    ensures Sum(0, ncas, ActiveK(eris, casdm1, ncas, p, q)) == Sum(0, ncas, ActiveK(eris, casdm1, ncas, q, p))
  {
    var f := (t, u) => casdm1(t, u) * eris.appa(t, p, q, u);
    forall t | 0 <= t < ncas ensures ActiveK(eris, casdm1, ncas, p, q)(t) == RowSums(f, ncas)(t) {
      SumCongruent(0, ncas, ActiveKTerms(eris, casdm1, p, q, t), Row(f, t));
    }
    forall t | 0 <= t < ncas ensures ActiveK(eris, casdm1, ncas, q, p)(t) == ColSums(f, ncas)(t) {
      forall u | 0 <= u < ncas ensures ActiveKTerms(eris, casdm1, q, p, t)(u) == Col(f, t)(u) {
        assert casdm1(t, u) == casdm1(u, t);
        assert eris.appa(t, q, p, u) == eris.appa(u, p, q, t);
      }
      SumCongruent(0, ncas, ActiveKTerms(eris, casdm1, q, p, t), Col(f, t));
    }
    SumCongruent(0, ncas, ActiveK(eris, casdm1, ncas, p, q), RowSums(f, ncas));
    SumCongruent(0, ncas, ActiveK(eris, casdm1, ncas, q, p), ColSums(f, ncas));
    SumSwap(ncas, ncas, f);
  }

  /** The blocks are slices of one MO-basis integral tensor g (chemists'
      order, g(r,s,p,q) = (rs|pq)), as update_ao2mo produces them. */
  ghost predicate ErisFrom(eris: Eris, g: Tensor, ncore: nat, ncas: nat)
  {
    (forall i, p, q :: 0 <= i < ncore ==> eris.jcPP(i, p, q) == g(i, i, p, q)) &&
    (forall i, p, q, j :: 0 <= i < ncore && 0 <= j < ncore ==> eris.kcPP(i, p, q, j) == g(i, p, q, j)) &&
    (forall t, u, p, q :: 0 <= t < ncas && 0 <= u < ncas ==> eris.aapp(t, u, p, q) == g(t + ncore, u + ncore, p, q)) &&
    (forall t, p, q, u :: 0 <= t < ncas && 0 <= u < ncas ==> eris.appa(t, p, q, u) == g(t + ncore, p, q, u + ncore))
  }

  /** Contraction sum_rs D(r,s) G(r,s) over the nmo orbitals. */
  function Terms(d: Mat, g: Mat, r: int): int -> real
  {
    s => d(r, s) * g(r, s)
  }

  function DensityRows(d: Mat, g: Mat, nmo: nat): int -> real
  {
    r => Sum(0, nmo, Terms(d, g, r))
  }

  function Contract(d: Mat, g: Mat, nmo: nat): real
  {
    Sum(0, nmo, DensityRows(d, g, nmo))
  }

  function ActiveTerms(casdm1: Mat, g: Mat, ncore: nat, t: int): int -> real
  {
    u => casdm1(t, u) * g(t + ncore, u + ncore)
  }

  function ActiveRows(casdm1: Mat, g: Mat, ncore: nat, ncas: nat): int -> real
  {
    t => Sum(0, ncas, ActiveTerms(casdm1, g, ncore, t))
  }

  /** One row of the contraction with the embedded density. */
  lemma DensityRow(casdm1: Mat, ncore: nat, ncas: nat, nmo: nat, g: Mat, r: int)
    requires ncore + ncas <= nmo
    ensures var d := Rdm1OnMo(casdm1, ncore, ncas, true);
            Sum(0, nmo, Terms(d, g, r))
            == if Core(r, ncore) then 2.0 * g(r, r)
               else if Active(r, ncore, ncas) then ActiveRows(casdm1, g, ncore, ncas)(r - ncore)
               else 0.0
  {
    if Core(r, ncore) {
      SumSingle(0, nmo, r, Terms(Rdm1OnMo(casdm1, ncore, ncas, true), g, r));
    } else if Active(r, ncore, ncas) {
      ActiveDensityRow(casdm1, ncore, ncas, nmo, g, r);
    } else {
      SumZero(0, nmo, Terms(Rdm1OnMo(casdm1, ncore, ncas, true), g, r));
    }
  }

  lemma ActiveDensityRow(casdm1: Mat, ncore: nat, ncas: nat, nmo: nat, g: Mat, r: int)
    requires ncore + ncas <= nmo
    requires Active(r, ncore, ncas)
    ensures Sum(0, nmo, Terms(Rdm1OnMo(casdm1, ncore, ncas, true), g, r))
         == ActiveRows(casdm1, g, ncore, ncas)(r - ncore)
  {
    SumByBlocks(ncore, ncas, nmo, Terms(Rdm1OnMo(casdm1, ncore, ncas, true), g, r));
    InactiveTerms(casdm1, ncore, ncas, g, r, 0, ncore);
    InactiveTerms(casdm1, ncore, ncas, g, r, ncore + ncas, nmo);
    ActiveTermsShift(casdm1, ncore, ncas, g, r);
  }

  /** In an active row the embedded density vanishes outside the active
      columns. */
  lemma InactiveTerms(casdm1: Mat, ncore: nat, ncas: nat, g: Mat, r: int, lo: int, hi: int)
    requires Active(r, ncore, ncas)
    requires hi <= ncore || ncore + ncas <= lo
    ensures Sum(lo, hi, Terms(Rdm1OnMo(casdm1, ncore, ncas, true), g, r)) == 0.0
  {
    SumZero(lo, hi, Terms(Rdm1OnMo(casdm1, ncore, ncas, true), g, r));
  }

  lemma ActiveTermsShift(casdm1: Mat, ncore: nat, ncas: nat, g: Mat, r: int)
    requires Active(r, ncore, ncas)
    ensures Sum(ncore, ncore + ncas, Terms(Rdm1OnMo(casdm1, ncore, ncas, true), g, r))
         == Sum(0, ncas, ActiveTerms(casdm1, g, ncore, r - ncore))
  {
    var f := Terms(Rdm1OnMo(casdm1, ncore, ncas, true), g, r);
    SumShift(0, ncas, ncore, f, ActiveTerms(casdm1, g, ncore, r - ncore));
    assert Sum(ncore, ncore + ncas, f) == Sum(0 + ncore, ncas + ncore, f);
  }

  lemma CoreRows(casdm1: Mat, ncore: nat, ncas: nat, nmo: nat, g: Mat)
    requires ncore + ncas <= nmo
    ensures Sum(0, ncore, DensityRows(Rdm1OnMo(casdm1, ncore, ncas, true), g, nmo)) == 2.0 * Sum(0, ncore, Diag(g))
  {
    var f := DensityRows(Rdm1OnMo(casdm1, ncore, ncas, true), g, nmo);
    forall r | 0 <= r < ncore ensures f(r) == 2.0 * Diag(g)(r) {
      CoreDensityRow(casdm1, ncore, ncas, nmo, g, r);
    }
    SumScale(0, ncore, 2.0, Diag(g), f);
  }

  lemma CoreDensityRow(casdm1: Mat, ncore: nat, ncas: nat, nmo: nat, g: Mat, r: int)
    requires ncore + ncas <= nmo
    requires Core(r, ncore)
    ensures DensityRows(Rdm1OnMo(casdm1, ncore, ncas, true), g, nmo)(r) == 2.0 * Diag(g)(r)
  {
    SumSingle(0, nmo, r, Terms(Rdm1OnMo(casdm1, ncore, ncas, true), g, r));
  }

  lemma ActiveRowsShift(casdm1: Mat, ncore: nat, ncas: nat, nmo: nat, g: Mat)
    requires ncore + ncas <= nmo
    ensures Sum(ncore, ncore + ncas, DensityRows(Rdm1OnMo(casdm1, ncore, ncas, true), g, nmo))
         == Sum(0, ncas, ActiveRows(casdm1, g, ncore, ncas))
  {
    var f := DensityRows(Rdm1OnMo(casdm1, ncore, ncas, true), g, nmo);
    var act := ActiveRows(casdm1, g, ncore, ncas);
    forall t | 0 <= t < ncas ensures act(t) == f(t + ncore) {
      DensityRow(casdm1, ncore, ncas, nmo, g, t + ncore);
    }
    SumShift(0, ncas, ncore, f, act);
    assert Sum(ncore, ncore + ncas, f) == Sum(0, ncas, act);
  }

  lemma VirtualRows(casdm1: Mat, ncore: nat, ncas: nat, nmo: nat, g: Mat)
    requires ncore + ncas <= nmo
    ensures Sum(ncore + ncas, nmo, DensityRows(Rdm1OnMo(casdm1, ncore, ncas, true), g, nmo)) == 0.0
  {
    var f := DensityRows(Rdm1OnMo(casdm1, ncore, ncas, true), g, nmo);
    forall r | ncore + ncas <= r < nmo ensures f(r) == 0.0 {
      DensityRow(casdm1, ncore, ncas, nmo, g, r);
    }
    SumZero(ncore + ncas, nmo, f);
  }

  /** Contracting any two-index quantity with the embedded density: twice
      its core diagonal plus its active block weighted by casdm1. */
  lemma DensityContraction(casdm1: Mat, ncore: nat, ncas: nat, nmo: nat, g: Mat)
    requires ncore + ncas <= nmo
    ensures Contract(Rdm1OnMo(casdm1, ncore, ncas, true), g, nmo)
         == 2.0 * Sum(0, ncore, Diag(g)) + Sum(0, ncas, ActiveRows(casdm1, g, ncore, ncas))
  {
    SumByBlocks(ncore, ncas, nmo, DensityRows(Rdm1OnMo(casdm1, ncore, ncas, true), g, nmo));
    CoreRows(casdm1, ncore, ncas, nmo, g);
    ActiveRowsShift(casdm1, ncore, ncas, nmo, g);
    VirtualRows(casdm1, ncore, ncas, nmo, g);
  }

  /** The Coulomb and exchange kernels at (p, q) as two-index functions. */
  function J(g: Tensor, p: int, q: int): Mat
  {
    (r, s) => g(r, s, p, q)
  }

  function K(g: Tensor, p: int, q: int): Mat
  {
    (r, s) => g(r, p, q, s)
  }

  lemma VjFromIntegrals(eris: Eris, g: Tensor, casdm1: Mat, ncore: nat, ncas: nat, nmo: nat, p: int, q: int)
    requires ncore + ncas <= nmo
    requires ErisFrom(eris, g, ncore, ncas)
    ensures Vj(eris, casdm1, ncore, ncas)(p, q) == Contract(Rdm1OnMo(casdm1, ncore, ncas, true), J(g, p, q), nmo)
  {
    var G := J(g, p, q);
    DensityContraction(casdm1, ncore, ncas, nmo, G);
    SumCongruent(0, ncore, CoreJ(eris, p, q), Diag(G));
    forall t | 0 <= t < ncas ensures ActiveJ(eris, casdm1, ncas, p, q)(t) == ActiveRows(casdm1, G, ncore, ncas)(t) {
      SumCongruent(0, ncas, ActiveJTerms(eris, casdm1, p, q, t), ActiveTerms(casdm1, G, ncore, t));
    }
    SumCongruent(0, ncas, ActiveJ(eris, casdm1, ncas, p, q), ActiveRows(casdm1, G, ncore, ncas));
  }

  lemma VkFromIntegrals(eris: Eris, g: Tensor, casdm1: Mat, ncore: nat, ncas: nat, nmo: nat, p: int, q: int)
    requires ncore + ncas <= nmo
    requires ErisFrom(eris, g, ncore, ncas)
    ensures Vk(eris, casdm1, ncore, ncas)(p, q) == Contract(Rdm1OnMo(casdm1, ncore, ncas, true), K(g, p, q), nmo)
  {
    var G := K(g, p, q);
    DensityContraction(casdm1, ncore, ncas, nmo, G);
    SumCongruent(0, ncore, CoreK(eris, p, q), Diag(G));
    forall t | 0 <= t < ncas ensures ActiveK(eris, casdm1, ncas, p, q)(t) == ActiveRows(casdm1, G, ncore, ncas)(t) {
      SumCongruent(0, ncas, ActiveKTerms(eris, casdm1, p, q, t), ActiveTerms(casdm1, G, ncore, t));
    }
    SumCongruent(0, ncas, ActiveK(eris, casdm1, ncas, p, q), ActiveRows(casdm1, G, ncore, ncas));
  }

  /** make_fock computes F(p,q) = h(p,q) + sum_rs D(r,s) [(rs|pq) - (rp|qs)/2]
      with D the spin-summed one-body density embedded in the orbitals. */
  lemma FockFromIntegrals(mo: Mat, nao: nat, hcore: Mat, eris: Eris, g: Tensor, casdm1: Mat,
                          ncore: nat, ncas: nat, nmo: nat, p: int, q: int)
    requires ncore + ncas <= nmo
    requires ErisFrom(eris, g, ncore, ncas)
    ensures var d := Rdm1OnMo(casdm1, ncore, ncas, true);
            MakeFock(mo, nao, hcore, eris, casdm1, ncore, ncas)(p, q)
            == H1(mo, hcore, nao)(p, q) + Contract(d, J(g, p, q), nmo) - 0.5 * Contract(d, K(g, p, q), nmo)
  {
    VjFromIntegrals(eris, g, casdm1, ncore, ncas, nmo, p, q);
    VkFromIntegrals(eris, g, casdm1, ncore, ncas, nmo, p, q);
  }

  /** The eight-fold permutational symmetry of real two-electron integrals. */
  ghost predicate RealIntegralSymmetry(g: Tensor)
  {
    (forall a, b, c, d :: g(a, b, c, d) == g(b, a, c, d)) &&
    (forall a, b, c, d :: g(a, b, c, d) == g(a, b, d, c)) &&
    (forall a, b, c, d :: g(a, b, c, d) == g(c, d, a, b))
  }

  /** Blocks cut from real integrals have the symmetries Vj, Vk and
      MakeFock need. */
  lemma RealErisSymmetric(eris: Eris, g: Tensor, casdm1: Mat, ncore: nat, ncas: nat)
    requires ErisFrom(eris, g, ncore, ncas)
    requires RealIntegralSymmetry(g)
    requires forall t, u :: 0 <= t < ncas && 0 <= u < ncas ==> casdm1(t, u) == casdm1(u, t)
    ensures JBlocksSymmetric(eris, ncore, ncas)
    ensures KBlocksSymmetric(eris, casdm1, ncore, ncas)
  {
    forall i, p, q | 0 <= i < ncore ensures eris.kcPP(i, p, q, i) == eris.kcPP(i, q, p, i) {
      calc {
        g(i, p, q, i);
        == g(p, i, i, q);
        == g(i, q, p, i);
      }
    }
    forall t, u, p, q | 0 <= t < ncas && 0 <= u < ncas ensures eris.appa(t, p, q, u) == eris.appa(u, q, p, t) {
      calc {
        g(t + ncore, p, q, u + ncore);
        == g(p, t + ncore, u + ncore, q);
        == g(u + ncore, q, p, t + ncore);
      }
    }
  }

  lemma CoulombSymmetric(d: Mat, g: Tensor, nmo: nat, p: int, q: int)
    requires RealIntegralSymmetry(g)
    ensures Contract(d, J(g, p, q), nmo) == Contract(d, J(g, q, p), nmo)
  {
    forall r | 0 <= r < nmo
      ensures DensityRows(d, J(g, p, q), nmo)(r) == DensityRows(d, J(g, q, p), nmo)(r)
    {
      SumCongruent(0, nmo, Terms(d, J(g, p, q), r), Terms(d, J(g, q, p), r));
    }
    SumCongruent(0, nmo, DensityRows(d, J(g, p, q), nmo), DensityRows(d, J(g, q, p), nmo));
  }

  /** Exchanging the summation order of a density contraction. */
  lemma ContractTransposed(d: Mat, g: Mat, nmo: nat)
    requires forall a, b :: d(a, b) == d(b, a)
    ensures Contract(d, g, nmo) == Contract(d, Transpose(g), nmo)
  {
    var f := (r, s) => d(r, s) * g(r, s);
    forall r | 0 <= r < nmo ensures DensityRows(d, g, nmo)(r) == RowSums(f, nmo)(r) {
      SumCongruent(0, nmo, Terms(d, g, r), Row(f, r));
    }
    SumCongruent(0, nmo, DensityRows(d, g, nmo), RowSums(f, nmo));
    forall s | 0 <= s < nmo ensures DensityRows(d, Transpose(g), nmo)(s) == ColSums(f, nmo)(s) {
      SumCongruent(0, nmo, Terms(d, Transpose(g), s), Col(f, s));
    }
    SumCongruent(0, nmo, DensityRows(d, Transpose(g), nmo), ColSums(f, nmo));
    SumSwap(nmo, nmo, f);
  }

  /** (sp|qr) = (rq|ps) for real integrals: the exchange kernel at (p, q),
      transposed, is the one at (q, p). */
  lemma TransposedExchange(g: Tensor, p: int, q: int)
    requires RealIntegralSymmetry(g)
    ensures forall r, s :: Transpose(K(g, p, q))(r, s) == K(g, q, p)(r, s)
  {
    forall r, s ensures Transpose(K(g, p, q))(r, s) == K(g, q, p)(r, s) {
      calc {
        g(s, p, q, r);
        == g(q, r, s, p);
        == g(r, q, p, s);
      }
    }
  }

  lemma ExchangeSymmetric(d: Mat, g: Tensor, nmo: nat, p: int, q: int)
    requires RealIntegralSymmetry(g)
    requires forall a, b :: d(a, b) == d(b, a)
    ensures Contract(d, K(g, p, q), nmo) == Contract(d, K(g, q, p), nmo)
  {
    ContractTransposed(d, K(g, p, q), nmo);
    TransposedExchange(g, p, q);
    forall r | 0 <= r < nmo
      ensures DensityRows(d, Transpose(K(g, p, q)), nmo)(r) == DensityRows(d, K(g, q, p), nmo)(r)
    {
      SumCongruent(0, nmo, Terms(d, Transpose(K(g, p, q)), r), Terms(d, K(g, q, p), r));
    }
    SumCongruent(0, nmo, DensityRows(d, Transpose(K(g, p, q)), nmo), DensityRows(d, K(g, q, p), nmo));
  }

  /** With a symmetric core Hamiltonian, a symmetric active density and
      integrals with the real eight-fold symmetry, the Fock matrix make_fock
      returns is symmetric. */
  lemma FockSymmetric(mo: Mat, nao: nat, hcore: Mat, eris: Eris, g: Tensor, casdm1: Mat,
                      ncore: nat, ncas: nat, nmo: nat, p: int, q: int)
    requires ncore + ncas <= nmo
    requires ErisFrom(eris, g, ncore, ncas)
    requires RealIntegralSymmetry(g)
    requires forall a, b :: hcore(a, b) == hcore(b, a)
    requires forall a, b :: casdm1(a, b) == casdm1(b, a)
    ensures MakeFock(mo, nao, hcore, eris, casdm1, ncore, ncas)(p, q)
         == MakeFock(mo, nao, hcore, eris, casdm1, ncore, ncas)(q, p)
  {
    var d := Rdm1OnMo(casdm1, ncore, ncas, true);
    FockFromIntegrals(mo, nao, hcore, eris, g, casdm1, ncore, ncas, nmo, p, q);
    FockFromIntegrals(mo, nao, hcore, eris, g, casdm1, ncore, ncas, nmo, q, p);
    CongruenceSymmetric(Transpose(mo), hcore, nao, p, q);
    CoulombSymmetric(d, g, nmo, p, q);
    assert forall a, b :: d(a, b) == d(b, a);
    ExchangeSymmetric(d, g, nmo, p, q);
  }
}
