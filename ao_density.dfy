/** Density matrices in the atomic-orbital basis (make_rdm1, make_rdm1s,
    make_rdm12). The active-space matrices come from the correlation solver
    and are inputs here; mo has nmo columns, and for the two-body transform
    it is square (numpy's reshape to nmo^4 needs that). */
module AoDensity {
  import opened Linalg
  import opened Embed

  /** make_rdm1: mo . D . mo^T with D the spin-summed embedded matrix. Each
      entry is sum_ab mo[mu,a] D[a,b] mo[nu,b], and a symmetric casdm1 gives
      a symmetric result. */
  function MakeRdm1(mo: Mat, nmo: nat, casdm1: Mat, ncore: nat, ncas: nat): (r: Mat)
    ensures forall mu, nu ::
              r(mu, nu) == Sum(0, nmo, ColSums(CongruenceTerms(mo, Rdm1OnMo(casdm1, ncore, ncas, true), mu, nu), nmo))
    ensures ActiveSymmetric(casdm1, ncas) ==> forall mu, nu :: r(mu, nu) == r(nu, mu)
  {
    EmbeddedSymmetric(casdm1, ncore, ncas, true);
    CongruenceFacts(mo, Rdm1OnMo(casdm1, ncore, ncas, true), nmo);
    Congruence(mo, Rdm1OnMo(casdm1, ncore, ncas, true), nmo)
  }

  /** make_rdm1s: the alpha and the beta matrices, each embedded with core
      occupation 1 and transformed like make_rdm1. */
  function MakeRdm1s(mo: Mat, nmo: nat, casdm1a: Mat, casdm1b: Mat, ncore: nat, ncas: nat): (r: (Mat, Mat))
    ensures forall mu, nu ::
              r.0(mu, nu) == Sum(0, nmo, ColSums(CongruenceTerms(mo, Rdm1OnMo(casdm1a, ncore, ncas, false), mu, nu), nmo))
    ensures forall mu, nu ::
              r.1(mu, nu) == Sum(0, nmo, ColSums(CongruenceTerms(mo, Rdm1OnMo(casdm1b, ncore, ncas, false), mu, nu), nmo))
    ensures ActiveSymmetric(casdm1a, ncas) ==> forall mu, nu :: r.0(mu, nu) == r.0(nu, mu)
    ensures ActiveSymmetric(casdm1b, ncas) ==> forall mu, nu :: r.1(mu, nu) == r.1(nu, mu)
  {
    EmbeddedSymmetric(casdm1a, ncore, ncas, false);
    EmbeddedSymmetric(casdm1b, ncore, ncas, false);
    CongruenceFacts(mo, Rdm1OnMo(casdm1a, ncore, ncas, false), nmo);
    CongruenceFacts(mo, Rdm1OnMo(casdm1b, ncore, ncas, false), nmo);
    (Congruence(mo, Rdm1OnMo(casdm1a, ncore, ncas, false), nmo),
     Congruence(mo, Rdm1OnMo(casdm1b, ncore, ncas, false), nmo))
  }

  /** casdm1 is symmetric on the active block. */
  ghost predicate ActiveSymmetric(casdm1: Mat, ncas: nat)
  {
    forall p, q :: 0 <= p < ncas && 0 <= q < ncas ==> casdm1(p, q) == casdm1(q, p)
  }

  /** The embedding keeps a symmetric active matrix symmetric. */
  lemma EmbeddedSymmetric(casdm1: Mat, ncore: nat, ncas: nat, docc: bool)
    ensures ActiveSymmetric(casdm1, ncas) ==>
              forall a, b :: Rdm1OnMo(casdm1, ncore, ncas, docc)(a, b) == Rdm1OnMo(casdm1, ncore, ncas, docc)(b, a)
  {
  }

  /** One entry of C * D is linear in D. */
  lemma DotTermsAdd(c: Mat, d1: Mat, d2: Mat, d: Mat, nmo: nat, mu: int, b: int)
    requires forall a :: 0 <= a < nmo ==> d(a, b) == d1(a, b) + d2(a, b)
    ensures Sum(0, nmo, DotTerms(c, d, mu, b)) == Sum(0, nmo, DotTerms(c, d1, mu, b)) + Sum(0, nmo, DotTerms(c, d2, mu, b))
  {
    forall k | 0 <= k < nmo
      ensures DotTerms(c, d, mu, b)(k) == DotTerms(c, d1, mu, b)(k) + DotTerms(c, d2, mu, b)(k)
    {
      var x, y1, y2 := c(mu, k), d1(k, b), d2(k, b);
      assert x * (y1 + y2) == x * y1 + x * y2;
    }
    SumAdd(0, nmo, DotTerms(c, d1, mu, b), DotTerms(c, d2, mu, b), DotTerms(c, d, mu, b));
  }

  /** The basis transform of a one-body matrix is linear in that matrix. */
  lemma CongruenceAdd(c: Mat, d1: Mat, d2: Mat, d: Mat, nmo: nat, mu: int, nu: int)
    requires forall a, b :: 0 <= a < nmo && 0 <= b < nmo ==> d(a, b) == d1(a, b) + d2(a, b)
    ensures Congruence(c, d, nmo)(mu, nu) == Congruence(c, d1, nmo)(mu, nu) + Congruence(c, d2, nmo)(mu, nu)
  {
    CongruenceEntry(c, d, nmo, mu, nu);
    CongruenceEntry(c, d1, nmo, mu, nu);
    CongruenceEntry(c, d2, nmo, mu, nu);
    var f, f1, f2 := EntryTerms(c, d, nmo, mu, nu), EntryTerms(c, d1, nmo, mu, nu), EntryTerms(c, d2, nmo, mu, nu);
    forall b | 0 <= b < nmo ensures f(b) == f1(b) + f2(b) {
      DotTermsAdd(c, d1, d2, d, nmo, mu, b);
      var s1, s2, w := Sum(0, nmo, DotTerms(c, d1, mu, b)), Sum(0, nmo, DotTerms(c, d2, mu, b)), c(nu, b);
      assert (s1 + s2) * w == s1 * w + s2 * w;
    }
    SumAdd(0, nmo, f1, f2, f);
  }

  /** The alpha and beta densities of make_rdm1s add up to the spin-summed
      density make_rdm1 builds from casdm1a + casdm1b: the two core
      occupations of 1 make the closed-shell 2. */
  lemma SpinDensitiesSum(mo: Mat, nmo: nat, casdm1a: Mat, casdm1b: Mat, casdm1: Mat, ncore: nat, ncas: nat, mu: int, nu: int)
    requires ncore + ncas <= nmo
    requires forall p, q :: 0 <= p < ncas && 0 <= q < ncas ==> casdm1(p, q) == casdm1a(p, q) + casdm1b(p, q)
    ensures MakeRdm1s(mo, nmo, casdm1a, casdm1b, ncore, ncas).0(mu, nu)
          + MakeRdm1s(mo, nmo, casdm1a, casdm1b, ncore, ncas).1(mu, nu)
         == MakeRdm1(mo, nmo, casdm1, ncore, ncas)(mu, nu)
  {
    var da, db := Rdm1OnMo(casdm1a, ncore, ncas, false), Rdm1OnMo(casdm1b, ncore, ncas, false);
    var d := Rdm1OnMo(casdm1, ncore, ncas, true);
    forall a, b | 0 <= a < nmo && 0 <= b < nmo ensures d(a, b) == da(a, b) + db(a, b) {
      if Active(a, ncore, ncas) && Active(b, ncore, ncas) {
        assert d(a, b) == casdm1(a - ncore, b - ncore);
      }
    }
    CongruenceAdd(mo, da, db, d, nmo, mu, nu);
  }

  // The four steps of make_rdm12's transform, each a numpy.dot against mo
  // on one index of the flattened tensor.

  /** The terms c(p, x) t(..., x, ...) of contracting index 1, 2, 3 or 4. */
  function T1(c: Mat, t: Tensor, p: int, b: int, cc: int, d: int): int -> real { x => c(p, x) * t(x, b, cc, d) }
  function T2(c: Mat, t: Tensor, a: int, q: int, cc: int, d: int): int -> real { x => c(q, x) * t(a, x, cc, d) }
  function T3(c: Mat, t: Tensor, a: int, b: int, r: int, d: int): int -> real { x => c(r, x) * t(a, b, x, d) }
  function T4(c: Mat, t: Tensor, a: int, b: int, cc: int, s: int): int -> real { x => c(s, x) * t(a, b, cc, x) }

  /** numpy.dot(mo, t.reshape(nmo, -1)): contract the first index. */
  function C1(c: Mat, t: Tensor, n: nat): Tensor
  {
    (p, b, cc, d) => Sum(0, n, T1(c, t, p, b, cc, d))
  }

  function C2(c: Mat, t: Tensor, n: nat): Tensor
  {
    (a, q, cc, d) => Sum(0, n, T2(c, t, a, q, cc, d))
  }

  function C3(c: Mat, t: Tensor, n: nat): Tensor
  {
    (a, b, r, d) => Sum(0, n, T3(c, t, a, b, r, d))
  }

  /** numpy.dot(t.reshape(-1, nmo), mo.T): contract the last index. */
  function C4(c: Mat, t: Tensor, n: nat): Tensor
  {
    (a, b, cc, s) => Sum(0, n, T4(c, t, a, b, cc, s))
  }

  /** transpose(2, 3, 0, 1): exchange the two index pairs. */
  function SwapPairs(t: Tensor): Tensor
  {
    (a, b, c, d) => t(c, d, a, b)
  }

  /** make_rdm12: the embedded one-body matrix transformed as in make_rdm1,
      and the embedded two-body tensor pushed through dot, dot, transpose,
      dot, dot, which is the four-index transform of the pair-exchanged
      tensor. */
  function MakeRdm12(mo: Mat, nmo: nat, casdm1: Mat, casdm2: Tensor, ncore: nat, ncas: nat): (r: (Mat, Tensor))
    ensures r.0 == MakeRdm1(mo, nmo, casdm1, ncore, ncas)
    ensures Same(r.1, FourIndexTransform(mo, SwapPairs(Rdm2OnMo(casdm1, casdm2, ncore, ncas)), nmo))
  {
    var dm2 := Rdm2OnMo(casdm1, casdm2, ncore, ncas);
    PipelineIsTransform(mo, dm2, nmo);
    (Congruence(mo, Rdm1OnMo(casdm1, ncore, ncas, true), nmo),
     C4(mo, C1(mo, SwapPairs(C4(mo, C1(mo, dm2, nmo), nmo)), nmo), nmo))
  }

  /** The index-by-index basis transform: every index contracted once with
      the orbital coefficients, out[p,q,r,s] = sum C[p,a] C[q,b] C[r,c] C[s,d] t[a,b,c,d]. */
  function FourIndexTransform(c: Mat, t: Tensor, n: nat): Tensor
  {
    C1(c, C2(c, C3(c, C4(c, t, n), n), n), n)
  }

  ghost predicate Same(t: Tensor, u: Tensor)
  {
    forall a, b, c, d :: t(a, b, c, d) == u(a, b, c, d)
  }

  lemma C1Congruent(c: Mat, t: Tensor, u: Tensor, n: nat)
    requires Same(t, u)
    ensures Same(C1(c, t, n), C1(c, u, n))
  {
    forall p, b, cc, d ensures C1(c, t, n)(p, b, cc, d) == C1(c, u, n)(p, b, cc, d) {
      SumCongruent(0, n, T1(c, t, p, b, cc, d), T1(c, u, p, b, cc, d));
    }
  }

  lemma C2Congruent(c: Mat, t: Tensor, u: Tensor, n: nat)
    requires Same(t, u)
    ensures Same(C2(c, t, n), C2(c, u, n))
  {
    forall a, q, cc, d ensures C2(c, t, n)(a, q, cc, d) == C2(c, u, n)(a, q, cc, d) {
      SumCongruent(0, n, T2(c, t, a, q, cc, d), T2(c, u, a, q, cc, d));
    }
  }

  lemma C3Congruent(c: Mat, t: Tensor, u: Tensor, n: nat)
    requires Same(t, u)
    ensures Same(C3(c, t, n), C3(c, u, n))
  {
    forall a, b, r, d ensures C3(c, t, n)(a, b, r, d) == C3(c, u, n)(a, b, r, d) {
      SumCongruent(0, n, T3(c, t, a, b, r, d), T3(c, u, a, b, r, d));
    }
  }

  lemma C4Congruent(c: Mat, t: Tensor, u: Tensor, n: nat)
    requires Same(t, u)
    ensures Same(C4(c, t, n), C4(c, u, n))
  {
    forall a, b, cc, s ensures C4(c, t, n)(a, b, cc, s) == C4(c, u, n)(a, b, cc, s) {
      SumCongruent(0, n, T4(c, t, a, b, cc, s), T4(c, u, a, b, cc, s));
    }
  }

  /** Exchanging the index pairs after contracting index 1 (or 4) is
      contracting index 3 (or 2) after the exchange. */
  lemma SwapC1(c: Mat, t: Tensor, n: nat)
    ensures Same(SwapPairs(C1(c, t, n)), C3(c, SwapPairs(t), n))
  {
    forall a, b, r, d ensures SwapPairs(C1(c, t, n))(a, b, r, d) == C3(c, SwapPairs(t), n)(a, b, r, d) {
      assert forall x :: SwapPairs(t)(a, b, x, d) == t(x, d, a, b);
      SumCongruent(0, n, T1(c, t, r, d, a, b), T3(c, SwapPairs(t), a, b, r, d));
    }
  }

  lemma SwapC4(c: Mat, t: Tensor, n: nat)
    ensures Same(SwapPairs(C4(c, t, n)), C2(c, SwapPairs(t), n))
  {
    forall a, q, cc, d ensures SwapPairs(C4(c, t, n))(a, q, cc, d) == C2(c, SwapPairs(t), n)(a, q, cc, d) {
      assert forall x :: SwapPairs(t)(a, x, cc, d) == t(cc, d, a, x);
      SumCongruent(0, n, T4(c, t, cc, d, a, q), T2(c, SwapPairs(t), a, q, cc, d));
    }
  }

  /** The two-index slices of t that the swaps below run over: the free
      index being contracted first, and the last index. */
  function Slice1(t: Tensor, b: int, cc: int): Mat { (a, d) => t(a, b, cc, d) }
  function Slice2(t: Tensor, a: int, cc: int): Mat { (b, d) => t(a, b, cc, d) }
  function Slice3(t: Tensor, a: int, b: int): Mat { (e, d) => t(a, b, e, d) }

  lemma C4C1Outer(c: Mat, t: Tensor, n: nat, p: int, b: int, cc: int, s: int)
    ensures C4(c, C1(c, t, n), n)(p, b, cc, s) == Sum(0, n, OuterCols(Row(c, s), Row(c, p), Slice1(t, b, cc), n))
  {
    var u, v, w := Row(c, s), Row(c, p), Slice1(t, b, cc);
    forall d | 0 <= d < n ensures T4(c, C1(c, t, n), p, b, cc, s)(d) == OuterCols(u, v, w, n)(d) {
      SumCongruent(0, n, T1(c, t, p, b, cc, d), WeightedCol(v, w, d));
    }
    SumCongruent(0, n, T4(c, C1(c, t, n), p, b, cc, s), OuterCols(u, v, w, n));
  }

  lemma C1C4Outer(c: Mat, t: Tensor, n: nat, p: int, b: int, cc: int, s: int)
    ensures C1(c, C4(c, t, n), n)(p, b, cc, s) == Sum(0, n, OuterRows(Row(c, s), Row(c, p), Slice1(t, b, cc), n))
  {
    var u, v, w := Row(c, s), Row(c, p), Slice1(t, b, cc);
    forall a | 0 <= a < n ensures T1(c, C4(c, t, n), p, b, cc, s)(a) == OuterRows(u, v, w, n)(a) {
      SumCongruent(0, n, T4(c, t, a, b, cc, s), WeightedRow(u, w, a));
    }
    SumCongruent(0, n, T1(c, C4(c, t, n), p, b, cc, s), OuterRows(u, v, w, n));
  }

  lemma C4C2Outer(c: Mat, t: Tensor, n: nat, a: int, q: int, cc: int, s: int)
    ensures C4(c, C2(c, t, n), n)(a, q, cc, s) == Sum(0, n, OuterCols(Row(c, s), Row(c, q), Slice2(t, a, cc), n))
  {
    var u, v, w := Row(c, s), Row(c, q), Slice2(t, a, cc);
    forall d | 0 <= d < n ensures T4(c, C2(c, t, n), a, q, cc, s)(d) == OuterCols(u, v, w, n)(d) {
      SumCongruent(0, n, T2(c, t, a, q, cc, d), WeightedCol(v, w, d));
    }
    SumCongruent(0, n, T4(c, C2(c, t, n), a, q, cc, s), OuterCols(u, v, w, n));
  }

  lemma C2C4Outer(c: Mat, t: Tensor, n: nat, a: int, q: int, cc: int, s: int)
    ensures C2(c, C4(c, t, n), n)(a, q, cc, s) == Sum(0, n, OuterRows(Row(c, s), Row(c, q), Slice2(t, a, cc), n))
  {
    var u, v, w := Row(c, s), Row(c, q), Slice2(t, a, cc);
    forall b | 0 <= b < n ensures T2(c, C4(c, t, n), a, q, cc, s)(b) == OuterRows(u, v, w, n)(b) {
      SumCongruent(0, n, T4(c, t, a, b, cc, s), WeightedRow(u, w, b));
    }
    SumCongruent(0, n, T2(c, C4(c, t, n), a, q, cc, s), OuterRows(u, v, w, n));
  }

  lemma C4C3Outer(c: Mat, t: Tensor, n: nat, a: int, b: int, r: int, s: int)
    ensures C4(c, C3(c, t, n), n)(a, b, r, s) == Sum(0, n, OuterCols(Row(c, s), Row(c, r), Slice3(t, a, b), n))
  {
    var u, v, w := Row(c, s), Row(c, r), Slice3(t, a, b);
    forall d | 0 <= d < n ensures T4(c, C3(c, t, n), a, b, r, s)(d) == OuterCols(u, v, w, n)(d) {
      SumCongruent(0, n, T3(c, t, a, b, r, d), WeightedCol(v, w, d));
    }
    SumCongruent(0, n, T4(c, C3(c, t, n), a, b, r, s), OuterCols(u, v, w, n));
  }

  lemma C3C4Outer(c: Mat, t: Tensor, n: nat, a: int, b: int, r: int, s: int)
    ensures C3(c, C4(c, t, n), n)(a, b, r, s) == Sum(0, n, OuterRows(Row(c, s), Row(c, r), Slice3(t, a, b), n))
  {
    var u, v, w := Row(c, s), Row(c, r), Slice3(t, a, b);
    forall e | 0 <= e < n ensures T3(c, C4(c, t, n), a, b, r, s)(e) == OuterRows(u, v, w, n)(e) {
      SumCongruent(0, n, T4(c, t, a, b, e, s), WeightedRow(u, w, e));
    }
    SumCongruent(0, n, T3(c, C4(c, t, n), a, b, r, s), OuterRows(u, v, w, n));
  }

  /** Contracting the last index commutes with contracting another one:
      both orders give sum_x sum_y c(s, x) c(p, y) t(..y..x). */
  lemma C4C1Entry(c: Mat, t: Tensor, n: nat, p: int, b: int, cc: int, s: int)
    ensures C4(c, C1(c, t, n), n)(p, b, cc, s) == C1(c, C4(c, t, n), n)(p, b, cc, s)
  {
    C4C1Outer(c, t, n, p, b, cc, s);
    C1C4Outer(c, t, n, p, b, cc, s);
    SumSwapWeighted(n, n, Row(c, s), Row(c, p), Slice1(t, b, cc));
  }

  lemma C4C2Entry(c: Mat, t: Tensor, n: nat, a: int, q: int, cc: int, s: int)
    ensures C4(c, C2(c, t, n), n)(a, q, cc, s) == C2(c, C4(c, t, n), n)(a, q, cc, s)
  {
    C4C2Outer(c, t, n, a, q, cc, s);
    C2C4Outer(c, t, n, a, q, cc, s);
    SumSwapWeighted(n, n, Row(c, s), Row(c, q), Slice2(t, a, cc));
  }

  lemma C4C3Entry(c: Mat, t: Tensor, n: nat, a: int, b: int, r: int, s: int)
    ensures C4(c, C3(c, t, n), n)(a, b, r, s) == C3(c, C4(c, t, n), n)(a, b, r, s)
  {
    C4C3Outer(c, t, n, a, b, r, s);
    C3C4Outer(c, t, n, a, b, r, s);
    SumSwapWeighted(n, n, Row(c, s), Row(c, r), Slice3(t, a, b));
  }

  lemma C4C1(c: Mat, t: Tensor, n: nat)
    ensures Same(C4(c, C1(c, t, n), n), C1(c, C4(c, t, n), n))
  {
    forall p, b, cc, s ensures C4(c, C1(c, t, n), n)(p, b, cc, s) == C1(c, C4(c, t, n), n)(p, b, cc, s) {
      C4C1Entry(c, t, n, p, b, cc, s);
    }
  }

  lemma C4C2(c: Mat, t: Tensor, n: nat)
    ensures Same(C4(c, C2(c, t, n), n), C2(c, C4(c, t, n), n))
  {
    forall a, q, cc, s ensures C4(c, C2(c, t, n), n)(a, q, cc, s) == C2(c, C4(c, t, n), n)(a, q, cc, s) {
      C4C2Entry(c, t, n, a, q, cc, s);
    }
  }

  lemma C4C3(c: Mat, t: Tensor, n: nat)
    ensures Same(C4(c, C3(c, t, n), n), C3(c, C4(c, t, n), n))
  {
    forall a, b, r, s ensures C4(c, C3(c, t, n), n)(a, b, r, s) == C3(c, C4(c, t, n), n)(a, b, r, s) {
      C4C3Entry(c, t, n, a, b, r, s);
    }
  }

  /** The numpy pipeline of make_rdm12 (dot, dot, transpose(2,3,0,1), dot,
      dot) equals the index-by-index transform of the pair-exchanged tensor. */
  lemma PipelineIsTransform(c: Mat, t: Tensor, n: nat)
    ensures Same(C4(c, C1(c, SwapPairs(C4(c, C1(c, t, n), n)), n), n),
                 FourIndexTransform(c, SwapPairs(t), n))
  {
    var s := SwapPairs(t);
    SwapC4(c, C1(c, t, n), n);
    SwapC1(c, t, n);
    C2Congruent(c, SwapPairs(C1(c, t, n)), C3(c, s, n), n);
    var inner := C2(c, C3(c, s, n), n);
    C1Congruent(c, SwapPairs(C4(c, C1(c, t, n), n)), inner, n);
    C4Congruent(c, C1(c, SwapPairs(C4(c, C1(c, t, n), n)), n), C1(c, inner, n), n);
    C4C1(c, inner, n);
    C4C2(c, C3(c, s, n), n);
    C4C3(c, s, n);
    C2Congruent(c, C4(c, C3(c, s, n), n), C3(c, C4(c, s, n), n), n);
    C1Congruent(c, C4(c, inner, n), C2(c, C3(c, C4(c, s, n), n), n), n);
  }

  /** Hence, for a pair-symmetric active two-body matrix and a symmetric
      one-body matrix, make_rdm12's two-body result is the four-index basis
      transform of the embedded tensor. */
  lemma MakeRdm12Transform(mo: Mat, nmo: nat, casdm1: Mat, casdm2: Tensor, ncore: nat, ncas: nat)
    requires forall p, q, r, s :: casdm2(p, q, r, s) == casdm2(r, s, p, q)
    requires forall p, q :: casdm1(p, q) == casdm1(q, p)
    ensures Same(MakeRdm12(mo, nmo, casdm1, casdm2, ncore, ncas).1,
                 FourIndexTransform(mo, Rdm2OnMo(casdm1, casdm2, ncore, ncas), nmo))
  {
    var dm2 := Rdm2OnMo(casdm1, casdm2, ncore, ncas);
    forall a, b, c, d ensures SwapPairs(dm2)(a, b, c, d) == dm2(a, b, c, d) {
      Rdm2PairSymmetric(casdm1, casdm2, ncore, ncas, c, d, a, b);
    }
    PipelineIsTransform(mo, dm2, nmo);
    C4Congruent(mo, SwapPairs(dm2), dm2, nmo);
    C3Congruent(mo, C4(mo, SwapPairs(dm2), nmo), C4(mo, dm2, nmo), nmo);
    C2Congruent(mo, C3(mo, C4(mo, SwapPairs(dm2), nmo), nmo), C3(mo, C4(mo, dm2, nmo), nmo), nmo);
    C1Congruent(mo, C2(mo, C3(mo, C4(mo, SwapPairs(dm2), nmo), nmo), nmo),
                C2(mo, C3(mo, C4(mo, dm2, nmo), nmo), nmo), nmo);
  }
}
