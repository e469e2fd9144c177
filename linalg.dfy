/** Finite sums over integer ranges and dense real matrices and four-index
    tensors, given as functions of their indices. These are the numeric
    primitives (dot, einsum, trace) the orbital layer is written with. */
module Linalg {

  /** A dense matrix, read through its two indices. */
  type Mat = (int, int) -> real

  /** A dense four-index tensor, read through its four indices. */
  type Tensor = (int, int, int, int) -> real

  /** Sum of f(k) for lo <= k < hi (zero on an empty range). */
  function Sum(lo: int, hi: int, f: int -> real): real
    decreases hi - lo
  {
    if hi <= lo then 0.0 else Sum(lo, hi - 1, f) + f(hi - 1)
  }

  lemma {:induction false} SumSplit(lo: int, mid: int, hi: int, f: int -> real)
    requires lo <= mid <= hi
    ensures Sum(lo, hi, f) == Sum(lo, mid, f) + Sum(mid, hi, f)
    decreases hi - mid
  {
    if hi > mid {
      SumSplit(lo, mid, hi - 1, f);
    }
  }

  lemma {:induction false} SumCongruent(lo: int, hi: int, f: int -> real, g: int -> real)
    requires forall k :: lo <= k < hi ==> f(k) == g(k)
    ensures Sum(lo, hi, f) == Sum(lo, hi, g)
    decreases hi - lo
  {
    if hi > lo {
      SumCongruent(lo, hi - 1, f, g);
    }
  }

  lemma {:induction false} SumAdd(lo: int, hi: int, f: int -> real, g: int -> real, h: int -> real)
    requires forall k :: lo <= k < hi ==> h(k) == f(k) + g(k)
    ensures Sum(lo, hi, h) == Sum(lo, hi, f) + Sum(lo, hi, g)
    decreases hi - lo
  {
    if hi > lo {
      SumAdd(lo, hi - 1, f, g, h);
    }
  }

  lemma {:induction false} SumScale(lo: int, hi: int, c: real, f: int -> real, g: int -> real)
    requires forall k :: lo <= k < hi ==> g(k) == c * f(k)
    ensures Sum(lo, hi, g) == c * Sum(lo, hi, f)
    decreases hi - lo
  {
    if hi > lo {
      SumScale(lo, hi - 1, c, f, g);
    }
  }

  lemma {:induction false} SumZero(lo: int, hi: int, f: int -> real)
    requires forall k :: lo <= k < hi ==> f(k) == 0.0
    ensures Sum(lo, hi, f) == 0.0
    decreases hi - lo
  {
    if hi > lo {
      SumZero(lo, hi - 1, f);
    }
  }

  lemma {:induction false} SumConst(lo: int, hi: int, c: real, f: int -> real)
    requires lo <= hi
    requires forall k :: lo <= k < hi ==> f(k) == c
    ensures Sum(lo, hi, f) == c * (hi - lo) as real
    decreases hi - lo
  {
    if hi > lo {
      SumConst(lo, hi - 1, c, f);
    }
  }

  /** Re-indexing a sum by a fixed offset. */
  lemma {:induction false} SumShift(lo: int, hi: int, d: int, f: int -> real, g: int -> real)
    requires forall k :: lo <= k < hi ==> g(k) == f(k + d)
    ensures Sum(lo + d, hi + d, f) == Sum(lo, hi, g)
    decreases hi - lo
  {
    if hi > lo {
      SumShift(lo, hi - 1, d, f, g);
    }
  }

  /** A sum whose terms vanish except at one index is that term. */
  lemma {:induction false} SumSingle(lo: int, hi: int, at: int, f: int -> real)
    requires lo <= at < hi
    requires forall k :: lo <= k < hi && k != at ==> f(k) == 0.0
    ensures Sum(lo, hi, f) == f(at)
  {
    SumSplit(lo, at, hi, f);
    SumZero(lo, at, f);
    SumSplit(at, at + 1, hi, f);
    SumZero(at + 1, hi, f);
    assert Sum(at, at + 1, f) == Sum(at, at, f) + f(at);
  }

  /** Row i and column j of a two-index function, as one-index functions. */
  function Row(f: (int, int) -> real, i: int): int -> real { j => f(i, j) }
  function Col(f: (int, int) -> real, j: int): int -> real { i => f(i, j) }

  /** Row sums and column sums of f over a rectangle. */
  function RowSums(f: (int, int) -> real, m: int): int -> real { i => Sum(0, m, Row(f, i)) }
  function ColSums(f: (int, int) -> real, n: int): int -> real { j => Sum(0, n, Col(f, j)) }

  /** Exchanging the order of a double sum over an n-by-m rectangle. */
  lemma {:induction false} SumSwap(n: int, m: int, f: (int, int) -> real)
    ensures Sum(0, n, RowSums(f, m)) == Sum(0, m, ColSums(f, n))
    decreases n
  {
    if n > 0 {
      SumSwap(n - 1, m, f);
      forall j | 0 <= j < m
        ensures ColSums(f, n)(j) == ColSums(f, n - 1)(j) + Row(f, n - 1)(j)
      {
      }
      SumAdd(0, m, ColSums(f, n - 1), Row(f, n - 1), ColSums(f, n));
    } else {
      SumZero(0, m, ColSums(f, n));
    }
  }

  /** The terms v(a) w(a, d) of column d and u(d) w(a, d) of row a. */
  function WeightedCol(v: int -> real, w: (int, int) -> real, d: int): int -> real { a => v(a) * w(a, d) }
  function WeightedRow(u: int -> real, w: (int, int) -> real, a: int): int -> real { d => u(d) * w(a, d) }

  /** d |-> u(d) sum_a v(a) w(a, d) and a |-> v(a) sum_d u(d) w(a, d). */
  function OuterCols(u: int -> real, v: int -> real, w: (int, int) -> real, n: int): int -> real
  {
    d => u(d) * Sum(0, n, WeightedCol(v, w, d))
  }
  function OuterRows(u: int -> real, v: int -> real, w: (int, int) -> real, m: int): int -> real
  {
    a => v(a) * Sum(0, m, WeightedRow(u, w, a))
  }

  /** The terms v(a) (u(d) w(a, d)) of both weighted double sums. */
  function BothWeighted(u: int -> real, v: int -> real, w: (int, int) -> real): (int, int) -> real
  {
    (a, d) => v(a) * (u(d) * w(a, d))
  }

  /** Exchanging two weighted sums: sum_d u(d) sum_a v(a) w(a, d) equals
      sum_a v(a) sum_d u(d) w(a, d). */
  lemma SumSwapWeighted(n: int, m: int, u: int -> real, v: int -> real, w: (int, int) -> real)
    ensures Sum(0, m, OuterCols(u, v, w, n)) == Sum(0, n, OuterRows(u, v, w, m))
  {
    var f := BothWeighted(u, v, w);
    forall d | 0 <= d < m ensures OuterCols(u, v, w, n)(d) == ColSums(f, n)(d) {
      SumScale(0, n, u(d), WeightedCol(v, w, d), Col(f, d));
    }
    SumCongruent(0, m, OuterCols(u, v, w, n), ColSums(f, n));
    forall a | 0 <= a < n ensures OuterRows(u, v, w, m)(a) == RowSums(f, m)(a) {
      SumScale(0, m, v(a), WeightedRow(u, w, a), Row(f, a));
    }
    SumCongruent(0, n, OuterRows(u, v, w, m), RowSums(f, m));
    SumSwap(n, m, f);
  }

  /** The terms a(i, t) * b(t, j) of entry (i, j) of a matrix product. */
  function DotTerms(a: Mat, b: Mat, i: int, j: int): int -> real { t => a(i, t) * b(t, j) }

  /** Product of an r-by-k and a k-by-c matrix (numpy.dot). */
  function MatMul(a: Mat, b: Mat, k: int): Mat
  {
    (i, j) => Sum(0, k, DotTerms(a, b, i, j))
  }

  function Transpose(a: Mat): (r: Mat)
    ensures forall i, j :: r(i, j) == a(j, i)
  {
    (i, j) => a(j, i)
  }

  /** The diagonal of a matrix and its sum over 0 .. n-1. */
  function Diag(a: Mat): int -> real { i => a(i, i) }

  function Trace(a: Mat, n: int): real
  {
    Sum(0, n, Diag(a))
  }

  /** The orbital basis transform C * D * C^T of a one-body matrix, where C
      has nmo columns (reduce(numpy.dot, (mo, dm, mo.T))). */
  function Congruence(c: Mat, d: Mat, nmo: int): (r: Mat)
  {
    MatMul(MatMul(c, d, nmo), Transpose(c), nmo)
  }

  /** The terms (sum_a c(mu,a) d(a,b)) c(nu,b) of one transformed entry. */
  function EntryTerms(c: Mat, d: Mat, nmo: int, mu: int, nu: int): int -> real
  {
    b => Sum(0, nmo, DotTerms(c, d, mu, b)) * c(nu, b)
  }

  /** The transform of a one-body matrix is an explicit double sum. */
  lemma CongruenceEntry(c: Mat, d: Mat, nmo: int, mu: int, nu: int)
    ensures Congruence(c, d, nmo)(mu, nu) == Sum(0, nmo, EntryTerms(c, d, nmo, mu, nu))
  {
    SumCongruent(0, nmo, DotTerms(MatMul(c, d, nmo), Transpose(c), mu, nu), EntryTerms(c, d, nmo, mu, nu));
  }

  /** The terms c(mu,a) d(a,b) c(nu,b) of one transformed entry. */
  function CongruenceTerms(c: Mat, d: Mat, mu: int, nu: int): (int, int) -> real
  {
    (a, b) => c(mu, a) * d(a, b) * c(nu, b)
  }

  lemma CongruenceAsDoubleSum(c: Mat, d: Mat, nmo: int, mu: int, nu: int)
    ensures Congruence(c, d, nmo)(mu, nu) == Sum(0, nmo, ColSums(CongruenceTerms(c, d, mu, nu), nmo))
  {
    var f := CongruenceTerms(c, d, mu, nu);
    CongruenceEntry(c, d, nmo, mu, nu);
    forall b | 0 <= b < nmo ensures EntryTerms(c, d, nmo, mu, nu)(b) == ColSums(f, nmo)(b) {
      SumScale(0, nmo, c(nu, b), DotTerms(c, d, mu, b), Col(f, b));
    }
    SumCongruent(0, nmo, EntryTerms(c, d, nmo, mu, nu), ColSums(f, nmo));
  }

  /** The basis transform of a symmetric matrix is symmetric. */
  lemma CongruenceSymmetric(c: Mat, d: Mat, n: nat, mu: int, nu: int)
    requires forall a, b :: d(a, b) == d(b, a)
    ensures Congruence(c, d, n)(mu, nu) == Congruence(c, d, n)(nu, mu)
  {
    var f, f' := CongruenceTerms(c, d, mu, nu), CongruenceTerms(c, d, nu, mu);
    CongruenceAsDoubleSum(c, d, n, mu, nu);
    CongruenceAsDoubleSum(c, d, n, nu, mu);
    forall b | 0 <= b < n ensures ColSums(f', n)(b) == RowSums(f, n)(b) {
      SumCongruent(0, n, Col(f', b), Row(f, b));
    }
    SumCongruent(0, n, ColSums(f', n), RowSums(f, n));
    SumSwap(n, n, f);
  }

  /** Every entry of C D C^T as the double sum over a, b of
      C[mu,a] D[a,b] C[nu,b], and its symmetry when D is symmetric. */
  lemma CongruenceFacts(c: Mat, d: Mat, n: nat)
    ensures forall mu, nu :: Congruence(c, d, n)(mu, nu) == Sum(0, n, ColSums(CongruenceTerms(c, d, mu, nu), n))
    ensures (forall a, b :: d(a, b) == d(b, a)) ==>
              forall mu, nu :: Congruence(c, d, n)(mu, nu) == Congruence(c, d, n)(nu, mu)
  {
    forall mu, nu ensures Congruence(c, d, n)(mu, nu) == Sum(0, n, ColSums(CongruenceTerms(c, d, mu, nu), n)) {
      CongruenceAsDoubleSum(c, d, n, mu, nu);
    }
    if forall a, b :: d(a, b) == d(b, a) {
      forall mu, nu ensures Congruence(c, d, n)(mu, nu) == Congruence(c, d, n)(nu, mu) {
        CongruenceSymmetric(c, d, n, mu, nu);
      }
    }
  }

  /** Row j of f strictly left of the diagonal, strictly right of it up to
      column m, and column j strictly above the diagonal. */
  function StrictLower(f: (int, int) -> real): int -> real { j => Sum(0, j, Row(f, j)) }
  function StrictUpper(f: (int, int) -> real, m: int): int -> real { j => Sum(j + 1, m, Row(f, j)) }
  function StrictAbove(f: (int, int) -> real): int -> real { j => Sum(0, j, Col(f, j)) }

  /** The entries above the diagonal of an m-by-m block, summed by rows or
      by columns. */
  lemma {:induction false} TriangleSwap(f: (int, int) -> real, m: int)
    ensures Sum(0, m, StrictUpper(f, m)) == Sum(0, m, StrictAbove(f))
    decreases m
  {
    if m > 0 {
      TriangleSwap(f, m - 1);
      forall j | 0 <= j < m - 1
        ensures StrictUpper(f, m)(j) == StrictUpper(f, m - 1)(j) + Col(f, m - 1)(j)
      {
      }
      SumAdd(0, m - 1, StrictUpper(f, m - 1), Col(f, m - 1), StrictUpper(f, m));
    }
  }
}
