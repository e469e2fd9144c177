/** Embedding of active-space density matrices into the full orbital space
    (_make_rdm1_on_mo, _make_rdm12_on_mo). Orbitals 0 .. ncore-1 are the
    closed-shell core, ncore .. ncore+ncas-1 the active space, the rest
    virtual. The embedders allocate zero arrays and fill them in place. */
module Embed {
  import opened Linalg

  predicate Core(x: int, ncore: nat)
  {
    0 <= x < ncore
  }

  predicate Active(x: int, ncore: nat, ncas: nat)
  {
    ncore <= x < ncore + ncas
  }

  /** Occupation of one core orbital: 2 when spin-summed, 1 per spin. */
  function CoreOcc(docc: bool): real
  {
    if docc then 2.0 else 1.0
  }

  /** The embedded one-body matrix: occupied core diagonal, the active block
      copied from casdm1, zero everywhere else. */
  function Rdm1Entry(casdm1: Mat, ncore: nat, ncas: nat, docc: bool, i: int, j: int): real
  {
    if Active(i, ncore, ncas) && Active(j, ncore, ncas) then casdm1(i - ncore, j - ncore)
    else if i == j && Core(i, ncore) then CoreOcc(docc)
    else 0.0
  }

  function Rdm1OnMo(casdm1: Mat, ncore: nat, ncas: nat, docc: bool): Mat
  {
    (i, j) => Rdm1Entry(casdm1, ncore, ncas, docc, i, j)
  }

  /** Closed-shell core-core part of the embedded two-body tensor: +4 on
      (i,i,j,j) and -2 on (i,j,j,i) for core i, j, restricted to the pairs
      (i, j) for which done(i, j) holds. */
  function CoreCore(ncore: nat, a: int, b: int, c: int, d: int, n: int, m: int): real
  {
    (if a == b && c == d && Core(a, ncore) && Core(c, ncore) && (a < n || (a == n && c < m)) then 4.0 else 0.0)
    + (if a == d && b == c && Core(a, ncore) && Core(b, ncore) && (a < n || (a == n && b < m)) then -2.0 else 0.0)
  }

  /** Core orbital x has been handled by the core loop: it lies in a row
      before n, or in row n once k of the four core-active blocks are set. */
  predicate Before(x: int, n: int, s: nat, k: nat)
  {
    x < n || (x == n && k <= s)
  }

  /** The embedded two-body tensor once the core loop has finished rows
      0 .. n-1 and, in row n, the inner pairs j < m and s of the four
      core-active blocks. At n = ncore it is the whole tensor. */
  function Rdm2Partial(casdm1: Mat, casdm2: Tensor, ncore: nat, ncas: nat, n: int, m: int, s: nat,
                       a: int, b: int, c: int, d: int): real
  {
    var aa, ab, ac, ad := Active(a, ncore, ncas), Active(b, ncore, ncas), Active(c, ncore, ncas), Active(d, ncore, ncas);
    if aa && ab && ac && ad then casdm2(a - ncore, b - ncore, c - ncore, d - ncore)
    else if Core(a, ncore) && Before(a, n, s, 1) && a == b && ac && ad then 2.0 * casdm1(c - ncore, d - ncore)
    else if aa && ab && Core(c, ncore) && Before(c, n, s, 2) && c == d then 2.0 * casdm1(a - ncore, b - ncore)
    else if Core(a, ncore) && Before(a, n, s, 3) && a == d && ab && ac then -casdm1(b - ncore, c - ncore)
    else if aa && Core(b, ncore) && Before(b, n, s, 4) && b == c && ad then -casdm1(a - ncore, d - ncore)
    else CoreCore(ncore, a, b, c, d, n, m)
  }

  /** The core-core entries: +4 on (i,i,j,j) and -2 on (i,j,j,i). */
  function CorePairs(ncore: nat, a: int, b: int, c: int, d: int): real
  {
    (if a == b && c == d && Core(a, ncore) && Core(c, ncore) then 4.0 else 0.0)
    + (if a == d && b == c && Core(a, ncore) && Core(b, ncore) then -2.0 else 0.0)
  }

  /** The embedded two-body tensor: casdm2 on the active block, the
      core-active Coulomb (2 casdm1) and exchange (-casdm1) blocks, +4 on
      (i,i,j,j) and -2 on (i,j,j,i) for core i, j, zero elsewhere. */
  function Rdm2Entry(casdm1: Mat, casdm2: Tensor, ncore: nat, ncas: nat, a: int, b: int, c: int, d: int): real
  {
    var aa, ab, ac, ad := Active(a, ncore, ncas), Active(b, ncore, ncas), Active(c, ncore, ncas), Active(d, ncore, ncas);
    if aa && ab && ac && ad then casdm2(a - ncore, b - ncore, c - ncore, d - ncore)
    else if Core(a, ncore) && a == b && ac && ad then 2.0 * casdm1(c - ncore, d - ncore)
    else if aa && ab && Core(c, ncore) && c == d then 2.0 * casdm1(a - ncore, b - ncore)
    else if Core(a, ncore) && a == d && ab && ac then -casdm1(b - ncore, c - ncore)
    else if aa && Core(b, ncore) && b == c && ad then -casdm1(a - ncore, d - ncore)
    else CorePairs(ncore, a, b, c, d)
  }

  /** Once the core loop has run over every core orbital, the partial tensor
      is the embedded one. */
  lemma FinishedCoreLoop(casdm1: Mat, casdm2: Tensor, ncore: nat, ncas: nat, a: int, b: int, c: int, d: int)
    ensures Rdm2Partial(casdm1, casdm2, ncore, ncas, ncore, 0, 0, a, b, c, d)
         == Rdm2Entry(casdm1, casdm2, ncore, ncas, a, b, c, d)
  {
  }

  function Rdm2OnMo(casdm1: Mat, casdm2: Tensor, ncore: nat, ncas: nat): Tensor
  {
    (a, b, c, d) => Rdm2Entry(casdm1, casdm2, ncore, ncas, a, b, c, d)
  }

  /** _make_rdm1_on_mo: an nmo-by-nmo zero matrix, core diagonal set to the
      core occupation, then the active block overwritten by casdm1. */
  method MakeRdm1OnMo(casdm1: Mat, ncore: nat, ncas: nat, nmo: nat, docc: bool)
    returns (dm1: array2<real>)
    requires ncore + ncas <= nmo
    ensures fresh(dm1) && dm1.Length0 == nmo && dm1.Length1 == nmo
    ensures forall i, j :: 0 <= i < nmo && 0 <= j < nmo ==>
              dm1[i, j] == Rdm1Entry(casdm1, ncore, ncas, docc, i, j)
  {
    var nocc := ncas + ncore;
    dm1 := new real[nmo, nmo]((i, j) => 0.0);
    forall i | 0 <= i < ncore {
      dm1[i, i] := CoreOcc(docc);
    }
    forall i, j | ncore <= i < nocc && ncore <= j < nocc {
      dm1[i, j] := casdm1(i - ncore, j - ncore);
    }
  }

  /** dm2 is an nmo^4 array holding the tensor reached after the core loop
      has done rows 0 .. n-1, inner pairs j < m of row n and s of its
      core-active blocks. */
  ghost predicate FilledUpTo(dm2: array4<real>, casdm1: Mat, casdm2: Tensor, ncore: nat, ncas: nat,
                             nmo: nat, n: int, m: int, s: nat)
    reads dm2
  {
    dm2.Length0 == nmo && dm2.Length1 == nmo && dm2.Length2 == nmo && dm2.Length3 == nmo &&
    forall a, b, c, d :: 0 <= a < nmo && 0 <= b < nmo && 0 <= c < nmo && 0 <= d < nmo ==>
      dm2[a, b, c, d] == Rdm2Partial(casdm1, casdm2, ncore, ncas, n, m, s, a, b, c, d)
  }

  /** An nmo^4 zero tensor whose active block is overwritten by casdm2. */
  method ActiveBlock(casdm1: Mat, casdm2: Tensor, ncore: nat, ncas: nat, nmo: nat) returns (dm2: array4<real>)
    requires ncore + ncas <= nmo
    ensures fresh(dm2) && FilledUpTo(dm2, casdm1, casdm2, ncore, ncas, nmo, 0, 0, 0)
  {
    var nocc := ncas + ncore;
    dm2 := new real[nmo, nmo, nmo, nmo]((a, b, c, d) => 0.0);
    forall a, b, c, d | ncore <= a < nocc && ncore <= b < nocc && ncore <= c < nocc && ncore <= d < nocc {
      dm2[a, b, c, d] := casdm2(a - ncore, b - ncore, c - ncore, d - ncore);
    }
  }

  /** The inner loop body: dm2[i,i,j,j] += 4, then dm2[i,j,j,i] += -2. */
  method AddCorePair(dm2: array4<real>, casdm1: Mat, casdm2: Tensor, ncore: nat, ncas: nat, nmo: nat, i: nat, j: nat)
    requires ncore + ncas <= nmo && i < ncore && j < ncore
    requires FilledUpTo(dm2, casdm1, casdm2, ncore, ncas, nmo, i, j, 0)
    modifies dm2
    ensures FilledUpTo(dm2, casdm1, casdm2, ncore, ncas, nmo, i, j + 1, 0)
  {
    dm2[i, i, j, j] := dm2[i, i, j, j] + 4.0;
    dm2[i, j, j, i] := dm2[i, j, j, i] + -2.0;
  }

  /** dm2[i, i, ncore:nocc, ncore:nocc] = 2 * casdm1 */
  method SetCoreLeft(dm2: array4<real>, casdm1: Mat, casdm2: Tensor, ncore: nat, ncas: nat, nmo: nat, i: nat)
    requires ncore + ncas <= nmo && i < ncore
    requires FilledUpTo(dm2, casdm1, casdm2, ncore, ncas, nmo, i, ncore, 0)
    modifies dm2
    ensures FilledUpTo(dm2, casdm1, casdm2, ncore, ncas, nmo, i, ncore, 1)
  {
    forall p, q | ncore <= p < ncore + ncas && ncore <= q < ncore + ncas {
      dm2[i, i, p, q] := 2.0 * casdm1(p - ncore, q - ncore);
    }
    forall a, b, c, d ensures Rdm2Partial(casdm1, casdm2, ncore, ncas, i, ncore, 1, a, b, c, d)
      == if a == i && b == i && Active(c, ncore, ncas) && Active(d, ncore, ncas) then 2.0 * casdm1(c - ncore, d - ncore)
         else Rdm2Partial(casdm1, casdm2, ncore, ncas, i, ncore, 0, a, b, c, d)
    {
      LeftBlockStage(casdm1, casdm2, ncore, ncas, i, a, b, c, d);
    }
  }

  /** Setting the first core-active block of row i changes exactly the
      entries (i, i, p, q) with p, q active. */
  lemma LeftBlockStage(casdm1: Mat, casdm2: Tensor, ncore: nat, ncas: nat, i: nat, a: int, b: int, c: int, d: int)
    requires i < ncore
    ensures Rdm2Partial(casdm1, casdm2, ncore, ncas, i, ncore, 1, a, b, c, d)
      == if a == i && b == i && Active(c, ncore, ncas) && Active(d, ncore, ncas) then 2.0 * casdm1(c - ncore, d - ncore)
         else Rdm2Partial(casdm1, casdm2, ncore, ncas, i, ncore, 0, a, b, c, d)
  {
  }

  /** dm2[ncore:nocc, ncore:nocc, i, i] = 2 * casdm1 */
  method SetCoreRight(dm2: array4<real>, casdm1: Mat, casdm2: Tensor, ncore: nat, ncas: nat, nmo: nat, i: nat)
    requires ncore + ncas <= nmo && i < ncore
    requires FilledUpTo(dm2, casdm1, casdm2, ncore, ncas, nmo, i, ncore, 1)
    modifies dm2
    ensures FilledUpTo(dm2, casdm1, casdm2, ncore, ncas, nmo, i, ncore, 2)
  {
    forall p, q | ncore <= p < ncore + ncas && ncore <= q < ncore + ncas {
      dm2[p, q, i, i] := 2.0 * casdm1(p - ncore, q - ncore);
    }
    forall a, b, c, d ensures Rdm2Partial(casdm1, casdm2, ncore, ncas, i, ncore, 2, a, b, c, d)
      == if Active(a, ncore, ncas) && Active(b, ncore, ncas) && c == i && d == i then 2.0 * casdm1(a - ncore, b - ncore)
         else Rdm2Partial(casdm1, casdm2, ncore, ncas, i, ncore, 1, a, b, c, d)
    {
      RightBlockStage(casdm1, casdm2, ncore, ncas, i, a, b, c, d);
    }
  }

  /** Setting the second core-active block of row i changes exactly the
      entries (p, q, i, i) with p, q active. */
  lemma RightBlockStage(casdm1: Mat, casdm2: Tensor, ncore: nat, ncas: nat, i: nat, a: int, b: int, c: int, d: int)
    requires i < ncore
    ensures Rdm2Partial(casdm1, casdm2, ncore, ncas, i, ncore, 2, a, b, c, d)
      == if Active(a, ncore, ncas) && Active(b, ncore, ncas) && c == i && d == i then 2.0 * casdm1(a - ncore, b - ncore)
         else Rdm2Partial(casdm1, casdm2, ncore, ncas, i, ncore, 1, a, b, c, d)
  {
  }

  /** dm2[i, ncore:nocc, ncore:nocc, i] = -casdm1 */
  method SetCoreOuter(dm2: array4<real>, casdm1: Mat, casdm2: Tensor, ncore: nat, ncas: nat, nmo: nat, i: nat)
    requires ncore + ncas <= nmo && i < ncore
    requires FilledUpTo(dm2, casdm1, casdm2, ncore, ncas, nmo, i, ncore, 2)
    modifies dm2
    ensures FilledUpTo(dm2, casdm1, casdm2, ncore, ncas, nmo, i, ncore, 3)
  {
    forall p, q | ncore <= p < ncore + ncas && ncore <= q < ncore + ncas {
      dm2[i, p, q, i] := -casdm1(p - ncore, q - ncore);
    }
    forall a, b, c, d ensures Rdm2Partial(casdm1, casdm2, ncore, ncas, i, ncore, 3, a, b, c, d)
      == if a == i && Active(b, ncore, ncas) && Active(c, ncore, ncas) && d == i then -casdm1(b - ncore, c - ncore)
         else Rdm2Partial(casdm1, casdm2, ncore, ncas, i, ncore, 2, a, b, c, d)
    {
      OuterBlockStage(casdm1, casdm2, ncore, ncas, i, a, b, c, d);
    }
  }

  /** Setting the third core-active block of row i changes exactly the
      entries (i, p, q, i) with p, q active. */
  lemma OuterBlockStage(casdm1: Mat, casdm2: Tensor, ncore: nat, ncas: nat, i: nat, a: int, b: int, c: int, d: int)
    requires i < ncore
    ensures Rdm2Partial(casdm1, casdm2, ncore, ncas, i, ncore, 3, a, b, c, d)
      == if a == i && Active(b, ncore, ncas) && Active(c, ncore, ncas) && d == i then -casdm1(b - ncore, c - ncore)
         else Rdm2Partial(casdm1, casdm2, ncore, ncas, i, ncore, 2, a, b, c, d)
  {
  }

  /** dm2[ncore:nocc, i, i, ncore:nocc] = -casdm1 */
  method SetCoreInner(dm2: array4<real>, casdm1: Mat, casdm2: Tensor, ncore: nat, ncas: nat, nmo: nat, i: nat)
    requires ncore + ncas <= nmo && i < ncore
    requires FilledUpTo(dm2, casdm1, casdm2, ncore, ncas, nmo, i, ncore, 3)
    modifies dm2
    ensures FilledUpTo(dm2, casdm1, casdm2, ncore, ncas, nmo, i, ncore, 4)
  {
    forall p, q | ncore <= p < ncore + ncas && ncore <= q < ncore + ncas {
      dm2[p, i, i, q] := -casdm1(p - ncore, q - ncore);
    }
    forall a, b, c, d ensures Rdm2Partial(casdm1, casdm2, ncore, ncas, i, ncore, 4, a, b, c, d)
      == if Active(a, ncore, ncas) && b == i && c == i && Active(d, ncore, ncas) then -casdm1(a - ncore, d - ncore)
         else Rdm2Partial(casdm1, casdm2, ncore, ncas, i, ncore, 3, a, b, c, d)
    {
      InnerBlockStage(casdm1, casdm2, ncore, ncas, i, a, b, c, d);
    }
  }

  /** Setting the last core-active block of row i changes exactly the
      entries (p, i, i, q) with p, q active. */
  lemma InnerBlockStage(casdm1: Mat, casdm2: Tensor, ncore: nat, ncas: nat, i: nat, a: int, b: int, c: int, d: int)
    requires i < ncore
    ensures Rdm2Partial(casdm1, casdm2, ncore, ncas, i, ncore, 4, a, b, c, d)
      == if Active(a, ncore, ncas) && b == i && c == i && Active(d, ncore, ncas) then -casdm1(a - ncore, d - ncore)
         else Rdm2Partial(casdm1, casdm2, ncore, ncas, i, ncore, 3, a, b, c, d)
  {
  }

  /** A row of the core loop that has done all its pairs and all four blocks
      is the start of the next row. */
  lemma NextCoreRow(casdm1: Mat, casdm2: Tensor, ncore: nat, ncas: nat, i: nat, a: int, b: int, c: int, d: int)
    requires i < ncore
    ensures Rdm2Partial(casdm1, casdm2, ncore, ncas, i, ncore, 4, a, b, c, d)
         == Rdm2Partial(casdm1, casdm2, ncore, ncas, i + 1, 0, 0, a, b, c, d)
  {
  }

  /** The rest of the outer loop body: the four core-active blocks of core
      orbital i, assigned from casdm1 (scaled by 2 or by -1). */
  method SetCoreActive(dm2: array4<real>, casdm1: Mat, casdm2: Tensor, ncore: nat, ncas: nat, nmo: nat, i: nat)
    requires ncore + ncas <= nmo && i < ncore
    requires FilledUpTo(dm2, casdm1, casdm2, ncore, ncas, nmo, i, ncore, 0)
    modifies dm2
    ensures FilledUpTo(dm2, casdm1, casdm2, ncore, ncas, nmo, i + 1, 0, 0)
  {
    SetCoreLeft(dm2, casdm1, casdm2, ncore, ncas, nmo, i);
    SetCoreRight(dm2, casdm1, casdm2, ncore, ncas, nmo, i);
    SetCoreOuter(dm2, casdm1, casdm2, ncore, ncas, nmo, i);
    SetCoreInner(dm2, casdm1, casdm2, ncore, ncas, nmo, i);
    forall a, b, c, d ensures Rdm2Partial(casdm1, casdm2, ncore, ncas, i, ncore, 4, a, b, c, d)
                           == Rdm2Partial(casdm1, casdm2, ncore, ncas, i + 1, 0, 0, a, b, c, d) {
      NextCoreRow(casdm1, casdm2, ncore, ncas, i, a, b, c, d);
    }
  }

  /** _make_rdm12_on_mo: the spin-summed one-body matrix as above, and the
      two-body tensor: zeros, the active block from casdm2, then for each
      core i the +4/-2 core pairs (accumulated) and the core-active blocks
      (assigned). */
  method MakeRdm12OnMo(casdm1: Mat, casdm2: Tensor, ncore: nat, ncas: nat, nmo: nat)
    returns (dm1: array2<real>, dm2: array4<real>)
    requires ncore + ncas <= nmo
    ensures fresh(dm1) && dm1.Length0 == nmo && dm1.Length1 == nmo
    ensures forall i, j :: 0 <= i < nmo && 0 <= j < nmo ==>
              dm1[i, j] == Rdm1Entry(casdm1, ncore, ncas, true, i, j)
    ensures fresh(dm2) && dm2.Length0 == nmo && dm2.Length1 == nmo && dm2.Length2 == nmo && dm2.Length3 == nmo
    ensures forall a, b, c, d :: 0 <= a < nmo && 0 <= b < nmo && 0 <= c < nmo && 0 <= d < nmo ==>
              dm2[a, b, c, d] == Rdm2Entry(casdm1, casdm2, ncore, ncas, a, b, c, d)
  {
    dm1 := MakeRdm1OnMo(casdm1, ncore, ncas, nmo, true);
    dm2 := ActiveBlock(casdm1, casdm2, ncore, ncas, nmo);
    var i := 0;
    while i < ncore
      modifies dm2
      invariant 0 <= i <= ncore
      invariant FilledUpTo(dm2, casdm1, casdm2, ncore, ncas, nmo, i, 0, 0)
    {
      AddCoreRow(dm2, casdm1, casdm2, ncore, ncas, nmo, i);
      SetCoreActive(dm2, casdm1, casdm2, ncore, ncas, nmo, i);
      i := i + 1;
    }
    FinishedTensor(dm2, casdm1, casdm2, ncore, ncas, nmo);
  }

  /** The inner loop over j of core row i. */
  method AddCoreRow(dm2: array4<real>, casdm1: Mat, casdm2: Tensor, ncore: nat, ncas: nat, nmo: nat, i: nat)
    requires ncore + ncas <= nmo && i < ncore
    requires FilledUpTo(dm2, casdm1, casdm2, ncore, ncas, nmo, i, 0, 0)
    modifies dm2
    ensures FilledUpTo(dm2, casdm1, casdm2, ncore, ncas, nmo, i, ncore, 0)
  {
    var j := 0;
    while j < ncore
      invariant 0 <= j <= ncore
      invariant FilledUpTo(dm2, casdm1, casdm2, ncore, ncas, nmo, i, j, 0)
    {
      AddCorePair(dm2, casdm1, casdm2, ncore, ncas, nmo, i, j);
      j := j + 1;
    }
  }

  /** After the whole core loop dm2 holds the embedded tensor. */
  lemma FinishedTensor(dm2: array4<real>, casdm1: Mat, casdm2: Tensor, ncore: nat, ncas: nat, nmo: nat)
    requires FilledUpTo(dm2, casdm1, casdm2, ncore, ncas, nmo, ncore, 0, 0)
    ensures forall a, b, c, d :: 0 <= a < nmo && 0 <= b < nmo && 0 <= c < nmo && 0 <= d < nmo ==>
              dm2[a, b, c, d] == Rdm2Entry(casdm1, casdm2, ncore, ncas, a, b, c, d)
  {
    forall a, b, c, d | 0 <= a < nmo && 0 <= b < nmo && 0 <= c < nmo && 0 <= d < nmo
      ensures dm2[a, b, c, d] == Rdm2Entry(casdm1, casdm2, ncore, ncas, a, b, c, d)
    {
      FinishedCoreLoop(casdm1, casdm2, ncore, ncas, a, b, c, d);
    }
  }

  /** Splitting a sum over the orbitals into core, active and virtual parts. */
  lemma SumByBlocks(ncore: nat, ncas: nat, nmo: nat, f: int -> real)
    requires ncore + ncas <= nmo
    ensures Sum(0, nmo, f) == Sum(0, ncore, f) + Sum(ncore, ncore + ncas, f) + Sum(ncore + ncas, nmo, f)
  {
    SumSplit(0, ncore, nmo, f);
    SumSplit(ncore, ncore + ncas, nmo, f);
  }

  /** The embedded one-body matrix carries the core electrons on top of the
      active ones: its trace is 2*ncore + tr(casdm1) spin-summed and
      ncore + tr(casdm1) per spin. */
  lemma Rdm1Trace(casdm1: Mat, ncore: nat, ncas: nat, nmo: nat, docc: bool)
    requires ncore + ncas <= nmo
    ensures Trace(Rdm1OnMo(casdm1, ncore, ncas, docc), nmo)
         == CoreOcc(docc) * ncore as real + Trace(casdm1, ncas)
  {
    var f := Diag(Rdm1OnMo(casdm1, ncore, ncas, docc));
    SumByBlocks(ncore, ncas, nmo, f);
    SumConst(0, ncore, CoreOcc(docc), f);
    SumShift(0, ncas, ncore, f, Diag(casdm1));
    SumZero(ncore + ncas, nmo, f);
  }

  /** The closed-shell entries of the embedded two-body tensor: for core i, j
      and active p, q (p' = p - ncore, q' = q - ncore), independent of the
      active two-body matrix wherever a core index occurs. */
  lemma Rdm2ClosedShell(casdm1: Mat, casdm2: Tensor, ncore: nat, ncas: nat, i: int, j: int, p: int, q: int)
    requires Core(i, ncore) && Core(j, ncore) && Active(p, ncore, ncas) && Active(q, ncore, ncas)
    ensures Rdm2Entry(casdm1, casdm2, ncore, ncas, i, i, j, j) == if i == j then 2.0 else 4.0
    ensures i != j ==> Rdm2Entry(casdm1, casdm2, ncore, ncas, i, j, j, i) == -2.0
    ensures i != j ==> Rdm2Entry(casdm1, casdm2, ncore, ncas, i, j, i, j) == 0.0
    ensures Rdm2Entry(casdm1, casdm2, ncore, ncas, i, i, p, q) == 2.0 * casdm1(p - ncore, q - ncore)
    ensures Rdm2Entry(casdm1, casdm2, ncore, ncas, p, q, i, i) == 2.0 * casdm1(p - ncore, q - ncore)
    ensures Rdm2Entry(casdm1, casdm2, ncore, ncas, i, p, q, i) == -casdm1(p - ncore, q - ncore)
    ensures Rdm2Entry(casdm1, casdm2, ncore, ncas, p, i, i, q) == -casdm1(p - ncore, q - ncore)
    ensures Rdm2Entry(casdm1, casdm2, ncore, ncas, p, q, ncore + ncas, ncore + ncas) == 0.0
  {
  }

  /** Entries of the embedded two-body tensor that touch a virtual orbital
      are zero. */
  lemma Rdm2Virtual(casdm1: Mat, casdm2: Tensor, ncore: nat, ncas: nat, a: int, b: int, c: int, d: int)
    requires a >= ncore + ncas || b >= ncore + ncas || c >= ncore + ncas || d >= ncore + ncas
    ensures Rdm2Entry(casdm1, casdm2, ncore, ncas, a, b, c, d) == 0.0
  {
  }

  /** The embedding keeps the pair symmetry (ab|cd) = (cd|ab) of a two-body
      density matrix whenever casdm2 has it and casdm1 is symmetric. */
  lemma Rdm2PairSymmetric(casdm1: Mat, casdm2: Tensor, ncore: nat, ncas: nat, a: int, b: int, c: int, d: int)
    requires forall p, q, r, s :: casdm2(p, q, r, s) == casdm2(r, s, p, q)
    requires forall p, q :: casdm1(p, q) == casdm1(q, p)
    ensures Rdm2Entry(casdm1, casdm2, ncore, ncas, a, b, c, d) == Rdm2Entry(casdm1, casdm2, ncore, ncas, c, d, a, b)
  {
  }

  /** The terms r |-> t(p, q, r, r) of the contraction of a two-body tensor
      over its last index pair. */
  function PairDiag(t: Tensor, p: int, q: int): int -> real { r => t(p, q, r, r) }

  /** The terms k |-> entry (a, b, k, k) of the contraction over the last
      index pair, and that contraction. */
  function PairTerms(casdm1: Mat, casdm2: Tensor, ncore: nat, ncas: nat, a: int, b: int): int -> real
  {
    k => Rdm2Entry(casdm1, casdm2, ncore, ncas, a, b, k, k)
  }

  function PairTrace(casdm1: Mat, casdm2: Tensor, ncore: nat, ncas: nat, nmo: nat, a: int, b: int): real
  {
    Sum(0, nmo, PairTerms(casdm1, casdm2, ncore, ncas, a, b))
  }

  lemma PairTermsVirtual(casdm1: Mat, casdm2: Tensor, ncore: nat, ncas: nat, nmo: nat, a: int, b: int)
    requires ncore + ncas <= nmo
    ensures Sum(ncore + ncas, nmo, PairTerms(casdm1, casdm2, ncore, ncas, a, b)) == 0.0
  {
    SumZero(ncore + ncas, nmo, PairTerms(casdm1, casdm2, ncore, ncas, a, b));
  }

  lemma PairTermsActiveCore(casdm1: Mat, casdm2: Tensor, ncore: nat, ncas: nat, a: int, b: int)
    requires Active(a, ncore, ncas) && Active(b, ncore, ncas)
    ensures Sum(0, ncore, PairTerms(casdm1, casdm2, ncore, ncas, a, b))
         == 2.0 * ncore as real * casdm1(a - ncore, b - ncore)
  {
    SumConst(0, ncore, 2.0 * casdm1(a - ncore, b - ncore), PairTerms(casdm1, casdm2, ncore, ncas, a, b));
  }

  lemma PairTermsActiveActive(casdm1: Mat, casdm2: Tensor, ncore: nat, ncas: nat, a: int, b: int)
    requires Active(a, ncore, ncas) && Active(b, ncore, ncas)
    ensures Sum(ncore, ncore + ncas, PairTerms(casdm1, casdm2, ncore, ncas, a, b))
         == Sum(0, ncas, PairDiag(casdm2, a - ncore, b - ncore))
  {
    var f := PairTerms(casdm1, casdm2, ncore, ncas, a, b);
    var g := PairDiag(casdm2, a - ncore, b - ncore);
    forall r | 0 <= r < ncas ensures g(r) == f(r + ncore) { }
    SumShift(0, ncas, ncore, f, g);
  }

  lemma PairTraceActive(casdm1: Mat, casdm2: Tensor, ncore: nat, ncas: nat, nmo: nat, a: int, b: int)
    requires ncore + ncas <= nmo
    requires Active(a, ncore, ncas) && Active(b, ncore, ncas)
    ensures PairTrace(casdm1, casdm2, ncore, ncas, nmo, a, b)
         == 2.0 * ncore as real * casdm1(a - ncore, b - ncore)
            + Sum(0, ncas, PairDiag(casdm2, a - ncore, b - ncore))
  {
    SumByBlocks(ncore, ncas, nmo, PairTerms(casdm1, casdm2, ncore, ncas, a, b));
    PairTermsVirtual(casdm1, casdm2, ncore, ncas, nmo, a, b);
    PairTermsActiveCore(casdm1, casdm2, ncore, ncas, a, b);
    PairTermsActiveActive(casdm1, casdm2, ncore, ncas, a, b);
  }

  lemma PairTermsCoreCore(casdm1: Mat, casdm2: Tensor, ncore: nat, ncas: nat, a: int)
    requires Core(a, ncore)
    ensures Sum(0, ncore, PairTerms(casdm1, casdm2, ncore, ncas, a, a)) == 4.0 * ncore as real - 2.0
  {
    var f := PairTerms(casdm1, casdm2, ncore, ncas, a, a);
    var g := k => if k == a then -2.0 else 0.0;
    var h := k => 4.0;
    SumAdd(0, ncore, h, g, f);
    SumConst(0, ncore, 4.0, h);
    SumSingle(0, ncore, a, g);
  }

  lemma PairTermsCoreActive(casdm1: Mat, casdm2: Tensor, ncore: nat, ncas: nat, a: int)
    requires Core(a, ncore)
    ensures Sum(ncore, ncore + ncas, PairTerms(casdm1, casdm2, ncore, ncas, a, a)) == 2.0 * Trace(casdm1, ncas)
  {
    var f := PairTerms(casdm1, casdm2, ncore, ncas, a, a);
    var diag := Diag(casdm1);
    var act := r => 2.0 * casdm1(r, r);
    forall r | 0 <= r < ncas ensures act(r) == f(r + ncore) {
      assert Active(r + ncore, ncore, ncas);
    }
    SumShift(0, ncas, ncore, f, act);
    assert Sum(ncore, ncore + ncas, f) == Sum(0, ncas, act);
    SumScale(0, ncas, 2.0, diag, act);
  }

  lemma PairTraceCore(casdm1: Mat, casdm2: Tensor, ncore: nat, ncas: nat, nmo: nat, a: int)
    requires ncore + ncas <= nmo
    requires Core(a, ncore)
    ensures PairTrace(casdm1, casdm2, ncore, ncas, nmo, a, a)
         == 4.0 * ncore as real - 2.0 + 2.0 * Trace(casdm1, ncas)
  {
    SumByBlocks(ncore, ncas, nmo, PairTerms(casdm1, casdm2, ncore, ncas, a, a));
    PairTermsVirtual(casdm1, casdm2, ncore, ncas, nmo, a, a);
    PairTermsCoreCore(casdm1, casdm2, ncore, ncas, a);
    PairTermsCoreActive(casdm1, casdm2, ncore, ncas, a);
  }

  lemma PairTraceOther(casdm1: Mat, casdm2: Tensor, ncore: nat, ncas: nat, nmo: nat, a: int, b: int)
    requires ncore + ncas <= nmo
    requires !(Active(a, ncore, ncas) && Active(b, ncore, ncas)) && !(a == b && Core(a, ncore))
    ensures PairTrace(casdm1, casdm2, ncore, ncas, nmo, a, b) == 0.0
  {
    SumZero(0, nmo, PairTerms(casdm1, casdm2, ncore, ncas, a, b));
  }

  /** Contracting the last index pair of a two-body density matrix of N
      electrons gives (N - 1) times the one-body matrix. If the active
      matrices satisfy this with na active electrons, the embedded ones
      satisfy it with N = 2*ncore + na: the core is a closed shell that the
      active space sees only through its Coulomb and exchange terms. */
  lemma Rdm2PartialTrace(casdm1: Mat, casdm2: Tensor, ncore: nat, ncas: nat, nmo: nat, na: real, a: int, b: int)
    requires ncore + ncas <= nmo
    requires Trace(casdm1, ncas) == na
    requires forall p, q :: 0 <= p < ncas && 0 <= q < ncas ==>
               Sum(0, ncas, PairDiag(casdm2, p, q)) == (na - 1.0) * casdm1(p, q)
    requires 0 <= a < nmo && 0 <= b < nmo
    ensures PairTrace(casdm1, casdm2, ncore, ncas, nmo, a, b)
         == (2.0 * ncore as real + na - 1.0) * Rdm1Entry(casdm1, ncore, ncas, true, a, b)
  {
    if Active(a, ncore, ncas) && Active(b, ncore, ncas) {
      PairTraceActive(casdm1, casdm2, ncore, ncas, nmo, a, b);
      assert Sum(0, ncas, PairDiag(casdm2, a - ncore, b - ncore)) == (na - 1.0) * casdm1(a - ncore, b - ncore);
    } else if a == b && Core(a, ncore) {
      PairTraceCore(casdm1, casdm2, ncore, ncas, nmo, a);
    } else {
      PairTraceOther(casdm1, casdm2, ncore, ncas, nmo, a, b);
    }
  }
}
