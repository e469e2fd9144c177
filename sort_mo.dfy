/** Reordering of molecular-orbital columns so that a chosen active set sits
    right after the core block (sort_mo). The coefficient matrix is a
    sequence of rows, each of ncols entries. */
module SortMo {

  datatype SortError =
    | ActiveSizeMismatch          // the active list does not have ncas entries
    | ColumnOutOfRange(index: int) // a column index numpy rejects

  datatype Result<T> = Ok(value: T) | Err(error: SortError)

  type Rows = seq<seq<real>>

  predicate IsShape(mo: Rows, ncols: nat)
  {
    forall r :: 0 <= r < |mo| ==> |mo[r]| == ncols
  }

  predicate Distinct(s: seq<int>)
  {
    forall i, j :: 0 <= i < j < |s| ==> s[i] != s[j]
  }

  predicate Increasing(s: seq<int>)
  {
    forall i, j :: 0 <= i < j < |s| ==> s[i] < s[j]
  }

  /** The active list after the optional shift from 1-based numbering:
      a non-zero base decrements every entry, base 0 keeps them. */
  function Rebase(caslst: seq<int>, base: int): (r: seq<int>)
    ensures |r| == |caslst|
    ensures base == 0 ==> r == caslst
    ensures base != 0 ==> forall p :: 0 <= p < |r| ==> r[p] + 1 == caslst[p]
  {
    if base != 0 then seq(|caslst|, p requires 0 <= p < |caslst| => caslst[p] - 1) else caslst
  }

  /** The indices of range(n) that are not in cas, in ascending order. */
  function Complement(n: int, cas: seq<int>): (r: seq<int>)
    ensures forall x :: x in r <==> 0 <= x < n && x !in cas
    ensures forall i :: 0 <= i < |r| ==> r[i] < n
    ensures Increasing(r)
    decreases n
  {
    if n <= 0 then []
    else Complement(n - 1, cas) + (if n - 1 in cas then [] else [n - 1])
  }

  /** Python's idx[:k] and idx[k:]: a slice past the end stops at the end. */
  function Front(idx: seq<int>, k: nat): seq<int>
  {
    if k <= |idx| then idx[..k] else idx
  }

  function Back(idx: seq<int>, k: nat): seq<int>
  {
    if k <= |idx| then idx[k..] else []
  }

  /** The column order sort_mo stacks: the first ncore non-active indices,
      then the active list as given, then the remaining non-active ones. */
  function ColumnOrder(nmo: int, ncore: nat, cas: seq<int>): seq<int>
  {
    var idx := Complement(nmo, cas);
    Front(idx, ncore) + cas + Back(idx, ncore)
  }

  /** numpy accepts a column index j when -ncols <= j < ncols; a negative one
      counts from the end. */
  predicate ValidColumn(j: int, ncols: nat)
  {
    -(ncols as int) <= j < ncols
  }

  function Normalize(j: int, ncols: nat): (c: nat)
    requires ValidColumn(j, ncols)
    ensures c < ncols
    ensures j >= 0 ==> c == j
    ensures j < 0 ==> c == j + ncols
  {
    if j < 0 then j + ncols else j
  }

  /** The first index of order numpy rejects, if any. */
  function FirstBad(order: seq<int>, ncols: nat): (r: int)
    ensures r == |order| <==> forall c :: 0 <= c < |order| ==> ValidColumn(order[c], ncols)
    ensures r < |order| ==> 0 <= r && !ValidColumn(order[r], ncols)
    ensures 0 <= r <= |order|
    ensures forall c :: 0 <= c < r ==> ValidColumn(order[c], ncols)
  {
    if |order| == 0 then 0
    else if !ValidColumn(order[0], ncols) then 0
    else 1 + FirstBad(order[1..], ncols)
  }

  /** out holds, row by row, the columns of mo that order names (negative
      entries counting from the end). */
  predicate Picks(out: Rows, mo: Rows, ncols: nat, order: seq<int>)
    requires IsShape(mo, ncols)
  {
    |out| == |mo| && IsShape(out, |order|) &&
    forall row, c :: 0 <= row < |mo| && 0 <= c < |order| ==>
      ValidColumn(order[c], ncols) && out[row][c] == mo[row][Normalize(order[c], ncols)]
  }

  /** mo[:, order] */
  function SelectColumns(mo: Rows, ncols: nat, order: seq<int>): (r: Result<Rows>)
    requires IsShape(mo, ncols)
    ensures r.Err? <==> exists c :: 0 <= c < |order| && !ValidColumn(order[c], ncols)
    ensures r.Ok? ==> Picks(r.value, mo, ncols, order)
  {
    var bad := FirstBad(order, ncols);
    if bad < |order| then Err(ColumnOutOfRange(order[bad]))
    else Ok(seq(|mo|, row requires 0 <= row < |mo| =>
              seq(|order|, c requires 0 <= c < |order| => mo[row][Normalize(order[c], ncols)])))
  }

  /** sort_mo: the rows of mo are the nmo orbitals over which the complement
      is taken; ncas and ncore come from the CASSCF object. */
  function SortMo(ncas: nat, ncore: nat, mo: Rows, ncols: nat, caslst: seq<int>, base: int): (r: Result<Rows>)
    requires IsShape(mo, ncols)
    ensures r == Err(ActiveSizeMismatch) <==> |caslst| != ncas
    ensures r.Err? <==> |caslst| != ncas ||
                        exists c :: 0 <= c < |ColumnOrder(|mo|, ncore, Rebase(caslst, base))| &&
                                    !ValidColumn(ColumnOrder(|mo|, ncore, Rebase(caslst, base))[c], ncols)
    ensures r.Ok? ==> Picks(r.value, mo, ncols, ColumnOrder(|mo|, ncore, Rebase(caslst, base)))
  {
    if |caslst| != ncas then Err(ActiveSizeMismatch)
    else SelectColumns(mo, ncols, ColumnOrder(|mo|, ncore, Rebase(caslst, base)))
  }

  lemma {:induction false} DistinctCard(s: seq<int>)
    requires Distinct(s)
    ensures |set x | x in s| == |s|
  {
    if s != [] {
      DistinctCard(s[1..]);
      assert (set x | x in s) == {s[0]} + (set x | x in s[1..]);
      assert s[0] !in (set x | x in s[1..]);
    }
  }

  /** The orbital indices 0 .. n-1 in order. */
  function Iota(n: nat): (r: seq<int>)
    ensures |r| == n && forall i :: 0 <= i < n ==> r[i] == i
  {
    seq(n, i => i)
  }

  /** Joining two duplicate-free lists with no common element gives a
      duplicate-free list. */
  lemma DistinctConcat(x: seq<int>, y: seq<int>)
    requires Distinct(x) && Distinct(y)
    requires forall v :: v in x ==> v !in y
    ensures Distinct(x + y)
  {
    forall i, j | 0 <= i < j < |x + y| ensures (x + y)[i] != (x + y)[j] {
      if i < |x| && j >= |x| {
        assert (x + y)[i] in x && (x + y)[j] == y[j - |x|];
      }
    }
  }

  /** Two duplicate-free lists with the same members have the same length. */
  lemma SameMembersSameLength(s: seq<int>, t: seq<int>)
    requires Distinct(s) && Distinct(t)
    requires forall x :: x in s <==> x in t
    ensures |s| == |t|
  {
    assert (set x | x in s) == (set x | x in t);
    DistinctCard(s);
    DistinctCard(t);
  }

  /** The two halves of an ascending list are duplicate-free, share no
      element, and together hold exactly its elements. */
  lemma FrontBack(idx: seq<int>, k: nat)
    requires Increasing(idx)
    ensures Front(idx, k) + Back(idx, k) == idx
    ensures Distinct(Front(idx, k)) && Distinct(Back(idx, k))
    ensures forall v :: v in Front(idx, k) ==> v !in Back(idx, k)
  {
    var f, b := Front(idx, k), Back(idx, k);
    assert f + b == idx;
    forall v | v in f ensures v !in b {
      var i :| 0 <= i < |f| && f[i] == v;
      forall j | 0 <= j < |b| ensures b[j] != v {
        assert f[i] == idx[i] && b[j] == idx[|f| + j];
      }
    }
  }

  /** The stacked order holds exactly the orbitals 0 .. nmo-1 when the
      active list lies inside that range. */
  lemma OrderMembers(nmo: nat, ncore: nat, cas: seq<int>)
    requires forall p :: 0 <= p < |cas| ==> 0 <= cas[p] < nmo
    ensures forall x :: x in ColumnOrder(nmo, ncore, cas) <==> x in Iota(nmo)
  {
    var idx := Complement(nmo, cas);
    var order := ColumnOrder(nmo, ncore, cas);
    FrontBack(idx, ncore);
    assert order == Front(idx, ncore) + cas + Back(idx, ncore);
    forall x ensures x in order <==> x in Iota(nmo) {
      assert x in order <==> x in idx || x in cas;
      if 0 <= x < nmo { assert Iota(nmo)[x] == x; }
    }
  }

  /** With a duplicate-free active list inside range(nmo), the stacked order
      lists every orbital exactly once: the result is a column permutation,
      and the active columns land at positions ncore .. ncore+ncas-1. */
  lemma ColumnOrderIsPermutation(nmo: nat, ncore: nat, cas: seq<int>)
    requires Distinct(cas)
    requires forall p :: 0 <= p < |cas| ==> 0 <= cas[p] < nmo
    requires ncore + |cas| <= nmo
    ensures var order := ColumnOrder(nmo, ncore, cas);
            |order| == nmo && Distinct(order) &&
            (forall x :: x in order <==> 0 <= x < nmo) &&
            order[ncore..ncore + |cas|] == cas
  {
    var idx := Complement(nmo, cas);
    var order := ColumnOrder(nmo, ncore, cas);
    var f, b := Front(idx, ncore), Back(idx, ncore);
    FrontBack(idx, ncore);
    DistinctConcat(f, cas);
    assert forall v :: v in f + cas ==> v !in b by {
      forall v | v in f + cas ensures v !in b {
        assert v in f || v in cas;
        assert v in cas ==> v !in idx;
      }
    }
    DistinctConcat(f + cas, b);
    assert order == f + cas + b;
    OrderMembers(nmo, ncore, cas);
    SameMembersSameLength(order, Iota(nmo));
    assert order[..|f|] == f;
  }

  /** Slicing the active block back out of a successful sort_mo gives the
      designated columns, in the caller's order. */
  lemma SortMoActiveBlock(ncas: nat, ncore: nat, mo: Rows, ncols: nat, caslst: seq<int>, base: int)
    requires IsShape(mo, ncols)
    requires |mo| <= ncols
    requires |caslst| == ncas && ncore + ncas <= |mo|
    requires Distinct(Rebase(caslst, base))
    requires forall p :: 0 <= p < ncas ==> 0 <= Rebase(caslst, base)[p] < |mo|
    ensures var r := SortMo(ncas, ncore, mo, ncols, caslst, base);
            r.Ok? && |r.value| == |mo| && IsShape(r.value, |mo|) &&
            forall row, p :: 0 <= row < |mo| && 0 <= p < ncas ==>
              r.value[row][ncore + p] == mo[row][Rebase(caslst, base)[p]]
  {
    var cas := Rebase(caslst, base);
    var order := ColumnOrder(|mo|, ncore, cas);
    ColumnOrderIsPermutation(|mo|, ncore, cas);
    forall c | 0 <= c < |order| ensures ValidColumn(order[c], ncols) {
      assert order[c] in order;
    }
    var r := SortMo(ncas, ncore, mo, ncols, caslst, base);
    assert r.Ok?;
    forall row, p | 0 <= row < |mo| && 0 <= p < ncas ensures r.value[row][ncore + p] == mo[row][cas[p]] {
      assert order[ncore + p] == cas[p] by {
        assert order[ncore..ncore + ncas][p] == cas[p];
      }
    }
  }
}
