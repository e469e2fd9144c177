/** CCSD tensor-packing kernels (ccsd_pack.c). Each kernel walks flat
    row-major buffers of count blocks and writes the caller's out buffer
    slot by slot through pointer offsets. The OpenMP split over the outer
    block loop touches disjoint blocks, so the loops are sequential here. */
module CcsdPack {
  import opened Linalg

  // ---------------------------------------------------------------------
  // Row-major offsets

  /** Offset x*m + y of entry y in row x of rows of length m. */
  lemma FlatBound(m: nat, rows: nat, x: int, y: int)
    requires 0 <= x < rows && 0 <= y < m
    ensures 0 <= x * m + y < rows * m
  {
    assert x * m <= (rows - 1) * m;
  }

  lemma FlatInjective(m: nat, x: int, y: int, x': int, y': int)
    requires 0 <= y < m && 0 <= y' < m
    requires x * m + y == x' * m + y'
    ensures x == x' && y == y'
  {
    if x != x' {
      if x < x' { MulMonotone(x + 1, x', m); } else { MulMonotone(x' + 1, x, m); }
      assert false;
    }
  }

  lemma MulMonotone(a: int, b: int, c: nat)
    requires a <= b
    ensures a * c <= b * c
  {
    assert (b - a) * c >= 0;
  }

  /** Row and column of a flat offset: q / m and q % m. */
  lemma FlatSplit(m: nat, rows: nat, q: int)
    requires 0 <= q < rows * m
    ensures m > 0 && 0 <= q / m < rows && 0 <= q % m < m && q == (q / m) * m + q % m
  {
  }

  predicate In3(count: nat, m: nat, i: int, j: int, k: int)
  {
    0 <= i < count && 0 <= j < m && 0 <= k < m
  }

  predicate In4(count: nat, m: nat, i: int, j: int, k: int, l: int)
  {
    0 <= i < count && 0 <= j < m && 0 <= k < m && 0 <= l < m
  }

  /** Offset of [i, j, k] in a row-major buffer of m x m blocks. */
  function Pos3(m: nat, i: int, j: int, k: int): int
  {
    (i * m + j) * m + k
  }

  /** Offset of [i, j, k, l] in a row-major buffer of m x m x m blocks. */
  function Pos4(m: nat, i: int, j: int, k: int, l: int): int
  {
    ((i * m + j) * m + k) * m + l
  }

  /** The same offsets for an index tuple inside count blocks, with the
      bound that keeps them inside the buffer. */
  function Off3(count: nat, m: nat, i: int, j: int, k: int): (r: int)
    requires In3(count, m, i, j, k)
    ensures 0 <= r < count * m * m
  {
    FlatBound(m, count, i, j);
    FlatBound(m, count * m, i * m + j, k);
    Pos3(m, i, j, k)
  }

  function Off4(count: nat, m: nat, i: int, j: int, k: int, l: int): (r: int)
    requires In4(count, m, i, j, k, l)
    ensures 0 <= r < count * m * m * m
  {
    FlatBound(m, count, i, j);
    FlatBound(m, count * m, i * m + j, k);
    FlatBound(m, count * m * m, (i * m + j) * m + k, l);
    Pos4(m, i, j, k, l)
  }

  /** The Horner-form offsets are the ones the kernels build from the
      strides m*m*m, m*m and m. */
  lemma Pos3Strides(m: nat, i: int, j: int, k: int)
    ensures Pos3(m, i, j, k) == (m * m) * i + m * j + k
  {
    assert (i * m + j) * m == (m * m) * i + m * j;
  }

  lemma Pos4Strides(m: nat, i: int, j: int, k: int, l: int)
    ensures Pos4(m, i, j, k, l) == (m * m * m) * i + (m * m) * j + m * k + l
  {
    assert ((i * m + j) * m + k) * m == (i * m + j) * m * m + k * m;
    assert (i * m + j) * m * m == (m * m * m) * i + (m * m) * j;
  }

  /** Stepping past the last index of a row moves to the next row. */
  lemma Pos4Carry(m: nat, i: int, j: int, k: int)
    ensures Pos4(m, i, j, k, m) == Pos4(m, i, j, k + 1, 0)
    ensures Pos4(m, i, j, m, 0) == Pos4(m, i, j + 1, 0, 0)
    ensures Pos4(m, i, m, 0, 0) == Pos4(m, i + 1, 0, 0, 0)
  {
    assert ((i * m + j) * m + k) * m + m == ((i * m + j) * m + k + 1) * m;
    assert (i * m + j) * m + m == (i * m + j + 1) * m;
    assert i * m + m == (i + 1) * m;
  }

  lemma Pos3Carry(m: nat, i: int, j: int)
    ensures Pos3(m, i, j, m) == Pos3(m, i, j + 1, 0)
    ensures Pos3(m, i, m, 0) == Pos3(m, i + 1, 0, 0)
  {
    assert (i * m + j) * m + m == (i * m + j + 1) * m;
    assert i * m + m == (i + 1) * m;
  }

  /** Offset of the first slot of block i when every block has size slots
      (the C code's d1*i or mm*i), built up one block at a time. */
  function BlockStart(size: nat, i: nat): nat
  {
    if i == 0 then 0 else BlockStart(size, i - 1) + size
  }

  lemma {:induction false} BlockStartProduct(size: nat, i: nat)
    ensures BlockStart(size, i) == i * size
  {
    if i > 0 {
      BlockStartProduct(size, i - 1);
    }
  }

  /** count blocks of size slots fill count * size slots. */
  lemma BlockStartTotal4(count: nat, m: nat)
    ensures BlockStart(m * m * m, count) == count * m * m * m
  {
    BlockStartProduct(m * m * m, count);
    MulAssoc(count, m * m, m);
    MulAssoc(count, m, m);
  }

  lemma MulAssoc(a: int, b: int, c: int)
    ensures a * (b * c) == a * b * c
  {
  }

  lemma BlockStartTotal3(count: nat, m: nat)
    ensures BlockStart(m * m, count) == count * m * m
  {
    BlockStartProduct(m * m, count);
    assert count * (m * m) == count * m * m;
  }

  lemma BlockStartPos4(m: nat, i: nat)
    ensures BlockStart(m * m * m, i) == Pos4(m, i, 0, 0, 0)
  {
    BlockStartProduct(m * m * m, i);
    assert Pos4(m, i, 0, 0, 0) == i * (m * m * m);
  }

  lemma BlockStartPos3(m: nat, i: nat)
    ensures BlockStart(m * m, i) == Pos3(m, i, 0, 0)
  {
    BlockStartProduct(m * m, i);
    assert Pos3(m, i, 0, 0) == i * (m * m);
  }

  /** The index tuple a flat offset stands for: the inverse of Off3. */
  function Split3(m: nat, q: int): (int, int, int)
  {
    if m == 0 then (0, 0, 0) else (q / m / m, q / m % m, q % m)
  }

  function Split4(m: nat, q: int): (int, int, int, int)
  {
    if m == 0 then (0, 0, 0, 0) else (q / m / m / m, q / m / m % m, q / m % m, q % m)
  }

  /** Every slot of a count x m x m buffer is the offset of exactly one index
      tuple: the loops over [i, j, k] visit each slot once. */
  lemma Off3Split(count: nat, m: nat, q: int)
    requires 0 <= q < count * m * m
    ensures var (i, j, k) := Split3(m, q); In3(count, m, i, j, k) && Off3(count, m, i, j, k) == q
  {
    FlatSplit(m, count * m, q);
    FlatSplit(m, count, q / m);
  }

  lemma Off3Injective(count: nat, m: nat, i: int, j: int, k: int, i': int, j': int, k': int)
    requires In3(count, m, i, j, k) && In3(count, m, i', j', k')
    requires Off3(count, m, i, j, k) == Off3(count, m, i', j', k')
    ensures i == i' && j == j' && k == k'
  {
    FlatInjective(m, i * m + j, k, i' * m + j', k');
    FlatInjective(m, i, j, i', j');
  }

  lemma Split3Off3(count: nat, m: nat, i: int, j: int, k: int)
    requires In3(count, m, i, j, k)
    ensures Split3(m, Off3(count, m, i, j, k)) == (i, j, k)
  {
    var q := Off3(count, m, i, j, k);
    Off3Split(count, m, q);
    var (i', j', k') := Split3(m, q);
    Off3Injective(count, m, i, j, k, i', j', k');
  }

  lemma Off4Split(count: nat, m: nat, q: int)
    requires 0 <= q < count * m * m * m
    ensures var (i, j, k, l) := Split4(m, q); In4(count, m, i, j, k, l) && Off4(count, m, i, j, k, l) == q
  {
    FlatSplit(m, count * m * m, q);
    FlatSplit(m, count * m, q / m);
    FlatSplit(m, count, q / m / m);
  }

  lemma Off4Injective(count: nat, m: nat, i: int, j: int, k: int, l: int, i': int, j': int, k': int, l': int)
    requires In4(count, m, i, j, k, l) && In4(count, m, i', j', k', l')
    requires Off4(count, m, i, j, k, l) == Off4(count, m, i', j', k', l')
    ensures i == i' && j == j' && k == k' && l == l'
  {
    FlatInjective(m, (i * m + j) * m + k, l, (i' * m + j') * m + k', l');
    FlatInjective(m, i * m + j, k, i' * m + j', k');
    FlatInjective(m, i, j, i', j');
  }

  lemma Split4Off4(count: nat, m: nat, i: int, j: int, k: int, l: int)
    requires In4(count, m, i, j, k, l)
    ensures Split4(m, Off4(count, m, i, j, k, l)) == (i, j, k, l)
  {
    var q := Off4(count, m, i, j, k, l);
    Off4Split(count, m, q);
    var (i', j', k', l') := Split4(m, q);
    Off4Injective(count, m, i, j, k, l, i', j', k', l');
  }

  // ---------------------------------------------------------------------
  // CCmake_0213: out = a * v1 + b * v2.transpose(0, 2, 1, 3)

  /** Every slot of out whose offset is below p holds
      a * v1[i,j,k,l] + b * v2[i,k,j,l] for its index tuple [i,j,k,l]. */
  ghost predicate Filled0213(o: seq<real>, v1: seq<real>, v2: seq<real>, count: nat, m: nat, a: real, b: real, p: int)
  {
    |o| >= count * m * m * m && |v1| >= count * m * m * m && |v2| >= count * m * m * m &&
    forall i, j, k, l :: In4(count, m, i, j, k, l) && Off4(count, m, i, j, k, l) < p ==>
      o[Off4(count, m, i, j, k, l)] == v1[Off4(count, m, i, j, k, l)] * a + v2[Off4(count, m, i, k, j, l)] * b
  }

  /** Writing the slot of [i,j,k,l] extends the filled prefix by one. */
  lemma Fill0213Step(o: seq<real>, v1: seq<real>, v2: seq<real>, count: nat, m: nat, a: real, b: real,
                     i: int, j: int, k: int, l: int, y1: real, y2: real, x: real)
    requires In4(count, m, i, j, k, l)
    requires Filled0213(o, v1, v2, count, m, a, b, Off4(count, m, i, j, k, l))
    requires y1 == v1[Off4(count, m, i, j, k, l)] && y2 == v2[Off4(count, m, i, k, j, l)] && x == y1 * a + y2 * b
    ensures Filled0213(o[Off4(count, m, i, j, k, l) := x], v1, v2, count, m, a, b, Off4(count, m, i, j, k, l) + 1)
  {
    var p := Off4(count, m, i, j, k, l);
    var o' := o[p := x];
    forall i', j', k', l' | In4(count, m, i', j', k', l') && Off4(count, m, i', j', k', l') < p + 1
      ensures o'[Off4(count, m, i', j', k', l')]
           == v1[Off4(count, m, i', j', k', l')] * a + v2[Off4(count, m, i', k', j', l')] * b
    {
      if Off4(count, m, i', j', k', l') == p {
        Off4Injective(count, m, i', j', k', l', i, j, k, l);
      }
    }
  }

  /** out[i,j,k,l] and v2[i,k,j,l] sit l past out[i,j,k,0] and v2[i,k,j,0]. */
  lemma LineOffsets0213(count: nat, m: nat, i: int, j: int, k: int, l: int)
    requires In4(count, m, i, j, k, l)
    ensures Off4(count, m, i, j, k, l) == Pos4(m, i, j, k, 0) + l
    ensures Off4(count, m, i, k, j, l) == Pos4(m, i, k, j, 0) + l
  {
  }

  /** The loop state of CCmake_0213 at flat position p: the slots below p
      are filled, out and v1 are untouched from p on, v2 is untouched. */
  ghost predicate State0213(out: array<real>, v1: array<real>, v2: array<real>,
                            outs: seq<real>, v1s: seq<real>, v2s: seq<real>,
                            count: nat, m: nat, a: real, b: real, p: int)
    reads out, v1, v2
  {
    Filled0213(out[..], v1s, v2s, count, m, a, b, p) &&
    out.Length == |outs| && v1.Length == |v1s| && v2[..] == v2s &&
    (forall q :: 0 <= q && p <= q < out.Length ==> out[q] == outs[q]) &&
    (forall q :: 0 <= q && p <= q < v1.Length ==> v1[q] == v1s[q])
  }

  /** The innermost loop (over l) for one [i, j, k]: pout and pv2 are the
      offsets of out[i, j, k, 0] and v2[i, k, j, 0]. */
  method Line0213(out: array<real>, v1: array<real>, v2: array<real>, count: nat, m: nat, a: real, b: real,
                  i: nat, j: nat, k: nat, ghost outs: seq<real>, ghost v1s: seq<real>, ghost v2s: seq<real>)
    requires out != v2
    requires In3(count, m, i, j, k)
    requires State0213(out, v1, v2, outs, v1s, v2s, count, m, a, b, Pos4(m, i, j, k, 0))
    modifies out
    ensures State0213(out, v1, v2, outs, v1s, v2s, count, m, a, b, Pos4(m, i, j, k, 0) + m)
  {
    var pout := Pos4(m, i, j, k, 0);
    var pv2 := Pos4(m, i, k, j, 0);
    var l := 0;
    while l < m
      invariant 0 <= l <= m
      invariant State0213(out, v1, v2, outs, v1s, v2s, count, m, a, b, pout + l)
    {
      LineOffsets0213(count, m, i, j, k, l);
      ghost var before := out[..];
      var y1, y2 := v1[pout + l], v2[pv2 + l];
      var x := y1 * a + y2 * b;
      Fill0213Step(before, v1s, v2s, count, m, a, b, i, j, k, l, y1, y2, x);
      out[pout + l] := x;
      assert out[..] == before[pout + l := x];
      l := l + 1;
    }
  }

  /** The loop over k for one [i, j]. */
  method Plane0213(out: array<real>, v1: array<real>, v2: array<real>, count: nat, m: nat, a: real, b: real,
                   i: nat, j: nat, ghost outs: seq<real>, ghost v1s: seq<real>, ghost v2s: seq<real>)
    requires out != v2
    requires i < count && j < m
    requires State0213(out, v1, v2, outs, v1s, v2s, count, m, a, b, Pos4(m, i, j, 0, 0))
    modifies out
    ensures State0213(out, v1, v2, outs, v1s, v2s, count, m, a, b, Pos4(m, i, j + 1, 0, 0))
  {
    var k := 0;
    while k < m
      invariant 0 <= k <= m
      invariant State0213(out, v1, v2, outs, v1s, v2s, count, m, a, b, Pos4(m, i, j, k, 0))
    {
      Line0213(out, v1, v2, count, m, a, b, i, j, k, outs, v1s, v2s);
      Pos4Carry(m, i, j, k);
      k := k + 1;
    }
    Pos4Carry(m, i, j, k);
  }

  /** The loop over j for one block i. */
  method Block0213(out: array<real>, v1: array<real>, v2: array<real>, count: nat, m: nat, a: real, b: real,
                   i: nat, ghost outs: seq<real>, ghost v1s: seq<real>, ghost v2s: seq<real>)
    requires out != v2
    requires i < count
    requires State0213(out, v1, v2, outs, v1s, v2s, count, m, a, b, BlockStart(m * m * m, i))
    modifies out
    ensures State0213(out, v1, v2, outs, v1s, v2s, count, m, a, b, BlockStart(m * m * m, i + 1))
  {
    BlockStartPos4(m, i);
    BlockStartPos4(m, i + 1);
    var j := 0;
    while j < m
      invariant 0 <= j <= m
      invariant State0213(out, v1, v2, outs, v1s, v2s, count, m, a, b, Pos4(m, i, j, 0, 0))
    {
      Plane0213(out, v1, v2, count, m, a, b, i, j, outs, v1s, v2s);
      j := j + 1;
    }
    Pos4Carry(m, i, j, 0);
  }

  /** CCmake_0213: out = a * v1 + b * v2.transpose(0, 2, 1, 3) over count
      blocks of m x m x m; slots past count * m^3 are left alone. out may
      be v1 (each slot of v1 is read just before the same slot of out is
      written) but not v2. */
  method Make0213(out: array<real>, v1: array<real>, v2: array<real>, count: nat, m: nat, a: real, b: real)
    requires out != v2
    requires out.Length >= count * m * m * m && v1.Length >= count * m * m * m && v2.Length >= count * m * m * m
    modifies out
    ensures Filled0213(out[..], old(v1[..]), old(v2[..]), count, m, a, b, count * m * m * m)
    ensures out[count * m * m * m..] == old(out[count * m * m * m..])
  {
    ghost var v1s, v2s, outs := v1[..], v2[..], out[..];
    var i := 0;
    while i < count
      invariant 0 <= i <= count
      invariant State0213(out, v1, v2, outs, v1s, v2s, count, m, a, b, BlockStart(m * m * m, i))
    {
      Block0213(out, v1, v2, count, m, a, b, i, outs, v1s, v2s);
      i := i + 1;
    }
    State0213Done(out, v1, v2, outs, v1s, v2s, count, m, a, b);
  }

  /** After the last block the loop state is the postcondition. */
  lemma State0213Done(out: array<real>, v1: array<real>, v2: array<real>,
                      outs: seq<real>, v1s: seq<real>, v2s: seq<real>, count: nat, m: nat, a: real, b: real)
    requires State0213(out, v1, v2, outs, v1s, v2s, count, m, a, b, BlockStart(m * m * m, count))
    ensures Filled0213(out[..], v1s, v2s, count, m, a, b, count * m * m * m)
    ensures out[count * m * m * m..] == outs[count * m * m * m..]
  {
    BlockStartTotal4(count, m);
  }

  /** With a = 0 and b = 1 CCmake_0213 is the pure transpose(0, 2, 1, 3);
      applying it twice gives back every slot of the original buffer. */
  lemma Transpose0213Involution(o1: seq<real>, o2: seq<real>, v1: seq<real>, w1: seq<real>, v2: seq<real>,
                                count: nat, m: nat)
    requires Filled0213(o1, v1, v2, count, m, 0.0, 1.0, count * m * m * m)
    requires Filled0213(o2, w1, o1, count, m, 0.0, 1.0, count * m * m * m)
    ensures o2[..count * m * m * m] == v2[..count * m * m * m]
  {
    forall q | 0 <= q < count * m * m * m
      ensures o2[q] == v2[q]
    {
      Off4Split(count, m, q);
      var (i, j, k, l) := Split4(m, q);
      assert In4(count, m, i, k, j, l);
      assert o1[Off4(count, m, i, k, j, l)] == v2[q];
    }
  }

  // ---------------------------------------------------------------------
  // CCsum021 and CCmake_021: out = a * v1 + b * v2.transpose(0, 2, 1)

  /** Every slot of out whose offset is below p holds
      a * v1[i,j,k] + b * v2[i,k,j] for its index tuple [i,j,k]. */
  ghost predicate Filled021(o: seq<real>, v1: seq<real>, v2: seq<real>, count: nat, m: nat, a: real, b: real, p: int)
  {
    |o| >= count * m * m && |v1| >= count * m * m && |v2| >= count * m * m &&
    forall i, j, k :: In3(count, m, i, j, k) && Off3(count, m, i, j, k) < p ==>
      o[Off3(count, m, i, j, k)] == v1[Off3(count, m, i, j, k)] * a + v2[Off3(count, m, i, k, j)] * b
  }

  /** The same with plain sums: v1[i,j,k] + v2[i,k,j]. */
  ghost predicate FilledSum021(o: seq<real>, v1: seq<real>, v2: seq<real>, count: nat, m: nat, p: int)
  {
    |o| >= count * m * m && |v1| >= count * m * m && |v2| >= count * m * m &&
    forall i, j, k :: In3(count, m, i, j, k) && Off3(count, m, i, j, k) < p ==>
      o[Off3(count, m, i, j, k)] == v1[Off3(count, m, i, j, k)] + v2[Off3(count, m, i, k, j)]
  }

  /** CCmake_021 hands a = b = 1 to CCsum021: at unit weights the general
      formula and the plain sum fill the same slots with the same values. */
  lemma UnitMake021IsSum021(o: seq<real>, v1: seq<real>, v2: seq<real>, count: nat, m: nat, p: int)
    requires Filled021(o, v1, v2, count, m, 1.0, 1.0, p)
    ensures FilledSum021(o, v1, v2, count, m, p)
  {
  }

  lemma Sum021IsUnitMake021(o: seq<real>, v1: seq<real>, v2: seq<real>, count: nat, m: nat, p: int)
    requires FilledSum021(o, v1, v2, count, m, p)
    ensures Filled021(o, v1, v2, count, m, 1.0, 1.0, p)
  {
  }

  lemma Fill021Step(o: seq<real>, v1: seq<real>, v2: seq<real>, count: nat, m: nat, a: real, b: real,
                    i: int, j: int, k: int, y1: real, y2: real, x: real)
    requires In3(count, m, i, j, k)
    requires Filled021(o, v1, v2, count, m, a, b, Off3(count, m, i, j, k))
    requires y1 == v1[Off3(count, m, i, j, k)] && y2 == v2[Off3(count, m, i, k, j)] && x == y1 * a + y2 * b
    ensures Filled021(o[Off3(count, m, i, j, k) := x], v1, v2, count, m, a, b, Off3(count, m, i, j, k) + 1)
  {
    var p := Off3(count, m, i, j, k);
    var o' := o[p := x];
    forall i', j', k' | In3(count, m, i', j', k') && Off3(count, m, i', j', k') < p + 1
      ensures o'[Off3(count, m, i', j', k')] == v1[Off3(count, m, i', j', k')] * a + v2[Off3(count, m, i', k', j')] * b
    {
      if Off3(count, m, i', j', k') == p {
        Off3Injective(count, m, i', j', k', i, j, k);
      }
    }
  }

  /** The loop state of the 021 kernels at flat position p. */
  ghost predicate State021(out: array<real>, v1: array<real>, v2: array<real>,
                           outs: seq<real>, v1s: seq<real>, v2s: seq<real>,
                           count: nat, m: nat, a: real, b: real, p: int)
    reads out, v1, v2
  {
    Filled021(out[..], v1s, v2s, count, m, a, b, p) &&
    out.Length == |outs| && v1.Length == |v1s| && v2[..] == v2s &&
    (forall q :: 0 <= q && p <= q < out.Length ==> out[q] == outs[q]) &&
    (forall q :: 0 <= q && p <= q < v1.Length ==> v1[q] == v1s[q])
  }

  /** out[i,j,k] sits k past out[i,j,0], and v2[i,k,j] sits k*m + j past
      the start of block i. */
  lemma RowOffsets021(count: nat, m: nat, i: int, j: int, k: int)
    requires In3(count, m, i, j, k)
    ensures Off3(count, m, i, j, k) == Pos3(m, i, j, 0) + k
    ensures Off3(count, m, i, k, j) == Pos3(m, i, 0, 0) + k * m + j
  {
  }

  /** The loop body of CCsum021: pout[n] = pv1[n] + pv2[k*m+j]. */
  method SlotSum021(out: array<real>, v1: array<real>, v2: array<real>, count: nat, m: nat,
                    i: nat, j: nat, k: nat, ghost outs: seq<real>, ghost v1s: seq<real>, ghost v2s: seq<real>)
    requires out != v2
    requires In3(count, m, i, j, k)
    requires State021(out, v1, v2, outs, v1s, v2s, count, m, 1.0, 1.0, Pos3(m, i, j, 0) + k)
    modifies out
    ensures State021(out, v1, v2, outs, v1s, v2s, count, m, 1.0, 1.0, Pos3(m, i, j, 0) + k + 1)
  {
    RowOffsets021(count, m, i, j, k);
    var pout := Pos3(m, i, 0, 0);
    var p := Pos3(m, i, j, 0);
    ghost var before := out[..];
    var y1, y2 := v1[p + k], v2[pout + k * m + j];
    var x := y1 + y2;
    Fill021Step(before, v1s, v2s, count, m, 1.0, 1.0, i, j, k, y1, y2, x);
    out[p + k] := x;
    assert out[..] == before[p + k := x];
  }

  /** One row [i, j] of CCsum021: the slots out[i, j, k] for k < m. In the C
      code the write position is pout + n, with pout = m*m*i and the running
      counter n = j*m + k; here that is p + k, p being the offset of
      out[i, j, 0]. v2[i, k, j] sits at pout + k*m + j. */
  method RowSum021(out: array<real>, v1: array<real>, v2: array<real>, count: nat, m: nat,
                   i: nat, j: nat, ghost outs: seq<real>, ghost v1s: seq<real>, ghost v2s: seq<real>)
    requires out != v2
    requires i < count && j < m
    requires State021(out, v1, v2, outs, v1s, v2s, count, m, 1.0, 1.0, Pos3(m, i, j, 0))
    modifies out
    ensures State021(out, v1, v2, outs, v1s, v2s, count, m, 1.0, 1.0, Pos3(m, i, j + 1, 0))
  {
    var pout := Pos3(m, i, 0, 0);
    var p := Pos3(m, i, j, 0);
    var k := 0;
    while k < m
      invariant 0 <= k <= m
      invariant State021(out, v1, v2, outs, v1s, v2s, count, m, 1.0, 1.0, p + k)
    {
      SlotSum021(out, v1, v2, count, m, i, j, k, outs, v1s, v2s);
      k := k + 1;
    }
    Pos3Carry(m, i, j);
  }

  /** One block i of CCsum021. */
  method BlockSum021(out: array<real>, v1: array<real>, v2: array<real>, count: nat, m: nat,
                     i: nat, ghost outs: seq<real>, ghost v1s: seq<real>, ghost v2s: seq<real>)
    requires out != v2
    requires i < count
    requires State021(out, v1, v2, outs, v1s, v2s, count, m, 1.0, 1.0, BlockStart(m * m, i))
    modifies out
    ensures State021(out, v1, v2, outs, v1s, v2s, count, m, 1.0, 1.0, BlockStart(m * m, i + 1))
  {
    BlockStartPos3(m, i);
    BlockStartPos3(m, i + 1);
    var j := 0;
    while j < m
      invariant 0 <= j <= m
      invariant State021(out, v1, v2, outs, v1s, v2s, count, m, 1.0, 1.0, Pos3(m, i, j, 0))
    {
      RowSum021(out, v1, v2, count, m, i, j, outs, v1s, v2s);
      j := j + 1;
    }
    Pos3Carry(m, i, j);
  }

  /** CCsum021: out = v1 + v2.transpose(0, 2, 1) over count blocks of
      m x m; slots past count * m^2 are left alone. out may be v1 but not
      v2. */
  method Sum021(out: array<real>, v1: array<real>, v2: array<real>, count: nat, m: nat)
    requires out != v2
    requires out.Length >= count * m * m && v1.Length >= count * m * m && v2.Length >= count * m * m
    modifies out
    ensures FilledSum021(out[..], old(v1[..]), old(v2[..]), count, m, count * m * m)
    ensures out[count * m * m..] == old(out[count * m * m..])
  {
    ghost var v1s, v2s, outs := v1[..], v2[..], out[..];
    var i := 0;
    while i < count
      invariant 0 <= i <= count
      invariant State021(out, v1, v2, outs, v1s, v2s, count, m, 1.0, 1.0, BlockStart(m * m, i))
    {
      BlockSum021(out, v1, v2, count, m, i, outs, v1s, v2s);
      i := i + 1;
    }
    State021Done(out, v1, v2, outs, v1s, v2s, count, m, 1.0, 1.0);
    UnitMake021IsSum021(out[..], v1s, v2s, count, m, count * m * m);
  }

  /** After the last block the loop state is the postcondition. */
  lemma State021Done(out: array<real>, v1: array<real>, v2: array<real>,
                     outs: seq<real>, v1s: seq<real>, v2s: seq<real>, count: nat, m: nat, a: real, b: real)
    requires State021(out, v1, v2, outs, v1s, v2s, count, m, a, b, BlockStart(m * m, count))
    ensures Filled021(out[..], v1s, v2s, count, m, a, b, count * m * m)
    ensures out[count * m * m..] == outs[count * m * m..]
  {
    BlockStartTotal3(count, m);
  }

  /** The loop body of CCmake_021: pout[n] = pv1[n] * a + pv2[k*m+j] * b. */
  method Slot021(out: array<real>, v1: array<real>, v2: array<real>, count: nat, m: nat, a: real, b: real,
                 i: nat, j: nat, k: nat, ghost outs: seq<real>, ghost v1s: seq<real>, ghost v2s: seq<real>)
    requires out != v2
    requires In3(count, m, i, j, k)
    requires State021(out, v1, v2, outs, v1s, v2s, count, m, a, b, Pos3(m, i, j, 0) + k)
    modifies out
    ensures State021(out, v1, v2, outs, v1s, v2s, count, m, a, b, Pos3(m, i, j, 0) + k + 1)
  {
    RowOffsets021(count, m, i, j, k);
    var pout := Pos3(m, i, 0, 0);
    var p := Pos3(m, i, j, 0);
    ghost var before := out[..];
    var y1, y2 := v1[p + k], v2[pout + k * m + j];
    var x := y1 * a + y2 * b;
    Fill021Step(before, v1s, v2s, count, m, a, b, i, j, k, y1, y2, x);
    out[p + k] := x;
    assert out[..] == before[p + k := x];
  }

  /** One row [i, j] of CCmake_021: the slots out[i, j, k] for k < m. In the C
      code the write position is pout + n, with pout = m*m*i and the running
      counter n = j*m + k; here that is p + k, p being the offset of
      out[i, j, 0]. v2[i, k, j] sits at pout + k*m + j. */
  method Row021(out: array<real>, v1: array<real>, v2: array<real>, count: nat, m: nat, a: real, b: real,
                i: nat, j: nat, ghost outs: seq<real>, ghost v1s: seq<real>, ghost v2s: seq<real>)
    requires out != v2
    requires i < count && j < m
    requires State021(out, v1, v2, outs, v1s, v2s, count, m, a, b, Pos3(m, i, j, 0))
    modifies out
    ensures State021(out, v1, v2, outs, v1s, v2s, count, m, a, b, Pos3(m, i, j + 1, 0))
  {
    var pout := Pos3(m, i, 0, 0);
    var p := Pos3(m, i, j, 0);
    var k := 0;
    while k < m
      invariant 0 <= k <= m
      invariant State021(out, v1, v2, outs, v1s, v2s, count, m, a, b, p + k)
    {
      Slot021(out, v1, v2, count, m, a, b, i, j, k, outs, v1s, v2s);
      k := k + 1;
    }
    Pos3Carry(m, i, j);
  }

  /** One block i of CCmake_021. */
  method Block021(out: array<real>, v1: array<real>, v2: array<real>, count: nat, m: nat, a: real, b: real,
                  i: nat, ghost outs: seq<real>, ghost v1s: seq<real>, ghost v2s: seq<real>)
    requires out != v2
    requires i < count
    requires State021(out, v1, v2, outs, v1s, v2s, count, m, a, b, BlockStart(m * m, i))
    modifies out
    ensures State021(out, v1, v2, outs, v1s, v2s, count, m, a, b, BlockStart(m * m, i + 1))
  {
    BlockStartPos3(m, i);
    BlockStartPos3(m, i + 1);
    var j := 0;
    while j < m
      invariant 0 <= j <= m
      invariant State021(out, v1, v2, outs, v1s, v2s, count, m, a, b, Pos3(m, i, j, 0))
    {
      Row021(out, v1, v2, count, m, a, b, i, j, outs, v1s, v2s);
      j := j + 1;
    }
    Pos3Carry(m, i, j);
  }

  /** CCmake_021: out = a * v1 + b * v2.transpose(0, 2, 1); with a = b = 1
      the work goes to CCsum021. */
  method Make021(out: array<real>, v1: array<real>, v2: array<real>, count: nat, m: nat, a: real, b: real)
    requires out != v2
    requires out.Length >= count * m * m && v1.Length >= count * m * m && v2.Length >= count * m * m
    modifies out
    ensures Filled021(out[..], old(v1[..]), old(v2[..]), count, m, a, b, count * m * m)
    ensures out[count * m * m..] == old(out[count * m * m..])
  {
    if a == 1.0 && b == 1.0 {
      Sum021(out, v1, v2, count, m);
      Sum021IsUnitMake021(out[..], old(v1[..]), old(v2[..]), count, m, count * m * m);
      return;
    }
    ghost var v1s, v2s, outs := v1[..], v2[..], out[..];
    var i := 0;
    while i < count
      invariant 0 <= i <= count
      invariant State021(out, v1, v2, outs, v1s, v2s, count, m, a, b, BlockStart(m * m, i))
    {
      Block021(out, v1, v2, count, m, a, b, i, outs, v1s, v2s);
      i := i + 1;
    }
    State021Done(out, v1, v2, outs, v1s, v2s, count, m, a, b);
  }

  /** With a = 0 and b = 1 CCmake_021 is the pure transpose(0, 2, 1);
      applying it twice gives back every slot of the original buffer. */
  lemma Transpose021Involution(o1: seq<real>, o2: seq<real>, v1: seq<real>, w1: seq<real>, v2: seq<real>,
                               count: nat, m: nat)
    requires Filled021(o1, v1, v2, count, m, 0.0, 1.0, count * m * m)
    requires Filled021(o2, w1, o1, count, m, 0.0, 1.0, count * m * m)
    ensures o2[..count * m * m] == v2[..count * m * m]
  {
    forall q | 0 <= q < count * m * m
      ensures o2[q] == v2[q]
    {
      Off3Split(count, m, q);
      var (i, j, k) := Split3(m, q);
      assert In3(count, m, i, k, j);
      assert o1[Off3(count, m, i, k, j)] == v2[q];
    }
  }

  // ---------------------------------------------------------------------
  // CCprecontract: the lower triangle of A + A^T, diagonal scaled by diagfac

  /** Tri(j) = 1 + 2 + ... + j: row j of a packed lower triangle (entries
      k = 0 .. j) starts at offset Tri(j), and a whole m x m triangle takes
      Tri(m) slots. */
  function Tri(j: nat): nat
  {
    if j == 0 then 0 else Tri(j - 1) + j
  }

  /** Tri(m) is the C code's m2 = m * (m + 1) / 2. */
  lemma {:induction false} TriClosed(j: nat)
    ensures 2 * Tri(j) == j * (j + 1)
    ensures Tri(j) == j * (j + 1) / 2
  {
    if j > 0 {
      TriClosed(j - 1);
      assert j * (j + 1) == (j - 1) * j + 2 * j;
    }
  }

  lemma {:induction false} TriMono(j: nat, j': nat)
    requires j <= j'
    ensures Tri(j) <= Tri(j')
    decreases j' - j
  {
    if j < j' {
      TriMono(j, j' - 1);
    }
  }

  lemma {:induction false} BlockStartMono(size: nat, i: nat, i': nat)
    requires i <= i'
    ensures BlockStart(size, i) <= BlockStart(size, i')
    decreases i' - i
  {
    if i < i' {
      BlockStartMono(size, i, i' - 1);
    }
  }

  /** Slots taken by count packed triangles of Tri(m) slots each. */
  function PackedSize(count: nat, m: nat): nat
  {
    BlockStart(Tri(m), count)
  }

  /** The packed output holds count * m * (m + 1) / 2 slots. */
  lemma PackedSizeClosed(count: nat, m: nat)
    ensures PackedSize(count, m) == count * (m * (m + 1) / 2)
  {
    BlockStartProduct(Tri(m), count);
    TriClosed(m);
  }

  /** [i, j, k] names an entry of the lower triangle (k <= j) of block i. */
  predicate InP(count: nat, m: nat, i: int, j: int, k: int)
  {
    0 <= i < count && 0 <= k <= j < m
  }

  /** Packed offset of [i, j, k]: block i starts at i * Tri(m), row j at
      Tri(j) within it. */
  function OffP(count: nat, m: nat, i: int, j: int, k: int): (r: int)
    requires InP(count, m, i, j, k)
    ensures 0 <= r < PackedSize(count, m)
  {
    OffPBound(count, m, i, j, k);
    BlockStart(Tri(m), i) + Tri(j) + k
  }

  lemma OffPBound(count: nat, m: nat, i: nat, j: nat, k: nat)
    requires InP(count, m, i, j, k)
    ensures BlockStart(Tri(m), i) + Tri(j) + k < BlockStart(Tri(m), i + 1)
    ensures BlockStart(Tri(m), i) + Tri(j) + k < PackedSize(count, m)
  {
    TriMono(j + 1, m);
    BlockStartMono(Tri(m), i + 1, count);
  }

  /** Distinct entries of the triangles have distinct packed offsets. */
  lemma OffPInjective(count: nat, m: nat, i: int, j: int, k: int, i': int, j': int, k': int)
    requires InP(count, m, i, j, k) && InP(count, m, i', j', k')
    requires OffP(count, m, i, j, k) == OffP(count, m, i', j', k')
    ensures i == i' && j == j' && k == k'
  {
    if i < i' {
      OffPBlockOrder(count, m, i, j, k, i', j', k');
      assert false;
    }
    if i' < i {
      OffPBlockOrder(count, m, i', j', k', i, j, k);
      assert false;
    }
    if j < j' {
      OffPRowOrder(count, m, i, j, k, j', k');
      assert false;
    }
    if j' < j {
      OffPRowOrder(count, m, i, j', k', j, k);
      assert false;
    }
  }

  /** Every slot of an earlier block precedes every slot of a later one. */
  lemma OffPBlockOrder(count: nat, m: nat, i: int, j: int, k: int, i': int, j': int, k': int)
    requires InP(count, m, i, j, k) && InP(count, m, i', j', k')
    requires i < i'
    ensures OffP(count, m, i, j, k) < OffP(count, m, i', j', k')
  {
    OffPBound(count, m, i, j, k);
    BlockStartMono(Tri(m), i + 1, i');
  }

  /** Within one block, every slot of an earlier row precedes every slot
      of a later one. */
  lemma OffPRowOrder(count: nat, m: nat, i: int, j: int, k: int, j': int, k': int)
    requires InP(count, m, i, j, k) && InP(count, m, i, j', k')
    requires j < j'
    ensures OffP(count, m, i, j, k) < OffP(count, m, i, j', k')
  {
    TriMono(j + 1, j');
  }

  /** The row of the packed triangle that offset r falls in, searching
      upwards from row j. */
  function TriRow(r: nat, j: nat): (row: nat)
    requires Tri(j) <= r
    ensures j <= row && Tri(row) <= r < Tri(row + 1)
    decreases r - Tri(j)
  {
    if r < Tri(j + 1) then j else TriRow(r, j + 1)
  }

  /** The entry a packed offset stands for: the inverse of OffP. */
  function SplitP(m: nat, q: int): (int, int, int)
  {
    if Tri(m) == 0 || q < 0 then (0, 0, 0)
    else
      var r := q % Tri(m);
      var j := TriRow(r, 0);
      (q / Tri(m), j, r - Tri(j))
  }

  /** Every slot of the packed output is the offset of exactly one entry:
      the blocks of m * (m + 1) / 2 slots abut with no gap. */
  lemma OffPSplit(count: nat, m: nat, q: int)
    requires 0 <= q < PackedSize(count, m)
    ensures var (i, j, k) := SplitP(m, q); InP(count, m, i, j, k) && OffP(count, m, i, j, k) == q
  {
    BlockStartProduct(Tri(m), count);
    FlatSplit(Tri(m), count, q);
    var (i, j, k) := SplitP(m, q);
    if m <= j {
      TriMono(m, j);
      assert false;
    }
    BlockStartProduct(Tri(m), i);
  }

  lemma SplitPOffP(count: nat, m: nat, i: int, j: int, k: int)
    requires InP(count, m, i, j, k)
    ensures SplitP(m, OffP(count, m, i, j, k)) == (i, j, k)
  {
    var q := OffP(count, m, i, j, k);
    OffPSplit(count, m, q);
    var (i', j', k') := SplitP(m, q);
    OffPInjective(count, m, i, j, k, i', j', k');
  }

  /** The packed value of entry [i, j, k]: A[j,k] + A[k,j] below the
      diagonal and diagfac * A[j,j] on it, A being block i of the input. */
  function PreEntry(inp: seq<real>, count: nat, m: nat, diagfac: real, i: int, j: int, k: int): real
    requires InP(count, m, i, j, k) && |inp| >= count * m * m
  {
    if k < j then inp[Off3(count, m, i, j, k)] + inp[Off3(count, m, i, k, j)]
    else inp[Off3(count, m, i, j, j)] * diagfac
  }

  /** Every slot of out whose packed offset is below p holds its entry. */
  ghost predicate FilledPre(o: seq<real>, inp: seq<real>, count: nat, m: nat, diagfac: real, p: int)
  {
    |o| >= PackedSize(count, m) && |inp| >= count * m * m &&
    forall i, j, k :: InP(count, m, i, j, k) && OffP(count, m, i, j, k) < p ==>
      o[OffP(count, m, i, j, k)] == PreEntry(inp, count, m, diagfac, i, j, k)
  }

  lemma FillPreStep(o: seq<real>, inp: seq<real>, count: nat, m: nat, diagfac: real,
                    i: int, j: int, k: int, y1: real, y2: real, x: real)
    requires InP(count, m, i, j, k)
    requires FilledPre(o, inp, count, m, diagfac, OffP(count, m, i, j, k))
    requires y1 == inp[Off3(count, m, i, j, k)] && y2 == inp[Off3(count, m, i, k, j)]
    requires x == if k < j then y1 + y2 else y1 * diagfac
    ensures FilledPre(o[OffP(count, m, i, j, k) := x], inp, count, m, diagfac, OffP(count, m, i, j, k) + 1)
  {
    var p := OffP(count, m, i, j, k);
    var o' := o[p := x];
    forall i', j', k' | InP(count, m, i', j', k') && OffP(count, m, i', j', k') < p + 1
      ensures o'[OffP(count, m, i', j', k')] == PreEntry(inp, count, m, diagfac, i', j', k')
    {
      if OffP(count, m, i', j', k') == p {
        OffPInjective(count, m, i', j', k', i, j, k);
      }
    }
  }

  /** The loop state of CCprecontract at packed position p. */
  ghost predicate StatePre(out: array<real>, inp: array<real>, outs: seq<real>, ins: seq<real>,
                           count: nat, m: nat, diagfac: real, p: int)
    reads out, inp
  {
    FilledPre(out[..], ins, count, m, diagfac, p) &&
    out.Length == |outs| && inp[..] == ins &&
    (forall q :: 0 <= q && p <= q < out.Length ==> out[q] == outs[q])
  }

  /** Where row j of the triangle and the two mirrored input entries sit. */
  lemma RowOffsetsPre(count: nat, m: nat, i: int, j: int, k: int)
    requires InP(count, m, i, j, k)
    ensures OffP(count, m, i, j, k) == BlockStart(Tri(m), i) + Tri(j) + k
    ensures Off3(count, m, i, j, k) == Pos3(m, i, 0, 0) + j * m + k
    ensures Off3(count, m, i, k, j) == Pos3(m, i, 0, 0) + k * m + j
  {
  }

  /** Row j of block i: k < j gives in[j,k] + in[k,j], then the diagonal
      in[j,j] * diagfac. pout and pin are the starts of block i in out and
      in; the C counter n, which runs on across rows, is Tri(j) + k. */
  method RowPre(out: array<real>, inp: array<real>, count: nat, m: nat, diagfac: real, i: nat, j: nat,
                ghost outs: seq<real>, ghost ins: seq<real>)
    requires out != inp
    requires i < count && j < m
    requires StatePre(out, inp, outs, ins, count, m, diagfac, BlockStart(Tri(m), i) + Tri(j))
    modifies out
    ensures StatePre(out, inp, outs, ins, count, m, diagfac, BlockStart(Tri(m), i) + Tri(j + 1))
  {
    var pout := BlockStart(Tri(m), i);
    var pin := Pos3(m, i, 0, 0);
    var n := Tri(j);
    var k := 0;
    while k < j
      invariant 0 <= k <= j
      invariant n == Tri(j) + k
      invariant StatePre(out, inp, outs, ins, count, m, diagfac, pout + n)
    {
      RowOffsetsPre(count, m, i, j, k);
      ghost var before := out[..];
      var y1, y2 := inp[pin + j * m + k], inp[pin + k * m + j];
      var x := y1 + y2;
      FillPreStep(before, ins, count, m, diagfac, i, j, k, y1, y2, x);
      out[pout + n] := x;
      assert out[..] == before[pout + n := x];
      k := k + 1;
      n := n + 1;
    }
    RowOffsetsPre(count, m, i, j, j);
    ghost var before := out[..];
    var y := inp[pin + j * m + j];
    var x := y * diagfac;
    FillPreStep(before, ins, count, m, diagfac, i, j, j, y, y, x);
    out[pout + n] := x;
    assert out[..] == before[pout + n := x];
  }

  /** One block i of CCprecontract. */
  method BlockPre(out: array<real>, inp: array<real>, count: nat, m: nat, diagfac: real, i: nat,
                  ghost outs: seq<real>, ghost ins: seq<real>)
    requires out != inp
    requires i < count
    requires StatePre(out, inp, outs, ins, count, m, diagfac, BlockStart(Tri(m), i))
    modifies out
    ensures StatePre(out, inp, outs, ins, count, m, diagfac, BlockStart(Tri(m), i + 1))
  {
    var j := 0;
    while j < m
      invariant 0 <= j <= m
      invariant StatePre(out, inp, outs, ins, count, m, diagfac, BlockStart(Tri(m), i) + Tri(j))
    {
      RowPre(out, inp, count, m, diagfac, i, j, outs, ins);
      j := j + 1;
    }
  }

  /** CCprecontract: for each of count m x m blocks A of in, writes the
      lower triangle of A + A^T row by row, with the diagonal A[j,j] scaled
      by diagfac instead of doubled, into m * (m + 1) / 2 consecutive slots
      of out; slots past count * m * (m + 1) / 2 are left alone. */
  method Precontract(out: array<real>, inp: array<real>, count: nat, m: nat, diagfac: real)
    requires out != inp
    requires out.Length >= PackedSize(count, m) && inp.Length >= count * m * m
    modifies out
    ensures FilledPre(out[..], old(inp[..]), count, m, diagfac, PackedSize(count, m))
    ensures out[PackedSize(count, m)..] == old(out[PackedSize(count, m)..])
  {
    ghost var outs, ins := out[..], inp[..];
    var i := 0;
    while i < count
      invariant 0 <= i <= count
      invariant StatePre(out, inp, outs, ins, count, m, diagfac, BlockStart(Tri(m), i))
    {
      BlockPre(out, inp, count, m, diagfac, i, outs, ins);
      i := i + 1;
    }
    StatePreDone(out, inp, outs, ins, count, m, diagfac);
  }

  /** After the last block the loop state is the postcondition. */
  lemma StatePreDone(out: array<real>, inp: array<real>, outs: seq<real>, ins: seq<real>,
                     count: nat, m: nat, diagfac: real)
    requires StatePre(out, inp, outs, ins, count, m, diagfac, BlockStart(Tri(m), count))
    ensures FilledPre(out[..], ins, count, m, diagfac, PackedSize(count, m))
    ensures out[PackedSize(count, m)..] == outs[PackedSize(count, m)..]
  {
  }

  /** Entrywise product A[j,k] * B[j,k]. */
  function Weighted(a: Mat, b: Mat): (int, int) -> real { (j, k) => a(j, k) * b(j, k) }

  /** Row j of f up to and including the diagonal, summed. */
  function LowerRowSums(f: (int, int) -> real): int -> real { j => Sum(0, j + 1, Row(f, j)) }

  /** One row of the packed contraction: row j of p * b below and on the
      diagonal is row j of a * b left of the diagonal, plus column j of
      a * b above it, plus d times the diagonal term. */
  lemma PackedRowSum(p: Mat, a: Mat, b: Mat, d: real, j: int)
    requires 0 <= j
    requires forall k :: 0 <= k < j ==> p(j, k) == a(j, k) + a(k, j) && b(j, k) == b(k, j)
    requires p(j, j) == a(j, j) * d
    ensures LowerRowSums(Weighted(p, b))(j)
         == StrictLower(Weighted(a, b))(j) + StrictAbove(Weighted(a, b))(j) + d * Weighted(a, b)(j, j)
  {
    var f := Weighted(a, b);
    var g := Weighted(p, b);
    forall k | 0 <= k < j ensures Row(g, j)(k) == Row(f, j)(k) + Col(f, j)(k) {
      assert g(j, k) == (a(j, k) + a(k, j)) * b(j, k);
    }
    SumAdd(0, j, Row(f, j), Col(f, j), Row(g, j));
    assert g(j, j) == a(j, j) * d * b(j, j);
  }

  /** Summed over rows, the packed side is lower + above + d * diagonal. */
  lemma PackedSideSum(f: (int, int) -> real, g: (int, int) -> real, m: int, d: real)
    requires forall j :: 0 <= j < m ==> LowerRowSums(g)(j) == OffDiagonal(f)(j) + ScaledDiag(f, d)(j)
    ensures Sum(0, m, LowerRowSums(g))
         == Sum(0, m, StrictLower(f)) + Sum(0, m, StrictAbove(f)) + d * Sum(0, m, Diag(f))
  {
    SumAdd(0, m, OffDiagonal(f), ScaledDiag(f, d), LowerRowSums(g));
    OffDiagonalSum(f, m);
    ScaledDiagSum(f, m, d);
  }

  lemma ScaledDiagSum(f: (int, int) -> real, m: int, d: real)
    ensures Sum(0, m, ScaledDiag(f, d)) == d * Sum(0, m, Diag(f))
  {
    forall j | 0 <= j < m
      ensures ScaledDiag(f, d)(j) == d * Diag(f)(j)
    {
    }
    SumScale(0, m, d, Diag(f), ScaledDiag(f, d));
  }

  lemma OffDiagonalSum(f: (int, int) -> real, m: int)
    ensures Sum(0, m, OffDiagonal(f)) == Sum(0, m, StrictLower(f)) + Sum(0, m, StrictAbove(f))
  {
    SumAdd(0, m, StrictLower(f), StrictAbove(f), OffDiagonal(f));
  }

  /** Row j left of the diagonal plus column j above it, and d times the
      diagonal entry. */
  function OffDiagonal(f: (int, int) -> real): int -> real { j => StrictLower(f)(j) + StrictAbove(f)(j) }
  function ScaledDiag(f: (int, int) -> real, d: real): int -> real { j => d * f(j, j) }

  /** Summed over rows, the full side is lower + diagonal + upper. */
  lemma FullSideSum(f: (int, int) -> real, m: int)
    ensures Sum(0, m, RowSums(f, m))
         == Sum(0, m, StrictLower(f)) + Sum(0, m, Diag(f)) + Sum(0, m, StrictUpper(f, m))
  {
    forall j | 0 <= j < m
      ensures RowSums(f, m)(j) == StrictLower(f)(j) + f(j, j) + StrictUpper(f, m)(j)
    {
      SumSplit(0, j + 1, m, Row(f, j));
    }
    var lowerDiag := j => StrictLower(f)(j) + f(j, j);
    SumAdd(0, m, StrictLower(f), Diag(f), lowerDiag);
    SumAdd(0, m, lowerDiag, StrictUpper(f, m), RowSums(f, m));
  }

  /** p holds a[j,k] + a[k,j] below the diagonal and a[j,j] * d on it. */
  ghost predicate PackedTriangle(p: Mat, a: Mat, m: int, d: real)
  {
    (forall j, k :: 0 <= k < j < m ==> p(j, k) == a(j, k) + a(k, j)) &&
    (forall j :: 0 <= j < m ==> p(j, j) == a(j, j) * d)
  }

  ghost predicate SymmetricOn(b: Mat, m: int)
  {
    forall j, k :: 0 <= j < m && 0 <= k < m ==> b(j, k) == b(k, j)
  }

  /** The contraction of a packed triangle p with a symmetric b: when p
      holds a[j,k] + a[k,j] below the diagonal and d * a[j,j] on it,
      summing p * b over the lower triangle gives the full sum of a * b,
      off by (d - 1) times its diagonal part. */
  lemma TriangleFold(p: Mat, a: Mat, b: Mat, m: int, d: real)
    requires PackedTriangle(p, a, m, d)
    requires SymmetricOn(b, m)
    ensures Sum(0, m, LowerRowSums(Weighted(p, b)))
         == Sum(0, m, RowSums(Weighted(a, b), m)) + (d - 1.0) * Sum(0, m, Diag(Weighted(a, b)))
  {
    var f := Weighted(a, b);
    PackedTotal(p, a, b, m, d);
    FullSideSum(f, m);
    TriangleSwap(f, m);
    Regroup(Sum(0, m, LowerRowSums(Weighted(p, b))), Sum(0, m, RowSums(f, m)),
            Sum(0, m, StrictLower(f)), Sum(0, m, StrictAbove(f)), Sum(0, m, Diag(f)), d);
  }

  /** The packed side counts the diagonal d times, the full side once. */
  lemma Regroup(packed: real, full: real, lower: real, above: real, x: real, d: real)
    requires packed == lower + above + d * x
    requires full == lower + x + above
    ensures packed == full + (d - 1.0) * x
  {
    assert (d - 1.0) * x == d * x - x;
  }

  /** The packed contraction summed over all rows, split into the two
      off-diagonal triangles and the d-weighted diagonal. */
  lemma PackedTotal(p: Mat, a: Mat, b: Mat, m: int, d: real)
    requires PackedTriangle(p, a, m, d)
    requires SymmetricOn(b, m)
    ensures Sum(0, m, LowerRowSums(Weighted(p, b)))
         == Sum(0, m, StrictLower(Weighted(a, b))) + Sum(0, m, StrictAbove(Weighted(a, b)))
            + d * Sum(0, m, Diag(Weighted(a, b)))
  {
    PackedRows(p, a, b, m, d);
    PackedSideSum(Weighted(a, b), Weighted(p, b), m, d);
  }

  /** Every row of the packed contraction, as PackedRowSum states it. */
  lemma PackedRows(p: Mat, a: Mat, b: Mat, m: int, d: real)
    requires PackedTriangle(p, a, m, d)
    requires SymmetricOn(b, m)
    ensures forall j :: 0 <= j < m ==>
              LowerRowSums(Weighted(p, b))(j) == OffDiagonal(Weighted(a, b))(j) + ScaledDiag(Weighted(a, b), d)(j)
  {
    forall j | 0 <= j < m
      ensures LowerRowSums(Weighted(p, b))(j) == OffDiagonal(Weighted(a, b))(j) + ScaledDiag(Weighted(a, b), d)(j)
    {
      PackedRow(p, a, b, m, d, j);
    }
  }

  /** Row j of the packed contraction, from the triangle's layout. */
  lemma PackedRow(p: Mat, a: Mat, b: Mat, m: int, d: real, j: int)
    requires PackedTriangle(p, a, m, d)
    requires SymmetricOn(b, m)
    requires 0 <= j < m
    ensures LowerRowSums(Weighted(p, b))(j) == OffDiagonal(Weighted(a, b))(j) + ScaledDiag(Weighted(a, b), d)(j)
  {
    forall k | 0 <= k < j
      ensures p(j, k) == a(j, k) + a(k, j) && b(j, k) == b(k, j)
    {
    }
    PackedRowSum(p, a, b, d, j);
    var f := Weighted(a, b);
    assert OffDiagonal(f)(j) == StrictLower(f)(j) + StrictAbove(f)(j);
    assert ScaledDiag(f, d)(j) == d * f(j, j);
  }

  /** With d = 1 the packed contraction is exactly sum_jk a[j,k] b[j,k],
      which is Tr(ab) for symmetric b. */
  lemma TriangleFoldUnit(p: Mat, a: Mat, b: Mat, m: int)
    requires PackedTriangle(p, a, m, 1.0)
    requires SymmetricOn(b, m)
    ensures Sum(0, m, LowerRowSums(Weighted(p, b))) == Sum(0, m, RowSums(Weighted(a, b), m))
  {
    TriangleFold(p, a, b, m, 1.0);
  }

  /** Block i of the input as an m x m matrix. */
  function BlockMat(inp: seq<real>, count: nat, m: nat, i: int): Mat
  {
    (j, k) => if In3(count, m, i, j, k) && |inp| >= count * m * m then inp[Off3(count, m, i, j, k)] else 0.0
  }

  /** The packed triangle of block i of the output, read as a matrix that
      is zero above the diagonal. */
  function PackedMat(o: seq<real>, count: nat, m: nat, i: int): Mat
  {
    (j, k) => if InP(count, m, i, j, k) && |o| >= PackedSize(count, m) then o[OffP(count, m, i, j, k)] else 0.0
  }

  /** Block i of the filled output, read as a matrix, is the lower triangle
      of A + A^T with diagfac * A on the diagonal. */
  lemma PackedEntries(o: seq<real>, inp: seq<real>, count: nat, m: nat, diagfac: real, i: int)
    requires FilledPre(o, inp, count, m, diagfac, PackedSize(count, m))
    requires 0 <= i < count
    ensures PackedTriangle(PackedMat(o, count, m, i), BlockMat(inp, count, m, i), m, diagfac)
  {
    var p := PackedMat(o, count, m, i);
    var a := BlockMat(inp, count, m, i);
    forall j, k | 0 <= k < j < m ensures p(j, k) == a(j, k) + a(k, j) {
      assert InP(count, m, i, j, k) && In3(count, m, i, j, k) && In3(count, m, i, k, j);
    }
    forall j | 0 <= j < m ensures p(j, j) == a(j, j) * diagfac {
      assert InP(count, m, i, j, j) && In3(count, m, i, j, j);
    }
  }
}
