/** State averaging over several component CI solvers, as the DMRG
    state-average example does it: a dispatcher stands in for the CASSCF
    CI solver, forwards each entry point (kernel, approx_kernel, make_rdm1,
    make_rdm12) to component solvers, and combines what they return with
    fixed weights. The component solvers themselves are outside the model:
    their behaviour is an Engine, a record of functions, and a component
    object holds the settings the dispatcher reads or writes (orbital
    symmetry labels, scratch directory). */
module StateAverage {
  import opened Linalg

  /** Numbers of alpha and beta electrons, the (neleca, nelecb) pair. */
  datatype Nelec = Nelec(alpha: int, beta: int)

  /** The sector the triplet solver is asked for: one beta electron moved
      to alpha. It keeps the electron count and raises 2 S_z by two. */
  function TripletSector(n: Nelec): (r: Nelec)
    ensures r.alpha + r.beta == n.alpha + n.beta
    ensures r.alpha - r.beta == n.alpha - n.beta + 2
    ensures r.alpha == n.alpha + 1
  {
    Nelec(n.alpha + 1, n.beta - 1)
  }

  /** A component solver's handle on one of its wavefunctions; the
      dispatcher only passes these back to the solver that made them. */
  type State = seq<real>

  /** The active-space Hamiltonian (h1, h2) on norb orbitals. */
  datatype Hamiltonian = Hamiltonian(h1: Mat, h2: Tensor, norb: nat)

  /** What a component's kernel returns: one energy and one state per root.
      A single-root solver returns a one-element list of each. */
  datatype Roots = Roots(energies: seq<real>, states: seq<State>)

  /** The behaviour of a component solver: each entry point is a function of
      its arguments and of the orbital symmetry labels the solver holds. */
  datatype Engine = Engine(
    kernel: (Hamiltonian, Nelec, seq<int>) -> Roots,
    approxKernel: (Hamiltonian, Nelec, seq<int>) -> Roots,
    rdm1: (State, nat, Nelec, seq<int>) -> Mat,
    rdm12: (State, nat, Nelec, seq<int>) -> (Mat, Tensor))

  /** A component DMRG solver object. */
  class Dmrgci {
    var orbsym: seq<int>
    const scratch: string
    const engine: Engine

    constructor (engine: Engine, scratch: string, orbsym: seq<int>)
      ensures this.engine == engine && this.scratch == scratch && this.orbsym == orbsym
    {
      this.engine := engine;
      this.scratch := scratch;
      this.orbsym := orbsym;
    }
  }

  /** The scratch directories the example configures. */
  const Scratch1 := "/scratch/dmrg1"
  const Scratch2 := "/scratch/dmrg2"
  const Scratch3 := "/scratch/dmrg3"

  /** Three combination weights, in the order of the states they weigh. */
  datatype Weights = Weights(w0: real, w1: real, w2: real)

  /** 0.25 singlet + 0.25 singlet + 0.5 triplet. */
  const SpinWeights := Weights(0.25, 0.25, 0.5)
  /** Ag, B1g and B1u states. */
  const SymmetryWeights := Weights(0.2, 0.4, 0.4)

  predicate Convex(w: Weights)
  {
    w.w0 >= 0.0 && w.w1 >= 0.0 && w.w2 >= 0.0 && w.w0 + w.w1 + w.w2 == 1.0
  }

  /** a * w0 + b * w1 + c * w2, the combination applied to energies and,
      entry by entry, to density matrices. */
  function Mix(w: Weights, a: real, b: real, c: real): real
  {
    a * w.w0 + b * w.w1 + c * w.w2
  }

  function MixMat(w: Weights, a: Mat, b: Mat, c: Mat): Mat
  {
    (i, j) => Mix(w, a(i, j), b(i, j), c(i, j))
  }

  function MixTensor(w: Weights, a: Tensor, b: Tensor, c: Tensor): Tensor
  {
    (p, q, r, s) => Mix(w, a(p, q, r, s), b(p, q, r, s), c(p, q, r, s))
  }

  datatype Error = MissingRoot | MissingState
  datatype Result<T> = Ok(value: T) | Err(error: Error)

  /** What kernel returns: the averaged energy and the states to hand back
      to make_rdm1 / make_rdm12. */
  datatype Averaged = Averaged(energy: real, states: seq<State>)

  /** Which component, in which electron sector and with which symmetry
      labels, one state of the averaged list is evaluated by. */
  datatype Call = Call(engine: Engine, nelec: Nelec, orbsym: seq<int>)

  function Rdm1Of(c: Call, s: State, norb: nat): Mat
  {
    c.engine.rdm1(s, norb, c.nelec, c.orbsym)
  }

  function Rdm12Of(c: Call, s: State, norb: nat): (Mat, Tensor)
  {
    c.engine.rdm12(s, norb, c.nelec, c.orbsym)
  }

  /** make_rdm1 of both dispatchers: state k goes to call k, and the three
      one-body matrices are combined with the weights. */
  function WeightedRdm1(w: Weights, c0: Call, c1: Call, c2: Call, state: seq<State>, norb: nat): (r: Result<Mat>)
    ensures r.Err? <==> |state| < 3
    ensures r.Ok? ==> forall i, j :: (r.value(i, j) ==
      Mix(w, Rdm1Of(c0, state[0], norb)(i, j), Rdm1Of(c1, state[1], norb)(i, j), Rdm1Of(c2, state[2], norb)(i, j)))
  {
    if |state| < 3 then Err(MissingState)
    else Ok(MixMat(w, Rdm1Of(c0, state[0], norb), Rdm1Of(c1, state[1], norb), Rdm1Of(c2, state[2], norb)))
  }

  /** make_rdm12 of both dispatchers: the same weights on the one-body and
      on the two-body matrices. */
  function WeightedRdm12(w: Weights, c0: Call, c1: Call, c2: Call, state: seq<State>, norb: nat): (r: Result<(Mat, Tensor)>)
    ensures r.Err? <==> |state| < 3
    ensures r.Ok? ==> forall i, j :: (r.value.0(i, j) ==
      Mix(w, Rdm12Of(c0, state[0], norb).0(i, j), Rdm12Of(c1, state[1], norb).0(i, j), Rdm12Of(c2, state[2], norb).0(i, j)))
    ensures r.Ok? ==> forall p, q, s, t :: (r.value.1(p, q, s, t) ==
      Mix(w, Rdm12Of(c0, state[0], norb).1(p, q, s, t), Rdm12Of(c1, state[1], norb).1(p, q, s, t),
          Rdm12Of(c2, state[2], norb).1(p, q, s, t)))
  {
    if |state| < 3 then Err(MissingState)
    else
      var d0, d1, d2 := Rdm12Of(c0, state[0], norb), Rdm12Of(c1, state[1], norb), Rdm12Of(c2, state[2], norb);
      Ok((MixMat(w, d0.0, d1.0, d2.0), MixTensor(w, d0.1, d1.1, d2.1)))
  }

  // ---------------------------------------------------------------------
  // Averaging over spin states (FakeCISolver)
  // ---------------------------------------------------------------------

  /** kernel / approx_kernel of the spin-averaging dispatcher on what the
      singlet solver (two roots) and the triplet solver returned: the
      states r1[0], r1[1], r2 and each state's energy with its own weight. */
  function SpinCombine(w: Weights, singlet: Roots, triplet: Roots): (r: Result<Averaged>)
    ensures r.Ok? <==> |singlet.energies| >= 2 && |singlet.states| >= 2 && |triplet.energies| >= 1 && |triplet.states| >= 1
    ensures r.Ok? ==> r.value.states == [singlet.states[0], singlet.states[1], triplet.states[0]]
  {
    if |singlet.energies| < 2 || |singlet.states| < 2 || |triplet.energies| < 1 || |triplet.states| < 1 then Err(MissingRoot)
    else Ok(Averaged(Mix(w, singlet.energies[0], singlet.energies[1], triplet.energies[0]),
                     [singlet.states[0], singlet.states[1], triplet.states[0]]))
  }

  /** The energy as the example computes it: the first singlet energy
      carries the weights of both singlet states. */
  function SpinCombineAsWritten(w: Weights, singlet: Roots, triplet: Roots): (r: Result<Averaged>)
    ensures r.Ok? <==> |singlet.energies| >= 1 && |singlet.states| >= 2 && |triplet.energies| >= 1 && |triplet.states| >= 1
    ensures r.Ok? ==> r.value.states == [singlet.states[0], singlet.states[1], triplet.states[0]]
  {
    if |singlet.energies| < 1 || |singlet.states| < 2 || |triplet.energies| < 1 || |triplet.states| < 1 then Err(MissingRoot)
    else Ok(Averaged(singlet.energies[0] * (w.w0 + w.w1) + triplet.energies[0] * w.w2,
                     [singlet.states[0], singlet.states[1], triplet.states[0]]))
  }

  /** The two energies differ by w1 (e1[0] - e1[1]): they agree exactly
      when the second singlet state has no weight or the same energy. */
  lemma SpinEnergyDiscrepancy(w: Weights, singlet: Roots, triplet: Roots)
    requires SpinCombine(w, singlet, triplet).Ok?
    ensures SpinCombineAsWritten(w, singlet, triplet).Ok?
    ensures SpinCombineAsWritten(w, singlet, triplet).value.energy - SpinCombine(w, singlet, triplet).value.energy
            == w.w1 * (singlet.energies[0] - singlet.energies[1])
    ensures SpinCombineAsWritten(w, singlet, triplet) == SpinCombine(w, singlet, triplet)
            <==> w.w1 == 0.0 || singlet.energies[0] == singlet.energies[1]
  {
    var e0, e1, e2 := singlet.energies[0], singlet.energies[1], triplet.energies[0];
    assert e0 * (w.w0 + w.w1) == e0 * w.w0 + e0 * w.w1;
    assert w.w1 * (e0 - e1) == e0 * w.w1 - e1 * w.w1;
    if w.w1 != 0.0 && e0 != e1 {
      ProductNonZero(w.w1, e0 - e1);
    }
  }

  lemma ProductNonZero(x: real, y: real)
    requires x != 0.0 && y != 0.0
    ensures x * y != 0.0
  {
    if (x > 0.0 && y < 0.0) || (x < 0.0 && y > 0.0) {
      assert x * y < 0.0;
    } else {
      assert x * y > 0.0;
    }
  }

  /** With the example's weights, singlet energies -10 and -9 and triplet
      energy -8 average to -8.75, where the example reports -9. */
  lemma SpinEnergyCounterexample(s0: State, s1: State, s2: State)
    ensures SpinCombineAsWritten(SpinWeights, Roots([-10.0, -9.0], [s0, s1]), Roots([-8.0], [s2])).value.energy == -9.0
    ensures SpinCombine(SpinWeights, Roots([-10.0, -9.0], [s0, s1]), Roots([-8.0], [s2])).value.energy == -8.75
  {
  }

  /** FakeCISolver: averages two singlet states of solver1 and the triplet
      state of solver2. */
  class SpinAverageSolver {
    const solver1: Dmrgci
    const solver2: Dmrgci
    const weights: Weights

    constructor (solver1: Dmrgci, solver2: Dmrgci, weights: Weights)
      requires solver1.scratch != solver2.scratch
      ensures this.solver1 == solver1 && this.solver2 == solver2 && this.weights == weights
    {
      this.solver1 := solver1;
      this.solver2 := solver2;
      this.weights := weights;
    }

    /** The singlet, singlet and triplet calls the three states go to. */
    function Calls(nelec: Nelec): (Call, Call, Call)
      reads solver1, solver2
    {
      (Call(solver1.engine, nelec, solver1.orbsym),
       Call(solver1.engine, nelec, solver1.orbsym),
       Call(solver2.engine, TripletSector(nelec), solver2.orbsym))
    }

    function Kernel(h: Hamiltonian, nelec: Nelec): (r: Result<Averaged>)
      reads solver1, solver2
      ensures r.Ok? ==> |r.value.states| == 3
    {
      SpinCombine(weights, solver1.engine.kernel(h, nelec, solver1.orbsym),
                  solver2.engine.kernel(h, TripletSector(nelec), solver2.orbsym))
    }

    function ApproxKernel(h: Hamiltonian, nelec: Nelec): (r: Result<Averaged>)
      reads solver1, solver2
      ensures r.Ok? ==> |r.value.states| == 3
    {
      SpinCombine(weights, solver1.engine.approxKernel(h, nelec, solver1.orbsym),
                  solver2.engine.approxKernel(h, TripletSector(nelec), solver2.orbsym))
    }

    function MakeRdm1(state: seq<State>, norb: nat, nelec: Nelec): (r: Result<Mat>)
      reads solver1, solver2
      ensures r.Err? <==> |state| < 3
    {
      var cs := Calls(nelec);
      WeightedRdm1(weights, cs.0, cs.1, cs.2, state, norb)
    }

    function MakeRdm12(state: seq<State>, norb: nat, nelec: Nelec): (r: Result<(Mat, Tensor)>)
      reads solver1, solver2
      ensures r.Err? <==> |state| < 3
    {
      var cs := Calls(nelec);
      WeightedRdm12(weights, cs.0, cs.1, cs.2, state, norb)
    }
  }

  // ---------------------------------------------------------------------
  // Averaging over spatial symmetries (FakeCISolver1)
  // ---------------------------------------------------------------------

  /** kernel / approx_kernel of the symmetry-averaging dispatcher on what
      the three single-root solvers returned: states r1, r2, r3 in order and
      their energies with the weights. */
  function SymmetryCombine(w: Weights, r1: Roots, r2: Roots, r3: Roots): (r: Result<Averaged>)
    ensures r.Ok? <==> |r1.energies| >= 1 && |r1.states| >= 1 && |r2.energies| >= 1 && |r2.states| >= 1
                       && |r3.energies| >= 1 && |r3.states| >= 1
    ensures r.Ok? ==> r.value.states == [r1.states[0], r2.states[0], r3.states[0]]
  {
    if |r1.energies| < 1 || |r1.states| < 1 || |r2.energies| < 1 || |r2.states| < 1 || |r3.energies| < 1 || |r3.states| < 1
    then Err(MissingRoot)
    else Ok(Averaged(Mix(w, r1.energies[0], r2.energies[0], r3.energies[0]),
                     [r1.states[0], r2.states[0], r3.states[0]]))
  }

  /** FakeCISolver1: averages one state from each of three solvers of
      different wavefunction symmetry. The CASSCF driver sets orbsym on the
      dispatcher; every entry point copies it to the three components before
      calling any of them. */
  class SymmetryAverageSolver {
    var orbsym: seq<int>
    const solver1: Dmrgci
    const solver2: Dmrgci
    const solver3: Dmrgci
    const weights: Weights

    constructor (solver1: Dmrgci, solver2: Dmrgci, solver3: Dmrgci, weights: Weights, orbsym: seq<int>)
      requires solver1.scratch != solver2.scratch && solver1.scratch != solver3.scratch && solver2.scratch != solver3.scratch
      ensures this.solver1 == solver1 && this.solver2 == solver2 && this.solver3 == solver3
      ensures this.weights == weights && this.orbsym == orbsym
    {
      this.solver1 := solver1;
      this.solver2 := solver2;
      this.solver3 := solver3;
      this.weights := weights;
      this.orbsym := orbsym;
    }

    /** The calls the three states go to once the labels are broadcast: the
        same electrons and the dispatcher's labels for every component. */
    function Calls(nelec: Nelec): (Call, Call, Call)
      reads this
    {
      (Call(solver1.engine, nelec, orbsym), Call(solver2.engine, nelec, orbsym), Call(solver3.engine, nelec, orbsym))
    }

    /** dmrgsolver1.orbsym = dmrgsolver2.orbsym = dmrgsolver3.orbsym = self.orbsym */
    method Broadcast()
      modifies solver1`orbsym, solver2`orbsym, solver3`orbsym
      ensures solver1.orbsym == orbsym && solver2.orbsym == orbsym && solver3.orbsym == orbsym
    {
      solver1.orbsym := orbsym;
      solver2.orbsym := orbsym;
      solver3.orbsym := orbsym;
    }

    method Kernel(h: Hamiltonian, nelec: Nelec) returns (r: Result<Averaged>)
      modifies solver1`orbsym, solver2`orbsym, solver3`orbsym
      ensures solver1.orbsym == orbsym && solver2.orbsym == orbsym && solver3.orbsym == orbsym
      ensures r == SymmetryCombine(weights, solver1.engine.kernel(h, nelec, orbsym),
                                   solver2.engine.kernel(h, nelec, orbsym), solver3.engine.kernel(h, nelec, orbsym))
    {
      Broadcast();
      var r1 := solver1.engine.kernel(h, nelec, solver1.orbsym);
      var r2 := solver2.engine.kernel(h, nelec, solver2.orbsym);
      var r3 := solver3.engine.kernel(h, nelec, solver3.orbsym);
      r := SymmetryCombine(weights, r1, r2, r3);
    }

    method ApproxKernel(h: Hamiltonian, nelec: Nelec) returns (r: Result<Averaged>)
      modifies solver1`orbsym, solver2`orbsym, solver3`orbsym
      ensures solver1.orbsym == orbsym && solver2.orbsym == orbsym && solver3.orbsym == orbsym
      ensures r == SymmetryCombine(weights, solver1.engine.approxKernel(h, nelec, orbsym),
                                   solver2.engine.approxKernel(h, nelec, orbsym), solver3.engine.approxKernel(h, nelec, orbsym))
    {
      Broadcast();
      var r1 := solver1.engine.approxKernel(h, nelec, solver1.orbsym);
      var r2 := solver2.engine.approxKernel(h, nelec, solver2.orbsym);
      var r3 := solver3.engine.approxKernel(h, nelec, solver3.orbsym);
      r := SymmetryCombine(weights, r1, r2, r3);
    }

    method MakeRdm1(state: seq<State>, norb: nat, nelec: Nelec) returns (r: Result<Mat>)
      modifies solver1`orbsym, solver2`orbsym, solver3`orbsym
      ensures solver1.orbsym == orbsym && solver2.orbsym == orbsym && solver3.orbsym == orbsym
      ensures r == WeightedRdm1(weights, Calls(nelec).0, Calls(nelec).1, Calls(nelec).2, state, norb)
    {
      Broadcast();
      var c1 := Call(solver1.engine, nelec, solver1.orbsym);
      var c2 := Call(solver2.engine, nelec, solver2.orbsym);
      var c3 := Call(solver3.engine, nelec, solver3.orbsym);
      r := WeightedRdm1(weights, c1, c2, c3, state, norb);
    }

    method MakeRdm12(state: seq<State>, norb: nat, nelec: Nelec) returns (r: Result<(Mat, Tensor)>)
      modifies solver1`orbsym, solver2`orbsym, solver3`orbsym
      ensures solver1.orbsym == orbsym && solver2.orbsym == orbsym && solver3.orbsym == orbsym
      ensures r == WeightedRdm12(weights, Calls(nelec).0, Calls(nelec).1, Calls(nelec).2, state, norb)
    {
      Broadcast();
      var c1 := Call(solver1.engine, nelec, solver1.orbsym);
      var c2 := Call(solver2.engine, nelec, solver2.orbsym);
      var c3 := Call(solver3.engine, nelec, solver3.orbsym);
      r := WeightedRdm12(weights, c1, c2, c3, state, norb);
    }
  }

  // ---------------------------------------------------------------------
  // Properties of the weighted combination
  // ---------------------------------------------------------------------

  lemma MixAdd(w: Weights, a1: real, b1: real, c1: real, a2: real, b2: real, c2: real)
    ensures Mix(w, a1, b1, c1) + Mix(w, a2, b2, c2) == Mix(w, a1 + a2, b1 + b2, c1 + c2)
  {
    assert (a1 + a2) * w.w0 == a1 * w.w0 + a2 * w.w0;
    assert (b1 + b2) * w.w1 == b1 * w.w1 + b2 * w.w1;
    assert (c1 + c2) * w.w2 == c1 * w.w2 + c2 * w.w2;
  }

  lemma MixScale(x: real, w: Weights, a: real, b: real, c: real)
    ensures x * Mix(w, a, b, c) == Mix(w, x * a, x * b, x * c)
  {
    assert x * (a * w.w0) == (x * a) * w.w0;
    assert x * (b * w.w1) == (x * b) * w.w1;
    assert x * (c * w.w2) == (x * c) * w.w2;
  }

  /** A sum of combined terms is the combination of the three sums. */
  lemma {:induction false} SumMix(lo: int, hi: int, w: Weights, fa: int -> real, fb: int -> real, fc: int -> real, f: int -> real)
    requires forall k :: lo <= k < hi ==> f(k) == Mix(w, fa(k), fb(k), fc(k))
    ensures Sum(lo, hi, f) == Mix(w, Sum(lo, hi, fa), Sum(lo, hi, fb), Sum(lo, hi, fc))
    decreases hi - lo
  {
    if hi > lo {
      SumMix(lo, hi - 1, w, fa, fb, fc, f);
      MixAdd(w, Sum(lo, hi - 1, fa), Sum(lo, hi - 1, fb), Sum(lo, hi - 1, fc), fa(hi - 1), fb(hi - 1), fc(hi - 1));
    }
  }

  /** With non-negative weights summing to one, the averaged energy lies
      between the lowest and the highest component energy. */
  lemma MixBounds(w: Weights, a: real, b: real, c: real, lo: real, hi: real)
    requires Convex(w)
    requires lo <= a <= hi && lo <= b <= hi && lo <= c <= hi
    ensures lo <= Mix(w, a, b, c) <= hi
  {
    MixNonNegative(w, a - lo, b - lo, c - lo);
    MixAdd(w, a - lo, b - lo, c - lo, lo, lo, lo);
    MixNonNegative(w, hi - a, hi - b, hi - c);
    MixAdd(w, hi - a, hi - b, hi - c, a, b, c);
    MixConstant(w, lo);
    MixConstant(w, hi);
  }

  lemma MixNonNegative(w: Weights, a: real, b: real, c: real)
    requires w.w0 >= 0.0 && w.w1 >= 0.0 && w.w2 >= 0.0
    requires a >= 0.0 && b >= 0.0 && c >= 0.0
    ensures Mix(w, a, b, c) >= 0.0
  {
    assert a * w.w0 >= 0.0;
    assert b * w.w1 >= 0.0;
    assert c * w.w2 >= 0.0;
  }

  /** Weights summing to one leave a constant unchanged. */
  lemma MixConstant(w: Weights, x: real)
    requires w.w0 + w.w1 + w.w2 == 1.0
    ensures Mix(w, x, x, x) == x
  {
    assert x * w.w0 + x * w.w1 + x * w.w2 == x * (w.w0 + w.w1 + w.w2);
  }

  /** The example's weight lists are convex. */
  lemma ExampleWeightsConvex()
    ensures Convex(SpinWeights) && Convex(SymmetryWeights)
  {
  }

  /** The averaged one-body density matrix has trace N when every component
      matrix has trace N and the weights sum to one: the averaged state
      still holds N electrons. */
  lemma WeightedRdm1Trace(w: Weights, c0: Call, c1: Call, c2: Call, state: seq<State>, norb: nat, n: real)
    requires |state| >= 3 && w.w0 + w.w1 + w.w2 == 1.0
    requires Trace(Rdm1Of(c0, state[0], norb), norb) == n
    requires Trace(Rdm1Of(c1, state[1], norb), norb) == n
    requires Trace(Rdm1Of(c2, state[2], norb), norb) == n
    ensures Trace(WeightedRdm1(w, c0, c1, c2, state, norb).value, norb) == n
  {
    var a, b, c := Rdm1Of(c0, state[0], norb), Rdm1Of(c1, state[1], norb), Rdm1Of(c2, state[2], norb);
    var d := WeightedRdm1(w, c0, c1, c2, state, norb).value;
    SumMix(0, norb, w, Diag(a), Diag(b), Diag(c), Diag(d));
    MixConstant(w, n);
  }

  /** When each component's make_rdm12 returns its make_rdm1 as the
      one-body part, so does the dispatcher's. */
  lemma WeightedRdm12First(w: Weights, c0: Call, c1: Call, c2: Call, state: seq<State>, norb: nat)
    requires |state| >= 3
    requires forall i, j :: Rdm12Of(c0, state[0], norb).0(i, j) == Rdm1Of(c0, state[0], norb)(i, j)
    requires forall i, j :: Rdm12Of(c1, state[1], norb).0(i, j) == Rdm1Of(c1, state[1], norb)(i, j)
    requires forall i, j :: Rdm12Of(c2, state[2], norb).0(i, j) == Rdm1Of(c2, state[2], norb)(i, j)
    ensures forall i, j :: WeightedRdm12(w, c0, c1, c2, state, norb).value.0(i, j)
                           == WeightedRdm1(w, c0, c1, c2, state, norb).value(i, j)
  {
  }

  // ---------------------------------------------------------------------
  // The energy of a pair of density matrices
  // ---------------------------------------------------------------------

  /** Terms h1[p,q] d1[q,p] of row p of the one-body energy. */
  function OneBodyTerms(h1: Mat, d1: Mat, p: int): int -> real { q => h1(p, q) * d1(q, p) }
  function OneBodyRows(h1: Mat, d1: Mat, n: int): int -> real { p => Sum(0, n, OneBodyTerms(h1, d1, p)) }

  /** Terms h2[p,q,r,s] d2[p,q,r,s] of the two-body energy, summed from the
      innermost index outwards. */
  function TwoBodyS(h2: Tensor, d2: Tensor, p: int, q: int, r: int): int -> real { s => h2(p, q, r, s) * d2(p, q, r, s) }
  function TwoBodyR(h2: Tensor, d2: Tensor, n: int, p: int, q: int): int -> real { r => Sum(0, n, TwoBodyS(h2, d2, p, q, r)) }
  function TwoBodyQ(h2: Tensor, d2: Tensor, n: int, p: int): int -> real { q => Sum(0, n, TwoBodyR(h2, d2, n, p, q)) }
  function TwoBodyP(h2: Tensor, d2: Tensor, n: int): int -> real { p => Sum(0, n, TwoBodyQ(h2, d2, n, p)) }

  /** sum_pq h1[p,q] d1[q,p] + 1/2 sum_pqrs h2[p,q,r,s] d2[p,q,r,s]: the
      active-space energy a CI solver reports for a state with density
      matrices d1, d2. */
  function Energy(h: Hamiltonian, d1: Mat, d2: Tensor): real
  {
    Sum(0, h.norb, OneBodyRows(h.h1, d1, h.norb)) + 0.5 * Sum(0, h.norb, TwoBodyP(h.h2, d2, h.norb))
  }

  lemma OneBodyMix(h1: Mat, w: Weights, a: Mat, b: Mat, c: Mat, n: int)
    ensures Sum(0, n, OneBodyRows(h1, MixMat(w, a, b, c), n))
            == Mix(w, Sum(0, n, OneBodyRows(h1, a, n)), Sum(0, n, OneBodyRows(h1, b, n)), Sum(0, n, OneBodyRows(h1, c, n)))
  {
    var d := MixMat(w, a, b, c);
    forall p | 0 <= p < n
      ensures OneBodyRows(h1, d, n)(p) == Mix(w, OneBodyRows(h1, a, n)(p), OneBodyRows(h1, b, n)(p), OneBodyRows(h1, c, n)(p))
    {
      forall q | 0 <= q < n
        ensures OneBodyTerms(h1, d, p)(q) == Mix(w, OneBodyTerms(h1, a, p)(q), OneBodyTerms(h1, b, p)(q), OneBodyTerms(h1, c, p)(q))
      {
        MixScale(h1(p, q), w, a(q, p), b(q, p), c(q, p));
      }
      SumMix(0, n, w, OneBodyTerms(h1, a, p), OneBodyTerms(h1, b, p), OneBodyTerms(h1, c, p), OneBodyTerms(h1, d, p));
    }
    SumMix(0, n, w, OneBodyRows(h1, a, n), OneBodyRows(h1, b, n), OneBodyRows(h1, c, n), OneBodyRows(h1, d, n));
  }

  lemma TwoBodyMixR(h2: Tensor, w: Weights, a: Tensor, b: Tensor, c: Tensor, n: int, p: int, q: int, r: int)
    ensures TwoBodyR(h2, MixTensor(w, a, b, c), n, p, q)(r)
            == Mix(w, TwoBodyR(h2, a, n, p, q)(r), TwoBodyR(h2, b, n, p, q)(r), TwoBodyR(h2, c, n, p, q)(r))
  {
    var d := MixTensor(w, a, b, c);
    forall s | 0 <= s < n
      ensures TwoBodyS(h2, d, p, q, r)(s) == Mix(w, TwoBodyS(h2, a, p, q, r)(s), TwoBodyS(h2, b, p, q, r)(s), TwoBodyS(h2, c, p, q, r)(s))
    {
      MixScale(h2(p, q, r, s), w, a(p, q, r, s), b(p, q, r, s), c(p, q, r, s));
    }
    SumMix(0, n, w, TwoBodyS(h2, a, p, q, r), TwoBodyS(h2, b, p, q, r), TwoBodyS(h2, c, p, q, r), TwoBodyS(h2, d, p, q, r));
  }

  lemma TwoBodyMixQ(h2: Tensor, w: Weights, a: Tensor, b: Tensor, c: Tensor, n: int, p: int, q: int)
    ensures TwoBodyQ(h2, MixTensor(w, a, b, c), n, p)(q)
            == Mix(w, TwoBodyQ(h2, a, n, p)(q), TwoBodyQ(h2, b, n, p)(q), TwoBodyQ(h2, c, n, p)(q))
  {
    var d := MixTensor(w, a, b, c);
    forall r | 0 <= r < n
      ensures TwoBodyR(h2, d, n, p, q)(r) == Mix(w, TwoBodyR(h2, a, n, p, q)(r), TwoBodyR(h2, b, n, p, q)(r), TwoBodyR(h2, c, n, p, q)(r))
    {
      TwoBodyMixR(h2, w, a, b, c, n, p, q, r);
    }
    SumMix(0, n, w, TwoBodyR(h2, a, n, p, q), TwoBodyR(h2, b, n, p, q), TwoBodyR(h2, c, n, p, q), TwoBodyR(h2, d, n, p, q));
  }

  lemma TwoBodyMixP(h2: Tensor, w: Weights, a: Tensor, b: Tensor, c: Tensor, n: int, p: int)
    ensures TwoBodyP(h2, MixTensor(w, a, b, c), n)(p)
            == Mix(w, TwoBodyP(h2, a, n)(p), TwoBodyP(h2, b, n)(p), TwoBodyP(h2, c, n)(p))
  {
    var d := MixTensor(w, a, b, c);
    forall q | 0 <= q < n
      ensures TwoBodyQ(h2, d, n, p)(q) == Mix(w, TwoBodyQ(h2, a, n, p)(q), TwoBodyQ(h2, b, n, p)(q), TwoBodyQ(h2, c, n, p)(q))
    {
      TwoBodyMixQ(h2, w, a, b, c, n, p, q);
    }
    SumMix(0, n, w, TwoBodyQ(h2, a, n, p), TwoBodyQ(h2, b, n, p), TwoBodyQ(h2, c, n, p), TwoBodyQ(h2, d, n, p));
  }

  lemma TwoBodyMix(h2: Tensor, w: Weights, a: Tensor, b: Tensor, c: Tensor, n: int)
    ensures Sum(0, n, TwoBodyP(h2, MixTensor(w, a, b, c), n))
            == Mix(w, Sum(0, n, TwoBodyP(h2, a, n)), Sum(0, n, TwoBodyP(h2, b, n)), Sum(0, n, TwoBodyP(h2, c, n)))
  {
    forall p | 0 <= p < n
      ensures TwoBodyP(h2, MixTensor(w, a, b, c), n)(p) == Mix(w, TwoBodyP(h2, a, n)(p), TwoBodyP(h2, b, n)(p), TwoBodyP(h2, c, n)(p))
    {
      TwoBodyMixP(h2, w, a, b, c, n, p);
    }
    SumMix(0, n, w, TwoBodyP(h2, a, n), TwoBodyP(h2, b, n), TwoBodyP(h2, c, n), TwoBodyP(h2, MixTensor(w, a, b, c), n));
  }

  /** The energy is linear in the density matrices: the energy of the
      averaged matrices is the average of the energies. */
  lemma EnergyMix(h: Hamiltonian, w: Weights, a1: Mat, b1: Mat, c1: Mat, a2: Tensor, b2: Tensor, c2: Tensor)
    ensures Energy(h, MixMat(w, a1, b1, c1), MixTensor(w, a2, b2, c2))
            == Mix(w, Energy(h, a1, a2), Energy(h, b1, b2), Energy(h, c1, c2))
  {
    var n := h.norb;
    OneBodyMix(h.h1, w, a1, b1, c1, n);
    TwoBodyMix(h.h2, w, a2, b2, c2, n);
    var t1, t2, t3 := Sum(0, n, TwoBodyP(h.h2, a2, n)), Sum(0, n, TwoBodyP(h.h2, b2, n)), Sum(0, n, TwoBodyP(h.h2, c2, n));
    MixScale(0.5, w, t1, t2, t3);
    MixAdd(w, Sum(0, n, OneBodyRows(h.h1, a1, n)), Sum(0, n, OneBodyRows(h.h1, b1, n)), Sum(0, n, OneBodyRows(h.h1, c1, n)),
           0.5 * t1, 0.5 * t2, 0.5 * t3);
  }

  /** The first `count` roots a component returned report the energies of
      their own density matrices. */
  ghost predicate Consistent(h: Hamiltonian, c: Call, roots: Roots, count: nat)
  {
    |roots.energies| >= count && |roots.states| >= count &&
    forall k :: 0 <= k < count ==>
      roots.energies[k] == Energy(h, Rdm12Of(c, roots.states[k], h.norb).0, Rdm12Of(c, roots.states[k], h.norb).1)
  }

  /** Energy consistency of a combined kernel result: the averaged energy
      is the energy of the averaged density matrices of the returned states. */
  lemma CombinedEnergy(h: Hamiltonian, w: Weights, c0: Call, c1: Call, c2: Call, e: seq<real>, state: seq<State>)
    requires |e| == 3 && |state| == 3
    requires e[0] == Energy(h, Rdm12Of(c0, state[0], h.norb).0, Rdm12Of(c0, state[0], h.norb).1)
    requires e[1] == Energy(h, Rdm12Of(c1, state[1], h.norb).0, Rdm12Of(c1, state[1], h.norb).1)
    requires e[2] == Energy(h, Rdm12Of(c2, state[2], h.norb).0, Rdm12Of(c2, state[2], h.norb).1)
    ensures WeightedRdm12(w, c0, c1, c2, state, h.norb).Ok?
    ensures Mix(w, e[0], e[1], e[2]) == Energy(h, WeightedRdm12(w, c0, c1, c2, state, h.norb).value.0,
                                               WeightedRdm12(w, c0, c1, c2, state, h.norb).value.1)
  {
    var d0, d1, d2 := Rdm12Of(c0, state[0], h.norb), Rdm12Of(c1, state[1], h.norb), Rdm12Of(c2, state[2], h.norb);
    EnergyMix(h, w, d0.0, d1.0, d2.0, d0.1, d1.1, d2.1);
  }

  /** FakeCISolver: when both components report the energies of their own
      density matrices, the averaged kernel energy is the energy of the
      averaged density matrices make_rdm12 builds from the returned states
      (in the sectors nelec, nelec and the triplet sector). */
  lemma SpinKernelEnergy(solver: SpinAverageSolver, h: Hamiltonian, nelec: Nelec)
    requires Consistent(h, solver.Calls(nelec).0, solver.solver1.engine.kernel(h, nelec, solver.solver1.orbsym), 2)
    requires Consistent(h, solver.Calls(nelec).2,
                        solver.solver2.engine.kernel(h, TripletSector(nelec), solver.solver2.orbsym), 1)
    ensures solver.Kernel(h, nelec).Ok?
    ensures solver.MakeRdm12(solver.Kernel(h, nelec).value.states, h.norb, nelec).Ok?
    ensures solver.Kernel(h, nelec).value.energy
            == Energy(h, solver.MakeRdm12(solver.Kernel(h, nelec).value.states, h.norb, nelec).value.0,
                      solver.MakeRdm12(solver.Kernel(h, nelec).value.states, h.norb, nelec).value.1)
  {
    var cs := solver.Calls(nelec);
    var s1 := solver.solver1.engine.kernel(h, nelec, solver.solver1.orbsym);
    var s2 := solver.solver2.engine.kernel(h, TripletSector(nelec), solver.solver2.orbsym);
    CombinedEnergy(h, solver.weights, cs.0, cs.1, cs.2, [s1.energies[0], s1.energies[1], s2.energies[0]],
                   [s1.states[0], s1.states[1], s2.states[0]]);
  }

  /** The same for approx_kernel. */
  lemma SpinApproxKernelEnergy(solver: SpinAverageSolver, h: Hamiltonian, nelec: Nelec)
    requires Consistent(h, solver.Calls(nelec).0, solver.solver1.engine.approxKernel(h, nelec, solver.solver1.orbsym), 2)
    requires Consistent(h, solver.Calls(nelec).2,
                        solver.solver2.engine.approxKernel(h, TripletSector(nelec), solver.solver2.orbsym), 1)
    ensures solver.ApproxKernel(h, nelec).Ok?
    ensures solver.MakeRdm12(solver.ApproxKernel(h, nelec).value.states, h.norb, nelec).Ok?
    ensures solver.ApproxKernel(h, nelec).value.energy
            == Energy(h, solver.MakeRdm12(solver.ApproxKernel(h, nelec).value.states, h.norb, nelec).value.0,
                      solver.MakeRdm12(solver.ApproxKernel(h, nelec).value.states, h.norb, nelec).value.1)
  {
    var cs := solver.Calls(nelec);
    var s1 := solver.solver1.engine.approxKernel(h, nelec, solver.solver1.orbsym);
    var s2 := solver.solver2.engine.approxKernel(h, TripletSector(nelec), solver.solver2.orbsym);
    CombinedEnergy(h, solver.weights, cs.0, cs.1, cs.2, [s1.energies[0], s1.energies[1], s2.energies[0]],
                   [s1.states[0], s1.states[1], s2.states[0]]);
  }

  /** FakeCISolver1: the same consistency for the three symmetry components,
      all evaluated with the dispatcher's labels. */
  lemma SymmetryKernelEnergy(w: Weights, h: Hamiltonian, c0: Call, c1: Call, c2: Call)
    requires Consistent(h, c0, c0.engine.kernel(h, c0.nelec, c0.orbsym), 1)
    requires Consistent(h, c1, c1.engine.kernel(h, c1.nelec, c1.orbsym), 1)
    requires Consistent(h, c2, c2.engine.kernel(h, c2.nelec, c2.orbsym), 1)
    ensures SymmetryCombine(w, c0.engine.kernel(h, c0.nelec, c0.orbsym), c1.engine.kernel(h, c1.nelec, c1.orbsym),
                            c2.engine.kernel(h, c2.nelec, c2.orbsym)).Ok?
    ensures var r := SymmetryCombine(w, c0.engine.kernel(h, c0.nelec, c0.orbsym), c1.engine.kernel(h, c1.nelec, c1.orbsym),
                                     c2.engine.kernel(h, c2.nelec, c2.orbsym)).value;
            var d := WeightedRdm12(w, c0, c1, c2, r.states, h.norb);
            d.Ok? && r.energy == Energy(h, d.value.0, d.value.1)
  {
    var r0, r1, r2 := c0.engine.kernel(h, c0.nelec, c0.orbsym), c1.engine.kernel(h, c1.nelec, c1.orbsym),
                      c2.engine.kernel(h, c2.nelec, c2.orbsym);
    CombinedEnergy(h, w, c0, c1, c2, [r0.energies[0], r1.energies[0], r2.energies[0]],
                   [r0.states[0], r1.states[0], r2.states[0]]);
  }

  /** The averaged kernel energy of either dispatcher lies between the
      lowest and highest energy of the states it returns. */
  lemma SymmetryEnergyBounds(w: Weights, r1: Roots, r2: Roots, r3: Roots, lo: real, hi: real)
    requires Convex(w) && SymmetryCombine(w, r1, r2, r3).Ok?
    requires lo <= r1.energies[0] <= hi && lo <= r2.energies[0] <= hi && lo <= r3.energies[0] <= hi
    ensures lo <= SymmetryCombine(w, r1, r2, r3).value.energy <= hi
  {
    MixBounds(w, r1.energies[0], r2.energies[0], r3.energies[0], lo, hi);
  }

  lemma SpinEnergyBounds(w: Weights, singlet: Roots, triplet: Roots, lo: real, hi: real)
    requires Convex(w) && SpinCombine(w, singlet, triplet).Ok?
    requires lo <= singlet.energies[0] <= hi && lo <= singlet.energies[1] <= hi && lo <= triplet.energies[0] <= hi
    ensures lo <= SpinCombine(w, singlet, triplet).value.energy <= hi
  {
    MixBounds(w, singlet.energies[0], singlet.energies[1], triplet.energies[0], lo, hi);
  }

  /** The example's scratch directories are pairwise different, so both
      dispatchers can be built from them. */
  lemma ScratchDirectoriesDistinct()
    ensures Scratch1 != Scratch2 && Scratch1 != Scratch3 && Scratch2 != Scratch3
  {
    assert Scratch1[13] == '1' && Scratch2[13] == '2' && Scratch3[13] == '3';
  }
}
