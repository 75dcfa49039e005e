// The Jacobi-Davidson eigensolver (lib/eig_jacdav_quda.cpp).
//
// The solver grows a search space V one vector at a time, projects the
// operator onto it (H), sorts the Ritz pairs of H, locks converged pairs into
// the caller's eigSpace/evals, restarts by shrinking V to its best m_min
// directions, and expands V with the solution of a projected correction
// equation. The numerics are opaque (see JDNumerics); the model keeps the
// solver's bookkeeping: counters, H, buffers, solver settings that are changed
// around inner solves and restored afterwards, and the events (inner solver
// runs, warnings) the solver emits.

module JacobiDavidson {
  import opened Fields
  import opened JDNumerics

  // ---------------------------------------------------------------------
  // Process state and collaborators

  datatype Verbosity = Silent | Summarize | Verbose | DebugVerbose

  function Level(v: Verbosity): (l: nat)
    ensures l <= 3 && (l == 0 <==> v == Silent)
  {
    match v
    case Silent => 0
    case Summarize => 1
    case Verbose => 2
    case DebugVerbose => 3
  }

  /** What the solver does that an observer can see, besides the fields it writes. */
  datatype Event =
    | CgRun(shift: real, tol: real, maxiter: int, verbosity: Verbosity)
    | GcrRun(theta: real, tol: real, maxiter: int, verbosity: Verbosity)
    | ZeroSpinorWarning
    | ConvergenceWarning                  // warningQuda: restarts ran out before convergence

  /** The global verbosity setting and the log of events. */
  class Host {
    var verbosity: Verbosity
    var log: seq<Event>

    constructor (v: Verbosity)
      ensures verbosity == v && log == []
    {
      verbosity, log := v, [];
    }
  }

  /** The settings an inner solver reads each time it runs. */
  class SolverParam {
    var tol: real
    var maxiter: int
    var useInitGuess: bool
    var delta: real
    var preconditioned: bool

    constructor (t: real, mi: int, d: real)
      ensures tol == t && maxiter == mi && !useInitGuess && delta == d && preconditioned
    {
      tol, maxiter, useInitGuess, delta, preconditioned := t, mi, false, d, true;
    }

    constructor Copy(p: SolverParam)
      ensures tol == p.tol && maxiter == p.maxiter && useInitGuess == p.useInitGuess
      ensures delta == p.delta && preconditioned == p.preconditioned
    {
      tol, maxiter, useInitGuess, delta, preconditioned := p.tol, p.maxiter, p.useInitGuess, p.delta, p.preconditioned;
    }
  }

  /** A Dirac operator with a diagonal shift. */
  class DiracMatrix {
    var shift: real

    constructor (s: real)
      ensures shift == s
    {
      shift := s;
    }
  }

  /** A CG solver bound, like the source's, to an operator and a parameter object,
      whose current values it reads at every run. */
  class CG {
    const mat: DiracMatrix
    const param: SolverParam

    constructor (m: DiracMatrix, p: SolverParam)
      ensures mat == m && param == p
    {
      mat, param := m, p;
    }

    method Solve(x0: Field, b: Field, host: Host) returns (x: Field)
      modifies host`log
      ensures x == CgSolution(x0, b, mat.shift, param.tol, param.maxiter)
      ensures host.log == old(host.log) + [CgRun(mat.shift, param.tol, param.maxiter, host.verbosity)]
    {
      x := CgSolution(x0, b, mat.shift, param.tol, param.maxiter);
      host.log := host.log + [CgRun(mat.shift, param.tol, param.maxiter, host.verbosity)];
    }
  }

  /** The projected correction operator (DiracPrecProjCorr) and the state
      invertProjMat hands to it. */
  class ProjCorr {
    var projSpace: seq<Field>
    var theta: real
    var mproj: Complex
    var qhat: seq<Field>
    var matUnconst: DiracMatrix?
    var cg: CG?
    var solverParam: SolverParam?
    var k: int
    var tol: real
    var maxiter: int
    var yHat: Field

    constructor ()
      ensures projSpace == [] && qhat == [] && matUnconst == null && cg == null && solverParam == null
      ensures k == 0 && yHat == ZeroField
    {
      projSpace, theta, mproj, qhat := [], 0.0, OfReal(0.0), [];
      matUnconst, cg, solverParam := null, null, null;
      k, tol, maxiter, yHat := 0, 0.0, 0, ZeroField;
    }

    /** The assignments invertProjMat makes before handing the operator to GCR. */
    method Configure(q: seq<Field>, th: real, mp: Complex, qh: seq<Field>, a: DiracMatrix, solver: CG,
                     prm: SolverParam, kp: int, t: real, mi: int)
      modifies this`projSpace, this`theta, this`mproj, this`qhat, this`matUnconst, this`cg,
               this`solverParam, this`k, this`tol, this`maxiter
      ensures projSpace == q && theta == th && mproj == mp && qhat == qh && matUnconst == a
      ensures cg == solver && solverParam == prm && k == kp && tol == t && maxiter == mi
    {
      projSpace, theta, mproj, qhat := q, th, mp, qh;
      solverParam, matUnconst, cg := prm, a, solver;
      k, tol, maxiter := kp, t, mi;
    }

    /** matCorrEq: out = K^-1 (I - Q Qhat^dag)(A - theta) in, with a zero-input guard. */
    method Apply(input: Field, nums: Numerics, host: Host) returns (out: Field)
      requires matUnconst != null && cg != null && solverParam != null && cg.param == solverParam
      requires k == 1 && |projSpace| >= 1 && |qhat| >= 1
      modifies this`yHat, matUnconst`shift, solverParam`tol, solverParam`maxiter, host`verbosity, host`log
      ensures matUnconst.shift == old(matUnconst.shift) && cg.mat.shift == old(cg.mat.shift)
      ensures solverParam.tol == old(solverParam.tol) && solverParam.maxiter == old(solverParam.maxiter)
      ensures host.verbosity == old(host.verbosity)
      ensures nums.norm(input) == 0.0 ==>
                out == ZeroField && yHat == old(yHat)
                && host.log == old(host.log) + (if Level(host.verbosity) >= Level(Summarize) then [ZeroSpinorWarning] else [])
      ensures nums.norm(input) != 0.0 ==>
                var y := Axpy(Neg(OfReal(theta)), input, Applied(old(matUnconst.shift), input));
                var seen := if cg.mat == matUnconst then old(matUnconst.shift) - theta else old(cg.mat.shift);
                var solved := CgSolution(y, y, seen, tol, maxiter);
                out == Axpy(Neg(nums.divide(nums.dot(projSpace[0], solved), mproj)), qhat[0], solved)
                && yHat == out
                && host.log == old(host.log) + [CgRun(seen, tol, maxiter, Silent)]
    {
      var normBf := nums.norm(input);
      if normBf == 0.0 {
        if Level(host.verbosity) >= Level(Summarize) {
          host.log := host.log + [ZeroSpinorWarning];
        }
        out := ZeroField;
        return;
      }
      var a, solver, prm := matUnconst, cg, solverParam;
      out := Applied(a.shift, input);
      out := Axpy(Neg(OfReal(theta)), input, out);
      yHat := out;
      yHat := ShiftedSolve(a, theta, solver, tol, maxiter, prm, yHat, out, host);
      var gamma := nums.dot(projSpace[0], yHat);
      var alpha := nums.divide(gamma, mproj);
      yHat := Axpy(Neg(alpha), qhat[0], yHat);
      out := yHat;
    }
  }

  /** The GCR solver of the correction equation, bound to the projected operator. */
  class GCR {
    const op: ProjCorr
    const param: SolverParam

    constructor (o: ProjCorr, p: SolverParam)
      ensures op == o && param == p
    {
      op, param := o, p;
    }

    method Solve(x0: Field, b: Field, host: Host) returns (x: Field)
      modifies host`log
      ensures x == GcrSolution(x0, b, op.projSpace, op.qhat, op.theta, param.tol, param.maxiter)
      ensures host.log == old(host.log) + [GcrRun(op.theta, param.tol, param.maxiter, host.verbosity)]
    {
      x := GcrSolution(x0, b, op.projSpace, op.qhat, op.theta, param.tol, param.maxiter);
      host.log := host.log + [GcrRun(op.theta, param.tol, param.maxiter, host.verbosity)];
    }
  }

  /** K run with operator a shifted by -theta for the duration of the solve, as matCorrEq and
      invertProjMat do it; the solver sees the move only when it is bound to a. */
  method ShiftedSolve(a: DiracMatrix, theta: real, cg: CG, tol: real, maxiter: int, prm: SolverParam,
                      x: Field, b: Field, host: Host) returns (y: Field)
    requires cg.param == prm
    modifies a`shift, prm`tol, prm`maxiter, host`verbosity, host`log
    ensures a.shift == old(a.shift) && cg.mat.shift == old(cg.mat.shift)
    ensures prm.tol == old(prm.tol) && prm.maxiter == old(prm.maxiter) && host.verbosity == old(host.verbosity)
    ensures var seen := if cg.mat == a then old(a.shift) - theta else old(cg.mat.shift);
            y == CgSolution(x, b, seen, tol, maxiter) && host.log == old(host.log) + [CgRun(seen, tol, maxiter, Silent)]
  {
    var bareShift := a.shift;
    a.shift := bareShift - theta;
    y := K(cg, tol, maxiter, Silent, prm, x, b, host);
    a.shift := bareShift;
  }

  /** JD::K: run the CG with the given tolerance, iteration cap and verbosity, and put the
      parameter object and the verbosity back as they were. */
  method K(cg: CG, tol: real, maxiter: int, verb: Verbosity, prm: SolverParam,
           x: Field, b: Field, host: Host) returns (y: Field)
    modifies prm`tol, prm`maxiter, host`verbosity, host`log
    ensures prm.tol == old(prm.tol) && prm.maxiter == old(prm.maxiter)
    ensures host.verbosity == old(host.verbosity)
    ensures var t := if cg.param == prm then tol else cg.param.tol;
            var mi := if cg.param == prm then maxiter else cg.param.maxiter;
            y == CgSolution(x, b, cg.mat.shift, t, mi)
            && host.log == old(host.log) + [CgRun(cg.mat.shift, t, mi, verb)]
  {
    var verbTmp := host.verbosity;
    host.verbosity := verb;
    var tolBuff := prm.tol;
    prm.tol := tol;
    var maxiterBuff := prm.maxiter;
    prm.maxiter := maxiter;
    y := cg.Solve(x, b, host);
    prm.tol := tolBuff;
    prm.maxiter := maxiterBuff;
    host.verbosity := verbTmp;
  }

  /** sum_j coeffs[j] basis[j], accumulated one caxpy at a time into a zeroed field. */
  method LiftVector(coeffs: seq<Complex>, basis: seq<Field>) returns (f: Field)
    requires |coeffs| == |basis|
    ensures f == Lift(coeffs, basis)
    ensures Terms(f) == basis
  {
    f := ZeroField;
    for j := 0 to |basis|
      invariant f == Lift(coeffs[..j], basis[..j])
    {
      assert coeffs[..j + 1][..j] == coeffs[..j] && basis[..j + 1][..j] == basis[..j];
      f := Axpy(coeffs[j], basis[j], f);
    }
    assert coeffs[..|basis|] == coeffs && basis[..|basis|] == basis;
    LiftUsesBasis(coeffs, basis);
  }

  /** H(i, n) = c and H(n, i) = conj(c), everything else kept. */
  method SetMirrored(h: Matrix, i: nat, n: nat, c: Complex) returns (r: Matrix)
    requires i < n && Square(h, n + 1)
    ensures Square(r, n + 1)
    ensures forall a, b :: 0 <= a <= n && 0 <= b <= n ==>
              r[a][b] == if a == i && b == n then c else if a == n && b == i then Conj(c) else h[a][b]
  {
    r := h[i := h[i][n := c]];
    r := r[n := r[n][i := Conj(c)]];
  }

  /** H.conservativeResize(n+1, n+1) followed by the loop that writes the new column,
      its conjugate into the new row, and the new diagonal entry. */
  method GrowH(h: Matrix, col: seq<Complex>, corner: Complex) returns (h2: Matrix)
    requires Square(h, |h|) && |col| == |h|
    ensures h2 == Extend(h, col, corner)
  {
    var n := |h|;
    var size := n + 1;
    // the resize keeps the old block; every new entry is written below
    h2 := seq(size, i requires 0 <= i < size => if i < n then h[i] + [OfReal(0.0)] else seq(size, j => OfReal(0.0)));
    for i := 0 to n
      invariant Square(h2, size)
      invariant forall a, b :: 0 <= a < n && 0 <= b < n ==> h2[a][b] == h[a][b]
      invariant forall a :: 0 <= a < i ==> h2[a][n] == col[a] && h2[n][a] == Conj(col[a])
    {
      h2 := SetMirrored(h2, i, n, col[i]);
    }
    h2 := h2[n := h2[n][n := corner]];
    ghost var e := Extend(h, col, corner);
    forall a | 0 <= a < size ensures h2[a] == e[a] {
      assert |h2[a]| == |e[a]|;
    }
  }

  /** The loop that copies the m eigenpairs out of the eigensolver, in its order. */
  method EigenPairs(nums: Numerics, h: Matrix, m: nat) returns (ps: seq<RitzPair>)
    ensures ps == Decompose(nums, h, m)
  {
    ps := [];
    for i := 0 to m
      invariant ps == Decompose(nums, h, m)[..i]
    {
      ps := ps + [RitzPair(nums.eigenvalue(h, i), seq(m, j requires 0 <= j < m => nums.eigenvector(h, i, j)))];
    }
    assert Decompose(nums, h, m)[..m] == Decompose(nums, h, m);
  }

  // ---------------------------------------------------------------------
  // The eigensolver

  /** The locking loop of checkIfConverged, on the solver state as a value. */
  method LockConverged(nums: Numerics, pairs: seq<RitzPair>, basis: seq<Field>, shift: real, tol: real,
                       kMax: int, s0: LockState) returns (s: LockState, inRange: bool)
    requires 0 <= s0.loopr < |pairs| && VectorsFit(pairs, |basis|)
    requires 0 <= s0.k < kMax <= |s0.evals| && kMax <= |s0.eigSpace|
    ensures LockSpec(nums, pairs, basis, shift, tol, kMax, s0, s, inRange)
  {
    s, inRange := s0, true;
    while s.cur.norm < tol
      invariant s0.k <= s.k < kMax && s.converged == s0.converged
      invariant s.loopr == s0.loopr + (s.k - s0.k) && s.loopr < |pairs|
      invariant s.evals == LockedValues(s0.evals, pairs, s0.loopr, s0.k, s.k)
      invariant s.eigSpace == LockedVectors(s0.eigSpace, pairs, s0.loopr, s0.k, s.k, s0.cur.u, basis)
      invariant s.cur == if s.loopr == s0.loopr then s0.cur else Focus(nums, pairs[s.loopr], basis, shift)
      decreases kMax - s.k
    {
      // evals[k] = eigenpairs[loopr].first; X_tilde[k] = u; k++
      s := s.(evals := s.evals[s.k := OfReal(pairs[s.loopr].value)], eigSpace := s.eigSpace[s.k := s.cur.u]);
      s := s.(k := s.k + 1);
      if s.k >= kMax {
        s := s.(converged := true);
        return;
      }
      if s.loopr + 1 >= |pairs| {
        inRange := false;
        return;
      }
      var u := LiftVector(pairs[s.loopr + 1].vector, basis);
      var uA := Applied(shift, u);
      var theta := pairs[s.loopr + 1].value;
      var r := Axpy(Neg(OfReal(theta)), u, uA);
      s := s.(cur := Current(u, uA, theta, r, nums.norm(r)), loopr := s.loopr + 1);
    }
  }

  /** The first loop of shrinkSubspace: the new search space goes into the first `size` slots
      of tmpV (and its images into tmpAV), and H becomes the diagonal of the matching Ritz values. */
  method FillRestart(pairs: seq<RitzPair>, from: nat, size: nat, basis: seq<Field>, shift: real,
                     u: Field, uA: Field, tv0: seq<Field>, tav0: seq<Field>)
    returns (h: Matrix, tv: seq<Field>, tav: seq<Field>)
    requires from + size <= |pairs| && VectorsFit(pairs, |basis|)
    requires 1 <= size <= |tv0| && size <= |tav0|
    ensures h == Shrunk(pairs, from, size)
    ensures var nb := RestartBasis(pairs, from, size, basis, u);
            tv == nb + tv0[size..] && tav == RestartImages(nb, shift, uA) + tav0[size..]
  {
    ghost var nb := RestartBasis(pairs, from, size, basis, u);
    ghost var na := RestartImages(nb, shift, uA);
    // H.resize(m_min, m_min); H.setZero()
    h := seq(size, i requires 0 <= i < size => seq(size, j requires 0 <= j < size => OfReal(0.0)));
    tv, tav := tv0[0 := u], tav0[0 := uA];
    h := h[0 := h[0][0 := OfReal(pairs[from].value)]];
    for i := 1 to size
      invariant |tv| == |tv0| && |tav| == |tav0|
      invariant tv[..i] == nb[..i] && tv[size..] == tv0[size..]
      invariant tav[..i] == na[..i] && tav[size..] == tav0[size..]
      invariant |h| == size && forall a :: 0 <= a < size ==> |h[a]| == size
      invariant forall a, b :: 0 <= a < size && 0 <= b < size ==>
                  h[a][b] == if a == b && a < i then OfReal(pairs[from + a].value) else OfReal(0.0)
    {
      var f := LiftVector(pairs[from + i].vector, basis);
      tv := tv[i := f];
      h := h[i := h[i][i := OfReal(pairs[from + i].value)]];
      tav := tav[i := Applied(shift, f)];
    }
    ghost var sh := Shrunk(pairs, from, size);
    forall a | 0 <= a < size ensures h[a] == sh[a] {
      assert |h[a]| == |sh[a]|;
    }
    assert tv[..size] == nb;
    assert tav[..size] == na;
  }

  /** The second loop of shrinkSubspace: std::swap of the first n slots of two buffer lists. */
  method SwapPrefix<T>(a: seq<T>, b: seq<T>, n: nat) returns (a2: seq<T>, b2: seq<T>)
    requires n <= |a| && n <= |b|
    ensures a2 == b[..n] + a[n..] && b2 == a[..n] + b[n..]
    ensures multiset(a2) + multiset(b2) == multiset(a) + multiset(b)
  {
    a2, b2 := a, b;
    for i := 0 to n
      invariant |a2| == |a| && |b2| == |b|
      invariant forall j :: 0 <= j < |a| ==> a2[j] == if j < i then b[j] else a[j]
      invariant forall j :: 0 <= j < |b| ==> b2[j] == if j < i then a[j] else b[j]
    {
      var tmp := a2[i];
      a2 := a2[i := b2[i]];
      b2 := b2[i := tmp];
    }
    assert a2 == b[..n] + a[n..];
    assert b2 == a[..n] + b[n..];
    SwapPrefixPermutes(a, b, n);
  }

  /** shrinkSubspace's work on the buffers and H: build, then exchange. */
  method ShrinkBuffers(pairs: seq<RitzPair>, from: nat, size: nat, basis: seq<Field>, shift: real,
                       u: Field, uA: Field, b: Buffers) returns (h: Matrix, r: Buffers)
    requires from + size <= |pairs| && VectorsFit(pairs, |basis|)
    requires 1 <= size <= |b.v| && size <= |b.va| && size <= |b.tv| && size <= |b.tva|
    ensures h == Shrunk(pairs, from, size)
    ensures r == Restarted(pairs, from, size, basis, shift, u, uA, b)
  {
    var tv, tva;
    h, tv, tva := FillRestart(pairs, from, size, basis, shift, u, uA, b.tv, b.tva);
    var v, va;
    v, tv := SwapPrefix(b.v, tv, size);
    va, tva := SwapPrefix(b.va, tva, size);
    r := Buffers(v, va, tv, tva);
  }

  /** n zero fields. */
  function Zeros(n: nat): (z: seq<Field>)
    ensures |z| == n && forall i :: 0 <= i < n ==> z[i] == ZeroField
  {
    seq(n, _ => ZeroField)
  }

  /** A pair of buffer lists grown together, one zero field each per step, as moreInits
      pushes them. */
  method ZeroBuffers(n: nat) returns (a: seq<Field>, b: seq<Field>)
    ensures a == Zeros(n) && b == Zeros(n)
  {
    a, b := [], [];
    for i := 0 to n
      invariant a == Zeros(i) && b == Zeros(i)
    {
      a, b := a + [ZeroField], b + [ZeroField];
    }
  }

  datatype Spectrum = SR | LR | SM | LM | SI | LI

  /** The eigensolver parameters the JD solver reads. */
  datatype EigParam = EigParam(
    spectrum: Spectrum, tol: real, nConv: int, mMax: int, mMin: int, maxRestarts: int,
    requireConvergence: bool, vecInfile: string, corrEqTol: real, corrEqMaxiter: int,
    reliableDeltaRefinement: real)

  /** How a run of the solver ends. */
  datatype Outcome =
    | LoadedFromFile            // vectors were read from vec_infile instead
    | InvalidPrecisionError     // fatal: the initial vector has no valid precision
    | Converged                 // the requested number of pairs converged
    | NotConvergedError         // fatal: restarts exhausted and convergence required
    | NotConvergedWarning       // restarts exhausted; partial results kept, a warning issued
    | IndexOutOfRange           // the source would read past the end of the Ritz pairs

  /** How one iteration of the main loop ends. */
  datatype StepEnd = Continue | Finished | OutOfRange

  class JD {
    const host: Host
    const mat: DiracMatrix
    const matPrecon: DiracMatrix
    const param: EigParam
    const nums: Numerics
    const corrEqTol: real
    const corrEqMaxiter: int
    const solverParam: SolverParam
    const solverParamPrec: SolverParam
    const mmPP: ProjCorr
    const cg: CG
    const gcrPrec: GCR

    var k: int
    var kMax: int
    var m: int
    var mMax: int
    var mMin: int
    var loopr: int
    var theta: real
    var norm: real
    var converged: bool
    var restartIter: int
    var iter: int

    var V: seq<Field>
    var VA: seq<Field>
    var tmpV: seq<Field>
    var tmpAV: seq<Field>
    var u: Field
    var uA: Field
    var r: Field
    var t: Field
    var rTilde: Field
    var qhat: Field

    var eigSpace: seq<Field>
    var evals: seq<Complex>

    /** The part of the solver state checkIfConverged works on. */
    function State(): (s: LockState)
      reads this
      ensures s.k == k && s.loopr == loopr && s.evals == evals && s.eigSpace == eigSpace && s.converged == converged
      ensures s.cur == Current(u, uA, theta, r, norm)
    {
      LockState(k, loopr, evals, eigSpace, Current(u, uA, theta, r, norm), converged)
    }

    /** How the constructor connects the solvers to their operator and parameters. */
    predicate Wired()
    {
      cg.mat == mat && cg.param == solverParam && gcrPrec.op == mmPP
      && gcrPrec.param == solverParamPrec && solverParam != solverParamPrec
    }

    constructor (h: Host, a: DiracMatrix, aPrecon: DiracMatrix, p: EigParam, ns: Numerics)
      ensures Wired() && host == h && mat == a && matPrecon == aPrecon && param == p && nums == ns
      ensures corrEqTol == p.corrEqTol && corrEqMaxiter == p.corrEqMaxiter
      ensures fresh(solverParam) && fresh(solverParamPrec) && fresh(mmPP)
      ensures solverParam.tol == p.corrEqTol && solverParam.maxiter == p.corrEqMaxiter
      ensures solverParam.useInitGuess && solverParam.delta == p.reliableDeltaRefinement
      ensures !solverParam.preconditioned
      ensures solverParamPrec.tol == 0.01 && solverParamPrec.maxiter == 5
      ensures solverParamPrec.useInitGuess && solverParamPrec.delta == p.reliableDeltaRefinement
      ensures !solverParamPrec.preconditioned
      ensures mmPP.matUnconst == null && mmPP.k == 0
      ensures k == 0 && m == 0 && loopr == 0 && restartIter == 0 && iter == 0 && !converged
      ensures V == [] && VA == [] && tmpV == [] && tmpAV == []
    {
      host, mat, matPrecon, param, nums := h, a, aPrecon, p, ns;
      corrEqTol := p.corrEqTol;
      corrEqMaxiter := p.corrEqMaxiter;
      var sp := new SolverParam(p.tol, 0, p.reliableDeltaRefinement);
      sp.tol := p.corrEqTol;
      sp.maxiter := p.corrEqMaxiter;
      sp.useInitGuess := true;
      sp.preconditioned := false;
      var spPrec := new SolverParam.Copy(sp);
      spPrec.maxiter := 5;
      spPrec.tol := 0.01;
      solverParam, solverParamPrec := sp, spPrec;
      var pc := new ProjCorr();
      mmPP := pc;
      cg := new CG(a, sp);
      gcrPrec := new GCR(pc, spPrec);
      k, kMax, m, mMax, mMin, loopr := 0, 0, 0, 0, 0, 0;
      theta, norm, converged, restartIter, iter := 0.0, 0.0, false, 0, 0;
      V, VA, tmpV, tmpAV := [], [], [], [];
      u, uA, r, t, rTilde, qhat := ZeroField, ZeroField, ZeroField, ZeroField, ZeroField, ZeroField;
      eigSpace, evals := [], [];
    }

    /** JD::JD: only the smallest-real spectrum is accepted. */
    static method Create(h: Host, a: DiracMatrix, aPrecon: DiracMatrix, p: EigParam, ns: Numerics)
      returns (jd: JD?)
      ensures jd == null <==> p.spectrum != SR
      ensures jd != null ==> fresh(jd) && jd.Wired() && jd.host == h && jd.mat == a
                             && jd.matPrecon == aPrecon && jd.param == p && jd.nums == ns
      ensures jd != null ==> fresh(jd.solverParam) && fresh(jd.solverParamPrec) && fresh(jd.mmPP)
      ensures jd != null ==> jd.solverParam.tol == p.corrEqTol && jd.solverParam.maxiter == p.corrEqMaxiter
                             && jd.solverParam.useInitGuess
      ensures jd != null ==> jd.solverParamPrec.tol == 0.01 && jd.solverParamPrec.maxiter == 5
                             && jd.solverParamPrec.useInitGuess
      ensures jd != null ==> jd.V == [] && jd.restartIter == 0 && jd.iter == 0 && !jd.converged
    {
      if p.spectrum != SR {
        return null;
      }
      jd := new JD(h, a, aPrecon, p, ns);
    }

    /** orth: no-op on an empty space, else two passes of normalise-then-project. */
    method Orth(x: Field, space: seq<Field>, size: int) returns (y: Field)
      requires 0 <= size <= |space|
      modifies this`norm
      ensures y == Orthogonalised(nums, x, space, size)
      ensures size == 0 ==> norm == old(norm)
      ensures size != 0 ==> y == OrthPasses(nums, x, space[..size], 2)
                            && norm == nums.norm(OrthPasses(nums, x, space[..size], 1))
    {
      if size == 0 {
        return x;
      }
      var sp := space[..size];
      y := x;
      for j := 0 to 2
        invariant y == OrthPasses(nums, x, sp, j)
        invariant j > 0 ==> norm == nums.norm(OrthPasses(nums, x, sp, j - 1))
      {
        norm := nums.norm(y);
        var v := InvScaled(norm, y);
        var dots := seq(size, i requires 0 <= i < size => Neg(nums.dot(sp[i], v)));
        y := BlockAxpy(dots, sp, v);
      }
    }

    /** moreInits: the work vectors, and m_max-long buffer lists for V, V_A, tmpV, tmpAV,
        all zero fields. */
    method MoreInits(initVec: Field)
      requires mMax >= 0
      modifies this`r, this`rTilde, this`qhat, this`t, this`u, this`uA, this`V, this`VA, this`tmpV, this`tmpAV, mmPP`yHat
      ensures (t, r, rTilde, qhat, u, uA, mmPP.yHat) == (initVec, ZeroField, ZeroField, ZeroField, ZeroField, ZeroField, ZeroField)
      ensures (V, VA, tmpV, tmpAV) == old((Zeros(mMax), Zeros(mMax), Zeros(mMax), Zeros(mMax)))
    {
      var v, va := ZeroBuffers(mMax);
      var tv, tav := ZeroBuffers(mMax);
      r, rTilde, qhat := ZeroField, ZeroField, ZeroField;
      mmPP.yHat := ZeroField;
      t := initVec;
      u, uA := ZeroField, ZeroField;
      V, VA, tmpV, tmpAV := v, va, tv, tav;
    }

    /** eigsolveInSubspace: grow H by one row and column of dot products, decompose it,
        and sort the m Ritz pairs by value. */
    method EigsolveInSubspace(h: Matrix) returns (h2: Matrix, pairs: seq<RitzPair>)
      requires 1 <= m <= |V| && m <= |VA| && Square(h, m - 1)
      ensures h2 == Extend(h, NewColumn(nums, V, VA, m - 1), nums.dot(V[m - 1], VA[m - 1]))
      ensures Square(h2, m) && (HermitianOffDiagonal(h) ==> HermitianOffDiagonal(h2))
      ensures pairs == SortByValue(Decompose(nums, h2, m))
      ensures |pairs| == m && Ascending(pairs) && multiset(pairs) == multiset(Decompose(nums, h2, m))
      ensures forall i :: 0 <= i < m ==> |pairs[i].vector| == m
    {
      var n := m - 1;
      var col := NewColumn(nums, V, VA, n);
      var corner := nums.dot(V[n], VA[n]);
      h2 := GrowH(h, col, corner);
      if HermitianOffDiagonal(h) {
        ExtendKeepsHermitian(h, col, corner);
      }
      var unsorted := EigenPairs(nums, h2, m);
      pairs := SortByValue(unsorted);
      SortKeepsLengths(unsorted, m);
    }

    /** checkIfConverged: lock converged Ritz pairs into evals/eigSpace (see LockSpec). */
    method CheckIfConverged(pairs: seq<RitzPair>) returns (inRange: bool)
      requires |pairs| == m && m <= |V| && 0 <= loopr < m && VectorsFit(pairs, m)
      requires 0 <= k < kMax && kMax <= |evals| && kMax <= |eigSpace|
      modifies this`evals, this`eigSpace, this`k, this`converged, this`u, this`uA, this`theta, this`r, this`norm, this`loopr
      ensures LockSpec(nums, pairs, old(V[..m]), old(mat.shift), param.tol, old(kMax), old(State()), State(), inRange)
    {
      var s;
      s, inRange := LockConverged(nums, pairs, V[..m], mat.shift, param.tol, kMax, State());
      k, loopr, evals, eigSpace, converged := s.k, s.loopr, s.evals, s.eigSpace, s.converged;
      u, uA, theta, r, norm := s.cur.u, s.cur.uA, s.cur.theta, s.cur.r, s.cur.norm;
    }

    /** shrinkSubspace: restart from the m_min Ritz vectors starting at loopr (see Restarted
        for the buffers); H becomes the diagonal of their Ritz values. */
    method ShrinkSubspace(pairs: seq<RitzPair>) returns (h: Matrix)
      requires |pairs| == m && 1 <= mMin && 0 <= loopr && loopr + mMin <= m && VectorsFit(pairs, m)
      requires m <= |V| && |VA| == |V| && |tmpV| == |V| && |tmpAV| == |V|
      modifies this`tmpV, this`tmpAV, this`V, this`VA, this`m, this`restartIter, this`loopr, this`theta
      ensures h == old(Shrunk(pairs, loopr, mMin))
      ensures Buffers(V, VA, tmpV, tmpAV)
              == old(Restarted(pairs, loopr, mMin, V[..m], mat.shift, u, uA, Buffers(V, VA, tmpV, tmpAV)))
      ensures m == mMin && loopr == 0 && restartIter == old(restartIter) + 1
      ensures theta == pairs[old(loopr)].value
    {
      var b;
      h, b := ShrinkBuffers(pairs, loopr, mMin, V[..m], mat.shift, u, uA, Buffers(V, VA, tmpV, tmpAV));
      m := mMin;
      V, VA, tmpV, tmpAV := b.v, b.va, b.tv, b.tva;
      restartIter := restartIter + 1;
      loopr := 0;
      theta := h[0][0].re;
    }

    /** The shift the CG sees while invertProjMat has moved matPrecon's shift by -theta:
        the CG is bound to mat, so it sees the move only when mat is matPrecon. */
    function SeenShift(): (sh: real)
      reads this, mat, matPrecon
      ensures mat == matPrecon ==> sh == matPrecon.shift - theta
      ensures mat != matPrecon ==> sh == mat.shift
    {
      if mat == matPrecon then matPrecon.shift - theta else mat.shift
    }

    /** The block invertProjMat runs twice: shift matPrecon by -theta, solve K y = b with the
        CG at the correction-equation tolerance and iteration cap, silently, and shift back. */
    method ShiftedK(b: Field) returns (y: Field)
      requires Wired()
      modifies matPrecon`shift, solverParam`tol, solverParam`maxiter, host`verbosity, host`log
      ensures matPrecon.shift == old(matPrecon.shift) && mat.shift == old(mat.shift)
      ensures solverParam.tol == old(solverParam.tol) && solverParam.maxiter == old(solverParam.maxiter)
      ensures host.verbosity == old(host.verbosity)
      ensures y == CgSolution(b, b, old(SeenShift()), corrEqTol, corrEqMaxiter)
      ensures host.log == old(host.log) + [CgRun(old(SeenShift()), corrEqTol, corrEqMaxiter, Silent)]
    {
      y := ShiftedSolve(matPrecon, theta, cg, corrEqTol, corrEqMaxiter, solverParam, b, b, host);
    }

    /** Steps 1-4 of invertProjMat with kp = 1: Qhat = K^-1 u, M = u^dag Qhat, and
        r_tilde = -(I - Qhat M^-1 u^dag) K^-1 b, each K run with matPrecon shifted by -theta. */
    method Precondition(b: Field) returns (mproj: Complex)
      requires Wired()
      modifies matPrecon`shift, solverParam`tol, solverParam`maxiter, host`verbosity, host`log
      modifies this`qhat, this`rTilde
      ensures matPrecon.shift == old(matPrecon.shift) && mat.shift == old(mat.shift)
      ensures solverParam.tol == old(solverParam.tol) && solverParam.maxiter == old(solverParam.maxiter)
      ensures host.verbosity == old(host.verbosity)
      ensures qhat == CgSolution(u, u, old(SeenShift()), corrEqTol, corrEqMaxiter)
      ensures mproj == nums.dot(u, qhat)
      ensures var rHat := CgSolution(b, b, old(SeenShift()), corrEqTol, corrEqMaxiter);
              rTilde == Scaled(-1.0, Axpy(Neg(nums.divide(nums.dot(u, rHat), mproj)), qhat, rHat))
      ensures host.log == old(host.log) + [CgRun(old(SeenShift()), corrEqTol, corrEqMaxiter, Silent),
                                           CgRun(old(SeenShift()), corrEqTol, corrEqMaxiter, Silent)]
    {
      qhat := ShiftedK(u);
      mproj := nums.dot(u, qhat);
      rTilde := ShiftedK(b);
      var gamma := nums.dot(u, rTilde);
      var alpha := nums.divide(gamma, mproj);
      rTilde := Axpy(Neg(alpha), qhat, rTilde);
      rTilde := Scaled(-1.0, rTilde);
    }

    /** Step 5 of invertProjMat: x = 0, then the GCR solve of the projected correction
        equation with the verbosity set to silent and restored afterwards. */
    method SilentGcr(rhs: Field) returns (x: Field)
      modifies host`verbosity, host`log
      ensures host.verbosity == old(host.verbosity)
      ensures x == GcrSolution(ZeroField, rhs, gcrPrec.op.projSpace, gcrPrec.op.qhat, gcrPrec.op.theta,
                               gcrPrec.param.tol, gcrPrec.param.maxiter)
      ensures host.log == old(host.log) + [GcrRun(gcrPrec.op.theta, gcrPrec.param.tol, gcrPrec.param.maxiter, Silent)]
    {
      x := ZeroField;
      var verbTmp := host.verbosity;
      host.verbosity := Silent;
      x := gcrPrec.Solve(x, rhs, host);
      host.verbosity := verbTmp;
    }

    /** invertProjMat with a one-vector projection space (kp = 1, the only way the solver
        calls it): precondition u and the residual b, project, and hand the projected
        correction equation to the GCR solver, silently. */
    method InvertProjMat(b: Field) returns (x: Field)
      requires Wired()
      modifies matPrecon`shift, solverParam`tol, solverParam`maxiter, host`verbosity, host`log
      modifies this`qhat, this`rTilde
      modifies mmPP`projSpace, mmPP`theta, mmPP`mproj, mmPP`qhat, mmPP`matUnconst, mmPP`cg,
               mmPP`solverParam, mmPP`k, mmPP`tol, mmPP`maxiter
      ensures matPrecon.shift == old(matPrecon.shift) && mat.shift == old(mat.shift)
      ensures solverParam.tol == old(solverParam.tol) && solverParam.maxiter == old(solverParam.maxiter)
      ensures host.verbosity == old(host.verbosity)
      ensures qhat == CgSolution(u, u, old(SeenShift()), corrEqTol, corrEqMaxiter)
      ensures var rHat := CgSolution(b, b, old(SeenShift()), corrEqTol, corrEqMaxiter);
              var alpha := nums.divide(nums.dot(u, rHat), nums.dot(u, qhat));
              rTilde == Scaled(-1.0, Axpy(Neg(alpha), qhat, rHat))
      ensures mmPP.projSpace == [u] && mmPP.theta == theta && mmPP.mproj == nums.dot(u, qhat)
      ensures mmPP.qhat == [qhat] && mmPP.matUnconst == matPrecon && mmPP.cg == cg
      ensures mmPP.solverParam == solverParam && mmPP.k == 1
      ensures mmPP.tol == corrEqTol && mmPP.maxiter == corrEqMaxiter
      ensures x == GcrSolution(ZeroField, rTilde, [u], [qhat], theta, solverParamPrec.tol, solverParamPrec.maxiter)
      ensures host.log == old(host.log) + [CgRun(old(SeenShift()), corrEqTol, corrEqMaxiter, Silent),
                                           CgRun(old(SeenShift()), corrEqTol, corrEqMaxiter, Silent),
                                           GcrRun(theta, solverParamPrec.tol, solverParamPrec.maxiter, Silent)]
    {
      var mproj := Precondition(b);
      mmPP.Configure([u], theta, mproj, [qhat], matPrecon, cg, solverParam, 1, corrEqTol, corrEqMaxiter);
      x := SilentGcr(rTilde);
    }

    /** The top of each iteration: t orthogonalised against the locked vectors and then
        the search space, normalised into slot m, and its image under the operator. */
    method Expand()
      requires 0 <= k <= |eigSpace| && 0 <= m < |V| && |VA| == |V|
      modifies this`t, this`norm, this`m, this`V, this`VA
      ensures t == old(Orthogonalised(nums, Orthogonalised(nums, t, eigSpace, k), V, m))
      ensures norm == nums.norm(t) && m == old(m) + 1
      ensures V == old(V)[old(m) := InvScaled(norm, t)]
      ensures VA == old(VA)[old(m) := Applied(mat.shift, InvScaled(norm, t))]
    {
      var x := Orth(t, eigSpace, k);
      x := Orth(x, V, m);
      var n := nums.norm(x);
      var v := InvScaled(n, x);
      t, norm, m := x, n, m + 1;
      V, VA := V[m - 1 := v], VA[m - 1 := Applied(mat.shift, v)];
    }

    /** The residual after each eigendecomposition: the Ritz pair at loopr lifted through
        the search space, its image, and r = uA - theta u with its norm. */
    method Residual(pairs: seq<RitzPair>)
      requires 0 <= loopr < |pairs| && |pairs[loopr].vector| == m && 0 <= m <= |V|
      modifies this`u, this`uA, this`theta, this`r, this`norm
      ensures Current(u, uA, theta, r, norm) == Focus(nums, pairs[loopr], V[..m], mat.shift)
    {
      u := LiftVector(pairs[loopr].vector, V[..m]);
      uA := Applied(mat.shift, u);
      theta := pairs[loopr].value;
      r := Axpy(Neg(OfReal(theta)), u, uA);
      norm := nums.norm(r);
    }

    /** The first half of an iteration: grow the search space by t, grow and decompose H,
        and compute the residual of the Ritz pair at loopr. */
    method Explore(h: Matrix) returns (h2: Matrix, pairs: seq<RitzPair>)
      requires 0 <= loopr <= m < |V| && |VA| == |V| && 0 <= k <= |eigSpace|
      requires Square(h, m) && HermitianOffDiagonal(h)
      modifies this`t, this`norm, this`m, this`V, this`VA, this`u, this`uA, this`theta, this`r
      ensures m == old(m) + 1 && |V| == old(|V|) && |VA| == old(|VA|)
      ensures Square(h2, m) && HermitianOffDiagonal(h2)
      ensures |pairs| == m && VectorsFit(pairs, m) && Ascending(pairs)
    {
      Expand();
      h2, pairs := EigsolveInSubspace(h);
      Residual(pairs);
    }

    /** The second half: lock the pairs that converged, stop once k_max are locked, and
        restart when the search space is full. */
    method Settle(h: Matrix, pairs: seq<RitzPair>) returns (h2: Matrix, next: StepEnd)
      requires |V| == mMax && |VA| == mMax && |tmpV| == mMax && |tmpAV| == mMax
      requires |pairs| == m && VectorsFit(pairs, m) && 1 <= mMin < mMax && 0 <= loopr < m <= mMax
      requires 0 <= k < kMax <= |evals| && kMax <= |eigSpace|
      requires Square(h, m) && HermitianOffDiagonal(h) && !converged
      modifies this`evals, this`eigSpace, this`k, this`converged, this`u, this`uA, this`theta, this`r, this`norm
      modifies this`loopr, this`tmpV, this`tmpAV, this`V, this`VA, this`m, this`restartIter
      ensures |V| == mMax && |VA| == mMax && |tmpV| == mMax && |tmpAV| == mMax
      ensures |evals| == old(|evals|) && |eigSpace| == old(|eigSpace|)
      ensures 0 <= k <= kMax && (converged <==> next == Finished) && (converged ==> k == kMax)
      ensures next == Continue ==> 0 <= loopr < m < mMax && k < kMax && Square(h2, m) && HermitianOffDiagonal(h2)
      ensures next == Continue && old(m) < mMax ==>
                restartIter == old(restartIter) && m == old(m) && h2 == h
                && V == old(V) && VA == old(VA) && tmpV == old(tmpV) && tmpAV == old(tmpAV)
      ensures next == Continue && old(m) == mMax ==> restartIter == old(restartIter) + 1 && m == mMin
    {
      h2 := h;
      var inRange := CheckIfConverged(pairs);
      if !inRange {
        return h2, OutOfRange;
      }
      if k >= kMax {
        return h2, Finished;
      }
      h2, next := Restart(h, pairs);
    }

    /** The restart decision: shrink the search space when it is full, provided the m_min
        Ritz pairs from loopr on exist. */
    method Restart(h: Matrix, pairs: seq<RitzPair>) returns (h2: Matrix, next: StepEnd)
      requires |V| == mMax && |VA| == mMax && |tmpV| == mMax && |tmpAV| == mMax
      requires |pairs| == m && VectorsFit(pairs, m) && 1 <= mMin < mMax && 0 <= loopr < m <= mMax
      requires Square(h, m) && HermitianOffDiagonal(h)
      modifies this`tmpV, this`tmpAV, this`V, this`VA, this`m, this`restartIter, this`loopr, this`theta
      ensures |V| == mMax && |VA| == mMax && |tmpV| == mMax && |tmpAV| == mMax
      ensures next != Finished
      ensures next == OutOfRange <==> old(m == mMax && loopr + mMin > m)
      ensures next == Continue ==> 0 <= loopr < m < mMax && Square(h2, m) && HermitianOffDiagonal(h2)
      ensures old(m) < mMax ==> next == Continue && h2 == h && restartIter == old(restartIter)
                                && m == old(m) && loopr == old(loopr) && theta == old(theta)
                                && V == old(V) && VA == old(VA) && tmpV == old(tmpV) && tmpAV == old(tmpAV)
      ensures old(m) == mMax && next == Continue ==>
                restartIter == old(restartIter) + 1 && m == mMin && loopr == 0
                && old(loopr + mMin <= m) && h2 == old(Shrunk(pairs, loopr, mMin))
    {
      h2, next := h, Continue;
      if m == mMax {
        if loopr + mMin > m {
          return h2, OutOfRange;
        }
        h2 := ShrinkSubspace(pairs);
        DiagonalIsHermitian(h2);
      }
    }

    /** The correction-equation step that ends an iteration: t = r, then t solved for by
        invertProjMat, and the iteration counter advanced. */
    method Correct()
      requires Wired()
      modifies this`t, this`qhat, this`rTilde, this`iter
      modifies matPrecon`shift, solverParam`tol, solverParam`maxiter, host`verbosity, host`log
      modifies mmPP`projSpace, mmPP`theta, mmPP`mproj, mmPP`qhat, mmPP`matUnconst, mmPP`cg,
               mmPP`solverParam, mmPP`k, mmPP`tol, mmPP`maxiter
      ensures matPrecon.shift == old(matPrecon.shift) && mat.shift == old(mat.shift)
      ensures solverParam.tol == old(solverParam.tol) && solverParam.maxiter == old(solverParam.maxiter)
      ensures host.verbosity == old(host.verbosity) && iter == old(iter) + 1
      ensures qhat == CgSolution(u, u, old(SeenShift()), corrEqTol, corrEqMaxiter)
      ensures var rHat := CgSolution(old(r), old(r), old(SeenShift()), corrEqTol, corrEqMaxiter);
              var alpha := nums.divide(nums.dot(u, rHat), nums.dot(u, qhat));
              rTilde == Scaled(-1.0, Axpy(Neg(alpha), qhat, rHat))
      ensures mmPP.projSpace == [u] && mmPP.theta == theta && mmPP.mproj == nums.dot(u, qhat)
      ensures mmPP.qhat == [qhat] && mmPP.matUnconst == matPrecon && mmPP.cg == cg
      ensures mmPP.solverParam == solverParam && mmPP.k == 1
      ensures mmPP.tol == corrEqTol && mmPP.maxiter == corrEqMaxiter
      ensures t == GcrSolution(ZeroField, rTilde, [u], [qhat], theta, solverParamPrec.tol, solverParamPrec.maxiter)
      ensures host.log == old(host.log) + [CgRun(SeenShift(), corrEqTol, corrEqMaxiter, Silent),
                                           CgRun(SeenShift(), corrEqTol, corrEqMaxiter, Silent),
                                           GcrRun(theta, solverParamPrec.tol, solverParamPrec.maxiter, Silent)]
    {
      t := r;
      t := InvertProjMat(r);
      iter := iter + 1;
    }

    /** One pass of the main loop up to the correction equation: Explore, then Settle. */
    method Advance(h: Matrix) returns (h2: Matrix, next: StepEnd)
      requires |V| == mMax && |VA| == mMax && |tmpV| == mMax && |tmpAV| == mMax
      requires 1 <= mMin < mMax && 0 <= loopr <= m < mMax
      requires 0 <= k < kMax <= |evals| && kMax <= |eigSpace|
      requires Square(h, m) && HermitianOffDiagonal(h) && !converged
      modifies this`t, this`norm, this`m, this`V, this`VA, this`u, this`uA, this`theta, this`r
      modifies this`evals, this`eigSpace, this`k, this`converged, this`loopr
      modifies this`tmpV, this`tmpAV, this`restartIter
      ensures |V| == mMax && |VA| == mMax && |tmpV| == mMax && |tmpAV| == mMax
      ensures |evals| == old(|evals|) && |eigSpace| == old(|eigSpace|)
      ensures 0 <= k <= kMax && (converged <==> next == Finished) && (converged ==> k == kMax)
      ensures next == Continue ==> 0 <= loopr <= m < mMax && k < kMax && Square(h2, m) && HermitianOffDiagonal(h2)
      ensures next == Continue && old(m) + 1 < mMax ==> restartIter == old(restartIter) && m == old(m) + 1
      ensures next == Continue && old(m) + 1 == mMax ==> restartIter == old(restartIter) + 1 && m == mMin
    {
      var pairs;
      h2, pairs := Explore(h);
      h2, next := Settle(h2, pairs);
    }

    /** One pass of the main loop: Explore, Settle, and unless the run stops there, solve
        the correction equation for the next t. */
    method Iterate(h: Matrix) returns (h2: Matrix, next: StepEnd)
      requires Wired()
      requires |V| == mMax && |VA| == mMax && |tmpV| == mMax && |tmpAV| == mMax
      requires 1 <= mMin < mMax && 0 <= loopr <= m < mMax
      requires 0 <= k < kMax <= |evals| && kMax <= |eigSpace|
      requires Square(h, m) && HermitianOffDiagonal(h) && !converged
      modifies this`t, this`norm, this`m, this`V, this`VA, this`u, this`uA, this`theta, this`r
      modifies this`evals, this`eigSpace, this`k, this`converged, this`loopr
      modifies this`tmpV, this`tmpAV, this`restartIter, this`qhat, this`rTilde, this`iter
      modifies matPrecon`shift, solverParam`tol, solverParam`maxiter, host`verbosity, host`log
      modifies mmPP`projSpace, mmPP`theta, mmPP`mproj, mmPP`qhat, mmPP`matUnconst, mmPP`cg,
               mmPP`solverParam, mmPP`k, mmPP`tol, mmPP`maxiter
      ensures matPrecon.shift == old(matPrecon.shift) && mat.shift == old(mat.shift)
      ensures solverParam.tol == old(solverParam.tol) && solverParam.maxiter == old(solverParam.maxiter)
      ensures host.verbosity == old(host.verbosity)
      ensures |V| == mMax && |VA| == mMax && |tmpV| == mMax && |tmpAV| == mMax
      ensures |evals| == old(|evals|) && |eigSpace| == old(|eigSpace|)
      ensures 0 <= k <= kMax && (converged <==> next == Finished) && (converged ==> k == kMax)
      ensures next == Continue ==> 0 <= loopr <= m < mMax && k < kMax && Square(h2, m) && HermitianOffDiagonal(h2)
      ensures next == Continue && old(m) + 1 < mMax ==> restartIter == old(restartIter) && m == old(m) + 1
      ensures next == Continue && old(m) + 1 == mMax ==> restartIter == old(restartIter) + 1 && m == mMin
      ensures next == Continue ==> iter == old(iter) + 1
      ensures next == Continue ==> host.log == old(host.log) + [CgRun(SeenShift(), corrEqTol, corrEqMaxiter, Silent),
                                                                CgRun(SeenShift(), corrEqTol, corrEqMaxiter, Silent),
                                                                GcrRun(theta, solverParamPrec.tol, solverParamPrec.maxiter, Silent)]
      ensures next != Continue ==> host.log == old(host.log)
    {
      h2, next := Advance(h);
      if next == Continue {
        Correct();
      }
    }

    /** The set-up part of JD::operator() before the buffers are made: the run's parameters,
        and the caller's eigSpace and evals with the initial-guess test applied to eigSpace[0]. */
    method Start(eigSpace0: seq<Field>, evals0: seq<Complex>)
      requires 1 <= |eigSpace0|
      modifies this`k, this`kMax, this`m, this`mMax, this`mMin, this`theta, this`eigSpace, this`evals
      ensures (k, kMax, m, mMax, mMin, theta) == (0, param.nConv, 0, param.mMax, param.mMin, 0.0)
      ensures evals == evals0 && eigSpace == eigSpace0[0 := InitialGuess(eigSpace0[0])]
    {
      k, kMax, m, mMax, mMin, theta := 0, param.nConv, 0, param.mMax, param.mMin, 0.0;
      eigSpace, evals := eigSpace0[0 := InitialGuess(eigSpace0[0])], evals0;
    }

    /** The main loop of JD::operator(), from an empty H: iterate while restarts remain,
        until k_max pairs are locked or a Ritz pair would be read past the end. */
    method Loop() returns (next: StepEnd)
      requires Wired() && !converged
      requires |V| == mMax && |VA| == mMax && |tmpV| == mMax && |tmpAV| == mMax
      requires 1 <= mMin < mMax && m == 0 && loopr == 0 && 0 == k < kMax <= |evals| && kMax <= |eigSpace|
      modifies this`t, this`norm, this`m, this`V, this`VA, this`u, this`uA, this`theta, this`r
      modifies this`evals, this`eigSpace, this`k, this`converged, this`loopr
      modifies this`tmpV, this`tmpAV, this`restartIter, this`qhat, this`rTilde, this`iter
      modifies matPrecon`shift, solverParam`tol, solverParam`maxiter, host`verbosity, host`log
      modifies mmPP`projSpace, mmPP`theta, mmPP`mproj, mmPP`qhat, mmPP`matUnconst, mmPP`cg,
               mmPP`solverParam, mmPP`k, mmPP`tol, mmPP`maxiter
      ensures matPrecon.shift == old(matPrecon.shift) && mat.shift == old(mat.shift)
      ensures solverParam.tol == old(solverParam.tol) && solverParam.maxiter == old(solverParam.maxiter)
      ensures host.verbosity == old(host.verbosity)
      ensures |evals| == old(|evals|) && |eigSpace| == old(|eigSpace|) && 0 <= k <= kMax
      ensures (next == Finished <==> converged) && (converged ==> k == kMax)
      ensures next == Continue ==> restartIter >= param.maxRestarts && k < kMax
      ensures old(host.log) <= host.log && ConvergenceWarning !in host.log[|old(host.log)|..]
    {
      var h: Matrix := [];
      next := Continue;
      while restartIter < param.maxRestarts
        invariant |V| == mMax && |VA| == mMax && |tmpV| == mMax && |tmpAV| == mMax
        invariant |evals| == old(|evals|) && |eigSpace| == old(|eigSpace|)
        invariant 0 <= loopr <= m < mMax && 0 <= k < kMax && !converged
        invariant Square(h, m) && HermitianOffDiagonal(h)
        invariant matPrecon.shift == old(matPrecon.shift) && mat.shift == old(mat.shift)
        invariant solverParam.tol == old(solverParam.tol) && solverParam.maxiter == old(solverParam.maxiter)
        invariant host.verbosity == old(host.verbosity)
        invariant old(host.log) <= host.log && ConvergenceWarning !in host.log[|old(host.log)|..]
        invariant next == Continue
        decreases param.maxRestarts - restartIter, mMax - m
      {
        ghost var before := host.log;
        h, next := Iterate(h);
        if next != Continue {
          return;
        }
        assert host.log[|old(host.log)|..] == before[|old(host.log)|..] + host.log[|before|..];
      }
    }

    /** The post-computation report of JD::operator(): how the main loop ended decides the
        outcome; running out of restarts is an error when convergence is required, and
        otherwise a warning, which is emitted only above silent verbosity. */
    method Report(next: StepEnd) returns (outcome: Outcome)
      modifies host`log
      ensures next == OutOfRange <==> outcome == IndexOutOfRange
      ensures next == Finished <==> outcome == Converged
      ensures next == Continue <==> outcome == NotConvergedError || outcome == NotConvergedWarning
      ensures outcome == NotConvergedError <==> next == Continue && param.requireConvergence
      ensures host.log == old(host.log) + (if outcome == NotConvergedWarning && Level(host.verbosity) > 0
                                            then [ConvergenceWarning] else [])
    {
      if next == OutOfRange {
        outcome := IndexOutOfRange;
      } else if next == Finished {
        outcome := Converged;
      } else if param.requireConvergence {
        outcome := NotConvergedError;
      } else {
        outcome := NotConvergedWarning;
        if Level(host.verbosity) > 0 {
          host.log := host.log + [ConvergenceWarning];
        }
      }
    }

    /** The computation part of JD::operator(), once the set-up has succeeded: the main
        loop from loopr = 0 and an empty H, then the report. */
    method Solve() returns (outcome: Outcome)
      requires Wired() && !converged
      requires |V| == mMax && |VA| == mMax && |tmpV| == mMax && |tmpAV| == mMax
      requires 1 <= mMin < mMax && m == 0 && 0 == k < kMax <= |evals| && kMax <= |eigSpace|
      modifies this`t, this`norm, this`m, this`V, this`VA, this`u, this`uA, this`theta, this`r
      modifies this`evals, this`eigSpace, this`k, this`converged, this`loopr
      modifies this`tmpV, this`tmpAV, this`restartIter, this`qhat, this`rTilde, this`iter
      modifies matPrecon`shift, solverParam`tol, solverParam`maxiter, host`verbosity, host`log
      modifies mmPP`projSpace, mmPP`theta, mmPP`mproj, mmPP`qhat, mmPP`matUnconst, mmPP`cg,
               mmPP`solverParam, mmPP`k, mmPP`tol, mmPP`maxiter
      ensures (matPrecon.shift, mat.shift, solverParam.tol, solverParam.maxiter, host.verbosity)
              == old((matPrecon.shift, mat.shift, solverParam.tol, solverParam.maxiter, host.verbosity))
      ensures |evals| == old(|evals|) && |eigSpace| == old(|eigSpace|)
      ensures outcome != LoadedFromFile && outcome != InvalidPrecisionError
      ensures outcome == Converged <==> converged
      ensures outcome == Converged ==> k == kMax
      ensures outcome == NotConvergedError || outcome == NotConvergedWarning
              ==> restartIter >= param.maxRestarts && k < kMax
                  && (outcome == NotConvergedError <==> param.requireConvergence)
      ensures old(host.log) <= host.log
      ensures ConvergenceWarning in host.log[|old(host.log)|..]
              <==> outcome == NotConvergedWarning && Level(host.verbosity) > 0
    {
      loopr := 0;
      var next := Loop();
      ghost var before := host.log;
      outcome := Report(next);
      assert host.log[|old(host.log)|..] == before[|old(host.log)|..] + host.log[|before|..];
    }

    /** JD::operator(): load the vectors from file if asked to; otherwise set up, check the
        initial vector's precision, and solve. */
    method Run(eigSpace0: seq<Field>, evals0: seq<Complex>) returns (outcome: Outcome)
      requires Wired() && !converged
      requires 1 <= param.nConv <= |eigSpace0| && param.nConv <= |evals0|
      requires 1 <= param.mMin < param.mMax
      modifies this, matPrecon`shift, solverParam`tol, solverParam`maxiter, host`verbosity, host`log, mmPP
      ensures outcome == LoadedFromFile <==> param.vecInfile != ""
      ensures outcome == InvalidPrecisionError
              <==> param.vecInfile == "" && nums.precision(InitialGuess(eigSpace0[0])) == InvalidPrecision
      ensures (matPrecon.shift, mat.shift, solverParam.tol, solverParam.maxiter, host.verbosity)
              == old((matPrecon.shift, mat.shift, solverParam.tol, solverParam.maxiter, host.verbosity))
      ensures outcome != LoadedFromFile ==> |evals| == |evals0| && |eigSpace| == |eigSpace0|
      ensures outcome == Converged <==> outcome != LoadedFromFile && converged
      ensures outcome == Converged ==> k == param.nConv
      ensures outcome == NotConvergedError || outcome == NotConvergedWarning
              ==> restartIter >= param.maxRestarts && k < param.nConv
                  && (outcome == NotConvergedError <==> param.requireConvergence)
      ensures old(host.log) <= host.log
      ensures ConvergenceWarning in host.log[|old(host.log)|..]
              <==> outcome == NotConvergedWarning && Level(host.verbosity) > 0
    {
      if param.vecInfile != "" {
        return LoadedFromFile;
      }
      Start(eigSpace0, evals0);
      MoreInits(eigSpace[0]);
      if nums.precision(eigSpace[0]) == InvalidPrecision {
        return InvalidPrecisionError;
      }
      outcome := Solve();
    }
  }
}
