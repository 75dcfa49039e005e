// Pure pieces of the Jacobi-Davidson eigensolver (lib/eig_jacdav_quda.cpp):
// the opaque numerical kernels it relies on, the projected matrix H and how
// it grows and shrinks, Ritz pairs and their ordering, and the vector
// combinations the solver builds from its search space.

module JDNumerics {
  import opened Fields

  /** A dense complex matrix, row by row. */
  type Matrix = seq<seq<Complex>>

  /** `h` is an n x n matrix. */
  ghost predicate Square(h: Matrix, n: nat)
  {
    |h| == n && forall i :: 0 <= i < n ==> |h[i]| == n
  }

  /** Every entry off the diagonal is the conjugate of its mirror image. */
  ghost predicate HermitianOffDiagonal(h: Matrix)
    requires Square(h, |h|)
  {
    forall i, j :: 0 <= i < |h| && 0 <= j < |h| && i != j ==> h[j][i] == Conj(h[i][j])
  }

  /** Every entry off the diagonal is zero. */
  ghost predicate Diagonal(h: Matrix)
    requires Square(h, |h|)
  {
    forall i, j :: 0 <= i < |h| && 0 <= j < |h| && i != j ==> h[i][j] == OfReal(0.0)
  }

  /** The numerical kernels the solver calls, none of which is modelled: each is an
      arbitrary function, so every property proved here holds whatever they compute. */
  datatype Numerics = Numerics(
    norm: Field -> real,                      // sqrt(blas::norm2(x))
    dot: (Field, Field) -> Complex,           // blas::cDotProduct(x, y)
    eigenvalue: (Matrix, nat) -> real,        // SelfAdjointEigenSolver: eigenvalue i of H
    eigenvector: (Matrix, nat, nat) -> Complex, // entry j of eigenvector i of H
    divide: (Complex, Complex) -> Complex,    // complex division
    precision: Field -> Precision)            // the precision a field is stored in

  // ---------------------------------------------------------------------
  // Growing and shrinking H

  /** H after conservativeResize(n+1, n+1): the old block stays, the new column holds
      `col`, the new row its conjugate, and the corner `corner`. */
  function Extend(h: Matrix, col: seq<Complex>, corner: Complex): (r: Matrix)
    requires Square(h, |h|) && |col| == |h|
    ensures Square(r, |h| + 1)
    ensures forall i, j :: 0 <= i < |h| && 0 <= j < |h| ==> r[i][j] == h[i][j]
    ensures forall i :: 0 <= i < |h| ==> r[i][|h|] == col[i] && r[|h|][i] == Conj(col[i])
    ensures r[|h|][|h|] == corner
  {
    var n := |h|;
    seq(n + 1, i requires 0 <= i <= n =>
      seq(n + 1, j requires 0 <= j <= n =>
        if i < n && j < n then h[i][j]
        else if i < n then col[i]
        else if j < n then Conj(col[j])
        else corner))
  }

  /** Growing H keeps it Hermitian off the diagonal. */
  lemma ExtendKeepsHermitian(h: Matrix, col: seq<Complex>, corner: Complex)
    requires Square(h, |h|) && |col| == |h|
    requires HermitianOffDiagonal(h)
    ensures HermitianOffDiagonal(Extend(h, col, corner))
  {
    var r := Extend(h, col, corner);
    var n := |h|;
    forall i, j | 0 <= i < n + 1 && 0 <= j < n + 1 && i != j
      ensures r[j][i] == Conj(r[i][j])
    {
      if i < n && j < n {
      } else if i < n {
        assert r[i][j] == col[i] && r[j][i] == Conj(col[i]);
      } else {
        assert r[j][i] == col[j] && r[i][j] == Conj(col[j]);
      }
    }
  }

  /** The new column of H once the search space holds n + 1 vectors: the dot products
      of the first n basis vectors with the image of the newest one. */
  function NewColumn(nums: Numerics, v: seq<Field>, va: seq<Field>, n: nat): (col: seq<Complex>)
    requires n < |v| && n < |va|
    ensures |col| == n && forall i :: 0 <= i < n ==> col[i] == nums.dot(v[i], va[n])
  {
    seq(n, i requires 0 <= i < n => nums.dot(v[i], va[n]))
  }

  /** A diagonal matrix with the given diagonal. */
  function DiagonalMatrix(d: seq<Complex>): (r: Matrix)
    ensures Square(r, |d|) && Diagonal(r)
    ensures forall i :: 0 <= i < |d| ==> r[i][i] == d[i]
  {
    seq(|d|, i requires 0 <= i < |d| =>
      seq(|d|, j requires 0 <= j < |d| => if i == j then d[i] else OfReal(0.0)))
  }

  /** A diagonal matrix is Hermitian off its diagonal. */
  lemma DiagonalIsHermitian(h: Matrix)
    requires Square(h, |h|) && Diagonal(h)
    ensures HermitianOffDiagonal(h)
  {
  }

  // ---------------------------------------------------------------------
  // Ritz pairs

  /** An eigenvalue of H with its eigenvector, in the basis of the search space. */
  datatype RitzPair = RitzPair(value: real, vector: seq<Complex>)

  /** The m eigenpairs the eigendecomposition of the m x m matrix h yields, unsorted. */
  function Decompose(nums: Numerics, h: Matrix, m: nat): (ps: seq<RitzPair>)
    ensures |ps| == m
    ensures forall i :: 0 <= i < m ==> |ps[i].vector| == m && ps[i].value == nums.eigenvalue(h, i)
  {
    seq(m, i requires 0 <= i < m =>
      RitzPair(nums.eigenvalue(h, i), seq(m, j requires 0 <= j < m => nums.eigenvector(h, i, j))))
  }

  /** Ritz values in non-decreasing order. */
  predicate Ascending(ps: seq<RitzPair>)
  {
    forall i, j :: 0 <= i < j < |ps| ==> ps[i].value <= ps[j].value
  }

  /** Insert one pair into an ascending list. */
  function Insert(p: RitzPair, ps: seq<RitzPair>): (r: seq<RitzPair>)
    requires Ascending(ps)
    ensures Ascending(r)
    ensures multiset(r) == multiset(ps) + multiset{p}
    decreases |ps|
  {
    if ps == [] then [p]
    else if p.value <= ps[0].value then [p] + ps
    else
      var rest := Insert(p, ps[1..]);
      HeadBelowRest(p, ps, rest);
      [ps[0]] + rest
  }

  /** When p goes after the head of ps, the head is below everything the insertion into
      the tail produces. */
  lemma HeadBelowRest(p: RitzPair, ps: seq<RitzPair>, rest: seq<RitzPair>)
    requires Ascending(ps) && |ps| > 0 && ps[0].value < p.value
    requires multiset(rest) == multiset(ps[1..]) + multiset{p}
    ensures multiset(ps) == multiset{ps[0]} + multiset(ps[1..])
    ensures forall k :: 0 <= k < |rest| ==> ps[0].value <= rest[k].value
  {
    assert ps == [ps[0]] + ps[1..];
    forall k | 0 <= k < |rest| ensures ps[0].value <= rest[k].value {
      assert rest[k] in multiset(rest);
      if rest[k] != p {
        assert rest[k] in multiset(ps[1..]);
      }
    }
  }

  /** The ordering std::sort gives the eigenpairs: ascending by Ritz value. */
  function SortByValue(ps: seq<RitzPair>): (r: seq<RitzPair>)
    ensures Ascending(r)
    ensures multiset(r) == multiset(ps)
    ensures |r| == |ps|
    decreases |ps|
  {
    if ps == [] then []
    else
      assert ps == [ps[0]] + ps[1..];
      Insert(ps[0], SortByValue(ps[1..]))
  }

  /** Sorting keeps the eigenvectors paired with their eigenvalues: every sorted pair was
      produced by the decomposition, and every produced pair survives the sort. */
  lemma {:induction false} SortKeepsPairs(ps: seq<RitzPair>, k: nat)
    requires k < |ps|
    ensures ps[k] in SortByValue(ps)
    ensures forall q :: q in SortByValue(ps) ==> q in ps
  {
    var r := SortByValue(ps);
    assert ps[k] in multiset(ps);
    assert ps[k] in multiset(r);
    forall q | q in r ensures q in ps {
      assert q in multiset(r);
    }
  }

  /** Sorting keeps every eigenvector at the length the decomposition gave it. */
  lemma SortKeepsLengths(ps: seq<RitzPair>, m: nat)
    requires forall i :: 0 <= i < |ps| ==> |ps[i].vector| == m
    ensures forall i :: 0 <= i < |ps| ==> |SortByValue(ps)[i].vector| == m
  {
    var r := SortByValue(ps);
    forall i | 0 <= i < |r| ensures |r[i].vector| == m {
      assert r[i] in multiset(r);
      assert r[i] in multiset(ps);
    }
  }

  /** The smallest Ritz value comes first after sorting. */
  lemma {:induction false} SortedFirstIsSmallest(ps: seq<RitzPair>)
    requires |ps| > 0
    ensures forall q :: q in ps ==> SortByValue(ps)[0].value <= q.value
  {
    var r := SortByValue(ps);
    forall q | q in ps ensures r[0].value <= q.value {
      assert q in multiset(ps);
      assert q in multiset(r);
      var j :| 0 <= j < |r| && r[j] == q;
      assert j == 0 || r[0].value <= r[j].value;
    }
  }

  /** H after a restart: diagonal, holding the Ritz values from index `from` onward. */
  function Shrunk(ps: seq<RitzPair>, from: nat, size: nat): (h: Matrix)
    requires from + size <= |ps|
    ensures Square(h, size) && Diagonal(h)
    ensures forall i :: 0 <= i < size ==> h[i][i] == OfReal(ps[from + i].value)
  {
    DiagonalMatrix(seq(size, i requires 0 <= i < size => OfReal(ps[from + i].value)))
  }

  /** After a restart from sorted pairs, the diagonal of H is ascending, real, and starts
      with the Ritz value the restart targets. */
  lemma ShrunkIsAscendingDiagonal(ps: seq<RitzPair>, from: nat, size: nat)
    requires from + size <= |ps| && size >= 1
    requires Ascending(ps)
    ensures var h := Shrunk(ps, from, size);
            HermitianOffDiagonal(h)
            && h[0][0].re == ps[from].value
            && forall i, j :: 0 <= i < j < size ==> h[i][i].im == 0.0 && h[i][i].re <= h[j][j].re
  {
  }

  // ---------------------------------------------------------------------
  // Vectors built from the search space

  /** sum_i coeffs[i] basis[i], accumulated into a zeroed field one caxpy at a time. */
  function Lift(coeffs: seq<Complex>, basis: seq<Field>): Field
    requires |coeffs| == |basis|
    decreases |basis|
  {
    if basis == [] then ZeroField
    else
      var n := |basis| - 1;
      Axpy(coeffs[n], basis[n], Lift(coeffs[..n], basis[..n]))
  }

  /** The basis vectors a lifted field is built from, in order. */
  function Terms(f: Field): seq<Field>
  {
    match f
    case Axpy(_, x, y) => Terms(y) + [x]
    case _ => []
  }

  /** Lifting uses every basis vector exactly once, in order, and nothing else. */
  lemma {:induction false} LiftUsesBasis(coeffs: seq<Complex>, basis: seq<Field>)
    requires |coeffs| == |basis|
    ensures Terms(Lift(coeffs, basis)) == basis
    decreases |basis|
  {
    if basis != [] {
      var n := |basis| - 1;
      LiftUsesBasis(coeffs[..n], basis[..n]);
      assert basis == basis[..n] + [basis[n]];
    }
  }

  /** The solver's current Ritz approximation: the vector u, its image uA, the Ritz value
      theta, the residual r = uA - theta u and its norm. */
  datatype Current = Current(u: Field, uA: Field, theta: real, r: Field, norm: real)

  /** The current approximation built from Ritz pair p over `basis`, for the operator with `shift`. */
  function Focus(nums: Numerics, p: RitzPair, basis: seq<Field>, shift: real): (c: Current)
    requires |p.vector| == |basis|
    ensures c.u == Lift(p.vector, basis) && c.theta == p.value
    ensures c.uA == Applied(shift, c.u) && c.r == Axpy(Neg(OfReal(c.theta)), c.u, c.uA) && c.norm == nums.norm(c.r)
  {
    var u := Lift(p.vector, basis);
    var r := Axpy(Neg(OfReal(p.value)), u, Applied(shift, u));
    Current(u, Applied(shift, u), p.value, r, nums.norm(r))
  }

  /** Every Ritz vector in ps has n coefficients. */
  predicate VectorsFit(ps: seq<RitzPair>, n: nat)
  {
    forall i :: 0 <= i < |ps| ==> |ps[i].vector| == n
  }

  /** evals after locking slots k0..k1-1, one at a time, with the Ritz values of the pairs
      from `from` on. */
  function LockedValues(evals: seq<Complex>, ps: seq<RitzPair>, from: nat, k0: nat, k1: nat): (ev: seq<Complex>)
    requires k0 <= k1 <= |evals| && from + (k1 - k0) <= |ps|
    ensures |ev| == |evals|
    decreases k1
  {
    if k1 == k0 then evals
    else LockedValues(evals, ps, from, k0, k1 - 1)[k1 - 1 := OfReal(ps[from + (k1 - 1 - k0)].value)]
  }

  /** Slot j holds the value of pair from+(j-k0) when locked, and its old value otherwise. */
  lemma {:induction false} LockedValuesAt(evals: seq<Complex>, ps: seq<RitzPair>, from: nat, k0: nat, k1: nat, j: nat)
    requires k0 <= k1 <= |evals| && from + (k1 - k0) <= |ps| && j < |evals|
    ensures LockedValues(evals, ps, from, k0, k1)[j]
            == if k0 <= j < k1 then OfReal(ps[from + (j - k0)].value) else evals[j]
    decreases k1
  {
    if k1 > k0 && j != k1 - 1 {
      LockedValuesAt(evals, ps, from, k0, k1 - 1, j);
    }
  }

  /** eigSpace after locking slots k0..k1-1, one at a time: slot k0 takes `first` (the
      vector already in hand), later slots the Ritz vectors of the following pairs lifted
      through `basis`. */
  function LockedVectors(es: seq<Field>, ps: seq<RitzPair>, from: nat, k0: nat, k1: nat,
                         first: Field, basis: seq<Field>): (vs: seq<Field>)
    requires k0 <= k1 <= |es| && from + (k1 - k0) <= |ps| && VectorsFit(ps, |basis|)
    ensures |vs| == |es|
    decreases k1
  {
    if k1 == k0 then es
    else
      var j := k1 - 1;
      LockedVectors(es, ps, from, k0, j, first, basis)[j := if j == k0 then first else Lift(ps[from + (j - k0)].vector, basis)]
  }

  /** Slot k0 holds `first`, later locked slots the lifted Ritz vectors, the rest their old vectors. */
  lemma {:induction false} LockedVectorsAt(es: seq<Field>, ps: seq<RitzPair>, from: nat, k0: nat, k1: nat,
                                           first: Field, basis: seq<Field>, j: nat)
    requires k0 <= k1 <= |es| && from + (k1 - k0) <= |ps| && VectorsFit(ps, |basis|) && j < |es|
    ensures LockedVectors(es, ps, from, k0, k1, first, basis)[j]
            == if j == k0 < k1 then first
               else if k0 < j < k1 then Lift(ps[from + (j - k0)].vector, basis)
               else es[j]
    decreases k1
  {
    if k1 > k0 && j != k1 - 1 {
      LockedVectorsAt(es, ps, from, k0, k1 - 1, first, basis, j);
    }
  }

  /** The state checkIfConverged works on: the lock counter k, the pair index loopr, the
      locked values and vectors, the current approximation and the converged flag. */
  datatype LockState = LockState(k: int, loopr: int, evals: seq<Complex>, eigSpace: seq<Field>,
                                 cur: Current, converged: bool)

  /** What checkIfConverged promises, from state s0 to state s: while the residual norm is
      below tol it locks the current pair into slot k, stopping once kMax pairs are locked
      and otherwise focusing on the next pair; inRange is false when that next pair would
      lie past the end of ps. */
  predicate LockSpec(nums: Numerics, ps: seq<RitzPair>, basis: seq<Field>, shift: real, tol: real,
                     kMax: int, s0: LockState, s: LockState, inRange: bool)
    requires 0 <= s0.loopr < |ps| && VectorsFit(ps, |basis|)
    requires 0 <= s0.k < kMax <= |s0.evals| && kMax <= |s0.eigSpace|
  {
    && s0.k <= s.k <= kMax
    && s.converged == (s0.converged || s.k == kMax)
    && 0 <= s.loopr < |ps| && s0.loopr + (s.k - s0.k) <= |ps|
    && (!inRange ==> s.k < kMax && s.loopr + 1 >= |ps|)
    && (inRange && s.k < kMax ==> !(s.cur.norm < tol))
    && s.loopr == s0.loopr + (s.k - s0.k) - (if s.k > s0.k && (s.k == kMax || !inRange) then 1 else 0)
    && s.evals == LockedValues(s0.evals, ps, s0.loopr, s0.k, s.k)
    && s.eigSpace == LockedVectors(s0.eigSpace, ps, s0.loopr, s0.k, s.k, s0.cur.u, basis)
    && s.cur == if s.loopr == s0.loopr then s0.cur else Focus(nums, ps[s.loopr], basis, shift)
  }

  /** The search space after a restart: `first` (the current Ritz vector), then the
      Ritz vectors from index from+1 onward lifted through `basis`. */
  function RestartBasis(ps: seq<RitzPair>, from: nat, size: nat, basis: seq<Field>, first: Field): (nb: seq<Field>)
    requires from + size <= |ps| && VectorsFit(ps, |basis|)
    ensures |nb| == size
    ensures size > 0 ==> nb[0] == first
    ensures forall i :: 1 <= i < size ==> nb[i] == Lift(ps[from + i].vector, basis)
  {
    seq(size, i requires 0 <= i < size => if i == 0 then first else Lift(ps[from + i].vector, basis))
  }

  /** The operator images of a restarted space: `firstImage`, then the operator applied to the rest. */
  function RestartImages(nb: seq<Field>, shift: real, firstImage: Field): (na: seq<Field>)
    ensures |na| == |nb|
    ensures |nb| > 0 ==> na[0] == firstImage
    ensures forall i :: 1 <= i < |nb| ==> na[i] == Applied(shift, nb[i])
  {
    seq(|nb|, i requires 0 <= i < |nb| => if i == 0 then firstImage else Applied(shift, nb[i]))
  }

  /** Exchanging the first n slots of two buffer lists permutes the buffers between them. */
  lemma SwapPrefixPermutes<T>(a: seq<T>, b: seq<T>, n: nat)
    requires n <= |a| && n <= |b|
    ensures multiset(b[..n] + a[n..]) + multiset(a[..n] + b[n..]) == multiset(a) + multiset(b)
  {
    assert a == a[..n] + a[n..];
    assert b == b[..n] + b[n..];
  }

  /** The four buffer lists of the solver: the search space V, its images V_A, and the
      spare lists tmpV and tmpAV a restart builds into. */
  datatype Buffers = Buffers(v: seq<Field>, va: seq<Field>, tv: seq<Field>, tva: seq<Field>)

  /** The buffers after a restart to `size` vectors: the new space and its images are built
      in the first `size` slots of the spare lists, and those slots are then exchanged with
      the first `size` slots of V and V_A. */
  function Restarted(ps: seq<RitzPair>, from: nat, size: nat, basis: seq<Field>, shift: real,
                     u: Field, uA: Field, b: Buffers): (r: Buffers)
    requires from + size <= |ps| && VectorsFit(ps, |basis|)
    requires size <= |b.v| && size <= |b.va| && size <= |b.tv| && size <= |b.tva|
    ensures |r.v| == |b.v| && |r.va| == |b.va| && |r.tv| == |b.tv| && |r.tva| == |b.tva|
  {
    var nb := RestartBasis(ps, from, size, basis, u);
    var na := RestartImages(nb, shift, uA);
    Buffers(nb + b.v[size..], na + b.va[size..], b.v[..size] + b.tv[size..], b.va[..size] + b.tva[size..])
  }

  /** A restart only exchanges buffers: V and tmpV together hold the old V and the spare
      list after the new space was built into it, and likewise for the images. */
  lemma RestartedPermutes(ps: seq<RitzPair>, from: nat, size: nat, basis: seq<Field>, shift: real,
                          u: Field, uA: Field, b: Buffers)
    requires from + size <= |ps| && VectorsFit(ps, |basis|)
    requires size <= |b.v| && size <= |b.va| && size <= |b.tv| && size <= |b.tva|
    ensures var r := Restarted(ps, from, size, basis, shift, u, uA, b);
            var nb := RestartBasis(ps, from, size, basis, u);
            && multiset(r.v) + multiset(r.tv) == multiset(b.v) + multiset(nb + b.tv[size..])
            && multiset(r.va) + multiset(r.tva) == multiset(b.va) + multiset(RestartImages(nb, shift, uA) + b.tva[size..])
  {
    var nb := RestartBasis(ps, from, size, basis, u);
    var na := RestartImages(nb, shift, uA);
    SwapPrefixPermutes(b.v, nb + b.tv[size..], size);
    SwapPrefixPermutes(b.va, na + b.tva[size..], size);
    assert (nb + b.tv[size..])[..size] == nb && (nb + b.tv[size..])[size..] == b.tv[size..];
    assert (na + b.tva[size..])[..size] == na && (na + b.tva[size..])[size..] == b.tva[size..];
  }

  /** After a restart V starts with the current vector u followed by the lifted Ritz vectors,
      V_A with their images, and the slots past `size` are untouched. */
  lemma RestartedContents(ps: seq<RitzPair>, from: nat, size: nat, basis: seq<Field>, shift: real,
                          u: Field, uA: Field, b: Buffers)
    requires from + size <= |ps| && VectorsFit(ps, |basis|)
    requires 1 <= size <= |b.v| && size <= |b.va| && size <= |b.tv| && size <= |b.tva|
    ensures var r := Restarted(ps, from, size, basis, shift, u, uA, b);
            && r.v[0] == u && r.va[0] == uA
            && (forall i :: 1 <= i < size ==> r.v[i] == Lift(ps[from + i].vector, basis) && r.va[i] == Applied(shift, r.v[i]))
            && r.v[size..] == b.v[size..] && r.va[size..] == b.va[size..]
            && r.tv[..size] == b.v[..size] && r.tva[..size] == b.va[..size]
  {
  }

  /** One normalise-then-project pass of orth against `space`. */
  function OrthPass(nums: Numerics, x: Field, space: seq<Field>): (y: Field)
    ensures y.BlockAxpy? && y.xs == space && |y.coeffs| == |space|
    ensures y.y == InvScaled(nums.norm(x), x)
    ensures forall i :: 0 <= i < |space| ==> y.coeffs[i] == Neg(nums.dot(space[i], y.y))
  {
    var n := nums.norm(x);
    var v := InvScaled(n, x);
    BlockAxpy(seq(|space|, i requires 0 <= i < |space| => Neg(nums.dot(space[i], v))), space, v)
  }

  /** `passes` repetitions of OrthPass. */
  function OrthPasses(nums: Numerics, x: Field, space: seq<Field>, passes: nat): Field
  {
    if passes == 0 then x else OrthPass(nums, OrthPasses(nums, x, space, passes - 1), space)
  }

  /** What orth leaves in x: x itself against an empty space, else two passes against the
      first `size` vectors of the space. */
  function Orthogonalised(nums: Numerics, x: Field, space: seq<Field>, size: nat): (y: Field)
    requires size <= |space|
    ensures size == 0 ==> y == x
    ensures size > 0 ==> y.BlockAxpy? && y.xs == space[..size]
    ensures size > 0 ==> y == OrthPass(nums, OrthPass(nums, x, space[..size]), space[..size])
  {
    if size == 0 then x
    else
      assert OrthPasses(nums, x, space[..size], 1) == OrthPass(nums, x, space[..size]);
      OrthPasses(nums, x, space[..size], 2)
  }
}
