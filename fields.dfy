// Shared vocabulary for the solver and operator models: complex scalars,
// a symbolic term algebra for distributed lattice fields, and the floating
// point precisions a field can be stored in.
//
// The linear algebra on lattice fields (blas copies and axpys, operator
// applications, the CG and GCR solvers) is not modelled numerically. Each
// such call instead builds a term that records which call produced the field
// and with which arguments, so that composition order, scale factors and
// solver settings become checkable properties of the model.

module Fields {

  /** A double-precision complex number, kept as two exact reals. */
  datatype Complex = Complex(re: real, im: real)

  /** A real number seen as a complex one. */
  function OfReal(x: real): (z: Complex)
    ensures z.re == x && z.im == 0.0
  {
    Complex(x, 0.0)
  }

  /** Complex conjugate. */
  function Conj(z: Complex): (c: Complex)
    ensures c.re == z.re && c.im == -z.im
  {
    Complex(z.re, -z.im)
  }

  /** Additive inverse. */
  function Neg(z: Complex): (n: Complex)
    ensures n.re == -z.re && n.im == -z.im
  {
    Complex(-z.re, -z.im)
  }

  /** A lattice field, as the term of the calls that produced it. */
  datatype Field =
    | Given(id: nat)                                   // a field handed in by the caller
    | ZeroField                                        // blas::zero
    | Scaled(factor: real, x: Field)                   // blas::ax(factor, x)
    | InvScaled(norm: real, x: Field)                  // blas::ax(1.0 / norm, x)
    | Axpy(a: Complex, x: Field, y: Field)             // blas::caxpy(a, x, y): y + a x
    | BlockAxpy(coeffs: seq<Complex>, xs: seq<Field>, y: Field) // block caxpy: y + sum_i coeffs[i] xs[i]
    | Applied(shift: real, x: Field)                   // a DiracMatrix with the given shift applied to x
    | InitialGuess(x: Field)                           // the eigensolver's initial-guess test on x
    | CgSolution(x0: Field, b: Field, shift: real, tol: real, maxiter: int)
    | GcrSolution(x0: Field, b: Field, proj: seq<Field>, qhat: seq<Field>, theta: real, tol: real, maxiter: int)
                                                       // GCR on the operator projected against `proj`, with Qhat

  /** Storage precisions, with QUDA's enumeration codes (bytes per real). */
  datatype Precision = InvalidPrecision | Quarter | Half | Single | Double

  /** The integer code of a precision; the invalid one is QUDA's INT_MIN sentinel. */
  function Code(p: Precision): (c: int)
    ensures p != InvalidPrecision ==> 1 <= c <= 8
    ensures p == InvalidPrecision ==> c < 0
  {
    match p
    case InvalidPrecision => -0x8000_0000
    case Quarter => 1
    case Half => 2
    case Single => 4
    case Double => 8
  }
}
