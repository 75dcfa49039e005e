// The Kahler-Dirac preconditioned staggered operator (lib/dirac_staggered_kd.cpp).
//
// The operator owns (or shares) a coarse gauge field Xinv that holds the
// inverse of the Kahler-Dirac block. Applying the operator composes the
// staggered stencil with the block inverse; both kernels are opaque here and
// are recorded as spinor terms and as a call trace, so that their order, the
// scale argument and the dagger flags are visible to the contracts.

module StaggeredKD {
  import opened Fields
  import CommGrid

  const NDim: nat := 4

  /** Positive extents. */
  type Pos = n: int | n >= 1 witness 1

  /** What the operator needs to know of its fine gauge field. */
  datatype GaugeInfo = GaugeInfo(x: seq<int>, nColor: int, precision: Precision, volumeCB: int)

  /** The shape of the coarse field that holds the block inverse. */
  datatype XinvParam = XinvParam(x: seq<int>, nColor: int, precision: Precision, nDim: int, nFace: int, pad: int)

  // ---------------------------------------------------------------------
  // Geometry and precision of Xinv

  /** The Xinv extents: half the fine extent in every dimension. */
  function HalfExtents(x: seq<int>): (xc: seq<int>)
    requires |x| == NDim
    ensures |xc| == NDim
    ensures forall i :: 0 <= i < NDim ==> xc[i] == CommGrid.Quot(x[i], 2)
  {
    seq(NDim, i requires 0 <= i < NDim => CommGrid.Quot(x[i], 2))
  }

  /** Every 2^4 block of an even lattice maps to one Xinv site. */
  lemma {:induction false} HalfExtentsCoverLattice(x: seq<int>)
    requires |x| == NDim
    requires forall i :: 0 <= i < NDim ==> x[i] >= 2 && x[i] % 2 == 0
    ensures forall i :: 0 <= i < NDim ==> 1 <= HalfExtents(x)[i] && 2 * HalfExtents(x)[i] == x[i]
  {
    forall i | 0 <= i < NDim
      ensures 1 <= HalfExtents(x)[i] && 2 * HalfExtents(x)[i] == x[i]
    {
      CommGrid.QuotRemNonneg(x[i], 2);
    }
  }

  /** The Xinv colour count: eight times the fine colours, times two for staggered parity. */
  function CoarseColors(nColor: int): (nc: int)
    ensures nColor == 3 ==> nc == 48
    ensures nc % 16 == 0 && nc / 16 == nColor
  {
    nColor * 8 * 2
  }

  /** The build routines only support half and single: clamp into that range. */
  function ClampPrecision(p: Precision): (q: Precision)
    ensures Code(Half) <= Code(q) <= Code(Single)
    ensures Code(Half) <= Code(p) <= Code(Single) ==> q == p
    ensures Code(p) < Code(Half) ==> q == Half
    ensures Code(p) > Code(Single) ==> q == Single
  {
    if Code(p) < Code(Half) then Half
    else if Code(p) > Code(Single) then Single
    else p
  }

  /** The precision Xinv is stored in: the override when one is given, else the gauge's, clamped. */
  function XinvPrecision(gauge: Precision, override: Precision): (q: Precision)
    ensures q == Half || q == Single
    ensures override != InvalidPrecision && Code(Half) <= Code(override) <= Code(Single) ==> q == override
    ensures override == InvalidPrecision && Code(Half) <= Code(gauge) <= Code(Single) ==> q == gauge
    ensures override == Double || (override == InvalidPrecision && gauge == Double) ==> q == Single
    ensures override == Quarter || (override == InvalidPrecision && gauge == Quarter) ==> q == Half
  {
    ClampPrecision(if override == InvalidPrecision then gauge else override)
  }

  /** The complete Xinv description built by both constructors. */
  function XinvShape(gauge: GaugeInfo, override: Precision): (p: XinvParam)
    requires |gauge.x| == NDim
    ensures |p.x| == NDim && p.nDim == NDim && p.nFace == 0 && p.pad == 0
    ensures p.nColor == 16 * gauge.nColor
    ensures p.precision == Half || p.precision == Single
  {
    XinvParam(HalfExtents(gauge.x), CoarseColors(gauge.nColor),
              XinvPrecision(gauge.precision, override), NDim, 0, 0)
  }

  // ---------------------------------------------------------------------
  // The opaque kernels, as spinor terms and a call trace

  /** A full-parity staggered spinor, as the term of the kernels applied to it. */
  datatype Spinor =
    | Source(id: nat)
    | Stencil(scale: real, dag: bool, x: Spinor)  // ApplyStaggered with the fine gauge field
    | BlockInverse(dag: bool, x: Spinor)          // ApplyStaggeredKahlerDiracInverse with Xinv

  datatype Call = StencilCall(scale: real, dag: bool) | InverseCall(dag: bool)

  /** Apply one kernel call to a spinor. */
  function Apply(c: Call, x: Spinor): Spinor
  {
    match c
    case StencilCall(s, d) => Stencil(s, d, x)
    case InverseCall(d) => BlockInverse(d, x)
  }

  /** Apply a trace of kernel calls to a spinor, first call first. */
  function Run(calls: seq<Call>, x: Spinor): (y: Spinor)
    decreases |calls|
  {
    if calls == [] then x else Run(calls[1..], Apply(calls[0], x))
  }

  lemma RunPair(c1: Call, c2: Call, x: Spinor)
    ensures Run([c1, c2], x) == Apply(c2, Apply(c1, x))
  {
    assert [c1, c2][1..] == [c2];
    assert [c2][1..] == [];
    assert Run([c2], Apply(c1, x)) == Run([], Apply(c2, Apply(c1, x)));
  }

  /** The scale the stencil is called with: zero for massless, 2m otherwise. */
  function StencilScale(mass: real): (s: real)
    ensures mass == 0.0 ==> s == 0.0
    ensures mass != 0.0 ==> s == 2.0 * mass
  {
    if mass == 0.0 then 0.0 else 2.0 * mass
  }

  /** The kernel calls of M in the (active) left-preconditioned mode. */
  function MCalls(mass: real, dagger: bool): (calls: seq<Call>)
    ensures |calls| == 2
    ensures !dagger ==> calls[0].StencilCall? && calls[1] == InverseCall(false)
    ensures dagger ==> calls[0] == InverseCall(true) && calls[1].StencilCall?
    ensures forall c :: c in calls && c.StencilCall? ==>
              c.scale == StencilScale(mass) && c.dag == (if mass == 0.0 then !dagger else dagger)
  {
    var st := StencilCall(StencilScale(mass), if mass == 0.0 then !dagger else dagger);
    if !dagger then [st, InverseCall(false)] else [InverseCall(true), st]
  }

  /** The adjoint of a call sequence: reversed order, every dagger flag flipped. */
  function Adjoint(calls: seq<Call>): (a: seq<Call>)
    ensures |a| == |calls|
    ensures forall i :: 0 <= i < |calls| ==> a[i] == Flip(calls[|calls| - 1 - i])
    decreases |calls|
  {
    if calls == [] then [] else Adjoint(calls[1..]) + [Flip(calls[0])]
  }

  function Flip(c: Call): (f: Call)
    ensures f.StencilCall? == c.StencilCall?
  {
    match c
    case StencilCall(s, d) => StencilCall(s, !d)
    case InverseCall(d) => InverseCall(!d)
  }

  /** M with dagger set is the adjoint of M without: the composition order reverses,
      for zero and for non-zero mass alike. */
  lemma {:induction false} DaggerReversesM(mass: real)
    ensures MCalls(mass, true) == Adjoint(MCalls(mass, false))
    ensures Adjoint(MCalls(mass, true)) == MCalls(mass, false)
  {
    var a := Adjoint(MCalls(mass, false));
    assert a[0] == Flip(MCalls(mass, false)[1]);
    var b := Adjoint(MCalls(mass, true));
    assert b[0] == Flip(MCalls(mass, true)[1]);
  }

  /** Flops charged for one stencil application on `volume` sites. */
  function StencilFlops(mass: real, volume: nat): (f: int)
    ensures f == (if mass == 0.0 then 570 else 582) * volume
  {
    if mass == 0.0 then 570 * volume else 582 * volume
  }

  /** Flops charged for one block-inverse application on `volume` sites (2^4 blocks). */
  function InverseFlops(volume: nat): (f: int)
    ensures f == 1146 * volume
  {
    assert (8 * 48 - 2) * 48 * volume == 16 * (1146 * volume);
    (8 * 48 - 2) * 48 * volume / 16
  }

  /** One M application costs 1716 flops per site massless and 1728 otherwise. */
  lemma MFlopsPerSite(mass: real, volume: nat)
    ensures StencilFlops(mass, volume) + InverseFlops(volume)
            == (if mass == 0.0 then 1716 else 1728) * volume
  {
  }

  // ---------------------------------------------------------------------
  // Configuration checks

  datatype KDError =
    | Not5D
    | PrecisionMismatch
    | NotFullParity
    | VolumeMismatch
    | NoSingleParityForm
    | PreconditionedSolutionType
    | NotAggregation

  datatype Result<T> = Ok(value: T) | Err(error: KDError)

  /** What the checks need to know of a spinor field. */
  datatype SpinorInfo = SpinorInfo(nDim: int, precision: Precision, full: bool, volume: nat, x4: Pos)

  /** checkParitySpinor exactly as the source writes it: `out` being FULL is rejected. */
  function CheckParitySpinorAsWritten(input: SpinorInfo, output: SpinorInfo, gaugeVolumeCB: int): (r: Result<()>)
    ensures r == Err(Not5D) <==> input.nDim != 5 || output.nDim != 5
    ensures r == Err(NotFullParity) <==>
              (input.nDim == 5 && output.nDim == 5 && input.precision == output.precision
               && (!input.full || output.full))
  {
    if input.nDim != 5 || output.nDim != 5 then Err(Not5D)
    else if input.precision != output.precision then Err(PrecisionMismatch)
    else if !input.full || output.full then Err(NotFullParity)
    else if output.volume / output.x4 != 2 * gaugeVolumeCB && output.full then Err(VolumeMismatch)
    else Ok(())
  }

  /** As written, a pair of full-parity fields (the only form this operator has) never passes,
      and the volume check can never fire. */
  lemma AsWrittenRejectsFullFields(input: SpinorInfo, output: SpinorInfo, gaugeVolumeCB: int)
    ensures input.full && output.full ==> CheckParitySpinorAsWritten(input, output, gaugeVolumeCB).Err?
    ensures CheckParitySpinorAsWritten(input, output, gaugeVolumeCB) != Err(VolumeMismatch)
  {
  }

  /** A concrete pair: two matching 5-D full fields of the right volume are rejected as written. */
  lemma AsWrittenCounterexample()
    ensures var f := SpinorInfo(5, Double, true, 2 * 8, 1);
            CheckParitySpinorAsWritten(f, f, 8) == Err(NotFullParity)
  {
  }

  /** checkParitySpinor as evidently intended: both fields must be full parity. */
  function CheckParitySpinor(input: SpinorInfo, output: SpinorInfo, gaugeVolumeCB: int): (r: Result<()>)
    ensures r.Ok? <==> input.nDim == 5 && output.nDim == 5 && input.precision == output.precision
                       && input.full && output.full && output.volume / output.x4 == 2 * gaugeVolumeCB
    ensures r == Err(Not5D) <==> input.nDim != 5 || output.nDim != 5
  {
    if input.nDim != 5 || output.nDim != 5 then Err(Not5D)
    else if input.precision != output.precision then Err(PrecisionMismatch)
    else if !input.full || !output.full then Err(NotFullParity)
    else if output.volume / output.x4 != 2 * gaugeVolumeCB then Err(VolumeMismatch)
    else Ok(())
  }

  /** As written, the check passes exactly the pairs whose output is a single-parity field. */
  lemma AsWrittenPassesOnlySingleParityOutput(input: SpinorInfo, output: SpinorInfo, gaugeVolumeCB: int)
    ensures CheckParitySpinorAsWritten(input, output, gaugeVolumeCB).Ok? <==>
              input.nDim == 5 && output.nDim == 5 && input.precision == output.precision
              && input.full && !output.full
  {
  }

  /** The corrected check and the written one agree whenever the input is not full. */
  lemma CheckParitySpinorAgreesOnParityInput(input: SpinorInfo, output: SpinorInfo, gaugeVolumeCB: int)
    requires !input.full
    ensures CheckParitySpinor(input, output, gaugeVolumeCB) == CheckParitySpinorAsWritten(input, output, gaugeVolumeCB)
    ensures CheckParitySpinor(input, output, gaugeVolumeCB).Err?
  {
  }

  datatype SolutionType = Mat | MatDagMat | MatPC | MatPCDag | MatPCDagMatPC | MatPCDagMatPCShift | InvalidSolution

  /** The solution types that need a preconditioned solve, which this operator refuses. */
  predicate NeedsPreconditionedSolve(s: SolutionType): (refused: bool)
    ensures s == MatPC || s == MatPCDagMatPC ==> refused
    ensures refused ==> s != Mat && s != MatDagMat && s != MatPCDag && s != MatPCDagMatPCShift
  {
    s == MatPC || s == MatPCDagMatPC
  }

  datatype Transfer = Aggregate | OptimizedKD | OptimizedKDDrop | InvalidTransfer

  /** What the coarse-operator builder is asked to do. */
  datatype CoarseOpRequest = CoarseOpRequest(mass: real, xinv: XinvParam)

  // ---------------------------------------------------------------------
  // The operator

  /** The coarse gauge field that holds the block inverse. */
  class CoarseGauge {
    const param: XinvParam
    var builtMass: real
    var frees: nat

    constructor (p: XinvParam)
      ensures param == p && frees == 0 && builtMass == 0.0
    {
      param := p;
      builtMass := 0.0;
      frees := 0;
    }

    /** BuildStaggeredKahlerDiracInverse: populate from the fine gauge field at `mass`. */
    method Build(mass: real)
      modifies this`builtMass
      ensures builtMass == mass
    {
      builtMass := mass;
    }
  }

  class DiracStaggeredKD {
    var gauge: GaugeInfo
    var mass: real
    var dagger: bool
    var flops: int
    var xinv: CoarseGauge?
    var ownXinv: bool
    var trace: seq<Call>

    /** The geometry loop shared by both constructors. */
    static method CoarseExtents(x: seq<int>) returns (xc: seq<int>)
      requires |x| == NDim
      ensures xc == HalfExtents(x)
    {
      xc := [0, 0, 0, 0];
      for i := 0 to NDim
        invariant |xc| == NDim
        invariant forall j :: 0 <= j < i ==> xc[j] == CommGrid.Quot(x[j], 2)
      {
        xc := xc[i := CommGrid.Quot(x[i], 2)];
      }
    }

    /** DiracStaggeredKD(param): allocate and build an owned Xinv. */
    constructor (g: GaugeInfo, m: real, dag: bool)
      requires |g.x| == NDim
      ensures gauge == g && mass == m && dagger == dag && flops == 0 && trace == []
      ensures ownXinv && xinv != null && fresh(xinv)
      ensures xinv.param == XinvShape(g, InvalidPrecision) && xinv.builtMass == m && xinv.frees == 0
    {
      var xc := CoarseExtents(g.x);
      var p := XinvParam(xc, CoarseColors(g.nColor), XinvPrecision(g.precision, InvalidPrecision), NDim, 0, 0);
      var x := new CoarseGauge(p);
      x.Build(m);
      gauge, mass, dagger, flops, trace := g, m, dag, 0, [];
      xinv, ownXinv := x, true;
    }

    /** DiracStaggeredKD(staggered, tmp1, tmp2, override): as above, with an optional precision override. */
    constructor FromStaggered(g: GaugeInfo, m: real, dag: bool, flopsSoFar: int, overridePrecision: Precision)
      requires |g.x| == NDim
      ensures gauge == g && mass == m && dagger == dag && flops == flopsSoFar && trace == []
      ensures ownXinv && xinv != null && fresh(xinv)
      ensures xinv.param == XinvShape(g, overridePrecision) && xinv.builtMass == m && xinv.frees == 0
    {
      var xc := CoarseExtents(g.x);
      var prec := if overridePrecision == InvalidPrecision then g.precision else overridePrecision;
      var p := XinvParam(xc, CoarseColors(g.nColor), ClampPrecision(prec), NDim, 0, 0);
      var x := new CoarseGauge(p);
      x.Build(m);
      gauge, mass, dagger, flops, trace := g, m, dag, flopsSoFar, [];
      xinv, ownXinv := x, true;
    }

    /** The copy constructor shares the source's Xinv and does not own it. The base-class
        fields are set by the staggered operator's own copy constructor; they are taken from
        `d` here, but not promised. */
    constructor Copy(d: DiracStaggeredKD)
      ensures xinv == d.xinv && !ownXinv && trace == []
    {
      gauge, mass, dagger, flops, trace := d.gauge, d.mass, d.dagger, d.flops, [];
      xinv, ownXinv := d.xinv, false;
    }

    /** operator=: a no-op on self-assignment; otherwise share the source's Xinv without owning it.
        An Xinv this operator owned before is dropped without being freed. The base-class fields
        are assigned by the staggered operator's own operator=, and are not promised here. */
    method Assign(d: DiracStaggeredKD)
      modifies this
      ensures d == this ==> gauge == old(gauge) && mass == old(mass) && dagger == old(dagger)
                            && flops == old(flops) && xinv == old(xinv) && ownXinv == old(ownXinv)
      ensures d != this ==> xinv == d.xinv && !ownXinv
      ensures trace == old(trace)
    {
      if d != this {
        gauge, mass, dagger, flops := d.gauge, d.mass, d.dagger, d.flops;
        xinv := d.xinv;
        ownXinv := false;
      }
    }

    /** The destructor frees Xinv only when it is present and owned. */
    method Destroy()
      modifies (if xinv == null then {} else {xinv})`frees
      ensures xinv != null ==> xinv.frees == old(xinv.frees) + (if ownXinv then 1 else 0)
    {
      if xinv != null && ownXinv {
        xinv.frees := xinv.frees + 1;
      }
    }

    /** Dslash has no single-parity form for this operator. */
    function Dslash(input: Spinor): (r: Result<Spinor>)
      ensures r == Err(NoSingleParityForm)
    {
      Err(NoSingleParityForm)
    }

    /** Neither has DslashXpay. */
    function DslashXpay(input: Spinor, x: Spinor, k: real): (r: Result<Spinor>)
      ensures r == Err(NoSingleParityForm)
    {
      Err(NoSingleParityForm)
    }

    /** The full operator in left-preconditioned mode. */
    method M(input: Spinor, volume: nat) returns (out: Spinor)
      modifies this`flops, this`trace
      ensures out == Run(MCalls(mass, dagger), input)
      ensures !dagger ==> out == BlockInverse(false, Stencil(StencilScale(mass), mass == 0.0, input))
      ensures dagger ==> out == Stencil(StencilScale(mass), mass != 0.0, BlockInverse(true, input))
      ensures trace == old(trace) + MCalls(mass, dagger)
      ensures flops == old(flops) + StencilFlops(mass, volume) + InverseFlops(volume)
    {
      var tmp2: Spinor;
      if !dagger {
        if mass == 0.0 {
          tmp2 := Stencil(0.0, true, input);
          trace := trace + [StencilCall(0.0, true)];
          flops := flops + 570 * volume;
        } else {
          tmp2 := Stencil(2.0 * mass, dagger, input);
          trace := trace + [StencilCall(2.0 * mass, dagger)];
          flops := flops + 582 * volume;
        }
        out := BlockInverse(false, tmp2);
        trace := trace + [InverseCall(false)];
        flops := flops + (8 * 48 - 2) * 48 * volume / 16;
      } else {
        tmp2 := BlockInverse(true, input);
        trace := trace + [InverseCall(true)];
        flops := flops + (8 * 48 - 2) * 48 * volume / 16;
        if mass == 0.0 {
          out := Stencil(0.0, false, tmp2);
          trace := trace + [StencilCall(0.0, false)];
          flops := flops + 570 * volume;
        } else {
          out := Stencil(2.0 * mass, dagger, tmp2);
          trace := trace + [StencilCall(2.0 * mass, dagger)];
          flops := flops + 582 * volume;
        }
      }
      RunPair(MCalls(mass, dagger)[0], MCalls(mass, dagger)[1], input);
      assert MCalls(mass, dagger) == [MCalls(mass, dagger)[0], MCalls(mass, dagger)[1]];
    }

    /** Mdag: M with the dagger flag flipped for the duration of the call. */
    method Mdag(input: Spinor, volume: nat) returns (out: Spinor)
      modifies this`flops, this`trace, this`dagger
      ensures dagger == old(dagger)
      ensures out == Run(MCalls(mass, !dagger), input)
      ensures trace == old(trace) + MCalls(mass, !dagger)
      ensures flops == old(flops) + StencilFlops(mass, volume) + InverseFlops(volume)
    {
      dagger := !dagger;
      out := M(input, volume);
      dagger := !dagger;
    }

    /** MdagM = Mdag(M(in)). */
    method MdagM(input: Spinor, volume: nat) returns (out: Spinor)
      modifies this`flops, this`trace, this`dagger
      ensures dagger == old(dagger)
      ensures out == Run(MCalls(mass, !dagger), Run(MCalls(mass, dagger), input))
      ensures trace == old(trace) + MCalls(mass, dagger) + Adjoint(MCalls(mass, dagger))
      ensures flops == old(flops) + 2 * (StencilFlops(mass, volume) + InverseFlops(volume))
    {
      var tmp1 := M(input, volume);
      out := Mdag(tmp1, volume);
      DaggerReversesM(mass);
    }

    /** KahlerDiracInv applies the block inverse with the operator's dagger flag. */
    function KahlerDiracInv(input: Spinor): (out: Spinor)
      reads this
      ensures out == Run([InverseCall(dagger)], input)
    {
      BlockInverse(dagger, input)
    }

    /** The operator is left-preconditioned by the block inverse: without dagger, M is the
        stencil followed by KahlerDiracInv; with dagger, KahlerDiracInv followed by the stencil. */
    lemma LeftPreconditioning(input: Spinor)
      ensures !dagger ==> Run(MCalls(mass, dagger), input)
                          == KahlerDiracInv(Stencil(StencilScale(mass), mass == 0.0, input))
      ensures dagger ==> Run(MCalls(mass, dagger), input)
                         == Stencil(StencilScale(mass), mass != 0.0, KahlerDiracInv(input))
    {
      RunPair(MCalls(mass, dagger)[0], MCalls(mass, dagger)[1], input);
      assert MCalls(mass, dagger) == [MCalls(mass, dagger)[0], MCalls(mass, dagger)[1]];
    }

    /** After prepareSpecialMG the system M x = src is the stencil system for the caller's b:
        M x equals the prepared right-hand side exactly when the stencil maps x to b. */
    lemma PreparedSystemIsStencilSystem(x: Spinor, b: Spinor, solType: SolutionType)
      requires !dagger
      requires PrepareSpecialMG(x, b, solType).Ok?
      ensures Run(MCalls(mass, dagger), x) == PrepareSpecialMG(x, b, solType).value.0
              <==> Stencil(StencilScale(mass), mass == 0.0, x) == b
    {
      LeftPreconditioning(x);
    }

    /** prepare: refuse preconditioned solution types, else hand back (src, sol) = (b, x). */
    function Prepare(x: Spinor, b: Spinor, solType: SolutionType): (r: Result<(Spinor, Spinor)>)
      ensures r.Err? <==> NeedsPreconditionedSolve(solType)
      ensures r.Err? ==> r.error == PreconditionedSolutionType
      ensures r.Ok? ==> r.value == (b, x)
    {
      if NeedsPreconditionedSolve(solType) then Err(PreconditionedSolutionType) else Ok((b, x))
    }

    /** prepareSpecialMG: as prepare, but the right-hand side is replaced by the block inverse applied to it. */
    function PrepareSpecialMG(x: Spinor, b: Spinor, solType: SolutionType): (r: Result<(Spinor, Spinor)>)
      reads this
      ensures r.Err? <==> NeedsPreconditionedSolve(solType)
      ensures r.Ok? ==> r.value == (KahlerDiracInv(b), x)
    {
      if NeedsPreconditionedSolve(solType) then Err(PreconditionedSolutionType)
      else Ok((BlockInverse(dagger, b), x))
    }

    /** reconstruct and reconstructSpecialMG (left mode) leave the solution alone. */
    function Reconstruct(x: Spinor, b: Spinor, solType: SolutionType): (sol: Spinor)
      ensures sol == x
    {
      x
    }

    /** Preparing and then reconstructing gives back the caller's solution field. */
    lemma PrepareThenReconstruct(x: Spinor, b: Spinor, solType: SolutionType)
      ensures Prepare(x, b, solType).Ok? ==> Reconstruct(Prepare(x, b, solType).value.1, b, solType) == x
      ensures PrepareSpecialMG(x, b, solType).Ok? ==>
                Reconstruct(PrepareSpecialMG(x, b, solType).value.1, b, solType) == x
      ensures Prepare(x, b, solType).Ok? <==> PrepareSpecialMG(x, b, solType).Ok?
    {
    }

    /** createCoarseOp: only aggregation coarsening is supported. The mass handed on is the
        call's own `mass` argument, which shadows the operator's mass field. */
    function CreateCoarseOp(t: Transfer, massArg: real): (r: Result<CoarseOpRequest>)
      reads this
      requires xinv != null
      reads xinv
      ensures r.Ok? <==> t == Aggregate
      ensures r.Err? ==> r.error == NotAggregation
      ensures r.Ok? ==> r.value.mass == massArg && r.value.xinv == xinv.param
    {
      if t != Aggregate then Err(NotAggregation) else Ok(CoarseOpRequest(massArg, xinv.param))
    }
  }

  /** A client of the ownership protocol: an operator and a copy of it are both destroyed,
      and the shared Xinv is freed exactly once. Returns how often it was freed. */
  method CopyThenDestroyBoth(g: GaugeInfo, m: real) returns (frees: nat, shared: bool)
    requires |g.x| == NDim
    ensures shared && frees == 1
  {
    var a := new DiracStaggeredKD(g, m, false);
    var b := new DiracStaggeredKD.Copy(a);
    shared := a.xinv == b.xinv;
    b.Destroy();
    a.Destroy();
    frees := a.xinv.frees;
  }

  /** Assigning over an operator that owned its Xinv leaves that Xinv unfreed by either destructor. */
  method AssignThenDestroyBoth(g: GaugeInfo, m: real) returns (sharedFrees: nat, droppedFrees: nat)
    requires |g.x| == NDim
    ensures sharedFrees == 1 && droppedFrees == 0
  {
    var a := new DiracStaggeredKD(g, m, false);
    var b := new DiracStaggeredKD(g, m, true);
    var dropped := b.xinv;
    b.Assign(a);
    b.Destroy();
    a.Destroy();
    sharedFrees := a.xinv.frees;
    droppedFrees := dropped.frees;
  }
}
