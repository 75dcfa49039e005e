# Jacobi-Davidson eigensolver, Kahler-Dirac staggered operator and split-grid arithmetic

This project is a Dafny model of three pieces of a lattice-QCD library:

- **The Jacobi-Davidson (JD) eigensolver** (`lib/eig_jacdav_quda.cpp`).
  - It grows a search space `V` one vector at a time and keeps the projected matrix `H`.
  - It sorts the Ritz pairs of `H` and locks converged pairs into the caller's `eigSpace`/`evals`.
  - When `V` is full it restarts by shrinking `V` to `m_min` directions.
  - It extends `V` with the solution of a projected correction equation.
  - That equation is preconditioned by a CG solver run with a temporarily shifted operator, and solved by GCR.
- **The Kahler-Dirac (KD) preconditioned staggered operator** (`lib/dirac_staggered_kd.cpp`).
  - It builds and owns (or shares) the coarse field `Xinv` that holds the block inverse.
  - It applies the operator as the staggered stencil composed with the block inverse.
  - It checks spinor configurations and prepares and reconstructs solves.
- **The communicator-grid arithmetic of the split-grid test** (`tests/comm_test.cpp`).
  - The element-wise `CommKey` operators and mixed-radix coordinates.
  - The send/receive plan of `split_gauge_field`.
  - The divisibility check and rescaling in `main`.

## Modelling choices

Floating-point numerics are not modelled. The kernels the solver calls are parameters of the model:

- norms, dot products, the dense eigendecomposition of `H`, complex division, and the precision a field is stored in;
- they are the fields of the `JDNumerics.Numerics` datatype, so every property proved holds whatever these kernels compute.

Lattice fields are symbolic terms (`Fields.Field`). Each term records which call produced it and with which arguments:

- a zero field, an `ax`, a `caxpy`, a block `caxpy`;
- an operator application with its shift;
- a CG or GCR solution with its shift, tolerance and iteration cap.

The contracts can therefore state the order of calls, the scale factors and the solver settings each inner solve ran with.

The KD kernels are recorded the same way, as `StaggeredKD.Spinor` terms and a trace of `StaggeredKD.Call`s.

**State that the source changes in place is modelled as classes.**

- `JacobiDavidson.JD` holds the solver's counters, buffers and `H`.
- `Host` holds the global verbosity and a log of observable events: inner-solver runs, warnings.
- `DiracMatrix` holds an operator's shift.
- `SolverParam` holds an inner solver's settings.
- `ProjCorr` is the projected correction operator.
- `StaggeredKD.DiracStaggeredKD` holds the operator and its `Xinv` ownership flag.
- `CoarseGauge` holds the `Xinv` field, with a count of how often it was freed.

Lists of field pointers (`V`, `V_A`, `tmpV`, `tmpAV`) are sequences of fields.

**Out-of-range reads.** The source reads past the end of the sorted Ritz pairs in two places:

- in `checkIfConverged` when the pair after the last one would be used;
- in `shrinkSubspace` when `loopr + m_min > m`.

Neither is checked in the source. The model stops the run there with the `IndexOutOfRange` outcome, which marks undefined behaviour rather than an error the source reports.

**C integer arithmetic.** C's truncating `/` and `%` are written out (`CommGrid.Quot`, `CommGrid.Rem`); the Xinv extents use the same `CommGrid.Quot`. The split-grid results are proved for the inputs the test uses: positive extents, comm keys that divide them, and coordinates inside the grid.

## Model

| member | source | states |
|---|---|---|
| JacobiDavidson.JD.constructor | lib/eig_jacdav_quda.cpp:39-92 | the correction-equation solver settings: tolerance and cap from the parameters, initial guess on, preconditioning off; the GCR settings are a copy of them with cap 5 and tolerance 1e-2; the CG is bound to `mat` and these settings, the GCR to the projected operator |
| JacobiDavidson.JD.Create | lib/eig_jacdav_quda.cpp:33-34 | construction fails exactly when the spectrum is not smallest-real |
| JacobiDavidson.CG.Solve | lib/eig_jacdav_quda.cpp:468 | one CG solve with the shift its operator holds and the tolerance and cap its parameter object holds at the call, logged at the current verbosity |
| JacobiDavidson.GCR.Solve | lib/eig_jacdav_quda.cpp:453 | one GCR solve of the operator projected against its projection space and Qhat at its theta, with the tolerance and cap its parameter object holds at the call, logged at the current verbosity |
| JacobiDavidson.K | lib/eig_jacdav_quda.cpp:457-474 | the CG runs with the given tolerance, cap and verbosity, and the parameter object and the global verbosity are back to their old values afterwards |
| JacobiDavidson.ShiftedSolve | lib/eig_jacdav_quda.cpp:680-688 | K runs with the operator shifted by -theta and the shift is restored; the CG sees the moved shift exactly when it is bound to that operator |
| JacobiDavidson.ProjCorr.Configure | lib/eig_jacdav_quda.cpp:437-448 | the projected operator receives the projection space, theta, M, Qhat, the operator, CG, parameters, size, tolerance and cap |
| JacobiDavidson.ProjCorr.Apply | lib/eig_jacdav_quda.cpp:654-705 | a zero input yields a zero output, and a warning above silent verbosity; otherwise out = yhat - (u^dag yhat / M) Qhat with yhat the shifted CG solution of (A - theta) in, one silent CG run logged, shift, settings and verbosity restored |
| JacobiDavidson.LiftVector | lib/eig_jacdav_quda.cpp:219-223 | the zero-then-caxpy loop yields the lifted Ritz vector and uses every basis vector exactly once, in order |
| JDNumerics.LiftUsesBasis | lib/eig_jacdav_quda.cpp:219-223 | a lifted vector is built from exactly the basis vectors, in order |
| JacobiDavidson.JD.Orth | lib/eig_jacdav_quda.cpp:510-529 | against an empty space x and norm are unchanged; otherwise two normalise-then-project passes against the first `size` vectors, norm left at the norm before the second pass |
| JDNumerics.OrthPass | lib/eig_jacdav_quda.cpp:521-527 | one pass normalises x and subtracts its projections on every vector of the space, with coefficients -<v_i, x/|x|> |
| JDNumerics.Orthogonalised | lib/eig_jacdav_quda.cpp:510-529 | orth leaves x unchanged against an empty space; otherwise the result is two OrthPass passes, each a projection against exactly the first `size` vectors |
| JacobiDavidson.Zeros | lib/eig_jacdav_quda.cpp:499-507 | n zero fields |
| JacobiDavidson.ZeroBuffers | lib/eig_jacdav_quda.cpp:499-502 | the push loop yields two lists of m_max zero fields |
| JacobiDavidson.JD.MoreInits | lib/eig_jacdav_quda.cpp:476-508 | t is a copy of the initial vector, r, r_tilde, Qhat, u, u_A and y_hat are zero, and V, V_A, tmpV, tmpAV are m_max zero fields each |
| JacobiDavidson.SetMirrored | lib/eig_jacdav_quda.cpp:626-628 | one step of the column loop: H(i, n) = c and H(n, i) = conj(c), everything else kept |
| JacobiDavidson.GrowH | lib/eig_jacdav_quda.cpp:624-631 | the resize and the column loop yield exactly the extension of H by the new column, its conjugate row and the new corner |
| JDNumerics.Extend | lib/eig_jacdav_quda.cpp:624-631 | the grown H keeps the old block and holds the new column, its conjugate and the corner |
| JDNumerics.ExtendKeepsHermitian | lib/eig_jacdav_quda.cpp:624-631 | growing H keeps it Hermitian off the diagonal |
| JDNumerics.NewColumn | lib/eig_jacdav_quda.cpp:625-627 | the new column holds <V_i, V_A[m-1]> for i < m-1 |
| JacobiDavidson.EigenPairs | lib/eig_jacdav_quda.cpp:636-643 | the copy loop yields the m eigenpairs in the eigensolver's order |
| JDNumerics.Decompose | lib/eig_jacdav_quda.cpp:634-643 | m pairs, pair i holding eigenvalue i and an m-long eigenvector |
| JDNumerics.Insert | lib/eig_jacdav_quda.cpp:648 | inserting into an ascending list keeps it ascending and adds exactly that pair |
| JDNumerics.SortByValue | lib/eig_jacdav_quda.cpp:648 | the sort is ascending by Ritz value and a permutation of its input |
| JDNumerics.SortKeepsPairs | lib/eig_jacdav_quda.cpp:636-648 | every decomposed pair survives the sort and every sorted pair was decomposed: eigenvectors stay with their eigenvalues |
| JDNumerics.SortKeepsLengths | lib/eig_jacdav_quda.cpp:638-648 | sorting keeps every eigenvector m long |
| JDNumerics.SortedFirstIsSmallest | lib/eig_jacdav_quda.cpp:645-648 | the first sorted pair has the smallest Ritz value |
| JacobiDavidson.JD.EigsolveInSubspace | lib/eig_jacdav_quda.cpp:617-649 | H grows by the dot-product column and stays Hermitian off the diagonal; the pairs are the sorted eigenpairs of the new H, ascending, a permutation of the decomposition, each vector m long |
| JDNumerics.Focus | lib/eig_jacdav_quda.cpp:217-231 | the current approximation from a Ritz pair: u lifted through V, u_A its image, theta its value, r = u_A - theta u and the norm of r |
| JDNumerics.LockedValuesAt | lib/eig_jacdav_quda.cpp:537-541 | after locking slots k0..k1-1, slot j holds the value of pair loopr + (j - k0), and other slots are unchanged |
| JDNumerics.LockedVectorsAt | lib/eig_jacdav_quda.cpp:537-562 | after locking, slot k0 holds the u in hand, later locked slots the lifted Ritz vectors of the following pairs, other slots are unchanged |
| JacobiDavidson.LockConverged | lib/eig_jacdav_quda.cpp:537-563 | the locking loop meets LockSpec: k grows by the pairs locked and stops at k_max with converged set; otherwise the residual of the next focused pair is not below tol; loopr advances with k; evals, eigSpace and the current approximation are as locked and focused |
| JacobiDavidson.JD.CheckIfConverged | lib/eig_jacdav_quda.cpp:531-564 | the solver state after checkIfConverged relates to the state before it by LockSpec |
| JDNumerics.DiagonalMatrix | lib/eig_jacdav_quda.cpp:575-591 | a square diagonal matrix with the given diagonal |
| JDNumerics.DiagonalIsHermitian | lib/eig_jacdav_quda.cpp:575-591 | a diagonal H is Hermitian off the diagonal |
| JDNumerics.Shrunk | lib/eig_jacdav_quda.cpp:575-591 | the restarted H is m_min square and diagonal, holding the Ritz values from loopr on |
| JDNumerics.ShrunkIsAscendingDiagonal | lib/eig_jacdav_quda.cpp:575-614 | from sorted pairs the restarted H is Hermitian, its diagonal real and ascending, and H(0,0) is the value of pair loopr, the new theta |
| JDNumerics.RestartBasis | lib/eig_jacdav_quda.cpp:578-594 | the new space is u, then the Ritz vectors of pairs loopr+1.. lifted through V |
| JDNumerics.RestartImages | lib/eig_jacdav_quda.cpp:581-593 | the new images are u_A, then the operator applied to the rest |
| JacobiDavidson.FillRestart | lib/eig_jacdav_quda.cpp:575-594 | the first restart loop fills tmpV and tmpAV with the new space and images, leaves the slots past m_min alone, and sets H to the shrunk diagonal |
| JacobiDavidson.SwapPrefix | lib/eig_jacdav_quda.cpp:599-606 | the swap loop exchanges the first n slots of two lists, which permutes the buffers between them |
| JDNumerics.SwapPrefixPermutes | lib/eig_jacdav_quda.cpp:599-606 | exchanging prefixes keeps the union of the two lists |
| JacobiDavidson.ShrinkBuffers | lib/eig_jacdav_quda.cpp:575-606 | building and then exchanging yields the shrunk H and the restarted buffers |
| JDNumerics.RestartedPermutes | lib/eig_jacdav_quda.cpp:575-606 | a restart only moves buffers between V and tmpV (and V_A and tmpAV) |
| JDNumerics.RestartedContents | lib/eig_jacdav_quda.cpp:575-606 | after a restart V starts with u and the lifted Ritz vectors, V_A with their images, the tail of V is untouched, and tmpV holds the old prefix of V |
| JacobiDavidson.JD.ShrinkSubspace | lib/eig_jacdav_quda.cpp:566-615 | H and the four buffer lists are restarted as above; m = m_min, loopr = 0, restart_iter + 1, theta is the value of pair loopr |
| JacobiDavidson.JD.SeenShift | lib/eig_jacdav_quda.cpp:359-378 | while matPrecon is shifted by -theta the CG (bound to mat) sees that shift only when mat is matPrecon |
| JacobiDavidson.JD.ShiftedK | lib/eig_jacdav_quda.cpp:363-378 | one shifted silent CG solve at the correction-equation tolerance and cap; shift, settings and verbosity restored, one CG run logged |
| JacobiDavidson.JD.Precondition | lib/eig_jacdav_quda.cpp:354-433 | Qhat = K^-1 u, M = u^dag Qhat, r_tilde = -(rhat - (u^dag rhat / M) Qhat) with rhat = K^-1 b; two silent CG runs logged, everything shifted or set restored |
| JacobiDavidson.JD.SilentGcr | lib/eig_jacdav_quda.cpp:450-454 | x starts at zero, GCR runs silently, the verbosity is restored |
| JacobiDavidson.JD.InvertProjMat | lib/eig_jacdav_quda.cpp:343-455 | with one projection vector: Qhat, M and r_tilde as above, the projected operator configured with them, and x the GCR solution of the correction equation for r_tilde; log of two CG runs then one GCR run, shift, settings and verbosity restored |
| JacobiDavidson.JD.Expand | lib/eig_jacdav_quda.cpp:198-211 | t is orthogonalised against the k locked vectors and then the m vectors of V, normalised into V[m] with its image in V_A[m], and m grows by one |
| JacobiDavidson.JD.Residual | lib/eig_jacdav_quda.cpp:217-231 | u, u_A, theta, r and the norm are the Focus of the Ritz pair at loopr over V[..m] |
| JacobiDavidson.JD.Explore | lib/eig_jacdav_quda.cpp:198-231 | m grows by one and H stays square and Hermitian off the diagonal; the pairs are ascending with m-long vectors |
| JacobiDavidson.JD.Restart | lib/eig_jacdav_quda.cpp:244-245 | the shrink fires exactly at m = m_max: with m < m_max the iteration goes on with H, m, loopr, theta, restart_iter and all four buffer lists unchanged; with m = m_max the run stops out of range exactly when loopr + m_min > m, else H is the shrunk diagonal with m = m_min, loopr = 0 and one more restart |
| JacobiDavidson.JD.Settle | lib/eig_jacdav_quda.cpp:238-245 | the iteration finishes exactly when the solver converged, and then k = k_max; when it goes on, 0 <= loopr < m < m_max, k < k_max, H is Hermitian, and the restart fired exactly when m = m_max: below it m, restart_iter, H and the buffers are unchanged, at it m = m_min and restart_iter grew by one |
| JacobiDavidson.JD.Correct | lib/eig_jacdav_quda.cpp:247-256 | t is the GCR solution of the correction equation projected against u for r_tilde, where Qhat = K^-1 u and r_tilde = -(rhat - (u^dag rhat / u^dag Qhat) Qhat) with rhat = K^-1 r; the projected operator holds u, theta, Qhat and the correction-equation settings; the iteration counter grows by one, the inner runs are logged and everything shifted or set is restored |
| JacobiDavidson.JD.Advance | lib/eig_jacdav_quda.cpp:196-245 | Explore then Settle: finishes exactly when converged (then k = k_max); when it goes on, H is Hermitian, 0 <= loopr <= m < m_max, and the restart fired exactly when the grown m reached m_max |
| JacobiDavidson.JD.Iterate | lib/eig_jacdav_quda.cpp:196-257 | one pass of the main loop: finishes exactly when converged (then k = k_max); when it goes on, H is Hermitian, m grew by one when that left it below m_max and otherwise a restart set m = m_min with restart_iter + 1, iter grew by one, and exactly two CG runs and one GCR run are logged; shifts, settings and verbosity restored |
| JacobiDavidson.JD.Start | lib/eig_jacdav_quda.cpp:121-131 | k = 0, k_max = nConv, m = 0, m_max, m_min from the parameters, theta = 0, and the initial-guess test applied to eigSpace[0] |
| JacobiDavidson.JD.Loop | lib/eig_jacdav_quda.cpp:193-257 | the main loop ends finished exactly when converged (then k = k_max), and otherwise with restarts exhausted and k < k_max, or out of range; it emits no convergence warning |
| JacobiDavidson.JD.Report | lib/eig_jacdav_quda.cpp:266-286 | converged runs report success; unconverged runs are an error when convergence is required and a warning otherwise, logged only above silent verbosity |
| JacobiDavidson.JD.Solve | lib/eig_jacdav_quda.cpp:189-286 | the computation part: success exactly when converged, with k = k_max; a not-converged outcome means restarts are exhausted and k < k_max; the convergence warning is logged exactly for a not-converged warning above silent verbosity |
| JacobiDavidson.JD.Run | lib/eig_jacdav_quda.cpp:97-286 | vectors are loaded exactly when vec_infile is set; an invalid precision of the initial vector is fatal; otherwise the outcomes of Solve, with k_max = nConv, the lengths of evals and eigSpace kept, and shifts, settings and verbosity restored |
| StaggeredKD.HalfExtents | lib/dirac_staggered_kd.cpp:14-15 | each Xinv extent is the fine extent divided by two, truncating |
| StaggeredKD.HalfExtentsCoverLattice | lib/dirac_staggered_kd.cpp:14-15 | on an even lattice every Xinv extent is at least 1 and twice it is the fine extent |
| StaggeredKD.DiracStaggeredKD.CoarseExtents | lib/dirac_staggered_kd.cpp:74 | the extent loop yields the halved extents |
| StaggeredKD.CoarseColors | lib/dirac_staggered_kd.cpp:16-21 | Xinv has 16 times the fine colours (48 for 3 colours) |
| StaggeredKD.ClampPrecision | lib/dirac_staggered_kd.cpp:27-33 | the precision is clamped into [half, single] and kept when already inside |
| StaggeredKD.XinvPrecision | lib/dirac_staggered_kd.cpp:86-92 | the override precision, if given, else the gauge's, clamped: always half or single |
| StaggeredKD.XinvShape | lib/dirac_staggered_kd.cpp:19-40 | the Xinv description: 4 dimensions, 16 times the colours, no face, no pad, half or single precision |
| StaggeredKD.CoarseGauge.constructor | lib/dirac_staggered_kd.cpp:42 | Xinv is allocated with the requested shape and has not been freed |
| StaggeredKD.CoarseGauge.Build | lib/dirac_staggered_kd.cpp:45 | Xinv is populated at the operator's mass |
| StaggeredKD.DiracStaggeredKD.constructor | lib/dirac_staggered_kd.cpp:8-46 | a fresh owned Xinv with the described shape, built at the operator's mass |
| StaggeredKD.DiracStaggeredKD.FromStaggered | lib/dirac_staggered_kd.cpp:67-110 | as the constructor, with the precision override taken into account |
| StaggeredKD.DiracStaggeredKD.Copy | lib/dirac_staggered_kd.cpp:48-51 | the copy shares the source's Xinv, does not own it, and starts with an empty kernel trace |
| StaggeredKD.DiracStaggeredKD.Destroy | lib/dirac_staggered_kd.cpp:53-55 | Xinv is freed once when present and owned, and not at all otherwise |
| StaggeredKD.DiracStaggeredKD.Assign | lib/dirac_staggered_kd.cpp:57-65 | self-assignment changes nothing; otherwise the operator shares the source's Xinv without owning it |
| StaggeredKD.CopyThenDestroyBoth | lib/dirac_staggered_kd.cpp:48-55 | an operator and its copy share Xinv, and destroying both frees it exactly once |
| StaggeredKD.AssignThenDestroyBoth | lib/dirac_staggered_kd.cpp:53-65 | assigning over an operator that owned its Xinv leaves that Xinv never freed, and the shared one freed once |
| StaggeredKD.CheckParitySpinorAsWritten | lib/dirac_staggered_kd.cpp:112-130 | the check as written: fails with Not5D exactly when a field is not 5-d, and with NotFullParity exactly when both are 5-d with equal precision but the input is single parity or the output is full |
| StaggeredKD.AsWrittenRejectsFullFields | lib/dirac_staggered_kd.cpp:112-130 | the check as written rejects every pair of full-parity fields, and its volume check can never fire |
| StaggeredKD.AsWrittenCounterexample | lib/dirac_staggered_kd.cpp:122-125 | two matching 5-d full fields of the right volume are rejected as not full parity |
| StaggeredKD.AsWrittenPassesOnlySingleParityOutput | lib/dirac_staggered_kd.cpp:112-130 | as written, the check passes exactly the pairs whose output is single parity |
| StaggeredKD.CheckParitySpinor | lib/dirac_staggered_kd.cpp:112-130 | corrected: passes exactly 5-d fields of equal precision, both full parity, with output volume per fifth-dimension slice twice the gauge checkerboard volume; fails with Not5D exactly when a field is not 5-d |
| StaggeredKD.CheckParitySpinorAgreesOnParityInput | lib/dirac_staggered_kd.cpp:122-125 | on a single-parity input the corrected and the written check agree, and both reject |
| StaggeredKD.DiracStaggeredKD.Dslash | lib/dirac_staggered_kd.cpp:133-137 | always an error: there is no single-parity form |
| StaggeredKD.DiracStaggeredKD.DslashXpay | lib/dirac_staggered_kd.cpp:139-144 | always an error: there is no single-parity form |
| StaggeredKD.StencilScale | lib/dirac_staggered_kd.cpp:189-195 | the stencil is called with 0 at zero mass and 2m otherwise |
| StaggeredKD.MCalls | lib/dirac_staggered_kd.cpp:186-212 | M is stencil then block inverse without dagger, block inverse then stencil with dagger; at zero mass the stencil's dagger flag is inverted |
| StaggeredKD.DiracStaggeredKD.M | lib/dirac_staggered_kd.cpp:147-217 | out is the two kernels applied in MCalls order with the stated scale and flags; the trace grows by those calls and flops by the stencil and block-inverse counts |
| StaggeredKD.StencilFlops | lib/dirac_staggered_kd.cpp:190-194 | the stencil costs 570 flops per site at zero mass and 582 otherwise |
| StaggeredKD.InverseFlops | lib/dirac_staggered_kd.cpp:196-202 | the block inverse costs (8*48-2)*48/16 = 1146 flops per site |
| StaggeredKD.MFlopsPerSite | lib/dirac_staggered_kd.cpp:186-212 | one M costs 1716 flops per site at zero mass and 1728 otherwise |
| StaggeredKD.Adjoint | lib/dirac_staggered_kd.cpp:219-229 | the adjoint of a call trace has the same length, reversed order and every dagger flag flipped |
| StaggeredKD.DaggerReversesM | lib/dirac_staggered_kd.cpp:186-212 | M with dagger is the adjoint of M without: the calls reverse and every dagger flag flips, at zero and non-zero mass |
| StaggeredKD.RunPair | lib/dirac_staggered_kd.cpp:186-212 | a two-call trace applies its first call first |
| StaggeredKD.DiracStaggeredKD.Mdag | lib/dirac_staggered_kd.cpp:219-229 | M with the dagger flag flipped for the call and restored afterwards |
| StaggeredKD.DiracStaggeredKD.MdagM | lib/dirac_staggered_kd.cpp:219-229 | Mdag applied to M: the trace is M's calls followed by their adjoint, twice the flops, dagger unchanged |
| StaggeredKD.DiracStaggeredKD.LeftPreconditioning | lib/dirac_staggered_kd.cpp:186-212 | M is left-preconditioned by KahlerDiracInv (231-234): without dagger, the stencil then KahlerDiracInv; with dagger, KahlerDiracInv then the stencil |
| StaggeredKD.DiracStaggeredKD.PreparedSystemIsStencilSystem | lib/dirac_staggered_kd.cpp:269-279 | after prepareSpecialMG replaces b by KahlerDiracInv(b), M x equals the new right-hand side exactly when the stencil maps x to the caller's b |
| StaggeredKD.DiracStaggeredKD.Reconstruct | lib/dirac_staggered_kd.cpp:283-315 | reconstruct and reconstructSpecialMG in left-preconditioned mode hand back the solution field untouched |
| StaggeredKD.NeedsPreconditionedSolve | lib/dirac_staggered_kd.cpp:242 | MATPC and MATPCDAG_MATPC are refused; MAT, MATDAG_MAT, MATPCDAG and the shifted MATPCDAG_MATPC are not |
| StaggeredKD.DiracStaggeredKD.Prepare | lib/dirac_staggered_kd.cpp:236-249 | fails exactly for the preconditioned solution types; otherwise src is b and sol is x |
| StaggeredKD.DiracStaggeredKD.PrepareSpecialMG | lib/dirac_staggered_kd.cpp:251-281 | fails exactly for the preconditioned solution types; otherwise src is the block inverse applied to b and sol is x |
| StaggeredKD.DiracStaggeredKD.PrepareThenReconstruct | lib/dirac_staggered_kd.cpp:236-315 | reconstruct after either prepare gives back the caller's solution field, and the two prepares fail on the same solution types |
| StaggeredKD.DiracStaggeredKD.CreateCoarseOp | lib/dirac_staggered_kd.cpp:326-332 | only aggregation is accepted; the coarse op is built with the call's mass argument and Xinv |
| CommGrid.RemBounds | tests/comm_test.cpp:161-166 | C's remainder takes the sign of the dividend, is smaller than the divisor in magnitude, and quotient times divisor plus remainder is the dividend |
| CommGrid.QuotRemNonneg | tests/comm_test.cpp:168-176 | on non-negative operands C's / and % agree with Euclidean division |
| CommGrid.Product | tests/comm_test.cpp:138 | the product of positive extents is positive |
| CommGrid.Add | tests/comm_test.cpp:140-145 | element-wise sum |
| CommGrid.Mul | tests/comm_test.cpp:147-152 | element-wise product |
| CommGrid.Div | tests/comm_test.cpp:154-159 | element-wise truncating quotient |
| CommGrid.Mod | tests/comm_test.cpp:161-166 | element-wise C remainder |
| CommGrid.DivModIdentity | tests/comm_test.cpp:147-166 | (a / b) * b + a % b == a for keys |
| CommGrid.ProductOfMul | tests/comm_test.cpp:138-152 | product is multiplicative over the element-wise product |
| CommGrid.CoordinateFromIndex | tests/comm_test.cpp:168-176 | the loop yields the mixed-radix digits of the index, dimension 0 first |
| CommGrid.IndexFromCoordinate | tests/comm_test.cpp:178-181 | the index is the mixed-radix number of the coordinate, dimension 0 least significant |
| CommGrid.CoordinateInRange | tests/comm_test.cpp:168-176 | every coordinate of a non-negative index lies in the box |
| CommGrid.IndexOfCoordinate | tests/comm_test.cpp:168-181 | index_from_coordinate undoes coordinate_from_index on [0, product(dim)) |
| CommGrid.CoordinateOfIndex | tests/comm_test.cpp:168-181 | coordinate_from_index undoes index_from_coordinate inside the box, and the index lies in [0, product(dim)) |
| CommGrid.DimensionZeroFastest | tests/comm_test.cpp:168-176 | stepping the index steps coordinate 0 and leaves the others alone unless coordinate 0 wraps |
| CommGrid.SplitGaugeField | tests/comm_test.cpp:188-258 | one send and one receive per replicate, in replicate order, each with the destination or source, rank, tag and offset the source computes |
| CommGrid.BlockDimIsCommKey | tests/comm_test.cpp:196-197 | when comm_key divides the full grid, block_dim equals comm_key |
| CommGrid.SendTargetInRange | tests/comm_test.cpp:204-211 | every send destination lies inside the full grid |
| CommGrid.RecvSourceInRange | tests/comm_test.cpp:232-236 | every receive source lies inside the full grid |
| CommGrid.SendHasMatchingRecv | tests/comm_test.cpp:204-237 | the receiver of each send has exactly the replicate that receives from the sender, with the same tag |
| CommGrid.RecvHasMatchingSend | tests/comm_test.cpp:204-237 | the source of each receive has a replicate that sends to the receiver |
| CommGrid.TagInjective | tests/comm_test.cpp:212 | the tag src * total + dst is injective on ranks in [0, total) |
| CommGrid.TagBound | tests/comm_test.cpp:212 | the tag of ranks in [0, total) lies in [0, total * total) |
| CommGrid.ScaleForSplit | tests/comm_test.cpp:342-350 | fails exactly when some comm_dim is not divisible by the split, at the first such dimension; otherwise every extent and the pad are scaled by the split |

## Left out

- Printing, profiling, timers, memory allocation and release, and the iteration summary lines are not modelled; they change no state the model keeps.
- `loadFromFile`, `computeEvals` and `saveVectors` are not modelled. Run reports LoadedFromFile and returns when vectors are read from file.
- The numerics are not modelled: norms, dot products, the Eigen eigendecomposition, complex division, the CG and GCR iterations, the stencil and block-inverse kernels. They are uninterpreted, so nothing is claimed about their values or their convergence.
- Floating-point rounding is not modelled; reals are exact.
- JacobiDavidson.JD.InvertProjMat: only the one-vector projection (kp = 1) is modelled. That is the only way the solver calls it; the kp > 1 branch, which solves with an LU factorisation, is left out.
- JacobiDavidson.ProjCorr.Apply: likewise requires a one-vector projection space (k = 1).
- The GCR solver's own calls of the projected operator are not traced: GCR is opaque, so the model records one GCR run rather than its inner CG runs.
- JacobiDavidson.JD.Run: requires nConv >= 1 and 1 <= m_min < m_max, which the source does not check.
  - With nConv = 0 the source leaves the first iteration through `k >= k_max` and may still report non-convergence.
  - With m_min = 0 the restart writes H(0,0) of an empty H.
  - With m_min >= m_max a restart leaves V full, and the next iteration writes past its end.
  - Run also requires that the solver has not converged before, so a second call on the same object is not modelled. There, moreInits would append to the existing buffer lists, where the model replaces them.
- JacobiDavidson.JD.Explore: states that the pairs are ascending and fit, not that they are the sorted decomposition; that identity is EigsolveInSubspace's contract.
- JacobiDavidson.JD.Iterate: Iterate, Loop, Solve and Run keep the lengths of evals and eigSpace but do not restate their contents. The contents are CheckIfConverged's LockSpec.
- JacobiDavidson.JD.Loop: does not restate the buffer contents after a restart; those are in ShrinkSubspace's contract.
- The std::sort tie-break on equal Ritz values is not modelled. The source compares the eigenvector pointers next, so the order among equal values is arbitrary. SortByValue fixes one order and the lemmas hold for any ascending permutation.
- The precision switch's printing is not modelled; only its error case is. Precision codes follow the library's enumeration (quarter 1, half 2, single 4, double 8, invalid INT_MIN).
- The right-block-preconditioned branches of M, prepareSpecialMG and reconstructSpecialMG are left out: they sit behind a flag hard-coded to false.
- checkFullSpinor, updateFields and prefetch are not modelled; they belong to the base class or only move memory.
- StaggeredKD.DiracStaggeredKD.PrepareSpecialMG: returns the new right-hand side rather than overwriting the caller's b in place.
- StaggeredKD.DiracStaggeredKD.FromStaggered: the base-class fields (gauge, mass, dagger and the flop count carried over) are set by the staggered operator's copy constructor at lib/dirac_staggered_kd.cpp:68, which is not part of this model's sources. The model takes them from the arguments as an assumption, as the plain constructor takes them from its parameters with the flop count at zero.
- StaggeredKD.DiracStaggeredKD.Copy: the base-class fields (gauge, mass, dagger, flop count) are set by the staggered operator's copy constructor, which is not part of this model's sources. The contract promises only Xinv, own_xinv and the empty trace.
- StaggeredKD.DiracStaggeredKD.Assign: likewise, the base-class fields are assigned by the staggered operator's operator=, which is not part of this model's sources. The contract promises only Xinv and own_xinv when the operands differ.
- StaggeredKD.DiracStaggeredKD.Mdag: the base class's Mdag (flip the dagger flag, apply M, flip it back) is not part of this model's sources and is modelled as that behaviour.
- 64-bit overflow of the flop counter and 32-bit overflow of the tag are not modelled; integers are unbounded, and TagBound states the bound under which the tag fits.
- The communication calls are not modelled: comm_declare_send_rank, comm_start, comm_wait, the buffer copies and copyOffsetGauge. SplitGaugeField plans the messages; comm_rank_from_coords is a parameter.
- CommGrid.SplitGaugeField: takes the calling rank, comm_rank(), to be comm_rank_from_coords of the rank's own coordinates full_idx. The communicator layer that would guarantee this is not part of this model.
- The util_quda.h reporting macros are read as single emissions. As written (include/util_quda.h:44-125) every printfQuda, warningQuda and errorQuda ends in `} while (true)`, so one that is reached never returns. Examples are the unconditional printfQuda on the load path (lib/eig_jacdav_quda.cpp:116) and warningQuda (:274), whose verbosity test is inside the loop. The model takes the evident `while (0)`. Under the text as written, Run never returns LoadedFromFile, NotConvergedWarning or NotConvergedError, and a converged run returns only if no print is reached on its way, which needs at least a verbosity below summarize (:279-280).
- JacobiDavidson.JD.SeenShift: the CG used inside invertProjMat is bound to `mat`, while the shift is applied to `matPrecon`. The model records the shift the CG actually sees, which is the moved one only when the two are the same object; it makes no claim about which was intended.

## Findings

| source | as written | input that shows it | evidently intended | confidence | as-written member | corrected member |
|---|---|---|---|---|---|---|
| lib/dirac_staggered_kd.cpp:122-129 | `out.SiteSubset() == QUDA_FULL_SITE_SUBSET` raises the "not full parity" error, so a full-parity output is rejected; the volume check below, guarded by the output being full, can never fire | two 5-d full-parity fields of equal precision, volume 16, fifth extent 1, gauge checkerboard volume 8 | reject when the output is NOT full parity (`!=`), so matching full fields pass and the volume check applies | medium, not executed | StaggeredKD.AsWrittenCounterexample | StaggeredKD.CheckParitySpinor |
