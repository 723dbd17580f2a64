# Momentum friction kernels of Veros

A Dafny model of the momentum-friction kernels of the Veros ocean model
(`veros/core/friction.py`). Each kernel adds a friction tendency to the momentum tendencies `du_mix` and
`dv_mix`. When energy conservation is enabled, it also diagnoses the energy that friction removes and adds
it to one of the dissipation accumulators `K_diss_v`, `K_diss_h` or `K_diss_bot`. The modelled kernels are:

- `explicit_vert_friction` and `implicit_vert_friction` (module `VerticalFriction`). The implicit one
  builds a tridiagonal system per water column (`Tridiagonal`, `ImplicitSystem`), solves it and writes
  the result into the velocity at time level `taup1`.
- `rayleigh_friction` and `momentum_sources` (`Damping`).
- `linear_bottom_friction` and `quadratic_bottom_friction` (`BottomFriction`).
- `harmonic_friction` and `biharmonic_friction` (`HarmonicFriction`, `BiharmonicFriction`). They share the
  face-flux stencils of `LateralStencils`.

Every kernel runs a zonal pass (u, on U-points) and then a meridional pass (v, on V-points).
`Staggering.Component` picks the mask, the neighbouring column and the grid-transfer routine of each
pass.

The kernels work by overwriting whole arrays step by step. The model follows that:
- the arrays a kernel changes are `array3<real>`: the tendencies, the dissipation accumulators, the
  velocity at `taup1`, and the scratch buffers `flux_top`, `diss`, `flux_east`, `flux_north`, `del2`,
  `delta` and `a_tri` .. `d_tri`;
- `update` and `update_add` on a slice are loop methods over a box of cells (`Fields.Update`,
  `Fields.UpdateAdd`);
- each method states the new contents of every array it changes, as a function of the inputs and of
  the old contents.

Scratch buffers are reused between the two passes just as in the source. Cells the meridional pass
does not write keep what the zonal pass left there, and the contracts show this: the meridional `diss`
is a function of the zonal one. Read-only inputs are values (`Fields.Field`, three nested sequences of
reals). These are the grid, its metrics and masks, `kappaM`, and the velocity at `tau`.

The properties proved include:
- explicit vertical friction conserves the momentum of every column;
- any solution of the implicit system conserves the column's momentum;
- the implicit rows sum to one and are diagonally dominant;
- for Rayleigh damping, momentum sources and linear and quadratic drag, the dissipation diagnosed in
  a cell is the work the tendency does there against the flow;
- the diagnosed dissipation is non-negative under the physical sign conditions for explicit vertical
  friction, Rayleigh damping, linear and quadratic drag, and harmonic friction with free-slip walls;
- drag acts on the bottom level only;
- lateral friction changes `du_mix` and `dv_mix` only on the interior `[2:-2, 2:-2]`;
- an inviscid lateral kernel leaves `du_mix` and `dv_mix` unchanged (the biharmonic one given that the
  square root maps 0 to 0). With energy conservation, `K_diss_h` is still rewritten as a whole;
- reusing `del2` between the biharmonic passes is harmless.

## Model

| member | source | states |
|---|---|---|
| VerticalFriction.FillFluxTop | veros/core/friction.py:21-23 | `flux_top` holds the mean viscosity times the vertical shear over `dzw`, masked on both cells, on the interior faces `[1:-2, 1:-2, :-1]`, and 0 on every other cell |
| VerticalFriction.FluxTopFieldOffFluxBox | veros/core/friction.py:21-24 | the flux field is 0 outside the interior faces, so in particular at the surface |
| VerticalFriction.ClearSurfaceFlux | veros/core/friction.py:24 | clearing the surface level leaves `flux_top` unchanged, because the surface already holds 0 |
| VerticalFriction.FillExplicitTendency | veros/core/friction.py:25-26 | `du_mix` becomes the masked flux divergence over `dzt`; the deepest level takes no flux through its bottom |
| VerticalFriction.FillDiss | veros/core/friction.py:31-33 | `diss` holds shear times flux over `dzw` on the interior faces and 0 at the surface; other cells keep their old contents |
| VerticalFriction.Accumulate | veros/core/friction.py:34-35 | `diss` is replaced by its T-point average, and `K_diss_v` gains exactly that average |
| VerticalFriction.DiagnoseDissipation | veros/core/friction.py:31-35 | the dissipation added to `K_diss_v` is the T-point average of the shear-times-flux field, computed over the old `diss` buffer |
| VerticalFriction.ExplicitPass | veros/core/friction.py:21-35 | after one pass, the tendency, `flux_top`, `diss` and `K_diss_v` hold the explicit flux divergence, the flux, and the diagnosed dissipation added to the accumulator (lines 40-56 for v) |
| VerticalFriction.ExplicitVertFriction | veros/core/friction.py:15-58 | `du_mix` and `dv_mix` are overwritten with the two divergences; `K_diss_v` gains both dissipations; the meridional `diss` is computed over what the zonal pass left in the buffer |
| VerticalFriction.FluxTopVanishesOnLand | veros/core/friction.py:22-23 | on a land cell, the fluxes through its top and its bottom are both 0 |
| VerticalFriction.DivergenceBalance | veros/core/friction.py:25-26 | a cell's divergence times its thickness is the flux leaving through its top minus the flux entering through its bottom |
| VerticalFriction.DivergenceTelescopes | veros/core/friction.py:25-26 | summed from the seafloor up to level n-1, the thickness-weighted divergence equals the flux through the top of level n-1 |
| VerticalFriction.ExplicitTendencyTelescopes | veros/core/friction.py:21-26 | the momentum change of a column below level n equals the flux leaving through the top of level n-1 |
| VerticalFriction.ExplicitConservesColumnMomentum | veros/core/friction.py:21-26 | explicit vertical friction leaves the momentum of every column unchanged (the thickness-weighted tendency sums to 0) |
| VerticalFriction.NoViscosityNoFlux | veros/core/friction.py:21-23 | with `kappaM` 0 everywhere, no flux crosses any top face |
| VerticalFriction.ExplicitInviscidTendency | veros/core/friction.py:21-26 | with `kappaM` 0 everywhere, every cell of the explicit tendency is 0 |
| VerticalFriction.ExplicitDissNonNegative | veros/core/friction.py:21-33 | with `kappaM` ≥ 0 and 0/1 masks, the work of the explicit flux against the shear is never negative, so every interior-face cell of `diss` is ≥ 0 |
| VerticalFriction.NewScratch | veros/core/friction.py:70-74 | the five block buffers are fresh, distinct and zero where later passes rely on it |
| VerticalFriction.BuildDelta | veros/core/friction.py:83-84 | `delta` holds `dt_mom / dzw` times the mean viscosity times both masks below the surface, and 0 at the surface |
| VerticalFriction.DeltaFieldSurfaceClear | veros/core/friction.py:84 | `delta` is 0 at the surface level: no diffusion through the sea surface |
| VerticalFriction.BuildLower | veros/core/friction.py:85 | `a_tri` is `-delta[k-1] / dzt[k]` from level 1 up, and level 0 keeps the buffer's 0 |
| VerticalFriction.BuildDiag | veros/core/friction.py:86-87 | `b_tri` is `1 + delta[k-1] / dzt[k]` from level 1 up, plus `delta[k] / dzt[k]` strictly between level 0 and the surface |
| VerticalFriction.DiagFieldCell | veros/core/friction.py:86-87 | each cell of `b_tri` is the part written first plus the part added after |
| VerticalFriction.BuildUpper | veros/core/friction.py:89 | `c_tri` is `-delta[k] / dzt[k]` below the surface and 0 at it, for u by division by a zero `delta` and for v by the explicit write at lines 121-122 |
| VerticalFriction.BuildRhs | veros/core/friction.py:90 | `d_tri` is the block of the velocity at `tau` |
| VerticalFriction.SystemKeepsBuffersReady | veros/core/friction.py:84-87 | after building, `delta` is still 0 at the surface and `a_tri` and `b_tri` are still 0 at level 0, as the next pass relies on |
| VerticalFriction.BuildSystem | veros/core/friction.py:83-90 | the four coefficient fields and the right-hand side are exactly those of the diffusion numbers of this pass, and the buffers stay ready (lines 114-123 for v) |
| VerticalFriction.SolveColumns | veros/core/friction.py:80-92 | the result is what `solve_implicit` returns for this pass's system, water mask and edge mask |
| VerticalFriction.WriteVelocity | veros/core/friction.py:93 | the velocity at `taup1` takes the solution on the water cells of the block and keeps its old value everywhere else |
| VerticalFriction.WriteBackOnlyOnWater | veros/core/friction.py:93 | a cell of the velocity at `taup1` changes only if it is a water cell of the block, and there it holds the solved value |
| VerticalFriction.FillImplicitTendency | veros/core/friction.py:94 | on the block, the tendency is `(u[taup1] - u[tau]) / dt_mom`; elsewhere it keeps its old value |
| VerticalFriction.BlockTendencyRecoversVelocity | veros/core/friction.py:94 | on the block, `u[tau] + dt_mom * du_mix` gives back `u[taup1]`; outside it the old tendency is kept |
| VerticalFriction.WriteBack | veros/core/friction.py:93-94 | the velocity write-back and the tendency update, the tendency being computed from the written velocity |
| VerticalFriction.ImplicitUpdate | veros/core/friction.py:80-94 | the new velocity at `taup1` and the tendency of one pass, with the buffers kept ready (lines 111-127 for v) |
| VerticalFriction.ImplicitDiagnose | veros/core/friction.py:99-106 | `flux_top` is computed from the new velocity; the dissipation combines the `tau` shear with that flux and is added to `K_diss_v` (lines 132-139 for v); the surface of `flux_top` is not cleared |
| VerticalFriction.ImplicitPass | veros/core/friction.py:80-106 | one pass: velocity, tendency, `diss` and `K_diss_v`; afterwards `flux_top` is 0 outside the interior faces and the buffers are ready for the next pass |
| VerticalFriction.ImplicitPasses | veros/core/friction.py:77-139 | both passes on shared scratch arrays; the meridional `diss` is computed over the zonal one |
| VerticalFriction.ImplicitVertFriction | veros/core/friction.py:68-141 | `u` and `v` at `taup1`, `du_mix`, `dv_mix` and `K_diss_v` after the whole kernel |
| Tridiagonal.RowSum | veros/core/friction.py:85-89 | every row of a column system sums to one: `a + b + c` above level 0, `b_edge + c` at the edge; the surface row has no `c` and level 0 no `a` |
| Tridiagonal.DiagonallyDominant | veros/core/friction.py:85-89 | with non-negative diffusion numbers, the main diagonal is one plus the magnitudes of the off-diagonals |
| Tridiagonal.ConstantColumnSolves | veros/core/friction.py:85-92 | a right-hand side that is constant over the water rows is solved by that constant |
| Tridiagonal.ScaledRow | veros/core/friction.py:85-90 | a row times its thickness is the new momentum of the level plus the net implicit flux out of it |
| Tridiagonal.PartialBalance | veros/core/friction.py:85-92 | summed from the edge up to level m, the right-hand side equals the solution plus the flux leaving level m |
| Tridiagonal.ImplicitConservesMomentum | veros/core/friction.py:84-92 | any solution of a column's water rows has the same thickness-weighted sum as the right-hand side |
| Tridiagonal.WeightedSumAgree | veros/core/friction.py:84-93 | two columns that agree on levels lo .. hi-1 carry the same thickness-weighted momentum over them |
| ImplicitSystem.DeltaColumnIsDiffusion | veros/core/friction.py:84 | each column of `delta` has one number per level and 0 at the surface |
| ImplicitSystem.DeltaNonNegative | veros/core/friction.py:84 | with a non-negative viscosity and 0/1 masks, every diffusion number is non-negative |
| ImplicitSystem.LowerOfColumn | veros/core/friction.py:85 | each cell of the built `a_tri` is the lower coefficient of its column's row |
| ImplicitSystem.DiagOfColumn | veros/core/friction.py:86-87 | each cell of the built `b_tri` is the main coefficient of its column's row |
| ImplicitSystem.DiagEdgeOfColumn | veros/core/friction.py:88 | each cell of `b_tri_edge` is the edge coefficient of its column's row |
| ImplicitSystem.UpperOfColumn | veros/core/friction.py:89 | each cell of the built `c_tri` is the upper coefficient of its column's row |
| ImplicitSystem.CoefficientsOfColumn | veros/core/friction.py:85-89 | the four built coefficient fields, read column by column, form the column system of `delta` |
| ImplicitSystem.ImplicitRowsSumToOne | veros/core/friction.py:85-89 | every row of the built system sums to one |
| ImplicitSystem.ImplicitRowsDominant | veros/core/friction.py:84-89 | with a non-negative viscosity and 0/1 masks, every row of the built system is diagonally dominant |
| ImplicitSystem.RhsColumn | veros/core/friction.py:90 | column (i, j) of `d_tri` is column (i+1, j+1) of the velocity at `tau` |
| ImplicitSystem.ImplicitPassConservesMomentum | veros/core/friction.py:84-93 | if the solver's output solves the column system, the column's momentum over its water levels equals that at `tau` |
| ImplicitSystem.ImplicitVelocityConservesMomentum | veros/core/friction.py:80-93 | if levels edge .. nz-1 of a block column are water cells of the returned mask and the solver solves that column's system, the velocity written back at `taup1` keeps the momentum of the velocity at `tau` over those levels |
| Damping.DiagnoseIf | veros/core/friction.py:153-155 | `K_diss_bot` gains the T-point dissipation when energy conservation is enabled, and is unchanged otherwise |
| Damping.RayleighPass | veros/core/friction.py:152-155 | the tendency gains `-mask * r_ray * u` everywhere; `K_diss_bot` gains the transfer of `mask * r_ray * u**2` when conserving (lines 156-160 for v) |
| Damping.RayleighFriction | veros/core/friction.py:152-160 | both tendencies and `K_diss_bot` after the kernel; without energy conservation, `K_diss_bot` is untouched |
| Damping.RayleighDissIsWork | veros/core/friction.py:152-154 | the diagnosed dissipation is minus the tendency times the velocity, cell by cell |
| Damping.RayleighDissNonNegative | veros/core/friction.py:152-154 | with `r_ray >= 0` and 0/1 masks, the dissipation is non-negative and the tendency never has the velocity's sign |
| Damping.SourcePass | veros/core/friction.py:520-523 | the tendency gains `mask * u_source`; `K_diss_bot` gains the transfer of `-mask * u * u_source` when conserving (lines 524-527 for v) |
| Damping.MomentumSources | veros/core/friction.py:520-527 | both tendencies and `K_diss_bot` after the kernel; without energy conservation, `K_diss_bot` is untouched |
| Damping.SourceDissIsWork | veros/core/friction.py:520-522 | the diagnosed dissipation is minus the source tendency times the velocity |
| Damping.SourceOnWaterOnly | veros/core/friction.py:520 | on water a source adds itself, and on land nothing |
| BottomFriction.BottomOnlyTouchesDragLevel | veros/core/friction.py:180-183 | adding a bottom-only field changes a tendency only inside the pass's box, on the drag level `max(kbot pair) - 1` |
| BottomFriction.DryPairUntouched | veros/core/friction.py:180-183 | a velocity column between two land columns gets no drag at any level |
| BottomFriction.LinearDragPass | veros/core/friction.py:180-188 | the tendency gains the linear drag field; `K_diss_bot` gains the transfer of its dissipation when conserving (lines 190-198 for v, 203-217 for the constant branch) |
| BottomFriction.LinearBottomFriction | veros/core/friction.py:176-217 | both tendencies and `K_diss_bot` after the kernel, in either branch; without energy conservation, `K_diss_bot` is untouched |
| BottomFriction.LinearDragCellIs | veros/core/friction.py:180-187 | in both branches the drag is `-(mask * r) * u` on the drag level of the box and 0 elsewhere, and `diss` is `mask * r * u**2` there |
| BottomFriction.LinearDragBottomOnly | veros/core/friction.py:180-187 | the linear drag and its dissipation are bottom-only |
| BottomFriction.LinearDissIsWork | veros/core/friction.py:182-187 | the linear dissipation is minus the drag times the velocity, cell by cell |
| BottomFriction.LinearDragDissipates | veros/core/friction.py:182-187 | with a non-negative coefficient and 0/1 masks, `diss >= 0` and the drag never has the velocity's sign |
| BottomFriction.LinearBranchesAgree | veros/core/friction.py:176-217 | a varying coefficient equal to `r_bot` everywhere gives the drag of the constant branch |
| BottomFriction.QuadraticDragPass | veros/core/friction.py:231-245 | the tendency gains `-aloc`; `K_diss_bot` gains the transfer of `aloc * u` when conserving (lines 247-261 for v) |
| BottomFriction.QuadraticBottomFriction | veros/core/friction.py:222-263 | both tendencies and `K_diss_bot` after the kernel, the v pass using u as the cross component and the u pass using v |
| BottomFriction.SpeedArgumentNonNegative | veros/core/friction.py:233-237 | with 0/1 masks, the argument of the square root is never negative |
| BottomFriction.AlocOffLevel | veros/core/friction.py:238-239 | `aloc` is 0 off the drag level |
| BottomFriction.QuadraticCellsBottomOnly | veros/core/friction.py:238-244 | a non-zero quadratic drag or dissipation cell lies in the box, on the drag level |
| BottomFriction.QuadraticDragBottomOnly | veros/core/friction.py:238-244 | the quadratic drag and its dissipation are bottom-only |
| BottomFriction.AlocOpposesFlow | veros/core/friction.py:238-239 | with `r_quad_bot >= 0` and 0/1 masks, `aloc * u >= 0` |
| BottomFriction.QuadraticDissIsWork | veros/core/friction.py:240-244 | the quadratic dissipation is minus the drag times the velocity |
| BottomFriction.QuadraticDragDissipates | veros/core/friction.py:238-244 | with `r_quad_bot >= 0` and 0/1 masks, `diss >= 0` and the drag `-aloc` opposes the velocity |
| LateralStencils.FillEastFlux | veros/core/friction.py:346-355 | the whole `flux_east` buffer is overwritten: the free-slip flux (plus the no-slip wall term for v) on faces `[:-1]`, and 0 on the last face |
| LateralStencils.FillNorthFlux | veros/core/friction.py:295-306 | the whole `flux_north` buffer is overwritten: the free-slip flux (plus the no-slip wall term for u) on faces `[:, :-1]`, and 0 on the last face |
| LateralStencils.LastFacesClosed | veros/core/friction.py:305-306 | the last east face and the last north face carry no flux |
| LateralStencils.NoSlipOnlyAtWalls | veros/core/friction.py:299-303 | with 0/1 masks, the no-slip flux is non-zero only on a face between water and land |
| LateralStencils.InviscidCoef | veros/core/friction.py:282-298 | with `A_h = 0`, or `A_hbi = 0` and a square root mapping 0 to 0, the face coefficient is 0 |
| LateralStencils.ZeroCoefFluxes | veros/core/friction.py:295-303 | a face flux with a zero coefficient is 0, the no-slip term included |
| LateralStencils.InviscidCellsVanish | veros/core/friction.py:295-306 | both face fluxes of every cell of an inviscid kernel are 0 |
| LateralStencils.InviscidFluxesVanish | veros/core/friction.py:295-306 | an inviscid kernel leaves 0 in every cell of both flux buffers |
| LateralStencils.ZeroFluxesDiv | veros/core/friction.py:311-314 | with zero fluxes on the four faces of a cell, its divergence is 0 |
| LateralStencils.InteriorOnlyTouchesInterior | veros/core/friction.py:311 | adding a field that is 0 outside `[2:-2, 2:-2]` leaves the tendency unchanged there |
| LateralStencils.FaceWorkNonNegative | veros/core/friction.py:320-325 | the face work is non-negative when each of its four flux-times-difference products is |
| LateralStencils.HarmonicCoefNonNegative | veros/core/friction.py:283-288 | with `A_h >= 0`, the harmonic face coefficient is non-negative, with or without cosine scaling |
| LateralStencils.EastFluxDownGradient | veros/core/friction.py:295-296 | with a non-negative coefficient and 0/1 masks, the free-slip east flux has the sign of the velocity difference across the face |
| LateralStencils.NorthFluxDownGradient | veros/core/friction.py:297-298 | the same for the north flux |
| HarmonicFriction.AddHarmonicTendency | veros/core/friction.py:311-314 | the tendency gains the masked flux divergence on `[2:-2, 2:-2]` |
| HarmonicFriction.FillHarmonicDiss | veros/core/friction.py:320-325 | `diss` holds the averaged face work on `[1:-2, 2:-2]` (u) or `[2:-2, 1:-2]` (v); other cells keep their old contents |
| HarmonicFriction.ClearField | veros/core/friction.py:326 | `K_diss_h` is set to 0 |
| HarmonicFriction.DiagnoseHarmonic | veros/core/friction.py:316-327 | `diss` is filled, then `K_diss_h` is cleared (zonal pass only) and gains the T-point dissipation (lines 366-376 for v) |
| HarmonicFriction.HarmonicStage | veros/core/friction.py:282-314 | the flux buffers hold the fluxes of the velocity, and the tendency gains their divergence (lines 332-364 for v) |
| HarmonicFriction.HarmonicPass | veros/core/friction.py:280-327 | one pass: fluxes, tendency, and, only when conserving, `diss` and `K_diss_h` (lines 330-376 for v) |
| HarmonicFriction.NewLateralBuffers | veros/core/friction.py:275-277 | three fresh, distinct buffers of the grid's shape, `diss` at 0 |
| HarmonicFriction.HarmonicFriction | veros/core/friction.py:275-378 | both tendencies after the kernel; when conserving, `K_diss_h` is the sum of the two T-point dissipations, the meridional `diss` being computed over the zonal one; otherwise `K_diss_h` is untouched |
| HarmonicFriction.HarmonicInteriorOnly | veros/core/friction.py:311-314 | the harmonic tendency is 0 outside `[2:-2, 2:-2]` |
| HarmonicFriction.HarmonicCellInterior | veros/core/friction.py:311-314 | a non-zero cell of the harmonic tendency lies in `[2:-2, 2:-2]` |
| HarmonicFriction.HarmonicInviscidLeavesTendency | veros/core/friction.py:295-314 | with `A_h = 0`, harmonic friction leaves every cell of the tendency as it was |
| HarmonicFriction.FreeSlipEastWork | veros/core/friction.py:295-296 | with free-slip walls, `A_h >= 0` and 0/1 masks, the east flux runs down the velocity gradient |
| HarmonicFriction.FreeSlipNorthWork | veros/core/friction.py:297-298 | the same for the north flux |
| HarmonicFriction.FacesRunDown | veros/core/friction.py:295-298 | all four faces around a cell of the diagnosis box carry fluxes that run down the gradient |
| HarmonicFriction.HarmonicDissNonNegativeAt | veros/core/friction.py:320-325 | in the diagnosis box, `diss` is non-negative when the four fluxes around the cell run down the gradient |
| HarmonicFriction.HarmonicDissipates | veros/core/friction.py:295-325 | with free-slip walls, `A_h >= 0` and 0/1 masks, the harmonic `diss` is non-negative on the diagnosis box |
| BiharmonicFriction.FillDel2 | veros/core/friction.py:410-414 | `del2` holds the flux divergence on `[1:, 1:]`; other cells keep their old contents |
| BiharmonicFriction.BiharmonicFluxes | veros/core/friction.py:396-428 | `del2` is the Laplacian of the velocity, and the flux buffers end with the fluxes of `del2` (lines 455-486 for v) |
| BiharmonicFriction.AddBiharmonicTendency | veros/core/friction.py:433-436 | the tendency gains minus the masked divergence of the second-stage fluxes on `[2:-2, 2:-2]` |
| BiharmonicFriction.EnforceFluxBoundaries | veros/core/friction.py:441-442 | both flux buffers are replaced by their boundary-filled copies |
| BiharmonicFriction.FillBiharmonicDiss | veros/core/friction.py:444-449 | `diss` holds minus the averaged face work on `[1:-2, 2:-2]` (u) or `[2:-2, 1:-2]` (v); other cells keep their old contents |
| BiharmonicFriction.StoreBiharmonicDiss | veros/core/friction.py:450 | the zonal pass sets `K_diss_h` to the T-point dissipation; the meridional pass adds to it (line 508) |
| BiharmonicFriction.DiagnoseBiharmonic | veros/core/friction.py:437-450 | boundary-filled fluxes, then `diss` from them, then `K_diss_h` (lines 496-508 for v) |
| BiharmonicFriction.BiharmonicStages | veros/core/friction.py:396-436 | the Laplacian in `del2`, its fluxes in the buffers, and the tendency (lines 455-494 for v) |
| BiharmonicFriction.BiharmonicPass | veros/core/friction.py:393-450 | one pass: `del2`, the fluxes (boundary-filled when conserving), the tendency, `diss` and `K_diss_h` (lines 452-508 for v) |
| BiharmonicFriction.ZonalBiharmonic | veros/core/friction.py:389-450 | the buffers start at zero and the zonal pass runs on them; without energy conservation, `diss` stays 0 and `K_diss_h` is untouched |
| BiharmonicFriction.BiharmonicFriction | veros/core/friction.py:389-510 | both tendencies after the kernel, the meridional pass starting from the zonal `del2`; when conserving, `K_diss_h` is the zonal T-point dissipation plus the meridional one, otherwise untouched |
| BiharmonicFriction.BiharmonicLeadingMinus | veros/core/friction.py:433-436 | the biharmonic tendency of given fluxes is minus the harmonic tendency of the same fluxes |
| BiharmonicFriction.BiharmonicInteriorOnly | veros/core/friction.py:433-436 | the biharmonic tendency is 0 outside `[2:-2, 2:-2]` |
| BiharmonicFriction.BiharmonicCellInterior | veros/core/friction.py:433-436 | a non-zero cell of the biharmonic tendency lies in `[2:-2, 2:-2]` |
| BiharmonicFriction.BiharmonicInviscidLeavesTendency | veros/core/friction.py:391-436 | with `A_hbi = 0`, biharmonic friction leaves every cell of the tendency as it was, whatever `del2` held |
| BiharmonicFriction.Del2Cell | veros/core/friction.py:411-414 | each cell of `del2` is the divergence on `[1:, 1:]`, and the old value elsewhere |
| BiharmonicFriction.Del2PrevOutside | veros/core/friction.py:469-472 | two buffers that agree outside `[1:, 1:]` give the same `del2` |
| BiharmonicFriction.Del2ReuseHarmless | veros/core/friction.py:410-472 | the meridional pass, reusing the zonal `del2`, computes the same `del2` and tendency as on a fresh buffer |

## Left out

- The routine `friction(vs)` (lines 532-597) is not modelled. It chooses the kernels from configuration
  flags, zeroes `K_diss_bot`, and calls `isoneutral_friction`, which is not part of this model.
- The logging of `veros/logs.py` is not modelled. It has no effect on the fields.
- The `veros_kernel` and `veros_routine` decorators and the numpy/JAX backend are not modelled. A
  kernel is modelled as methods that change arrays in place.
- The bodies of the other Veros routines a kernel calls are not modelled. These are
  `numerics.ugrid_to_tgrid`, `vgrid_to_tgrid`, `calc_diss_u` and `calc_diss_v`, and
  `utilities.solve_implicit`, `create_water_masks` and `enforce_boundaries`. Each is a
  function-valued field of `Collaborators.Numerics` or `Collaborators.Utilities`, so every result holds
  whatever they compute. Their results are stored with `Grids.Grid.Fit`, i.e. reshaped to the grid.
- Floating point is not modelled: arithmetic is on exact reals. `np.sqrt` and `**` are uninterpreted
  (`Collaborators.Maths`): each is only known to return a non-negative number.
- Arrays with a time axis are split by time level. The level `tau`, which is only read, is a value. The
  level `taup1`, which `implicit_vert_friction` writes, is an array. The model relies on the two levels
  being different slots: the write-back into `taup1` cannot change the `tau` values that
  `VerticalFriction.BuildRhs` and `VerticalFriction.FillImplicitTendency` read.
- VerticalFriction.SolveColumns: the result is only known to be what `solve_implicit` returns. That
  it solves the column system is a hypothesis of `ImplicitSystem.ImplicitPassConservesMomentum` and
  `ImplicitSystem.ImplicitVelocityConservesMomentum`, not a proved fact.
- LateralStencils.InviscidCoef: for the biharmonic kernel it assumes that the square root maps 0 to 0
  (part of `Viscosity.Inviscid`), because the square root is uninterpreted.
- HarmonicFriction.HarmonicDissipates: proved for free-slip walls only. With no-slip walls, the wall
  term need not run down the gradient.
- BiharmonicFriction.ZonalBiharmonic: allocates `diss` with the other buffers. The source allocates it
  as zeros inside the zonal energy diagnosis (line 443). Only that diagnosis reads it, so the contents
  are the same.
- VerticalFriction.ImplicitDiagnose: no sign is proved for the implicit dissipation. It multiplies the
  shear at `tau` by the flux at `taup1`, and these two need not have the same sign.
- Damping.MomentumSources: no sign is proved for the diagnosed dissipation, because a source can push
  with the flow as well as against it.
- The vertical and lateral dissipations are stated face by face (`VerticalFriction.ShearWork`,
  `LateralStencils.FaceWork`). No lemma equates their sums with the work of the tendency against the
  velocity. That would be a summation by parts over whole columns and rows.
- BiharmonicFriction.BiharmonicFriction: no sign is proved for the biharmonic dissipation. It is the
  work of the fluxes of `del2` against the velocity, which has no fixed sign cell by cell.
