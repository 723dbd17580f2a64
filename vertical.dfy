/** Vertical friction of horizontal momentum: `explicit_vert_friction` and `implicit_vert_friction`
    of veros/core/friction.py.

    Both kernels run one pass for the zonal velocity u and one for the meridional velocity v. A pass
    computes the momentum flux through the top face of every cell (`flux_top`), turns it into a
    tendency or into an implicit update of the velocity, and diagnoses the energy it dissipates
    (`diss`), which is moved onto T-points and added to `K_diss_v`. The two passes share the scratch
    arrays `flux_top` and `diss`; cells the meridional pass does not write keep what the zonal pass
    left there, and the model keeps that. */
module VerticalFriction {
  import opened Fields
  import opened Grids
  import opened Collaborators
  import opened Tridiagonal
  import opened Staggering

  /** `[1:-2, 1:-2, :-1]`: the interior cell faces through which a vertical flux is computed. */
  function FluxBox(g: Grid): Box { Box(1, g.nx - 2, 1, g.ny - 2, 0, g.nz - 1) }

  /** `[:, :, -1]`: the surface level. */
  function SurfaceLevel(g: Grid): Box { Box(0, g.nx, 0, g.ny, g.nz - 1, g.nz) }

  /** `[:, :, 0]`: the deepest level. */
  function DeepestLevel(g: Grid): Box { Box(0, g.nx, 0, g.ny, 0, 1) }

  /** `[:, :, 1:]`: every level above the deepest. */
  function UpperLevels(g: Grid): Box { Box(0, g.nx, 0, g.ny, 1, g.nz) }

  /** `fxa`: the viscosity at a velocity point, the mean of the two columns it lies between. */
  function MeanViscosity(c: Component, kappaM: Field, i: int, j: int, k: int): real {
    0.5 * (At(kappaM, i, j, k) + At(kappaM, i + c.Di(), j + c.Dj(), k))
  }

  /** Cell (i, j, k) of `flux_top` computed from the velocity w: viscosity times vertical shear across
      the top face of the cell, where the cell and the one above it are both water; zero outside the
      interior faces, in particular at the surface. */
  function FluxTop(g: Grid, c: Component, kappaM: Field, w: Field, i: int, j: int, k: int): real {
    if FluxBox(g).Contains(i, j, k) then
      MeanViscosity(c, kappaM, i, j, k) * (At(w, i, j, k + 1) - At(w, i, j, k)) / g.Dzw(k)
        * At(c.Mask(g), i, j, k + 1) * At(c.Mask(g), i, j, k)
    else 0.0
  }

  function FluxTopField(g: Grid, c: Component, kappaM: Field, w: Field): Field {
    Tabulate(g.nx, g.ny, g.nz, (i, j, k) => FluxTop(g, c, kappaM, w, i, j, k))
  }

  lemma FluxTopFieldAt(g: Grid, c: Component, kappaM: Field, w: Field, i: int, j: int, k: int)
    ensures At(FluxTopField(g, c, kappaM, w), i, j, k) == FluxTop(g, c, kappaM, w, i, j, k)
  {
    if !g.InGrid(i, j, k) {
      assert !FluxBox(g).Contains(i, j, k);
    }
  }

  /** The tendency that the vertical flux field `flux` gives cell (i, j, k): its divergence over the
      cell's thickness, the deepest level taking no flux through its bottom, zero on land. */
  function Divergence(g: Grid, mask: Field, flux: Field, i: int, j: int, k: int): real {
    if k == 0 then At(flux, i, j, 0) / g.Dzt(0) * At(mask, i, j, 0)
    else (At(flux, i, j, k) - At(flux, i, j, k - 1)) / g.Dzt(k) * At(mask, i, j, k)
  }

  /** Cell (i, j, k) of the explicit tendency `du_mix` / `dv_mix`. */
  function ExplicitTendency(g: Grid, c: Component, kappaM: Field, w: Field, i: int, j: int, k: int): real {
    Divergence(g, c.Mask(g), FluxTopField(g, c, kappaM, w), i, j, k)
  }

  /** The work done by the flux through the top face of cell (i, j, k) against the shear of wDiff. */
  function ShearWork(g: Grid, wDiff: Field, flux: Field, i: int, j: int, k: int): real {
    (At(wDiff, i, j, k + 1) - At(wDiff, i, j, k)) * At(flux, i, j, k) / g.Dzw(k)
  }

  /** Cell (i, j, k) of `diss` before it is moved to T-points: the shear of wDiff times the flux on
      the interior faces, zero at the surface, and elsewhere whatever the buffer held before the pass
      (`prev`). */
  function DissCell(g: Grid, wDiff: Field, flux: Field, prev: Field, i: int, j: int, k: int): real {
    if FluxBox(g).Contains(i, j, k) then ShearWork(g, wDiff, flux, i, j, k)
    else if k == g.nz - 1 then 0.0
    else At(prev, i, j, k)
  }

  function DissFieldOf(g: Grid, wDiff: Field, flux: Field, prev: Field): Field {
    Tabulate(g.nx, g.ny, g.nz, (i, j, k) => DissCell(g, wDiff, flux, prev, i, j, k))
  }

  /** The dissipation a pass adds to `K_diss_v`: `diss` averaged onto T-points. The explicit kernel
      takes shear and flux from one velocity; the implicit kernel takes the shear at `tau` and the
      flux at `taup1`. */
  function ReducedDiss(num: Numerics, g: Grid, c: Component, kappaM: Field, wDiff: Field, wFlux: Field, prev: Field): Field {
    c.ToTracerGrid(num, g, DissFieldOf(g, wDiff, FluxTopField(g, c, kappaM, wFlux), prev))
  }

  /** The tendency field `du_mix` / `dv_mix` that the divergence of `flux` gives. */
  function DivergenceField(g: Grid, mask: Field, flux: Field): Field {
    Tabulate(g.nx, g.ny, g.nz, (i, j, k) => Divergence(g, mask, flux, i, j, k))
  }

  /** The tendency of explicit vertical friction computed from the velocity w. */
  function ExplicitTendencyField(g: Grid, c: Component, kappaM: Field, w: Field): Field {
    DivergenceField(g, c.Mask(g), FluxTopField(g, c, kappaM, w))
  }

  /** Every cell of the grid outside the interior faces holds 0. */
  ghost predicate ZeroOffFluxBox(g: Grid, f: Field) {
    forall i, j, k | g.InGrid(i, j, k) && !FluxBox(g).Contains(i, j, k) :: At(f, i, j, k) == 0.0
  }

  lemma FluxTopFieldOffFluxBox(g: Grid, c: Component, kappaM: Field, w: Field)
    ensures ZeroOffFluxBox(g, FluxTopField(g, c, kappaM, w))
  {
    forall i, j, k | g.InGrid(i, j, k) && !FluxBox(g).Contains(i, j, k)
      ensures At(FluxTopField(g, c, kappaM, w), i, j, k) == 0.0
    {
      FluxTopFieldAt(g, c, kappaM, w, i, j, k);
    }
  }

  /** `flux_top = update(flux_top, at[1:-2, 1:-2, :-1], ...)`; the rest of the buffer already holds 0. */
  method FillFluxTop(g: Grid, c: Component, kappaM: Field, w: Field, fluxTop: array3<real>)
    requires Fits(fluxTop, g) && ZeroOffFluxBox(g, Contents(fluxTop))
    modifies fluxTop
    ensures Contents(fluxTop) == FluxTopField(g, c, kappaM, w)
  {
    ContentsCells(fluxTop);
    Update(fluxTop, FluxBox(g), (i, j, k) => FluxTop(g, c, kappaM, w, i, j, k));
    ContentsIs(fluxTop, FluxTopField(g, c, kappaM, w));
  }

  /** `flux_top = update(flux_top, at[:, :, -1], 0.0)`, which finds the surface already at 0. */
  method ClearSurfaceFlux(g: Grid, fluxTop: array3<real>)
    requires Fits(fluxTop, g) && ZeroOffFluxBox(g, Contents(fluxTop))
    modifies fluxTop
    ensures Contents(fluxTop) == old(Contents(fluxTop))
  {
    ghost var f := Contents(fluxTop);
    ContentsCells(fluxTop);
    ContentsShaped(fluxTop);
    Update(fluxTop, SurfaceLevel(g), (i, j, k) => 0.0);
    ContentsIs(fluxTop, f);
  }

  /** `du_mix[:, :, 0]` and `du_mix[:, :, 1:]` (or the `dv_mix` ones) from the flux `ft`. */
  method FillExplicitTendency(g: Grid, mask: Field, ft: Field, tend: array3<real>)
    requires Fits(tend, g)
    modifies tend
    ensures Contents(tend) == DivergenceField(g, mask, ft)
  {
    Update(tend, DeepestLevel(g), (i, j, k) => Divergence(g, mask, ft, i, j, k));
    Update(tend, UpperLevels(g), (i, j, k) => Divergence(g, mask, ft, i, j, k));
    ContentsIs(tend, DivergenceField(g, mask, ft));
  }

  /** `diss = update(diss, at[1:-2, 1:-2, :-1], ...)` followed by `diss = update(diss, at[:, :, -1], 0.0)`. */
  method FillDiss(g: Grid, wDiff: Field, ft: Field, diss: array3<real>)
    requires Fits(diss, g)
    modifies diss
    ensures Contents(diss) == DissFieldOf(g, wDiff, ft, old(Contents(diss)))
  {
    ghost var prev := Contents(diss);
    ContentsCells(diss);
    Update(diss, FluxBox(g), (i, j, k) => ShearWork(g, wDiff, ft, i, j, k));
    Update(diss, SurfaceLevel(g), (i, j, k) => 0.0);
    ContentsIs(diss, DissFieldOf(g, wDiff, ft, prev));
  }

  /** `diss = <reduced>` and `K_diss_v += diss`. */
  method Accumulate(g: Grid, reduced: Field, diss: array3<real>, kDissV: array3<real>)
    requires Fits(diss, g) && Fits(kDissV, g) && diss != kDissV
    modifies diss, kDissV
    ensures Contents(diss) == g.Fit(reduced)
    ensures Contents(kDissV) == g.Add(old(Contents(kDissV)), reduced)
  {
    ghost var k0 := Contents(kDissV);
    ContentsCells(kDissV);
    Update(diss, g.All(), (i, j, k) => At(reduced, i, j, k));
    UpdateAdd(kDissV, g.All(), (i, j, k) => At(reduced, i, j, k));
    ContentsIs(diss, g.Fit(reduced));
    ContentsIs(kDissV, g.Add(k0, reduced));
  }

  /** The dissipation diagnosis shared by all four passes: `diss` from shear and flux, zero at the
      surface, moved to T-points and added to `K_diss_v`. */
  method DiagnoseDissipation(g: Grid, c: Component, wDiff: Field, ft: Field,
                             diss: array3<real>, kDissV: array3<real>, num: Numerics)
    returns (reduced: Field)
    requires Fits(diss, g) && Fits(kDissV, g) && diss != kDissV
    modifies diss, kDissV
    ensures reduced == c.ToTracerGrid(num, g, DissFieldOf(g, wDiff, ft, old(Contents(diss))))
    ensures Contents(diss) == g.Fit(reduced)
    ensures Contents(kDissV) == g.Add(old(Contents(kDissV)), reduced)
  {
    FillDiss(g, wDiff, ft, diss);
    var d := Freeze(diss);
    reduced := c.ToTracerGrid(num, g, d);
    Accumulate(g, reduced, diss, kDissV);
  }

  /** `diss = np.zeros_like(maskU)` and `flux_top = np.zeros_like(maskU)`. */
  method NewDiagnosisBuffers(g: Grid) returns (diss: array3<real>, fluxTop: array3<real>)
    ensures fresh(diss) && fresh(fluxTop) && diss != fluxTop && Fits(diss, g) && Fits(fluxTop, g)
    ensures Contents(diss) == g.Zero() && ZeroOffFluxBox(g, Contents(fluxTop))
  {
    diss := NewZeros(g.nx, g.ny, g.nz);
    fluxTop := NewZeros(g.nx, g.ny, g.nz);
  }

  /** One pass of `explicit_vert_friction` (lines 21-35 for u, 40-56 for v). */
  method ExplicitPass(g: Grid, c: Component, kappaM: Field, w: Field, tend: array3<real>, kDissV: array3<real>,
                      fluxTop: array3<real>, diss: array3<real>, num: Numerics)
    returns (reduced: Field)
    requires Fits(tend, g) && Fits(kDissV, g) && Fits(fluxTop, g) && Fits(diss, g)
    requires tend != kDissV && tend != fluxTop && tend != diss
    requires kDissV != fluxTop && kDissV != diss && fluxTop != diss
    requires ZeroOffFluxBox(g, Contents(fluxTop))
    modifies tend, kDissV, fluxTop, diss
    ensures Contents(tend) == ExplicitTendencyField(g, c, kappaM, w)
    ensures Contents(fluxTop) == FluxTopField(g, c, kappaM, w)
    ensures reduced == ReducedDiss(num, g, c, kappaM, w, w, old(Contents(diss)))
    ensures Contents(diss) == g.Fit(reduced)
    ensures Contents(kDissV) == g.Add(old(Contents(kDissV)), reduced)
  {
    FillFluxTop(g, c, kappaM, w, fluxTop);
    FluxTopFieldOffFluxBox(g, c, kappaM, w);
    ClearSurfaceFlux(g, fluxTop);
    var ft := Freeze(fluxTop);
    FillExplicitTendency(g, c.Mask(g), ft, tend);
    reduced := DiagnoseDissipation(g, c, w, ft, diss, kDissV, num);
  }

  /** `explicit_vert_friction`: the zonal pass, then the meridional pass on the same scratch arrays. */
  method ExplicitVertFriction(g: Grid, kappaM: Field, u: Field, v: Field,
                              du: array3<real>, dv: array3<real>, kDissV: array3<real>, num: Numerics)
    returns (rU: Field, rV: Field)
    requires Fits(du, g) && Fits(dv, g) && Fits(kDissV, g) && du != dv && du != kDissV && dv != kDissV
    modifies du, dv, kDissV
    ensures Contents(du) == ExplicitTendencyField(g, Zonal, kappaM, u)
    ensures Contents(dv) == ExplicitTendencyField(g, Meridional, kappaM, v)
    ensures rU == ReducedDiss(num, g, Zonal, kappaM, u, u, g.Zero())
    ensures rV == ReducedDiss(num, g, Meridional, kappaM, v, v, g.Fit(rU))
    ensures Contents(kDissV) == g.Add(g.Add(old(Contents(kDissV)), rU), rV)
  {
    var diss, fluxTop := NewDiagnosisBuffers(g);
    rU := ExplicitPass(g, Zonal, kappaM, u, du, kDissV, fluxTop, diss, num);
    FluxTopFieldOffFluxBox(g, Zonal, kappaM, u);
    rV := ExplicitPass(g, Meridional, kappaM, v, dv, kDissV, fluxTop, diss, num);
  }

  /** t(0) + ... + t(n - 1). */
  function SumBelow(t: int -> real, n: int): real
    decreases n
  {
    if n <= 0 then 0.0 else SumBelow(t, n - 1) + t(n - 1)
  }

  /** A sum of differences of consecutive values of f is the last value minus the one before the first. */
  lemma {:induction false} Telescope(t: int -> real, f: int -> real, n: int)
    requires 0 <= n
    requires forall k {:trigger t(k)} | 0 <= k < n :: t(k) == f(k) - f(k - 1)
    ensures SumBelow(t, n) == f(n - 1) - f(-1)
    decreases n
  {
    if n > 0 {
      Telescope(t, f, n - 1);
    }
  }

  /** Level by level, the momentum change that the divergence of `flux` gives column (i, j):
      tendency times thickness. */
  function DivergenceColumn(g: Grid, mask: Field, flux: Field, i: int, j: int): int -> real {
    k => Divergence(g, mask, flux, i, j, k) * g.Dzt(k)
  }

  /** Level by level, column (i, j) of a field. */
  function FieldColumn(f: Field, i: int, j: int): int -> real {
    k => At(f, i, j, k)
  }

  /** The momentum change that explicit vertical friction gives column (i, j) below level n. */
  function ColumnTendencySum(g: Grid, c: Component, kappaM: Field, w: Field, i: int, j: int, n: int): real {
    SumBelow(DivergenceColumn(g, c.Mask(g), FluxTopField(g, c, kappaM, w), i, j), n)
  }

  /** On a land cell the flux through its top and through its bottom both vanish. */
  lemma FluxTopVanishesOnLand(g: Grid, c: Component, kappaM: Field, w: Field, i: int, j: int, k: int)
    requires At(c.Mask(g), i, j, k) == 0.0
    ensures FluxTop(g, c, kappaM, w, i, j, k) == 0.0 && FluxTop(g, c, kappaM, w, i, j, k - 1) == 0.0
  {}

  /** The arithmetic of one cell: a masked divergence times the thickness is the flux difference,
      when a land cell sees no flux on either face. */
  lemma MaskedDivergenceBalance(top: real, bottom: real, z: Pos, m: real)
    requires m == 0.0 || m == 1.0
    requires m == 0.0 ==> top == 0.0 && bottom == 0.0
    ensures (top - bottom) / z * m * z == top - bottom
  {
    if m == 1.0 {
      MulDivCancel(z, top - bottom);
    }
  }

  /** Divergence times thickness is the flux through the top face minus the flux through the bottom
      face, for any flux field that vanishes around land cells. */
  lemma DivergenceBalance(g: Grid, mask: Field, flux: Field, i: int, j: int, k: int, top: real, bottom: real)
    requires MaskCell(mask, i, j, k) && 0 <= k
    requires At(flux, i, j, k) == top && At(flux, i, j, k - 1) == bottom
    requires At(mask, i, j, k) == 0.0 ==> top == 0.0 && bottom == 0.0
    ensures Divergence(g, mask, flux, i, j, k) * g.Dzt(k) == top - bottom
  {
    assert Divergence(g, mask, flux, i, j, k) == (top - bottom) / g.Dzt(k) * At(mask, i, j, k);
    MaskedDivergenceBalance(top, bottom, g.Dzt(k), At(mask, i, j, k));
  }

  /** Summed from the seafloor up to level n-1, the thickness-weighted divergence of a flux that
      vanishes around land cells is the flux leaving the top of level n-1. */
  lemma DivergenceTelescopes(g: Grid, mask: Field, flux: Field, i: int, j: int, n: int)
    requires 0 <= n
    requires forall k | 0 <= k < n :: MaskCell(mask, i, j, k)
    requires forall k | 0 <= k < n && At(mask, i, j, k) == 0.0 :: At(flux, i, j, k) == 0.0 && At(flux, i, j, k - 1) == 0.0
    ensures SumBelow(DivergenceColumn(g, mask, flux, i, j), n) == At(flux, i, j, n - 1)
  {
    var t := DivergenceColumn(g, mask, flux, i, j);
    var f := FieldColumn(flux, i, j);
    forall k {:trigger t(k)} | 0 <= k < n
      ensures t(k) == f(k) - f(k - 1)
    {
      DivergenceBalance(g, mask, flux, i, j, k, At(flux, i, j, k), At(flux, i, j, k - 1));
    }
    Telescope(t, f, n);
  }

  /** Explicit vertical friction only moves momentum within a column: summed from the seafloor up to
      level n-1 the thickness-weighted tendency is the flux leaving the top of level n-1. */
  lemma ExplicitTendencyTelescopes(g: Grid, c: Component, kappaM: Field, w: Field, i: int, j: int, n: int)
    requires g.BinaryMasks() && 1 <= n <= g.nz
    ensures ColumnTendencySum(g, c, kappaM, w, i, j, n) == FluxTop(g, c, kappaM, w, i, j, n - 1)
  {
    var mask := c.Mask(g);
    var flux := FluxTopField(g, c, kappaM, w);
    forall k | 0 <= k < n
      ensures MaskCell(mask, i, j, k)
    {
      MaskCellOf(g, c, i, j, k);
    }
    forall k | 0 <= k < n && At(mask, i, j, k) == 0.0
      ensures At(flux, i, j, k) == 0.0 && At(flux, i, j, k - 1) == 0.0
    {
      FluxTopFieldAt(g, c, kappaM, w, i, j, k);
      FluxTopFieldAt(g, c, kappaM, w, i, j, k - 1);
      FluxTopVanishesOnLand(g, c, kappaM, w, i, j, k);
    }
    DivergenceTelescopes(g, mask, flux, i, j, n);
    FluxTopFieldAt(g, c, kappaM, w, i, j, n - 1);
  }

  /** No momentum leaves through the surface, so the whole column's momentum is unchanged. */
  lemma ExplicitConservesColumnMomentum(g: Grid, c: Component, kappaM: Field, w: Field, i: int, j: int)
    requires g.BinaryMasks()
    ensures ColumnTendencySum(g, c, kappaM, w, i, j, g.nz) == 0.0
  {
    ExplicitTendencyTelescopes(g, c, kappaM, w, i, j, g.nz);
  }

  /** A vertical viscosity that is nowhere negative. */
  ghost predicate NonNegViscosity(kappaM: Field) {
    forall i, j, k :: At(kappaM, i, j, k) >= 0.0
  }

  /** The work of a face flux `m * d / z * a * b` against the shear d is `m * a * b * d^2 / z^2`. */
  lemma SquaredShearWork(d: real, m: real, a: real, b: real, z: Pos)
    requires m >= 0.0 && a >= 0.0 && b >= 0.0
    ensures d * (m * d / z * a * b) / z >= 0.0
  {
    var q := m * a * b;
    MulNonNeg(m, a);
    MulNonNeg(m * a, b);
    assert m * d / z * a * b == q * d / z;
    assert d * (q * d / z) == q * (d * d) / z;
    MulNonNeg(q, d * d);
    DivNonNegative(q * (d * d), z);
    DivNonNegative(q * (d * d) / z, z);
  }

  /** The dissipation the explicit kernel diagnoses is never negative for a non-negative viscosity
      and 0/1 masks: on every face the flux runs down the shear of the same velocity, so `diss`
      holds the viscosity times the masks times the squared shear over `dzw` squared. */
  lemma ExplicitDissNonNegative(g: Grid, c: Component, kappaM: Field, w: Field, prev: Field, i: int, j: int, k: int)
    requires g.BinaryMasks() && NonNegViscosity(kappaM)
    ensures ShearWork(g, w, FluxTopField(g, c, kappaM, w), i, j, k) >= 0.0
    ensures FluxBox(g).Contains(i, j, k) ==> At(DissFieldOf(g, w, FluxTopField(g, c, kappaM, w), prev), i, j, k) >= 0.0
  {
    var ft := FluxTopField(g, c, kappaM, w);
    FluxTopFieldAt(g, c, kappaM, w, i, j, k);
    if FluxBox(g).Contains(i, j, k) {
      MaskCellOf(g, c, i, j, k);
      MaskCellOf(g, c, i, j, k + 1);
      assert At(kappaM, i, j, k) >= 0.0 && At(kappaM, i + c.Di(), j + c.Dj(), k) >= 0.0;
      SquaredShearWork(At(w, i, j, k + 1) - At(w, i, j, k), MeanViscosity(c, kappaM, i, j, k),
                       At(c.Mask(g), i, j, k + 1), At(c.Mask(g), i, j, k), g.Dzw(k));
      assert g.InGrid(i, j, k);
      assert At(DissFieldOf(g, w, ft, prev), i, j, k) == DissCell(g, w, ft, prev, i, j, k);
    }
  }

  /** Without viscosity no momentum crosses a top face. */
  lemma NoViscosityNoFlux(g: Grid, c: Component, kappaM: Field, w: Field, i: int, j: int, k: int)
    requires forall p, q, r | g.InGrid(p, q, r) :: At(kappaM, p, q, r) == 0.0
    ensures FluxTop(g, c, kappaM, w, i, j, k) == 0.0
  {
    if FluxBox(g).Contains(i, j, k) {
      assert g.InGrid(i, j, k) && g.InGrid(i + c.Di(), j + c.Dj(), k);
      assert MeanViscosity(c, kappaM, i, j, k) == 0.0;
    }
  }

  lemma ExplicitTendencyFieldAt(g: Grid, c: Component, kappaM: Field, w: Field, i: int, j: int, k: int)
    ensures At(ExplicitTendencyField(g, c, kappaM, w), i, j, k) ==
      if g.InGrid(i, j, k) then ExplicitTendency(g, c, kappaM, w, i, j, k) else 0.0
  {
    if !g.InGrid(i, j, k) {
      OutsideShape(ExplicitTendencyField(g, c, kappaM, w), g.nx, g.ny, g.nz, i, j, k);
    }
  }

  /** With `kappaM` zero everywhere, explicit vertical friction writes 0 into every cell of the
      tendency. */
  lemma ExplicitInviscidTendency(g: Grid, c: Component, kappaM: Field, w: Field, i: int, j: int, k: int)
    requires forall p, q, r | g.InGrid(p, q, r) :: At(kappaM, p, q, r) == 0.0
    ensures At(ExplicitTendencyField(g, c, kappaM, w), i, j, k) == 0.0
  {
    ExplicitTendencyFieldAt(g, c, kappaM, w, i, j, k);
    NoViscosityNoFlux(g, c, kappaM, w, i, j, k);
    NoViscosityNoFlux(g, c, kappaM, w, i, j, k - 1);
    FluxTopFieldAt(g, c, kappaM, w, i, j, k);
    FluxTopFieldAt(g, c, kappaM, w, i, j, k - 1);
  }

  // ---------------------------------------------------------------------------------------------
  // Implicit vertical friction. The tridiagonal arrays have the shape of the block [1:-2, 1:-2]:
  // block cell (i, j, k) is grid cell (i + 1, j + 1, k).

  /** `[1:-2, 1:-2, :]`: the columns the implicit kernel updates. */
  function Block(g: Grid): Box { Box(1, g.nx - 2, 1, g.ny - 2, 0, g.nz) }

  /** An array of the block's shape. */
  predicate FitsBlock(a: array3<real>, g: Grid) {
    a.Length0 == g.nx - 3 && a.Length1 == g.ny - 3 && a.Length2 == g.nz
  }

  predicate InBlock(g: Grid, i: int, j: int, k: int) {
    0 <= i < g.nx - 3 && 0 <= j < g.ny - 3 && 0 <= k < g.nz
  }

  /** Column (i, j) of a field, levels 0 .. n-1. */
  function ColumnOf(f: Field, i: int, j: int, n: nat): (col: seq<real>)
    ensures |col| == n && forall k | 0 <= k < n :: col[k] == At(f, i, j, k)
  {
    seq(n, k => At(f, i, j, k))
  }

  /** `kss`: the seafloor index of a velocity column, the higher of its two neighbouring tracer columns. */
  function EffectiveBottom(g: Grid, c: Component): IntField2 {
    seq(g.nx - 3, i => seq(g.ny - 3, j => PairBottom(g, c, i + 1, j + 1)))
  }

  /** `create_water_masks(kss, nz)`. */
  function Masks(g: Grid, c: Component, util: Utilities): WaterMasks {
    util.createWaterMasks(EffectiveBottom(g, c), g.nz)
  }

  /** Block cell (i, j, k) of `delta`: the implicit diffusion number of the top face of the cell. */
  function DeltaAt(g: Grid, c: Component, kappaM: Field, dt: Pos, i: int, j: int, k: int): real {
    if 0 <= k < g.nz - 1 then
      dt / g.Dzw(k) * MeanViscosity(c, kappaM, i + 1, j + 1, k)
        * At(c.Mask(g), i + 1, j + 1, k + 1) * At(c.Mask(g), i + 1, j + 1, k)
    else 0.0
  }

  function DeltaField(g: Grid, c: Component, kappaM: Field, dt: Pos): Field {
    Tabulate(g.nx - 3, g.ny - 3, g.nz, (i, j, k) => DeltaAt(g, c, kappaM, dt, i, j, k))
  }

  /** Cell (i, j, k) of `a_tri`, `b_tri`, `c_tri` and `b_tri_edge`, from the `delta` field. */
  function LowerCell(g: Grid, delta: Field, i: int, j: int, k: int): real {
    LowerCoef(k, At(delta, i, j, k - 1), g.Dzt(k))
  }

  function DiagCell(g: Grid, delta: Field, i: int, j: int, k: int): real {
    DiagCoef(k, g.nz, At(delta, i, j, k - 1), At(delta, i, j, k), g.Dzt(k))
  }

  function UpperCell(g: Grid, delta: Field, i: int, j: int, k: int): real {
    UpperCoef(k, g.nz, At(delta, i, j, k), g.Dzt(k))
  }

  function DiagEdgeCell(g: Grid, delta: Field, i: int, j: int, k: int): real {
    DiagEdgeCoef(At(delta, i, j, k), g.Dzt(k))
  }

  /** `a_tri`, `b_tri`, `c_tri` and `b_tri_edge` built from the `delta` field, column by column. */
  function LowerField(g: Grid, delta: Field): Field {
    Tabulate(g.nx - 3, g.ny - 3, g.nz, (i, j, k) => LowerCell(g, delta, i, j, k))
  }

  function DiagField(g: Grid, delta: Field): Field {
    Tabulate(g.nx - 3, g.ny - 3, g.nz, (i, j, k) => DiagCell(g, delta, i, j, k))
  }

  function UpperField(g: Grid, delta: Field): Field {
    Tabulate(g.nx - 3, g.ny - 3, g.nz, (i, j, k) => UpperCell(g, delta, i, j, k))
  }

  function DiagEdgeField(g: Grid, delta: Field): Field {
    Tabulate(g.nx - 3, g.ny - 3, g.nz, (i, j, k) => DiagEdgeCell(g, delta, i, j, k))
  }

  /** `d_tri`: the velocity of the block at time level `tau`. */
  function RhsField(g: Grid, w0: Field): Field {
    Tabulate(g.nx - 3, g.ny - 3, g.nz, (i, j, k) => At(w0, i + 1, j + 1, k))
  }

  /** What `solve_implicit` returns for the system of one pass. */
  function ImplicitSolution(g: Grid, c: Component, kappaM: Field, dt: Pos, w0: Field, util: Utilities): Field {
    var wm := Masks(g, c, util);
    var delta := DeltaField(g, c, kappaM, dt);
    util.solveImplicit(LowerField(g, delta), DiagField(g, delta), UpperField(g, delta),
                       RhsField(g, w0), wm.water, DiagEdgeField(g, delta), wm.edge)
  }

  /** `where(water_mask, res, u[1:-2, 1:-2, :, taup1])` written back into the block: the block solution
      `res` on water cells, the old velocity `w1` everywhere else. */
  function WhereWater(g: Grid, water: BoolField, res: Field, w1: Field): Field {
    Tabulate(g.nx, g.ny, g.nz, (i, j, k) =>
      if Block(g).Contains(i, j, k) && AtBool(water, i - 1, j - 1, k) then At(res, i - 1, j - 1, k) else At(w1, i, j, k))
  }

  /** The velocity at `taup1` after a pass, from the velocity w0 at `tau` and the old one w1. */
  function ImplicitVelocity(g: Grid, c: Component, kappaM: Field, dt: Pos, w0: Field, w1: Field, util: Utilities): Field {
    WhereWater(g, Masks(g, c, util).water, ImplicitSolution(g, c, kappaM, dt, w0, util), w1)
  }

  /** The tendency `du_mix[1:-2, 1:-2] = (u[taup1] - u[tau]) / dt_mom` written over the old tendency `prev`. */
  function BlockTendency(g: Grid, prev: Field, w1: Field, w0: Field, dt: Pos): Field {
    Tabulate(g.nx, g.ny, g.nz, (i, j, k) =>
      if Block(g).Contains(i, j, k) then (At(w1, i, j, k) - At(w0, i, j, k)) / dt else At(prev, i, j, k))
  }

  /** The write-back changes the velocity at `taup1` only in the water cells of the block, and
      there it stores the solved column. */
  lemma WriteBackOnlyOnWater(g: Grid, water: BoolField, res: Field, w1: Field, i: int, j: int, k: int)
    requires g.InGrid(i, j, k)
    ensures At(WhereWater(g, water, res, w1), i, j, k) != At(w1, i, j, k) ==>
      Block(g).Contains(i, j, k) && AtBool(water, i - 1, j - 1, k)
    ensures Block(g).Contains(i, j, k) && AtBool(water, i - 1, j - 1, k) ==>
      At(WhereWater(g, water, res, w1), i, j, k) == At(res, i - 1, j - 1, k)
  {
    assert At(WhereWater(g, water, res, w1), i, j, k) ==
      if Block(g).Contains(i, j, k) && AtBool(water, i - 1, j - 1, k) then At(res, i - 1, j - 1, k) else At(w1, i, j, k);
  }

  /** Stepping the old velocity by the recorded tendency over `dt_mom` recovers the new velocity on
      the block; outside it the old tendency is kept. */
  lemma BlockTendencyRecoversVelocity(g: Grid, prev: Field, w1: Field, w0: Field, dt: Pos, i: int, j: int, k: int)
    requires g.InGrid(i, j, k)
    ensures Block(g).Contains(i, j, k) ==>
      At(w0, i, j, k) + dt * At(BlockTendency(g, prev, w1, w0, dt), i, j, k) == At(w1, i, j, k)
    ensures !Block(g).Contains(i, j, k) ==> At(BlockTendency(g, prev, w1, w0, dt), i, j, k) == At(prev, i, j, k)
  {
    if Block(g).Contains(i, j, k) {
      assert At(BlockTendency(g, prev, w1, w0, dt), i, j, k) == (At(w1, i, j, k) - At(w0, i, j, k)) / dt;
      MulDivCancel(dt, At(w1, i, j, k) - At(w0, i, j, k));
    }
  }

  /** A block buffer holding 0 at the surface level. */
  ghost predicate SurfaceClear(g: Grid, f: Field) {
    forall i, j, k | InBlock(g, i, j, k) && k == g.nz - 1 :: At(f, i, j, k) == 0.0
  }

  /** A block buffer holding 0 at level 0. */
  ghost predicate BottomClear(g: Grid, f: Field) {
    forall i, j | 0 <= i < g.nx - 3 && 0 <= j < g.ny - 3 :: At(f, i, j, 0) == 0.0
  }

  /** The state of the tridiagonal buffers that a pass relies on: no diffusion through the surface,
      and nothing below level 0 (left at the zeros the buffers were allocated with). */
  ghost predicate BuffersReady(g: Grid, delta: Field, aTri: Field, bTri: Field) {
    SurfaceClear(g, delta) && BottomClear(g, aTri) && BottomClear(g, bTri)
  }

  /** The scratch arrays of `implicit_vert_friction` besides `flux_top` and `diss`: five distinct
      arrays of the block's shape. */
  predicate Scratch(g: Grid, delta: array3<real>, aTri: array3<real>, bTri: array3<real>, cTri: array3<real>, dTri: array3<real>) {
    && FitsBlock(delta, g) && FitsBlock(aTri, g) && FitsBlock(bTri, g) && FitsBlock(cTri, g) && FitsBlock(dTri, g)
    && delta != aTri && delta != bTri && delta != cTri && delta != dTri
    && aTri != bTri && aTri != cTri && aTri != dTri && bTri != cTri && bTri != dTri && cTri != dTri
  }

  /** An array that is none of the five scratch arrays. */
  predicate Apart(a: array3<real>, delta: array3<real>, aTri: array3<real>, bTri: array3<real>, cTri: array3<real>, dTri: array3<real>) {
    a != delta && a != aTri && a != bTri && a != cTri && a != dTri
  }

  /** `a_tri`, `b_tri`, `c_tri`, `d_tri` and `delta`: `np.zeros_like(maskU[1:-2, 1:-2])`. */
  method NewScratch(g: Grid) returns (delta: array3<real>, aTri: array3<real>, bTri: array3<real>, cTri: array3<real>, dTri: array3<real>)
    ensures fresh(delta) && fresh(aTri) && fresh(bTri) && fresh(cTri) && fresh(dTri)
    ensures Scratch(g, delta, aTri, bTri, cTri, dTri)
    ensures BuffersReady(g, Contents(delta), Contents(aTri), Contents(bTri))
  {
    delta := NewZeros(g.nx - 3, g.ny - 3, g.nz);
    aTri := NewZeros(g.nx - 3, g.ny - 3, g.nz);
    bTri := NewZeros(g.nx - 3, g.ny - 3, g.nz);
    cTri := NewZeros(g.nx - 3, g.ny - 3, g.nz);
    dTri := NewZeros(g.nx - 3, g.ny - 3, g.nz);
  }

  /** `delta = update(delta, at[:, :, :-1], ...)`; the surface level already holds 0. The new
      contents are returned as a value. */
  method BuildDelta(g: Grid, c: Component, kappaM: Field, dt: Pos, delta: array3<real>) returns (d: Field)
    requires FitsBlock(delta, g) && SurfaceClear(g, Contents(delta))
    modifies delta
    ensures d == DeltaField(g, c, kappaM, dt) && Contents(delta) == d
  {
    ContentsCells(delta);
    Update(delta, Box(0, g.nx - 3, 0, g.ny - 3, 0, g.nz - 1), (i, j, k) => DeltaAt(g, c, kappaM, dt, i, j, k));
    ContentsIs(delta, DeltaField(g, c, kappaM, dt));
    d := Freeze(delta);
  }

  /** `a_tri = update(a_tri, at[:, :, 1:], -delta[:, :, :-1] / dzt[1:])`; level 0 already holds 0. */
  method BuildLower(g: Grid, d: Field, aTri: array3<real>) returns (aS: Field)
    requires FitsBlock(aTri, g) && BottomClear(g, Contents(aTri))
    modifies aTri
    ensures aS == LowerField(g, d) && Contents(aTri) == aS
  {
    ContentsCells(aTri);
    Update(aTri, Box(0, g.nx - 3, 0, g.ny - 3, 1, g.nz), (i, j, k) => LowerCoef(k, At(d, i, j, k - 1), g.Dzt(k)));
    forall i, j, k | InBlock(g, i, j, k)
      ensures At(LowerField(g, d), i, j, k) == LowerCell(g, d, i, j, k)
    {
    }
    ContentsIs(aTri, LowerField(g, d));
    aS := Freeze(aTri);
  }

  /** `b_tri = update(b_tri, at[:, :, 1:], 1 + delta[:, :, :-1] / dzt[1:])`, then
      `b_tri = update_add(b_tri, at[:, :, 1:-1], delta[:, :, 1:-1] / dzt[1:-1])`; level 0 already holds 0. */
  method BuildDiag(g: Grid, d: Field, bTri: array3<real>) returns (bS: Field)
    requires FitsBlock(bTri, g) && BottomClear(g, Contents(bTri))
    modifies bTri
    ensures bS == DiagField(g, d) && Contents(bTri) == bS
  {
    BottomClearCells(g, bTri);
    label empty:
    Update(bTri, Box(0, g.nx - 3, 0, g.ny - 3, 1, g.nz), (i, j, k) => DiagBelow(k, At(d, i, j, k - 1), g.Dzt(k)));
    label below:
    UpdateAdd(bTri, Box(0, g.nx - 3, 0, g.ny - 3, 1, g.nz - 1), (i, j, k) => DiagAbove(k, g.nz, At(d, i, j, k), g.Dzt(k)));
    forall i, j, k | InBlock(g, i, j, k)
      ensures bTri[i, j, k] == At(DiagField(g, d), i, j, k)
    {
      DiagFromUpdates(g, d, i, j, k, old@empty(bTri[i, j, k]), old@below(bTri[i, j, k]), bTri[i, j, k]);
    }
    ContentsIs(bTri, DiagField(g, d));
    bS := Freeze(bTri);
  }

  /** The level-0 cells of a bottom-clear block buffer hold 0. */
  lemma BottomClearCells(g: Grid, a: array3<real>)
    requires FitsBlock(a, g) && BottomClear(g, Contents(a))
    ensures forall i, j | 0 <= i < g.nx - 3 && 0 <= j < g.ny - 3 :: a[i, j, 0] == 0.0
  {
    forall i, j | 0 <= i < g.nx - 3 && 0 <= j < g.ny - 3
      ensures a[i, j, 0] == 0.0
    {
      ContentsAt(a, i, j, 0);
    }
  }

  /** A cell of `b_tri` that held 0 at level 0, was then overwritten from level 1 up and then
      increased strictly between level 0 and the surface, holds the cell of `DiagField`. */
  lemma DiagFromUpdates(g: Grid, d: Field, i: int, j: int, k: int, v0: real, v1: real, v2: real)
    requires InBlock(g, i, j, k) && (k == 0 ==> v0 == 0.0)
    requires v1 == if Box(0, g.nx - 3, 0, g.ny - 3, 1, g.nz).Contains(i, j, k) then DiagBelow(k, At(d, i, j, k - 1), g.Dzt(k)) else v0
    requires v2 == v1 + if Box(0, g.nx - 3, 0, g.ny - 3, 1, g.nz - 1).Contains(i, j, k) then DiagAbove(k, g.nz, At(d, i, j, k), g.Dzt(k)) else 0.0
    ensures v2 == At(DiagField(g, d), i, j, k)
  {
    DiagFieldCell(g, d, i, j, k);
  }

  /** Cell (i, j, k) of `b_tri`: the part written first plus the part added after. */
  lemma DiagFieldCell(g: Grid, d: Field, i: int, j: int, k: int)
    requires InBlock(g, i, j, k)
    ensures At(DiagField(g, d), i, j, k) == DiagBelow(k, At(d, i, j, k - 1), g.Dzt(k)) + DiagAbove(k, g.nz, At(d, i, j, k), g.Dzt(k))
  {
    assert At(DiagField(g, d), i, j, k) == DiagCell(g, d, i, j, k);
  }

  /** `c_tri`: for u the whole of `-delta / dzt`, which is 0 at the surface because delta is; for v
      `-delta[:, :, :-1] / dzt[:-1]` below the surface and an explicit 0 at it. */
  method BuildUpper(g: Grid, c: Component, d: Field, cTri: array3<real>) returns (cS: Field)
    requires FitsBlock(cTri, g) && SurfaceClear(g, d)
    modifies cTri
    ensures cS == UpperField(g, d) && Contents(cTri) == cS
  {
    if c.Zonal? {
      Update(cTri, Box(0, g.nx - 3, 0, g.ny - 3, 0, g.nz), (i, j, k) => -At(d, i, j, k) / g.Dzt(k));
      forall i, j, k | InBlock(g, i, j, k)
        ensures cTri[i, j, k] == At(UpperField(g, d), i, j, k)
      {
        UpperFromDivision(g, d, i, j, k, cTri[i, j, k]);
      }
    } else {
      label empty:
      Update(cTri, Box(0, g.nx - 3, 0, g.ny - 3, 0, g.nz - 1), (i, j, k) => -At(d, i, j, k) / g.Dzt(k));
      label above:
      Update(cTri, Box(0, g.nx - 3, 0, g.ny - 3, g.nz - 1, g.nz), (i, j, k) => 0.0);
      forall i, j, k | InBlock(g, i, j, k)
        ensures cTri[i, j, k] == At(UpperField(g, d), i, j, k)
      {
        UpperFromUpdates(g, d, i, j, k, old@empty(cTri[i, j, k]), old@above(cTri[i, j, k]), cTri[i, j, k]);
      }
    }
    ContentsIs(cTri, UpperField(g, d));
    cS := Freeze(cTri);
  }

  /** The zonal pass divides in every level: the surface level still reads 0, as `delta` does there. */
  lemma UpperFromDivision(g: Grid, d: Field, i: int, j: int, k: int, v: real)
    requires InBlock(g, i, j, k) && SurfaceClear(g, d)
    requires v == -At(d, i, j, k) / g.Dzt(k)
    ensures v == At(UpperField(g, d), i, j, k)
  {
    assert At(UpperField(g, d), i, j, k) == UpperCell(g, d, i, j, k);
    if k == g.nz - 1 {
      NegZeroDiv(At(d, i, j, k), g.Dzt(k));
    }
  }

  /** The meridional pass divides below the surface and writes 0 at the surface. */
  lemma UpperFromUpdates(g: Grid, d: Field, i: int, j: int, k: int, v0: real, v1: real, v2: real)
    requires InBlock(g, i, j, k)
    requires v1 == if Box(0, g.nx - 3, 0, g.ny - 3, 0, g.nz - 1).Contains(i, j, k) then -At(d, i, j, k) / g.Dzt(k) else v0
    requires v2 == if Box(0, g.nx - 3, 0, g.ny - 3, g.nz - 1, g.nz).Contains(i, j, k) then 0.0 else v1
    ensures v2 == At(UpperField(g, d), i, j, k)
  {
    assert At(UpperField(g, d), i, j, k) == UpperCell(g, d, i, j, k);
  }

  /** `d_tri = update(d_tri, at[...], u[1:-2, 1:-2, :, tau])`. */
  method BuildRhs(g: Grid, w0: Field, dTri: array3<real>) returns (dS: Field)
    requires FitsBlock(dTri, g)
    modifies dTri
    ensures dS == RhsField(g, w0) && Contents(dTri) == dS
  {
    Update(dTri, Box(0, g.nx - 3, 0, g.ny - 3, 0, g.nz), (i, j, k) => At(w0, i + 1, j + 1, k));
    ContentsIs(dTri, RhsField(g, w0));
    dS := Freeze(dTri);
  }

  /** The built coefficients keep the buffers ready for the next pass. */
  lemma SystemKeepsBuffersReady(g: Grid, d: Field)
    requires SurfaceClear(g, d)
    ensures BuffersReady(g, d, LowerField(g, d), DiagField(g, d))
  {
    forall i, j | 0 <= i < g.nx - 3 && 0 <= j < g.ny - 3
      ensures At(LowerField(g, d), i, j, 0) == 0.0 && At(DiagField(g, d), i, j, 0) == 0.0
    {
      assert At(DiagField(g, d), i, j, 0) == DiagCoef(0, g.nz, At(d, i, j, -1), At(d, i, j, 0), g.Dzt(0));
    }
  }

  /** Lines 83-90 (u) and 114-123 (v): fill `delta`, the three diagonals, `b_tri_edge` and `d_tri`,
      and hand their contents on as values. */
  method BuildSystem(g: Grid, c: Component, kappaM: Field, dt: Pos, w0: Field,
                     delta: array3<real>, aTri: array3<real>, bTri: array3<real>, cTri: array3<real>, dTri: array3<real>)
    returns (aS: Field, bS: Field, cS: Field, dS: Field, bEdge: Field)
    requires Scratch(g, delta, aTri, bTri, cTri, dTri)
    requires BuffersReady(g, Contents(delta), Contents(aTri), Contents(bTri))
    modifies delta, aTri, bTri, cTri, dTri
    ensures var d := DeltaField(g, c, kappaM, dt);
            && aS == LowerField(g, d) && bS == DiagField(g, d) && cS == UpperField(g, d)
            && dS == RhsField(g, w0) && bEdge == DiagEdgeField(g, d)
    ensures BuffersReady(g, Contents(delta), Contents(aTri), Contents(bTri))
  {
    var d := BuildDelta(g, c, kappaM, dt, delta);
    DeltaFieldSurfaceClear(g, c, kappaM, dt);
    aS := BuildLower(g, d, aTri);
    bS := BuildDiag(g, d, bTri);
    bEdge := DiagEdgeField(g, d);
    cS := BuildUpper(g, c, d, cTri);
    dS := BuildRhs(g, w0, dTri);
    SystemKeepsBuffersReady(g, d);
  }

  /** No diffusion through the surface: `delta` is 0 at the top level. */
  lemma DeltaFieldSurfaceClear(g: Grid, c: Component, kappaM: Field, dt: Pos)
    ensures SurfaceClear(g, DeltaField(g, c, kappaM, dt))
  {
    forall i, j, k | InBlock(g, i, j, k) && k == g.nz - 1
      ensures At(DeltaField(g, c, kappaM, dt), i, j, k) == 0.0
    {
      assert At(DeltaField(g, c, kappaM, dt), i, j, k) == DeltaAt(g, c, kappaM, dt, i, j, k);
    }
  }

  /** `u = update(u, at[1:-2, 1:-2, :, taup1], np.where(water_mask, res, u[1:-2, 1:-2, :, taup1]))`. */
  method WriteVelocity(g: Grid, u1: array3<real>, res: Field, water: BoolField)
    requires Fits(u1, g)
    modifies u1
    ensures Contents(u1) == WhereWater(g, water, res, old(Contents(u1)))
  {
    ghost var w1old := Contents(u1);
    ContentsCells(u1);
    Apply(u1, Block(g), (i, j, k, x) => if AtBool(water, i - 1, j - 1, k) then At(res, i - 1, j - 1, k) else x);
    ContentsIs(u1, WhereWater(g, water, res, w1old));
  }

  /** `du_mix = update(du_mix, at[1:-2, 1:-2], (u[1:-2, 1:-2, :, taup1] - u[1:-2, 1:-2, :, tau]) / dt_mom)`. */
  method FillImplicitTendency(g: Grid, dt: Pos, w0: Field, w1: Field, tend: array3<real>)
    requires Fits(tend, g)
    modifies tend
    ensures Contents(tend) == BlockTendency(g, old(Contents(tend)), w1, w0, dt)
  {
    ghost var prev := Contents(tend);
    ContentsCells(tend);
    Update(tend, Block(g), (i, j, k) => (At(w1, i, j, k) - At(w0, i, j, k)) / dt);
    ContentsIs(tend, BlockTendency(g, prev, w1, w0, dt));
  }

  /** Lines 93-94 (u) and 126-127 (v): write the solution back into the water cells of the block
      and record the tendency. */
  method WriteBack(g: Grid, dt: Pos, w0: Field, res: Field, water: BoolField, u1: array3<real>, tend: array3<real>)
    returns (w1: Field)
    requires Fits(u1, g) && Fits(tend, g) && u1 != tend
    modifies u1, tend
    ensures w1 == WhereWater(g, water, res, old(Contents(u1))) && Contents(u1) == w1
    ensures Contents(tend) == BlockTendency(g, old(Contents(tend)), w1, w0, dt)
  {
    WriteVelocity(g, u1, res, water);
    w1 := Freeze(u1);
    FillImplicitTendency(g, dt, w0, w1, tend);
  }

  /** Lines 80-92 (u) and 111-125 (v): build the tridiagonal systems and solve them. */
  method SolveColumns(g: Grid, c: Component, kappaM: Field, dt: Pos, w0: Field,
                      delta: array3<real>, aTri: array3<real>, bTri: array3<real>, cTri: array3<real>, dTri: array3<real>,
                      util: Utilities)
    returns (res: Field)
    requires Scratch(g, delta, aTri, bTri, cTri, dTri)
    requires BuffersReady(g, Contents(delta), Contents(aTri), Contents(bTri))
    modifies delta, aTri, bTri, cTri, dTri
    ensures res == ImplicitSolution(g, c, kappaM, dt, w0, util)
    ensures BuffersReady(g, Contents(delta), Contents(aTri), Contents(bTri))
  {
    var wm := Masks(g, c, util);
    var aS, bS, cS, dS, bEdge := BuildSystem(g, c, kappaM, dt, w0, delta, aTri, bTri, cTri, dTri);
    res := util.solveImplicit(aS, bS, cS, dS, wm.water, bEdge, wm.edge);
  }

  /** The velocity update of one pass of `implicit_vert_friction` (lines 80-94 for u, 111-127 for v). */
  method ImplicitUpdate(g: Grid, c: Component, kappaM: Field, dt: Pos, w0: Field, u1: array3<real>, tend: array3<real>,
                        delta: array3<real>, aTri: array3<real>, bTri: array3<real>, cTri: array3<real>, dTri: array3<real>,
                        util: Utilities)
    returns (w1: Field)
    requires Fits(u1, g) && Fits(tend, g) && u1 != tend
    requires Scratch(g, delta, aTri, bTri, cTri, dTri)
    requires Apart(u1, delta, aTri, bTri, cTri, dTri) && Apart(tend, delta, aTri, bTri, cTri, dTri)
    requires BuffersReady(g, Contents(delta), Contents(aTri), Contents(bTri))
    modifies u1, tend, delta, aTri, bTri, cTri, dTri
    ensures w1 == ImplicitVelocity(g, c, kappaM, dt, w0, old(Contents(u1)), util) && Contents(u1) == w1
    ensures Contents(tend) == BlockTendency(g, old(Contents(tend)), w1, w0, dt)
    ensures BuffersReady(g, Contents(delta), Contents(aTri), Contents(bTri))
  {
    var res := SolveColumns(g, c, kappaM, dt, w0, delta, aTri, bTri, cTri, dTri, util);
    w1 := WriteBack(g, dt, w0, res, Masks(g, c, util).water, u1, tend);
  }

  /** The dissipation diagnosis of one pass of `implicit_vert_friction` (lines 99-106 for u, 132-139
      for v): the flux is computed from the new velocity w1, the shear from the velocity w0 at `tau`.
      Both passes diagnose the dissipation in this same way. Unlike the explicit kernel, this one does
      not clear the surface level of `flux_top`. */
  method ImplicitDiagnose(g: Grid, c: Component, kappaM: Field, w0: Field, w1: Field,
                          kDissV: array3<real>, fluxTop: array3<real>, diss: array3<real>, num: Numerics)
    returns (reduced: Field)
    requires Fits(kDissV, g) && Fits(fluxTop, g) && Fits(diss, g)
    requires kDissV != fluxTop && kDissV != diss && fluxTop != diss
    requires ZeroOffFluxBox(g, Contents(fluxTop))
    modifies kDissV, fluxTop, diss
    ensures Contents(fluxTop) == FluxTopField(g, c, kappaM, w1)
    ensures reduced == ReducedDiss(num, g, c, kappaM, w0, w1, old(Contents(diss)))
    ensures Contents(diss) == g.Fit(reduced)
    ensures Contents(kDissV) == g.Add(old(Contents(kDissV)), reduced)
  {
    FillFluxTop(g, c, kappaM, w1, fluxTop);
    var ft := Freeze(fluxTop);
    reduced := DiagnoseDissipation(g, c, w0, ft, diss, kDissV, num);
  }

  /** One pass of `implicit_vert_friction`: the velocity update on the shared scratch arrays, then
      the dissipation diagnosis. Afterwards `flux_top` again holds 0 outside the flux box. */
  method ImplicitPass(g: Grid, c: Component, kappaM: Field, dt: Pos, w0: Field, u1: array3<real>, tend: array3<real>,
                      kDissV: array3<real>, fluxTop: array3<real>, diss: array3<real>,
                      delta: array3<real>, aTri: array3<real>, bTri: array3<real>, cTri: array3<real>, dTri: array3<real>,
                      num: Numerics, util: Utilities)
    returns (reduced: Field)
    requires Fits(u1, g) && Fits(tend, g) && u1 != tend
    requires Scratch(g, delta, aTri, bTri, cTri, dTri)
    requires BuffersReady(g, Contents(delta), Contents(aTri), Contents(bTri))
    requires Fits(kDissV, g) && Fits(fluxTop, g) && Fits(diss, g)
    requires kDissV != fluxTop && kDissV != diss && fluxTop != diss
    requires ZeroOffFluxBox(g, Contents(fluxTop))
    requires u1 != kDissV && u1 != fluxTop && u1 != diss && tend != kDissV && tend != fluxTop && tend != diss
    requires Apart(u1, delta, aTri, bTri, cTri, dTri) && Apart(tend, delta, aTri, bTri, cTri, dTri)
    requires Apart(kDissV, delta, aTri, bTri, cTri, dTri) && Apart(fluxTop, delta, aTri, bTri, cTri, dTri)
    requires Apart(diss, delta, aTri, bTri, cTri, dTri)
    modifies u1, tend, kDissV, fluxTop, diss, delta, aTri, bTri, cTri, dTri
    ensures Contents(u1) == ImplicitVelocity(g, c, kappaM, dt, w0, old(Contents(u1)), util)
    ensures Contents(tend) == BlockTendency(g, old(Contents(tend)), Contents(u1), w0, dt)
    ensures reduced == ReducedDiss(num, g, c, kappaM, w0, Contents(u1), old(Contents(diss)))
    ensures Contents(diss) == g.Fit(reduced)
    ensures Contents(kDissV) == g.Add(old(Contents(kDissV)), reduced)
    ensures ZeroOffFluxBox(g, Contents(fluxTop))
    ensures BuffersReady(g, Contents(delta), Contents(aTri), Contents(bTri))
  {
    var w1 := ImplicitUpdate(g, c, kappaM, dt, w0, u1, tend, delta, aTri, bTri, cTri, dTri, util);
    reduced := ImplicitDiagnose(g, c, kappaM, w0, w1, kDissV, fluxTop, diss, num);
    FluxTopFieldOffFluxBox(g, c, kappaM, w1);
  }

  /** The two passes of `implicit_vert_friction` on the scratch arrays: `diss` starts at zero and
      `flux_top` at zero outside the flux box. */
  method ImplicitPasses(g: Grid, kappaM: Field, dt: Pos, u0: Field, v0: Field, u1: array3<real>, v1: array3<real>,
                        du: array3<real>, dv: array3<real>, kDissV: array3<real>, fluxTop: array3<real>, diss: array3<real>,
                        delta: array3<real>, aTri: array3<real>, bTri: array3<real>, cTri: array3<real>, dTri: array3<real>,
                        num: Numerics, util: Utilities)
    returns (rU: Field, rV: Field)
    requires Fits(u1, g) && Fits(v1, g) && Fits(du, g) && Fits(dv, g) && Fits(kDissV, g) && Fits(fluxTop, g) && Fits(diss, g)
    requires u1 != v1 && u1 != du && u1 != dv && u1 != kDissV && v1 != du && v1 != dv && v1 != kDissV
    requires du != dv && du != kDissV && dv != kDissV
    requires fluxTop != diss && fluxTop != u1 && fluxTop != v1 && fluxTop != du && fluxTop != dv && fluxTop != kDissV
    requires diss != u1 && diss != v1 && diss != du && diss != dv && diss != kDissV
    requires Scratch(g, delta, aTri, bTri, cTri, dTri)
    requires Apart(u1, delta, aTri, bTri, cTri, dTri) && Apart(v1, delta, aTri, bTri, cTri, dTri)
    requires Apart(du, delta, aTri, bTri, cTri, dTri) && Apart(dv, delta, aTri, bTri, cTri, dTri)
    requires Apart(kDissV, delta, aTri, bTri, cTri, dTri) && Apart(fluxTop, delta, aTri, bTri, cTri, dTri)
    requires Apart(diss, delta, aTri, bTri, cTri, dTri)
    requires BuffersReady(g, Contents(delta), Contents(aTri), Contents(bTri))
    requires Contents(diss) == g.Zero() && ZeroOffFluxBox(g, Contents(fluxTop))
    modifies u1, v1, du, dv, kDissV, fluxTop, diss, delta, aTri, bTri, cTri, dTri
    ensures Contents(u1) == ImplicitVelocity(g, Zonal, kappaM, dt, u0, old(Contents(u1)), util)
    ensures Contents(v1) == ImplicitVelocity(g, Meridional, kappaM, dt, v0, old(Contents(v1)), util)
    ensures Contents(du) == BlockTendency(g, old(Contents(du)), Contents(u1), u0, dt)
    ensures Contents(dv) == BlockTendency(g, old(Contents(dv)), Contents(v1), v0, dt)
    ensures rU == ReducedDiss(num, g, Zonal, kappaM, u0, Contents(u1), g.Zero())
    ensures rV == ReducedDiss(num, g, Meridional, kappaM, v0, Contents(v1), g.Fit(rU))
    ensures Contents(kDissV) == g.Add(g.Add(old(Contents(kDissV)), rU), rV)
  {
    rU := ImplicitPass(g, Zonal, kappaM, dt, u0, u1, du, kDissV, fluxTop, diss, delta, aTri, bTri, cTri, dTri, num, util);
    rV := ImplicitPass(g, Meridional, kappaM, dt, v0, v1, dv, kDissV, fluxTop, diss, delta, aTri, bTri, cTri, dTri, num, util);
  }

  /** `implicit_vert_friction`: the zonal pass, then the meridional pass on the same scratch arrays.
      u0 and v0 are the velocities at `tau`; u1 and v1 the ones at `taup1`, which the kernel updates. */
  method ImplicitVertFriction(g: Grid, kappaM: Field, dt: Pos, u0: Field, v0: Field, u1: array3<real>, v1: array3<real>,
                              du: array3<real>, dv: array3<real>, kDissV: array3<real>, num: Numerics, util: Utilities)
    returns (rU: Field, rV: Field)
    requires Fits(u1, g) && Fits(v1, g) && Fits(du, g) && Fits(dv, g) && Fits(kDissV, g)
    requires u1 != v1 && u1 != du && u1 != dv && u1 != kDissV && v1 != du && v1 != dv && v1 != kDissV
    requires du != dv && du != kDissV && dv != kDissV
    modifies u1, v1, du, dv, kDissV
    ensures Contents(u1) == ImplicitVelocity(g, Zonal, kappaM, dt, u0, old(Contents(u1)), util)
    ensures Contents(v1) == ImplicitVelocity(g, Meridional, kappaM, dt, v0, old(Contents(v1)), util)
    ensures Contents(du) == BlockTendency(g, old(Contents(du)), Contents(u1), u0, dt)
    ensures Contents(dv) == BlockTendency(g, old(Contents(dv)), Contents(v1), v0, dt)
    ensures rU == ReducedDiss(num, g, Zonal, kappaM, u0, Contents(u1), g.Zero())
    ensures rV == ReducedDiss(num, g, Meridional, kappaM, v0, Contents(v1), g.Fit(rU))
    ensures Contents(kDissV) == g.Add(g.Add(old(Contents(kDissV)), rU), rV)
  {
    var diss, fluxTop := NewDiagnosisBuffers(g);
    var delta, aTri, bTri, cTri, dTri := NewScratch(g);
    rU, rV := ImplicitPasses(g, kappaM, dt, u0, v0, u1, v1, du, dv, kDissV, fluxTop, diss, delta, aTri, bTri, cTri, dTri, num, util);
  }
}
