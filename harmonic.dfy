/** `harmonic_friction` of veros/core/friction.py: Laplacian lateral friction.

    The kernel allocates `diss`, `flux_east` and `flux_north` once. The zonal pass fills the two flux
    buffers from u, adds their divergence to `du_mix` on `[2:-2, 2:-2]` and, with energy
    conservation, writes the work of the fluxes into `diss` on `[1:-2, 2:-2]`, clears `K_diss_h` and
    adds the T-point dissipation to it. The meridional pass does the same for v on the same buffers;
    it writes `diss` only on `[2:-2, 1:-2]`, so the other cells keep what the zonal pass left there,
    and the model keeps that. */
module HarmonicFriction {
  import opened Fields
  import opened Grids
  import opened Collaborators
  import opened Staggering
  import opened LateralStencils

  /** What a pass adds to `du_mix` / `dv_mix`: the masked divergence of the fluxes on `[2:-2, 2:-2]`. */
  function HarmonicTendencyField(g: Grid, c: Component, fe: Field, fn: Field): Field {
    Tabulate(g.nx, g.ny, g.nz, (i, j, k) =>
      if InteriorBox(g).Contains(i, j, k) then At(c.Mask(g), i, j, k) * Div(g, c, fe, fn, i, j, k) else 0.0)
  }

  /** `diss` after a pass with energy conservation: the work of the fluxes on `VelocityInterior`,
      what the buffer held before (`prev`) elsewhere. */
  function HarmonicDissField(g: Grid, c: Component, w: Field, fe: Field, fn: Field, prev: Field): Field {
    Tabulate(g.nx, g.ny, g.nz, (i, j, k) =>
      if VelocityInterior(g, c).Contains(i, j, k) then FaceWork(g, c, w, fe, fn, i, j, k) else At(prev, i, j, k))
  }

  /** The tendency of a pass on the velocity component w. */
  function HarmonicTendency(g: Grid, c: Component, vis: Viscosity, maths: Maths, noSlip: bool, w: Field): Field {
    HarmonicTendencyField(g, c, EastFluxField(g, c, vis, maths, noSlip, w), NorthFluxField(g, c, vis, maths, noSlip, w))
  }

  /** `diss` after a pass on w with energy conservation. */
  function HarmonicDiss(g: Grid, c: Component, vis: Viscosity, maths: Maths, noSlip: bool, w: Field, prev: Field): Field {
    HarmonicDissField(g, c, w, EastFluxField(g, c, vis, maths, noSlip, w), NorthFluxField(g, c, vis, maths, noSlip, w), prev)
  }

  /** `K_diss_h` after a pass whose `diss` moves to `gain` on T-points: the zonal pass clears it first. */
  function HarmonicKDiss(g: Grid, c: Component, conserve: bool, k0: Field, gain: Field): Field {
    if !conserve then k0 else if c.Zonal? then g.Add(g.Zero(), gain) else g.Add(k0, gain)
  }

  /** `du_mix = update_add(du_mix, at[2:-2, 2:-2], maskU * (...))` (or the `dv_mix` one). */
  method AddHarmonicTendency(g: Grid, c: Component, fe: Field, fn: Field, tend: array3<real>)
    requires Fits(tend, g)
    modifies tend
    ensures Contents(tend) == g.Add(old(Contents(tend)), HarmonicTendencyField(g, c, fe, fn))
  {
    AddOnBox(g, tend, InteriorBox(g), (i, j, k) => At(c.Mask(g), i, j, k) * Div(g, c, fe, fn, i, j, k),
             HarmonicTendencyField(g, c, fe, fn));
  }

  /** `diss = update(diss, at[1:-2, 2:-2], ...)` (or `at[2:-2, 1:-2]` for v). */
  method FillHarmonicDiss(g: Grid, c: Component, w: Field, fe: Field, fn: Field, diss: array3<real>)
    requires Fits(diss, g)
    modifies diss
    ensures Contents(diss) == HarmonicDissField(g, c, w, fe, fn, old(Contents(diss)))
  {
    ghost var prev := Contents(diss);
    ContentsCells(diss);
    Update(diss, VelocityInterior(g, c), (i, j, k) => FaceWork(g, c, w, fe, fn, i, j, k));
    ContentsIs(diss, HarmonicDissField(g, c, w, fe, fn, prev));
  }

  /** `K_diss_h = update(K_diss_h, at[...], 0.)`. */
  method ClearField(g: Grid, a: array3<real>)
    requires Fits(a, g)
    modifies a
    ensures Contents(a) == g.Zero()
  {
    Update(a, g.All(), (i, j, k) => 0.0);
    ContentsIs(a, g.Zero());
  }

  /** The dissipation diagnosis of a pass (lines 316-327 for u, 366-376 for v). */
  method DiagnoseHarmonic(g: Grid, c: Component, w: Field, fe: Field, fn: Field, diss: array3<real>,
                          kDissH: array3<real>, num: Numerics)
    requires Fits(diss, g) && Fits(kDissH, g) && diss != kDissH
    modifies diss, kDissH
    ensures Contents(diss) == HarmonicDissField(g, c, w, fe, fn, old(Contents(diss)))
    ensures Contents(kDissH) == HarmonicKDiss(g, c, true, old(Contents(kDissH)), c.CalcDiss(num, g, Contents(diss)))
  {
    FillHarmonicDiss(g, c, w, fe, fn, diss);
    var d := Freeze(diss);
    if c.Zonal? {
      ClearField(g, kDissH);
    }
    AddField(g, kDissH, c.CalcDiss(num, g, d));
  }

  /** The fluxes of a pass and the update of `du_mix` / `dv_mix` (lines 282-314 for u, 332-364 for v);
      returns what the flux buffers hold. */
  method HarmonicStage(g: Grid, c: Component, vis: Viscosity, maths: Maths, noSlip: bool, w: Field,
                       tend: array3<real>, fe: array3<real>, fn: array3<real>) returns (feS: Field, fnS: Field)
    requires Fits(tend, g) && Fits(fe, g) && Fits(fn, g) && tend != fe && tend != fn && fe != fn
    modifies tend, fe, fn
    ensures feS == EastFluxField(g, c, vis, maths, noSlip, w) && Contents(fe) == feS
    ensures fnS == NorthFluxField(g, c, vis, maths, noSlip, w) && Contents(fn) == fnS
    ensures Contents(tend) == g.Add(old(Contents(tend)), HarmonicTendency(g, c, vis, maths, noSlip, w))
  {
    FillEastFlux(g, c, vis, maths, noSlip, w, fe);
    FillNorthFlux(g, c, vis, maths, noSlip, w, fn);
    feS := Freeze(fe);
    fnS := Freeze(fn);
    AddHarmonicTendency(g, c, feS, fnS, tend);
  }

  /** One pass of `harmonic_friction` (lines 280-327 for u, 330-376 for v). */
  method HarmonicPass(g: Grid, c: Component, vis: Viscosity, maths: Maths, noSlip: bool, w: Field,
                      tend: array3<real>, kDissH: array3<real>, fe: array3<real>, fn: array3<real>, diss: array3<real>,
                      conserve: bool, num: Numerics)
    requires Fits(tend, g) && Fits(kDissH, g) && Fits(fe, g) && Fits(fn, g) && Fits(diss, g)
    requires tend != kDissH && tend != fe && tend != fn && tend != diss
    requires kDissH != fe && kDissH != fn && kDissH != diss && fe != fn && fe != diss && fn != diss
    modifies tend, kDissH, fe, fn, diss
    ensures Contents(fe) == EastFluxField(g, c, vis, maths, noSlip, w)
    ensures Contents(fn) == NorthFluxField(g, c, vis, maths, noSlip, w)
    ensures Contents(tend) == g.Add(old(Contents(tend)), HarmonicTendency(g, c, vis, maths, noSlip, w))
    ensures Contents(diss) == if conserve then HarmonicDiss(g, c, vis, maths, noSlip, w, old(Contents(diss))) else old(Contents(diss))
    ensures Contents(kDissH) == HarmonicKDiss(g, c, conserve, old(Contents(kDissH)), c.CalcDiss(num, g, Contents(diss)))
  {
    var feS, fnS := HarmonicStage(g, c, vis, maths, noSlip, w, tend, fe, fn);
    if conserve {
      DiagnoseHarmonic(g, c, w, feS, fnS, diss, kDissH, num);
    }
  }

  /** `diss`, `flux_east` and `flux_north = np.zeros_like(...)`. */
  method NewLateralBuffers(g: Grid) returns (fe: array3<real>, fn: array3<real>, diss: array3<real>)
    ensures fresh(fe) && fresh(fn) && fresh(diss) && fe != fn && fe != diss && fn != diss
    ensures Fits(fe, g) && Fits(fn, g) && Fits(diss, g) && Contents(diss) == g.Zero()
  {
    diss := NewZeros(g.nx, g.ny, g.nz);
    fe := NewZeros(g.nx, g.ny, g.nz);
    fn := NewZeros(g.nx, g.ny, g.nz);
  }

  /** `harmonic_friction`: the zonal pass, then the meridional pass on the same buffers. */
  method HarmonicFriction(g: Grid, aH: real, cosScaling: bool, cosPower: real, maths: Maths, noSlip: bool,
                          u: Field, v: Field, du: array3<real>, dv: array3<real>, kDissH: array3<real>,
                          conserve: bool, num: Numerics)
    requires Fits(du, g) && Fits(dv, g) && Fits(kDissH, g) && du != dv && du != kDissH && dv != kDissH
    modifies du, dv, kDissH
    ensures var vis := Harmonic(aH, cosScaling, cosPower);
            && Contents(du) == g.Add(old(Contents(du)), HarmonicTendency(g, Zonal, vis, maths, noSlip, u))
            && Contents(dv) == g.Add(old(Contents(dv)), HarmonicTendency(g, Meridional, vis, maths, noSlip, v))
    ensures var vis := Harmonic(aH, cosScaling, cosPower);
            var dissU := HarmonicDiss(g, Zonal, vis, maths, noSlip, u, g.Zero());
            var dissV := HarmonicDiss(g, Meridional, vis, maths, noSlip, v, dissU);
            Contents(kDissH) == if conserve then g.Add(g.Add(g.Zero(), Zonal.CalcDiss(num, g, dissU)), Meridional.CalcDiss(num, g, dissV))
                                else old(Contents(kDissH))
  {
    var fe, fn, diss := NewLateralBuffers(g);
    var vis := Harmonic(aH, cosScaling, cosPower);
    HarmonicPass(g, Zonal, vis, maths, noSlip, u, du, kDissH, fe, fn, diss, conserve, num);
    HarmonicPass(g, Meridional, vis, maths, noSlip, v, dv, kDissH, fe, fn, diss, conserve, num);
  }

  /** Harmonic friction changes the tendency only on `[2:-2, 2:-2]`. */
  lemma HarmonicInteriorOnly(g: Grid, c: Component, fe: Field, fn: Field)
    ensures InteriorOnly(g, HarmonicTendencyField(g, c, fe, fn))
  {
    forall i, j, k | At(HarmonicTendencyField(g, c, fe, fn), i, j, k) != 0.0
      ensures InteriorBox(g).Contains(i, j, k)
    {
      HarmonicCellInterior(g, c, fe, fn, i, j, k);
    }
  }

  lemma HarmonicCellInterior(g: Grid, c: Component, fe: Field, fn: Field, i: int, j: int, k: int)
    ensures At(HarmonicTendencyField(g, c, fe, fn), i, j, k) != 0.0 ==> InteriorBox(g).Contains(i, j, k)
  {
    if !g.InGrid(i, j, k) {
      assert At(HarmonicTendencyField(g, c, fe, fn), i, j, k) == 0.0;
    }
  }

  /** With `A_h = 0` harmonic friction leaves `du_mix` / `dv_mix` as they were. */
  lemma HarmonicInviscidLeavesTendency(g: Grid, c: Component, vis: Viscosity, maths: Maths, noSlip: bool, w: Field,
                                       t: Field, i: int, j: int, k: int)
    requires vis.Inviscid(maths) && g.InGrid(i, j, k)
    ensures At(g.Add(t, HarmonicTendency(g, c, vis, maths, noSlip, w)), i, j, k) == At(t, i, j, k)
  {
    var fe, fn := EastFluxField(g, c, vis, maths, noSlip, w), NorthFluxField(g, c, vis, maths, noSlip, w);
    InviscidFluxesVanish(g, c, vis, maths, noSlip, w, i, j, k);
    InviscidFluxesVanish(g, c, vis, maths, noSlip, w, i - 1, j, k);
    InviscidFluxesVanish(g, c, vis, maths, noSlip, w, i, j - 1, k);
    ZeroFluxesDiv(g, c, fe, fn, i, j, k);
    assert At(HarmonicTendencyField(g, c, fe, fn), i, j, k) == 0.0;
  }

  /** With free-slip walls, `A_h >= 0` and 0/1 masks, the east flux of face (i, j, k) runs down the
      gradient of w. */
  lemma FreeSlipEastWork(g: Grid, c: Component, vis: Viscosity, maths: Maths, w: Field, i: int, j: int, k: int)
    requires vis.Harmonic? && vis.aH >= 0.0 && g.BinaryMasks()
    requires 0 <= i < g.nx - 1 && 0 <= j < g.ny - 1 && 0 <= k < g.nz
    ensures EastWork(w, EastFluxField(g, c, vis, maths, false, w), i, j, k) >= 0.0
  {
    FluxFieldsAt(g, c, vis, maths, false, w, i, j, k);
    HarmonicCoefNonNegative(vis, maths, if c.Zonal? then g.Cost(j) else g.Cosu(j));
    EastFluxDownGradient(g, c, EastCoef(vis, maths, g, c, j), w, i, j, k);
  }

  /** With free-slip walls, `A_h >= 0` and 0/1 masks, the north flux of face (i, j, k) runs down the
      gradient of w. */
  lemma FreeSlipNorthWork(g: Grid, c: Component, vis: Viscosity, maths: Maths, w: Field, i: int, j: int, k: int)
    requires vis.Harmonic? && vis.aH >= 0.0 && g.BinaryMasks()
    requires 0 <= i < g.nx - 1 && 0 <= j < g.ny - 1 && 0 <= k < g.nz
    ensures NorthWork(w, NorthFluxField(g, c, vis, maths, false, w), i, j, k) >= 0.0
  {
    FluxFieldsAt(g, c, vis, maths, false, w, i, j, k);
    HarmonicCoefNonNegative(vis, maths, if c.Zonal? then g.Cosu(j) else g.Cost(j + 1));
    NorthFluxDownGradient(g, c, NorthCoef(vis, maths, g, c, j), w, i, j, k);
  }

  /** In `VelocityInterior`, `diss` is non-negative where the four fluxes around the cell run down
      the gradient of w. */
  lemma HarmonicDissNonNegativeAt(g: Grid, c: Component, w: Field, fe: Field, fn: Field, prev: Field, i: int, j: int, k: int)
    requires VelocityInterior(g, c).Contains(i, j, k)
    requires EastWork(w, fe, i, j, k) >= 0.0 && EastWork(w, fe, i - 1, j, k) >= 0.0
    requires NorthWork(w, fn, i, j, k) >= 0.0 && NorthWork(w, fn, i, j - 1, k) >= 0.0
    ensures At(HarmonicDissField(g, c, w, fe, fn, prev), i, j, k) >= 0.0
  {
    assert At(HarmonicDissField(g, c, w, fe, fn, prev), i, j, k) == FaceWork(g, c, w, fe, fn, i, j, k);
    FaceWorkNonNegative(g, c, w, fe, fn, i, j, k);
  }

  /** With free-slip walls, `A_h >= 0` and 0/1 masks, harmonic friction dissipates: every flux runs
      down the gradient of the velocity, so the `diss` it diagnoses is nowhere negative. */
  lemma HarmonicDissipates(g: Grid, c: Component, vis: Viscosity, maths: Maths, w: Field, prev: Field, i: int, j: int, k: int)
    requires vis.Harmonic? && vis.aH >= 0.0 && g.BinaryMasks()
    requires VelocityInterior(g, c).Contains(i, j, k)
    ensures At(HarmonicDiss(g, c, vis, maths, false, w, prev), i, j, k) >= 0.0
  {
    var fe, fn := EastFluxField(g, c, vis, maths, false, w), NorthFluxField(g, c, vis, maths, false, w);
    FacesRunDown(g, c, vis, maths, w, i, j, k);
    HarmonicDissNonNegativeAt(g, c, w, fe, fn, prev, i, j, k);
  }

  /** The four faces around a cell of `VelocityInterior` carry fluxes that run down the gradient. */
  lemma FacesRunDown(g: Grid, c: Component, vis: Viscosity, maths: Maths, w: Field, i: int, j: int, k: int)
    requires vis.Harmonic? && vis.aH >= 0.0 && g.BinaryMasks()
    requires VelocityInterior(g, c).Contains(i, j, k)
    ensures var fe, fn := EastFluxField(g, c, vis, maths, false, w), NorthFluxField(g, c, vis, maths, false, w);
            EastWork(w, fe, i, j, k) >= 0.0 && EastWork(w, fe, i - 1, j, k) >= 0.0
            && NorthWork(w, fn, i, j, k) >= 0.0 && NorthWork(w, fn, i, j - 1, k) >= 0.0
  {
    FreeSlipEastWork(g, c, vis, maths, w, i, j, k);
    FreeSlipEastWork(g, c, vis, maths, w, i - 1, j, k);
    FreeSlipNorthWork(g, c, vis, maths, w, i, j, k);
    FreeSlipNorthWork(g, c, vis, maths, w, i, j - 1, k);
  }
}
