/** `biharmonic_friction` of veros/core/friction.py: friction by the Laplacian of the Laplacian.

    The kernel allocates `flux_east`, `flux_north` and `del2` once. A pass computes the fluxes of the
    velocity with the coefficient `sqrt(abs(A_hbi))`, stores their divergence in `del2` on `[1:, 1:]`,
    computes the fluxes of `del2` in the same buffers with the same coefficient, and subtracts their
    divergence from `du_mix` / `dv_mix` on `[2:-2, 2:-2]`. With energy conservation the flux buffers
    are replaced by their boundary-filled copies (`utilities.enforce_boundaries`) and the work they do
    against the velocity, negated, goes to `diss`; the zonal pass then sets `K_diss_h` to the T-point
    dissipation, the meridional pass adds to it. The meridional pass finds `del2` and `diss` as the
    zonal pass left them; `del2` is overwritten on the same cells (`Del2ReuseHarmless`), `diss` on
    `[2:-2, 1:-2]` only. */
module BiharmonicFriction {
  import opened Fields
  import opened Grids
  import opened Collaborators
  import opened Staggering
  import opened LateralStencils
  import opened HarmonicFriction

  /** `[1:, 1:, :]`: the cells of `del2` a pass writes. */
  function Del2Box(g: Grid): Box { Box(1, g.nx, 1, g.ny, 0, g.nz) }

  /** `del2` after a pass: the divergence of the fluxes on `[1:, 1:]`, what it held before (`prev`)
      elsewhere. */
  function Del2Field(g: Grid, c: Component, fe: Field, fn: Field, prev: Field): Field {
    Tabulate(g.nx, g.ny, g.nz, (i, j, k) =>
      if Del2Box(g).Contains(i, j, k) then Div(g, c, fe, fn, i, j, k) else At(prev, i, j, k))
  }

  /** What a pass subtracts from `du_mix` / `dv_mix`: the masked divergence of the second-stage
      fluxes on `[2:-2, 2:-2]`, with the leading minus. */
  function BiharmonicTendencyField(g: Grid, c: Component, fe: Field, fn: Field): Field {
    Tabulate(g.nx, g.ny, g.nz, (i, j, k) =>
      if InteriorBox(g).Contains(i, j, k) then -At(c.Mask(g), i, j, k) * Div(g, c, fe, fn, i, j, k) else 0.0)
  }

  /** `diss` after a pass with energy conservation: the negated work of the boundary-filled fluxes
      on `VelocityInterior`, what the buffer held before (`prev`) elsewhere. */
  function BiharmonicDissField(g: Grid, c: Component, w: Field, fe: Field, fn: Field, prev: Field): Field {
    Tabulate(g.nx, g.ny, g.nz, (i, j, k) =>
      if VelocityInterior(g, c).Contains(i, j, k) then -FaceWork(g, c, w, fe, fn, i, j, k) else At(prev, i, j, k))
  }

  /** `del2` after the first stage of a pass on w, from the `del2` the pass found. */
  function Laplacian(g: Grid, c: Component, vis: Viscosity, maths: Maths, noSlip: bool, w: Field, prevDel2: Field): Field {
    Del2Field(g, c, EastFluxField(g, c, vis, maths, noSlip, w), NorthFluxField(g, c, vis, maths, noSlip, w), prevDel2)
  }

  /** The tendency of a pass on w. */
  function BiharmonicTendency(g: Grid, c: Component, vis: Viscosity, maths: Maths, noSlip: bool, w: Field,
                              prevDel2: Field): Field {
    var d := Laplacian(g, c, vis, maths, noSlip, w, prevDel2);
    BiharmonicTendencyField(g, c, EastFluxField(g, c, vis, maths, noSlip, d), NorthFluxField(g, c, vis, maths, noSlip, d))
  }

  /** The second-stage fluxes after `enforce_boundaries`, as the buffers hold them. */
  function BoundaryEast(g: Grid, c: Component, vis: Viscosity, maths: Maths, noSlip: bool, util: Utilities,
                        cyclic: bool, w: Field, prevDel2: Field): Field {
    g.Fit(util.enforceBoundaries(EastFluxField(g, c, vis, maths, noSlip, Laplacian(g, c, vis, maths, noSlip, w, prevDel2)), cyclic))
  }

  function BoundaryNorth(g: Grid, c: Component, vis: Viscosity, maths: Maths, noSlip: bool, util: Utilities,
                         cyclic: bool, w: Field, prevDel2: Field): Field {
    g.Fit(util.enforceBoundaries(NorthFluxField(g, c, vis, maths, noSlip, Laplacian(g, c, vis, maths, noSlip, w, prevDel2)), cyclic))
  }

  /** `diss` after a pass on w with energy conservation. */
  function BiharmonicDiss(g: Grid, c: Component, vis: Viscosity, maths: Maths, noSlip: bool, util: Utilities,
                          cyclic: bool, w: Field, prevDel2: Field, prevDiss: Field): Field {
    BiharmonicDissField(g, c, w, BoundaryEast(g, c, vis, maths, noSlip, util, cyclic, w, prevDel2),
                        BoundaryNorth(g, c, vis, maths, noSlip, util, cyclic, w, prevDel2), prevDiss)
  }

  /** `K_diss_h` after a pass whose `diss` moves to `gain` on T-points: the zonal pass replaces it
      (`K_diss_h = calc_diss_u(...)`), the meridional pass adds to it. */
  function BiharmonicKDiss(g: Grid, c: Component, conserve: bool, k0: Field, gain: Field): Field {
    if !conserve then k0 else if c.Zonal? then g.Fit(gain) else g.Add(k0, gain)
  }

  /** `del2 = update(del2, at[1:, 1:, :], ...)`. */
  method FillDel2(g: Grid, c: Component, fe: Field, fn: Field, del2: array3<real>)
    requires Fits(del2, g)
    modifies del2
    ensures Contents(del2) == Del2Field(g, c, fe, fn, old(Contents(del2)))
  {
    ghost var prev := Contents(del2);
    ContentsCells(del2);
    Update(del2, Del2Box(g), (i, j, k) => Div(g, c, fe, fn, i, j, k));
    ContentsIs(del2, Del2Field(g, c, fe, fn, prev));
  }

  /** The two stages of fluxes of a pass: the fluxes of w, their divergence into `del2`, and the
      fluxes of `del2`, which the flux buffers hold at the end (lines 396-428 for u, 455-486 for v). */
  method BiharmonicFluxes(g: Grid, c: Component, vis: Viscosity, maths: Maths, noSlip: bool, w: Field,
                          fe: array3<real>, fn: array3<real>, del2: array3<real>)
    requires Fits(fe, g) && Fits(fn, g) && Fits(del2, g) && fe != fn && fe != del2 && fn != del2
    modifies fe, fn, del2
    ensures Contents(del2) == Laplacian(g, c, vis, maths, noSlip, w, old(Contents(del2)))
    ensures Contents(fe) == EastFluxField(g, c, vis, maths, noSlip, Contents(del2))
    ensures Contents(fn) == NorthFluxField(g, c, vis, maths, noSlip, Contents(del2))
  {
    FillEastFlux(g, c, vis, maths, noSlip, w, fe);
    FillNorthFlux(g, c, vis, maths, noSlip, w, fn);
    var feS := Freeze(fe);
    var fnS := Freeze(fn);
    FillDel2(g, c, feS, fnS, del2);
    var d := Freeze(del2);
    FillEastFlux(g, c, vis, maths, noSlip, d, fe);
    FillNorthFlux(g, c, vis, maths, noSlip, d, fn);
  }

  /** `du_mix = update_add(du_mix, at[2:-2, 2:-2], -maskU * (...))` (or the `dv_mix` one). */
  method AddBiharmonicTendency(g: Grid, c: Component, fe: Field, fn: Field, tend: array3<real>)
    requires Fits(tend, g)
    modifies tend
    ensures Contents(tend) == g.Add(old(Contents(tend)), BiharmonicTendencyField(g, c, fe, fn))
  {
    AddOnBox(g, tend, InteriorBox(g), (i, j, k) => -At(c.Mask(g), i, j, k) * Div(g, c, fe, fn, i, j, k),
             BiharmonicTendencyField(g, c, fe, fn));
  }

  /** `diss = update(diss, at[1:-2, 2:-2], -0.5 * ...)` (or `at[2:-2, 1:-2]` for v). */
  method FillBiharmonicDiss(g: Grid, c: Component, w: Field, fe: Field, fn: Field, diss: array3<real>)
    requires Fits(diss, g)
    modifies diss
    ensures Contents(diss) == BiharmonicDissField(g, c, w, fe, fn, old(Contents(diss)))
  {
    ghost var prev := Contents(diss);
    ContentsCells(diss);
    Update(diss, VelocityInterior(g, c), (i, j, k) => -FaceWork(g, c, w, fe, fn, i, j, k));
    ContentsIs(diss, BiharmonicDissField(g, c, w, fe, fn, prev));
  }

  /** `flux_east = enforce_boundaries(flux_east, enable_cyclic_x)` and the same for `flux_north`. */
  method EnforceFluxBoundaries(g: Grid, util: Utilities, cyclic: bool, fe: array3<real>, fn: array3<real>)
    requires Fits(fe, g) && Fits(fn, g) && fe != fn
    modifies fe, fn
    ensures Contents(fe) == g.Fit(util.enforceBoundaries(old(Contents(fe)), cyclic))
    ensures Contents(fn) == g.Fit(util.enforceBoundaries(old(Contents(fn)), cyclic))
  {
    var feS := Freeze(fe);
    var fnS := Freeze(fn);
    SetField(g, fe, util.enforceBoundaries(feS, cyclic));
    SetField(g, fn, util.enforceBoundaries(fnS, cyclic));
  }

  /** `K_diss_h = calc_diss_u(diss, ...)` for u, `K_diss_h = update_add(K_diss_h, at[...], calc_diss_v(diss, ...))` for v. */
  method StoreBiharmonicDiss(g: Grid, c: Component, d: Field, kDissH: array3<real>, num: Numerics)
    requires Fits(kDissH, g)
    modifies kDissH
    ensures Contents(kDissH) == BiharmonicKDiss(g, c, true, old(Contents(kDissH)), c.CalcDiss(num, g, d))
  {
    if c.Zonal? {
      SetField(g, kDissH, c.CalcDiss(num, g, d));
    } else {
      AddField(g, kDissH, c.CalcDiss(num, g, d));
    }
  }

  /** The dissipation diagnosis of a pass (lines 437-450 for u, 496-508 for v). */
  method DiagnoseBiharmonic(g: Grid, c: Component, w: Field, util: Utilities, cyclic: bool,
                            fe: array3<real>, fn: array3<real>, diss: array3<real>, kDissH: array3<real>, num: Numerics)
    requires Fits(fe, g) && Fits(fn, g) && Fits(diss, g) && Fits(kDissH, g)
    requires fe != fn && fe != diss && fe != kDissH && fn != diss && fn != kDissH && diss != kDissH
    modifies fe, fn, diss, kDissH
    ensures Contents(fe) == g.Fit(util.enforceBoundaries(old(Contents(fe)), cyclic))
    ensures Contents(fn) == g.Fit(util.enforceBoundaries(old(Contents(fn)), cyclic))
    ensures Contents(diss) == BiharmonicDissField(g, c, w, Contents(fe), Contents(fn), old(Contents(diss)))
    ensures Contents(kDissH) == BiharmonicKDiss(g, c, true, old(Contents(kDissH)), c.CalcDiss(num, g, Contents(diss)))
  {
    EnforceFluxBoundaries(g, util, cyclic, fe, fn);
    var feB := Freeze(fe);
    var fnB := Freeze(fn);
    FillBiharmonicDiss(g, c, w, feB, fnB, diss);
    var d := Freeze(diss);
    StoreBiharmonicDiss(g, c, d, kDissH, num);
  }

  /** The two stages of a pass and the update of `du_mix` / `dv_mix` (lines 396-436 for u, 455-494 for v). */
  method BiharmonicStages(g: Grid, c: Component, vis: Viscosity, maths: Maths, noSlip: bool, w: Field,
                          tend: array3<real>, fe: array3<real>, fn: array3<real>, del2: array3<real>)
    requires Fits(tend, g) && Fits(fe, g) && Fits(fn, g) && Fits(del2, g)
    requires tend != fe && tend != fn && tend != del2 && fe != fn && fe != del2 && fn != del2
    modifies tend, fe, fn, del2
    ensures Contents(del2) == Laplacian(g, c, vis, maths, noSlip, w, old(Contents(del2)))
    ensures Contents(fe) == EastFluxField(g, c, vis, maths, noSlip, Contents(del2))
    ensures Contents(fn) == NorthFluxField(g, c, vis, maths, noSlip, Contents(del2))
    ensures Contents(tend) == g.Add(old(Contents(tend)), BiharmonicTendency(g, c, vis, maths, noSlip, w, old(Contents(del2))))
  {
    BiharmonicFluxes(g, c, vis, maths, noSlip, w, fe, fn, del2);
    var feS := Freeze(fe);
    var fnS := Freeze(fn);
    AddBiharmonicTendency(g, c, feS, fnS, tend);
  }

  /** One pass of `biharmonic_friction` (lines 393-450 for u, 452-508 for v). */
  method BiharmonicPass(g: Grid, c: Component, vis: Viscosity, maths: Maths, noSlip: bool, util: Utilities, cyclic: bool,
                        w: Field, tend: array3<real>, kDissH: array3<real>, fe: array3<real>, fn: array3<real>,
                        del2: array3<real>, diss: array3<real>, conserve: bool, num: Numerics)
    requires Fits(tend, g) && Fits(kDissH, g) && Fits(fe, g) && Fits(fn, g) && Fits(del2, g) && Fits(diss, g)
    requires tend != kDissH && tend != fe && tend != fn && tend != del2 && tend != diss
    requires kDissH != fe && kDissH != fn && kDissH != del2 && kDissH != diss
    requires fe != fn && fe != del2 && fe != diss && fn != del2 && fn != diss && del2 != diss
    modifies tend, kDissH, fe, fn, del2, diss
    ensures Contents(del2) == Laplacian(g, c, vis, maths, noSlip, w, old(Contents(del2)))
    ensures Contents(fe) == if conserve then BoundaryEast(g, c, vis, maths, noSlip, util, cyclic, w, old(Contents(del2)))
                            else EastFluxField(g, c, vis, maths, noSlip, Contents(del2))
    ensures Contents(fn) == if conserve then BoundaryNorth(g, c, vis, maths, noSlip, util, cyclic, w, old(Contents(del2)))
                            else NorthFluxField(g, c, vis, maths, noSlip, Contents(del2))
    ensures Contents(tend) == g.Add(old(Contents(tend)), BiharmonicTendency(g, c, vis, maths, noSlip, w, old(Contents(del2))))
    ensures Contents(diss) == if conserve then BiharmonicDiss(g, c, vis, maths, noSlip, util, cyclic, w, old(Contents(del2)), old(Contents(diss)))
                              else old(Contents(diss))
    ensures Contents(kDissH) == BiharmonicKDiss(g, c, conserve, old(Contents(kDissH)), c.CalcDiss(num, g, Contents(diss)))
  {
    BiharmonicStages(g, c, vis, maths, noSlip, w, tend, fe, fn, del2);
    if conserve {
      DiagnoseBiharmonic(g, c, w, util, cyclic, fe, fn, diss, kDissH, num);
    }
  }

  /** The start of `biharmonic_friction` up to the meridional pass (lines 389-450): the buffers are
      allocated as zeros and the zonal pass runs on them. `diss` is allocated here with the other
      buffers; the source allocates it, as zeros, inside the zonal pass. */
  method ZonalBiharmonic(g: Grid, vis: Viscosity, maths: Maths, noSlip: bool, util: Utilities, cyclic: bool,
                         u: Field, du: array3<real>, kDissH: array3<real>, conserve: bool, num: Numerics)
    returns (fe: array3<real>, fn: array3<real>, del2: array3<real>, diss: array3<real>)
    requires Fits(du, g) && Fits(kDissH, g) && du != kDissH
    modifies du, kDissH
    ensures fresh(fe) && fresh(fn) && fresh(del2) && fresh(diss)
    ensures Fits(fe, g) && Fits(fn, g) && Fits(del2, g) && Fits(diss, g)
    ensures fe != fn && fe != del2 && fe != diss && fn != del2 && fn != diss && del2 != diss
    ensures Contents(del2) == Laplacian(g, Zonal, vis, maths, noSlip, u, g.Zero())
    ensures Contents(du) == g.Add(old(Contents(du)), BiharmonicTendency(g, Zonal, vis, maths, noSlip, u, g.Zero()))
    ensures Contents(diss) == if conserve then BiharmonicDiss(g, Zonal, vis, maths, noSlip, util, cyclic, u, g.Zero(), g.Zero())
                              else g.Zero()
    ensures Contents(kDissH) == if conserve then g.Fit(Zonal.CalcDiss(num, g, Contents(diss))) else old(Contents(kDissH))
  {
    fe, fn, del2 := NewLateralBuffers(g);
    diss := NewZeros(g.nx, g.ny, g.nz);
    BiharmonicPass(g, Zonal, vis, maths, noSlip, util, cyclic, u, du, kDissH, fe, fn, del2, diss, conserve, num);
  }

  /** `biharmonic_friction`: the zonal pass, then the meridional pass on the same buffers. */
  method BiharmonicFriction(g: Grid, aHbi: real, maths: Maths, noSlip: bool, util: Utilities, cyclic: bool,
                            u: Field, v: Field, du: array3<real>, dv: array3<real>, kDissH: array3<real>,
                            conserve: bool, num: Numerics)
    requires Fits(du, g) && Fits(dv, g) && Fits(kDissH, g) && du != dv && du != kDissH && dv != kDissH
    modifies du, dv, kDissH
    ensures var vis := Biharmonic(aHbi);
            var d2U := Laplacian(g, Zonal, vis, maths, noSlip, u, g.Zero());
            && Contents(du) == g.Add(old(Contents(du)), BiharmonicTendency(g, Zonal, vis, maths, noSlip, u, g.Zero()))
            && Contents(dv) == g.Add(old(Contents(dv)), BiharmonicTendency(g, Meridional, vis, maths, noSlip, v, d2U))
    ensures var vis := Biharmonic(aHbi);
            var d2U := Laplacian(g, Zonal, vis, maths, noSlip, u, g.Zero());
            var dissU := BiharmonicDiss(g, Zonal, vis, maths, noSlip, util, cyclic, u, g.Zero(), g.Zero());
            var dissV := BiharmonicDiss(g, Meridional, vis, maths, noSlip, util, cyclic, v, d2U, dissU);
            Contents(kDissH) == if conserve then g.Add(g.Fit(Zonal.CalcDiss(num, g, dissU)), Meridional.CalcDiss(num, g, dissV))
                                else old(Contents(kDissH))
  {
    var vis := Biharmonic(aHbi);
    var fe, fn, del2, diss := ZonalBiharmonic(g, vis, maths, noSlip, util, cyclic, u, du, kDissH, conserve, num);
    BiharmonicPass(g, Meridional, vis, maths, noSlip, util, cyclic, v, dv, kDissH, fe, fn, del2, diss, conserve, num);
  }

  /** The biharmonic tendency is the harmonic one of the same fluxes with the opposite sign: the
      leading minus. */
  lemma BiharmonicLeadingMinus(g: Grid, c: Component, fe: Field, fn: Field, i: int, j: int, k: int)
    requires g.InGrid(i, j, k)
    ensures At(BiharmonicTendencyField(g, c, fe, fn), i, j, k) == -At(HarmonicTendencyField(g, c, fe, fn), i, j, k)
  {
    if InteriorBox(g).Contains(i, j, k) {
      var t := At(c.Mask(g), i, j, k) * Div(g, c, fe, fn, i, j, k);
      assert At(BiharmonicTendencyField(g, c, fe, fn), i, j, k) == -At(c.Mask(g), i, j, k) * Div(g, c, fe, fn, i, j, k);
      assert At(HarmonicTendencyField(g, c, fe, fn), i, j, k) == t;
    } else {
      assert At(BiharmonicTendencyField(g, c, fe, fn), i, j, k) == 0.0;
      assert At(HarmonicTendencyField(g, c, fe, fn), i, j, k) == 0.0;
    }
  }

  /** Biharmonic friction changes the tendency only on `[2:-2, 2:-2]`. */
  lemma BiharmonicInteriorOnly(g: Grid, c: Component, fe: Field, fn: Field)
    ensures InteriorOnly(g, BiharmonicTendencyField(g, c, fe, fn))
  {
    forall i, j, k | At(BiharmonicTendencyField(g, c, fe, fn), i, j, k) != 0.0
      ensures InteriorBox(g).Contains(i, j, k)
    {
      BiharmonicCellInterior(g, c, fe, fn, i, j, k);
    }
  }

  lemma BiharmonicCellInterior(g: Grid, c: Component, fe: Field, fn: Field, i: int, j: int, k: int)
    ensures At(BiharmonicTendencyField(g, c, fe, fn), i, j, k) != 0.0 ==> InteriorBox(g).Contains(i, j, k)
  {
    if !g.InGrid(i, j, k) {
      assert At(BiharmonicTendencyField(g, c, fe, fn), i, j, k) == 0.0;
    }
  }

  /** With `A_hbi = 0` (and a square root that maps 0 to 0) biharmonic friction leaves `du_mix` /
      `dv_mix` as they were, whatever `del2` held. */
  lemma BiharmonicInviscidLeavesTendency(g: Grid, c: Component, vis: Viscosity, maths: Maths, noSlip: bool, w: Field,
                                         prevDel2: Field, t: Field, i: int, j: int, k: int)
    requires vis.Inviscid(maths) && g.InGrid(i, j, k)
    ensures At(g.Add(t, BiharmonicTendency(g, c, vis, maths, noSlip, w, prevDel2)), i, j, k) == At(t, i, j, k)
  {
    var d := Laplacian(g, c, vis, maths, noSlip, w, prevDel2);
    var fe, fn := EastFluxField(g, c, vis, maths, noSlip, d), NorthFluxField(g, c, vis, maths, noSlip, d);
    InviscidFluxesVanish(g, c, vis, maths, noSlip, d, i, j, k);
    InviscidFluxesVanish(g, c, vis, maths, noSlip, d, i - 1, j, k);
    InviscidFluxesVanish(g, c, vis, maths, noSlip, d, i, j - 1, k);
    ZeroFluxesDiv(g, c, fe, fn, i, j, k);
    assert At(BiharmonicTendencyField(g, c, fe, fn), i, j, k) == 0.0;
  }

  /** Two buffers that agree outside `[1:, 1:]` give the same `del2`. */
  lemma Del2PrevOutside(g: Grid, c: Component, fe: Field, fn: Field, p: Field, q: Field)
    requires forall i, j, k | g.InGrid(i, j, k) && !Del2Box(g).Contains(i, j, k) :: At(p, i, j, k) == At(q, i, j, k)
    ensures Del2Field(g, c, fe, fn, p) == Del2Field(g, c, fe, fn, q)
  {
    var a, b := Del2Field(g, c, fe, fn, p), Del2Field(g, c, fe, fn, q);
    forall i, j, k | 0 <= i < g.nx && 0 <= j < g.ny && 0 <= k < g.nz
      ensures At(a, i, j, k) == At(b, i, j, k)
    {
      Del2Cell(g, c, fe, fn, p, i, j, k);
      Del2Cell(g, c, fe, fn, q, i, j, k);
    }
    FieldExt(a, b, g.nx, g.ny, g.nz);
  }

  /** Cell (i, j, k) of `del2` after a pass. */
  lemma Del2Cell(g: Grid, c: Component, fe: Field, fn: Field, prev: Field, i: int, j: int, k: int)
    requires g.InGrid(i, j, k)
    ensures At(Del2Field(g, c, fe, fn, prev), i, j, k)
         == if Del2Box(g).Contains(i, j, k) then Div(g, c, fe, fn, i, j, k) else At(prev, i, j, k)
  {}

  /** Reusing `del2` is harmless: the zonal pass leaves its cells outside `[1:, 1:]` at 0, so the
      meridional pass computes the `del2`, and the tendency, it would compute on a fresh buffer. */
  lemma Del2ReuseHarmless(g: Grid, vis: Viscosity, maths: Maths, noSlip: bool, u: Field, v: Field)
    ensures var d2U := Laplacian(g, Zonal, vis, maths, noSlip, u, g.Zero());
            && Laplacian(g, Meridional, vis, maths, noSlip, v, d2U) == Laplacian(g, Meridional, vis, maths, noSlip, v, g.Zero())
            && BiharmonicTendency(g, Meridional, vis, maths, noSlip, v, d2U) == BiharmonicTendency(g, Meridional, vis, maths, noSlip, v, g.Zero())
  {
    var feU, fnU := EastFluxField(g, Zonal, vis, maths, noSlip, u), NorthFluxField(g, Zonal, vis, maths, noSlip, u);
    var d2U := Del2Field(g, Zonal, feU, fnU, g.Zero());
    forall i, j, k | g.InGrid(i, j, k) && !Del2Box(g).Contains(i, j, k)
      ensures At(d2U, i, j, k) == At(g.Zero(), i, j, k)
    {
      Del2Cell(g, Zonal, feU, fnU, g.Zero(), i, j, k);
    }
    Del2PrevOutside(g, Meridional, EastFluxField(g, Meridional, vis, maths, noSlip, v),
                    NorthFluxField(g, Meridional, vis, maths, noSlip, v), d2U, g.Zero());
  }
}
