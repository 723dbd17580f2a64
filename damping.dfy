/** `rayleigh_friction` and `momentum_sources` of veros/core/friction.py: a term computed cell by cell
    from the velocity at `tau` is added to every cell of `du_mix` / `dv_mix`, and, when energy
    conservation is enabled, the energy it removes is moved onto T-points by `calc_diss_u` /
    `calc_diss_v` and added to `K_diss_bot`. Each kernel runs the zonal pass, then the meridional one. */
module Damping {
  import opened Fields
  import opened Grids
  import opened Collaborators
  import opened Staggering

  /** `K_diss_bot` after a pass that hands the dissipation `gain` to it when `enable_conserve_energy` holds. */
  function Dissipated(g: Grid, conserve: bool, k0: Field, gain: Field): Field {
    if conserve then g.Add(k0, gain) else k0
  }

  /** `K_diss_bot = update_add(K_diss_bot, at[...], calc_diss(diss))` when `enable_conserve_energy` holds. */
  method DiagnoseIf(g: Grid, c: Component, conserve: bool, diss: Field, kDissBot: array3<real>, num: Numerics)
    requires Fits(kDissBot, g)
    modifies kDissBot
    ensures Contents(kDissBot) == Dissipated(g, conserve, old(Contents(kDissBot)), c.CalcDiss(num, g, diss))
  {
    if conserve {
      AddField(g, kDissBot, c.CalcDiss(num, g, diss));
    }
  }

  // Rayleigh damping.

  /** Cell (i, j, k) of `-maskU * r_ray * u[..., tau]` (or the v analogue). */
  function RayleighTerm(g: Grid, c: Component, rRay: real, w: Field, i: int, j: int, k: int): real {
    -At(c.Mask(g), i, j, k) * rRay * At(w, i, j, k)
  }

  function RayleighField(g: Grid, c: Component, rRay: real, w: Field): Field {
    Tabulate(g.nx, g.ny, g.nz, (i, j, k) => RayleighTerm(g, c, rRay, w, i, j, k))
  }

  /** `diss = maskU * r_ray * u[..., tau]**2` (or the v analogue). */
  function RayleighDiss(g: Grid, c: Component, rRay: real, w: Field): Field {
    Tabulate(g.nx, g.ny, g.nz, (i, j, k) => At(c.Mask(g), i, j, k) * rRay * Sq(At(w, i, j, k)))
  }

  /** One pass of `rayleigh_friction`: lines 152-155 for u, 156-160 for v. */
  method RayleighPass(g: Grid, c: Component, rRay: real, w: Field, tend: array3<real>, kDissBot: array3<real>,
                      conserve: bool, num: Numerics)
    requires Fits(tend, g) && Fits(kDissBot, g) && tend != kDissBot
    modifies tend, kDissBot
    ensures Contents(tend) == g.Add(old(Contents(tend)), RayleighField(g, c, rRay, w))
    ensures Contents(kDissBot) == Dissipated(g, conserve, old(Contents(kDissBot)), c.CalcDiss(num, g, RayleighDiss(g, c, rRay, w)))
  {
    AddField(g, tend, RayleighField(g, c, rRay, w));
    DiagnoseIf(g, c, conserve, RayleighDiss(g, c, rRay, w), kDissBot, num);
  }

  /** `rayleigh_friction`. */
  method RayleighFriction(g: Grid, rRay: real, u: Field, v: Field, du: array3<real>, dv: array3<real>,
                          kDissBot: array3<real>, conserve: bool, num: Numerics)
    requires Fits(du, g) && Fits(dv, g) && Fits(kDissBot, g) && du != dv && du != kDissBot && dv != kDissBot
    modifies du, dv, kDissBot
    ensures Contents(du) == g.Add(old(Contents(du)), RayleighField(g, Zonal, rRay, u))
    ensures Contents(dv) == g.Add(old(Contents(dv)), RayleighField(g, Meridional, rRay, v))
    ensures Contents(kDissBot) ==
      Dissipated(g, conserve,
                 Dissipated(g, conserve, old(Contents(kDissBot)), Zonal.CalcDiss(num, g, RayleighDiss(g, Zonal, rRay, u))),
                 Meridional.CalcDiss(num, g, RayleighDiss(g, Meridional, rRay, v)))
    ensures !conserve ==> Contents(kDissBot) == old(Contents(kDissBot))
  {
    RayleighPass(g, Zonal, rRay, u, du, kDissBot, conserve, num);
    RayleighPass(g, Meridional, rRay, v, dv, kDissBot, conserve, num);
  }

  /** The dissipation Rayleigh damping diagnoses is the work its tendency does against the flow:
      `diss = -(du_mix increment) * u`, cell by cell. */
  lemma RayleighDissIsWork(g: Grid, c: Component, rRay: real, w: Field, i: int, j: int, k: int)
    requires g.InGrid(i, j, k)
    ensures At(RayleighDiss(g, c, rRay, w), i, j, k) == -At(RayleighField(g, c, rRay, w), i, j, k) * At(w, i, j, k)
  {
    var m, x := At(c.Mask(g), i, j, k), At(w, i, j, k);
    assert m * rRay * (x * x) == -(-m * rRay * x) * x;
  }

  /** With a non-negative damping rate and 0/1 masks, the diagnosed dissipation is nowhere negative,
      so the damping never accelerates the flow. */
  lemma RayleighDissNonNegative(g: Grid, c: Component, rRay: real, w: Field, i: int, j: int, k: int)
    requires g.BinaryMasks() && rRay >= 0.0
    ensures At(RayleighDiss(g, c, rRay, w), i, j, k) >= 0.0
    ensures At(RayleighField(g, c, rRay, w), i, j, k) * At(w, i, j, k) <= 0.0
  {
    if g.InGrid(i, j, k) {
      MaskCellOf(g, c, i, j, k);
      var x := At(w, i, j, k);
      MulNonNeg(rRay, Sq(x));
      assert At(c.Mask(g), i, j, k) * rRay * Sq(x) >= 0.0;
      RayleighDissIsWork(g, c, rRay, w, i, j, k);
    }
  }

  // External momentum sources.

  /** Cell (i, j, k) of `maskU * u_source` (or the v analogue). */
  function SourceField(g: Grid, c: Component, src: Field): Field {
    Tabulate(g.nx, g.ny, g.nz, (i, j, k) => At(c.Mask(g), i, j, k) * At(src, i, j, k))
  }

  /** `diss = -maskU * u[..., tau] * u_source` (or the v analogue). */
  function SourceDiss(g: Grid, c: Component, w: Field, src: Field): Field {
    Tabulate(g.nx, g.ny, g.nz, (i, j, k) => -At(c.Mask(g), i, j, k) * At(w, i, j, k) * At(src, i, j, k))
  }

  /** One pass of `momentum_sources`: lines 520-523 for u, 524-527 for v. */
  method SourcePass(g: Grid, c: Component, w: Field, src: Field, tend: array3<real>, kDissBot: array3<real>,
                    conserve: bool, num: Numerics)
    requires Fits(tend, g) && Fits(kDissBot, g) && tend != kDissBot
    modifies tend, kDissBot
    ensures Contents(tend) == g.Add(old(Contents(tend)), SourceField(g, c, src))
    ensures Contents(kDissBot) == Dissipated(g, conserve, old(Contents(kDissBot)), c.CalcDiss(num, g, SourceDiss(g, c, w, src)))
  {
    AddField(g, tend, SourceField(g, c, src));
    DiagnoseIf(g, c, conserve, SourceDiss(g, c, w, src), kDissBot, num);
  }

  /** `momentum_sources`. */
  method MomentumSources(g: Grid, u: Field, v: Field, uSource: Field, vSource: Field,
                         du: array3<real>, dv: array3<real>, kDissBot: array3<real>, conserve: bool, num: Numerics)
    requires Fits(du, g) && Fits(dv, g) && Fits(kDissBot, g) && du != dv && du != kDissBot && dv != kDissBot
    modifies du, dv, kDissBot
    ensures Contents(du) == g.Add(old(Contents(du)), SourceField(g, Zonal, uSource))
    ensures Contents(dv) == g.Add(old(Contents(dv)), SourceField(g, Meridional, vSource))
    ensures Contents(kDissBot) ==
      Dissipated(g, conserve,
                 Dissipated(g, conserve, old(Contents(kDissBot)), Zonal.CalcDiss(num, g, SourceDiss(g, Zonal, u, uSource))),
                 Meridional.CalcDiss(num, g, SourceDiss(g, Meridional, v, vSource)))
    ensures !conserve ==> Contents(kDissBot) == old(Contents(kDissBot))
  {
    SourcePass(g, Zonal, u, uSource, du, kDissBot, conserve, num);
    SourcePass(g, Meridional, v, vSource, dv, kDissBot, conserve, num);
  }

  /** The dissipation of a momentum source is minus the work its tendency does on the flow. */
  lemma SourceDissIsWork(g: Grid, c: Component, w: Field, src: Field, i: int, j: int, k: int)
    requires g.InGrid(i, j, k)
    ensures At(SourceDiss(g, c, w, src), i, j, k) == -At(SourceField(g, c, src), i, j, k) * At(w, i, j, k)
  {
    var m, x, s := At(c.Mask(g), i, j, k), At(w, i, j, k), At(src, i, j, k);
    assert -m * x * s == -(m * s) * x;
  }

  /** On land (mask 0) a source changes nothing; on water (mask 1) it adds the source itself. */
  lemma SourceOnWaterOnly(g: Grid, c: Component, src: Field, i: int, j: int, k: int)
    requires g.BinaryMasks() && g.InGrid(i, j, k)
    ensures At(SourceField(g, c, src), i, j, k) == if At(c.Mask(g), i, j, k) == 1.0 then At(src, i, j, k) else 0.0
  {
    MaskCellOf(g, c, i, j, k);
  }
}
