/** The horizontal stencils shared by `harmonic_friction` and `biharmonic_friction` of
    veros/core/friction.py.

    A pass computes the momentum flux through the east face (`flux_east`, face between i and i+1)
    and the north face (`flux_north`, face between j and j+1) of every velocity cell, from a field w
    (the velocity, or its Laplacian `del2` in the second biharmonic stage). A flux is the viscosity
    times the difference of w across the face over the distance, on faces with water on both sides;
    with no-slip walls, the face across which the mask changes (north faces for u, east faces for v)
    gets a flux that drives the water velocity towards zero at the wall. The last east face (i = nx-1)
    and the last north face (j = ny-1) carry no flux. The tendency is the divergence of the fluxes. */
module LateralStencils {
  import opened Fields
  import opened Grids
  import opened Collaborators
  import opened Staggering

  /** The viscosity of a kernel. */
  datatype Viscosity =
    /** `A_h`, scaled by `cos**hor_friction_cosPower` when `enable_hor_friction_cos_scaling` holds. */
    | Harmonic(aH: real, cosScaling: bool, cosPower: real)
    /** `A_hbi`: each of the two stages uses `sqrt(abs(A_hbi))`. */
    | Biharmonic(aHbi: real)
  {
    /** The factor a flux through a face at latitude cosine `cos` carries. */
    function Coef(maths: Maths, cos: Pos): real {
      match this
      case Harmonic(aH, scaling, p) => if scaling then aH * maths.pow(cos, p) else aH
      case Biharmonic(aHbi) => maths.sqrt(Abs(aHbi))
    }

    /** An inviscid kernel: `A_h = 0`, or `A_hbi = 0` with a square root that maps 0 to 0. */
    predicate Inviscid(maths: Maths) {
      match this
      case Harmonic(aH, _, _) => aH == 0.0
      case Biharmonic(aHbi) => aHbi == 0.0 && maths.sqrt(0.0) == 0.0
    }
  }

  /** The coefficient of the east faces of row j: `cost[j]` scaling for u, `cosu[j]` for v. */
  function EastCoef(vis: Viscosity, maths: Maths, g: Grid, c: Component, j: int): real {
    vis.Coef(maths, if c.Zonal? then g.Cost(j) else g.Cosu(j))
  }

  /** The coefficient of the north faces of row j: `cosu[j]` scaling for u, `cost[j+1]` for v. */
  function NorthCoef(vis: Viscosity, maths: Maths, g: Grid, c: Component, j: int): real {
    vis.Coef(maths, if c.Zonal? then g.Cosu(j) else g.Cost(j + 1))
  }

  /** The free-slip flux through the east face of cell (i, j, k). */
  function EastFlux(g: Grid, c: Component, coef: real, w: Field, i: int, j: int, k: int): real {
    var m := c.Mask(g);
    if c.Zonal? then
      coef * (At(w, i + 1, j, k) - At(w, i, j, k)) / Prod(g.Cost(j), g.Dxt(i + 1)) * At(m, i + 1, j, k) * At(m, i, j, k)
    else
      coef * (At(w, i + 1, j, k) - At(w, i, j, k)) / Prod(g.Cosu(j), g.Dxu(i)) * At(m, i + 1, j, k) * At(m, i, j, k)
  }

  /** The free-slip flux through the north face of cell (i, j, k). */
  function NorthFlux(g: Grid, c: Component, coef: real, w: Field, i: int, j: int, k: int): real {
    var m := c.Mask(g);
    if c.Zonal? then
      coef * (At(w, i, j + 1, k) - At(w, i, j, k)) / g.Dyu(j) * At(m, i, j + 1, k) * At(m, i, j, k) * g.Cosu(j)
    else
      coef * (At(w, i, j + 1, k) - At(w, i, j, k)) / g.Dyt(j + 1) * g.Cost(j + 1) * At(m, i, j, k) * At(m, i, j + 1, k)
  }

  /** The no-slip flux added through the north face (u) or the east face (v) of cell (i, j, k): from
      the water side `m1 * (1 - m0)` or `(1 - m1) * m0` of a face whose far cell is land. */
  function NoSlipFlux(g: Grid, c: Component, coef: real, w: Field, i: int, j: int, k: int): real {
    var m := c.Mask(g);
    if c.Zonal? then
      var m1, m0 := At(m, i, j + 1, k), At(m, i, j, k);
      2.0 * coef * At(w, i, j + 1, k) / g.Dyu(j) * m1 * (1.0 - m0) * g.Cosu(j)
        - 2.0 * coef * At(w, i, j, k) / g.Dyu(j) * (1.0 - m1) * m0 * g.Cosu(j)
    else
      var m1, m0 := At(m, i + 1, j, k), At(m, i, j, k);
      2.0 * coef * At(w, i + 1, j, k) / Prod(g.Cosu(j), g.Dxu(i)) * m1 * (1.0 - m0)
        - 2.0 * coef * At(w, i, j, k) / Prod(g.Cosu(j), g.Dxu(i)) * (1.0 - m1) * m0
  }

  /** East face i of row j with the no-slip term added when it applies (v only). */
  function EastFace(g: Grid, c: Component, vis: Viscosity, maths: Maths, noSlip: bool, w: Field, i: int, j: int, k: int): real {
    var coef := EastCoef(vis, maths, g, c, j);
    if noSlip && c.Meridional? then EastFlux(g, c, coef, w, i, j, k) + NoSlipFlux(g, c, coef, w, i, j, k)
    else EastFlux(g, c, coef, w, i, j, k)
  }

  /** North face j of column i with the no-slip term added when it applies (u only). */
  function NorthFace(g: Grid, c: Component, vis: Viscosity, maths: Maths, noSlip: bool, w: Field, i: int, j: int, k: int): real {
    var coef := NorthCoef(vis, maths, g, c, j);
    if noSlip && c.Zonal? then NorthFlux(g, c, coef, w, i, j, k) + NoSlipFlux(g, c, coef, w, i, j, k)
    else NorthFlux(g, c, coef, w, i, j, k)
  }

  /** Cell (i, j, k) of `flux_east` after a stage: the faces `[:-1]`, and 0 on the last face. */
  function EastFluxCell(g: Grid, c: Component, vis: Viscosity, maths: Maths, noSlip: bool, w: Field, i: int, j: int, k: int): real {
    if i < g.nx - 1 then EastFace(g, c, vis, maths, noSlip, w, i, j, k) else 0.0
  }

  /** Cell (i, j, k) of `flux_north` after a stage: the faces `[:, :-1]`, and 0 on the last face. */
  function NorthFluxCell(g: Grid, c: Component, vis: Viscosity, maths: Maths, noSlip: bool, w: Field, i: int, j: int, k: int): real {
    if j < g.ny - 1 then NorthFace(g, c, vis, maths, noSlip, w, i, j, k) else 0.0
  }

  /** `flux_east` after a stage. */
  function EastFluxField(g: Grid, c: Component, vis: Viscosity, maths: Maths, noSlip: bool, w: Field): Field {
    Tabulate(g.nx, g.ny, g.nz, (i, j, k) => EastFluxCell(g, c, vis, maths, noSlip, w, i, j, k))
  }

  /** `flux_north` after a stage. */
  function NorthFluxField(g: Grid, c: Component, vis: Viscosity, maths: Maths, noSlip: bool, w: Field): Field {
    Tabulate(g.nx, g.ny, g.nz, (i, j, k) => NorthFluxCell(g, c, vis, maths, noSlip, w, i, j, k))
  }

  /** `[:-1, :, :]` and `[-1, :, :]`. */
  function EastFaces(g: Grid): Box { Box(0, g.nx - 1, 0, g.ny, 0, g.nz) }
  function LastEastFace(g: Grid): Box { Box(g.nx - 1, g.nx, 0, g.ny, 0, g.nz) }

  /** `[:, :-1, :]` and `[:, -1, :]`. */
  function NorthFaces(g: Grid): Box { Box(0, g.nx, 0, g.ny - 1, 0, g.nz) }
  function LastNorthFace(g: Grid): Box { Box(0, g.nx, g.ny - 1, g.ny, 0, g.nz) }

  /** `flux_east = update(flux_east, at[:-1], ...)`, the no-slip `update_add` for v, and
      `flux_east = update(flux_east, at[-1], 0.)`: the whole buffer is overwritten. */
  method FillEastFlux(g: Grid, c: Component, vis: Viscosity, maths: Maths, noSlip: bool, w: Field, fe: array3<real>)
    requires Fits(fe, g)
    modifies fe
    ensures Contents(fe) == EastFluxField(g, c, vis, maths, noSlip, w)
  {
    label start:
    Update(fe, EastFaces(g), (i, j, k) => EastFlux(g, c, EastCoef(vis, maths, g, c, j), w, i, j, k));
    label free:
    if noSlip && c.Meridional? {
      UpdateAdd(fe, EastFaces(g), (i, j, k) => NoSlipFlux(g, c, EastCoef(vis, maths, g, c, j), w, i, j, k));
    }
    label walls:
    Update(fe, LastEastFace(g), (i, j, k) => 0.0);
    forall i, j, k | 0 <= i < g.nx && 0 <= j < g.ny && 0 <= k < g.nz
      ensures fe[i, j, k] == At(EastFluxField(g, c, vis, maths, noSlip, w), i, j, k)
    {
      EastFromUpdates(g, c, vis, maths, noSlip, w, i, j, k, old@start(fe[i, j, k]), old@free(fe[i, j, k]), old@walls(fe[i, j, k]), fe[i, j, k]);
    }
    ContentsIs(fe, EastFluxField(g, c, vis, maths, noSlip, w));
  }

  /** Cell (i, j, k) of `flux_east` through the three writes of `FillEastFlux`. */
  lemma EastFromUpdates(g: Grid, c: Component, vis: Viscosity, maths: Maths, noSlip: bool, w: Field, i: int, j: int, k: int,
                        v0: real, v1: real, v2: real, v3: real)
    requires 0 <= i < g.nx && 0 <= j < g.ny && 0 <= k < g.nz
    requires v1 == if EastFaces(g).Contains(i, j, k) then EastFlux(g, c, EastCoef(vis, maths, g, c, j), w, i, j, k) else v0
    requires noSlip && c.Meridional? ==> v2 == v1 + if EastFaces(g).Contains(i, j, k) then NoSlipFlux(g, c, EastCoef(vis, maths, g, c, j), w, i, j, k) else 0.0
    requires !(noSlip && c.Meridional?) ==> v2 == v1
    requires v3 == if LastEastFace(g).Contains(i, j, k) then 0.0 else v2
    ensures v3 == At(EastFluxField(g, c, vis, maths, noSlip, w), i, j, k)
  {
    assert At(EastFluxField(g, c, vis, maths, noSlip, w), i, j, k) == EastFluxCell(g, c, vis, maths, noSlip, w, i, j, k);
  }

  /** `flux_north = update(flux_north, at[:, :-1], ...)`, the no-slip `update_add` for u, and
      `flux_north = update(flux_north, at[:, -1], 0.)`: the whole buffer is overwritten. */
  method FillNorthFlux(g: Grid, c: Component, vis: Viscosity, maths: Maths, noSlip: bool, w: Field, fn: array3<real>)
    requires Fits(fn, g)
    modifies fn
    ensures Contents(fn) == NorthFluxField(g, c, vis, maths, noSlip, w)
  {
    label start:
    Update(fn, NorthFaces(g), (i, j, k) => NorthFlux(g, c, NorthCoef(vis, maths, g, c, j), w, i, j, k));
    label free:
    if noSlip && c.Zonal? {
      UpdateAdd(fn, NorthFaces(g), (i, j, k) => NoSlipFlux(g, c, NorthCoef(vis, maths, g, c, j), w, i, j, k));
    }
    label walls:
    Update(fn, LastNorthFace(g), (i, j, k) => 0.0);
    forall i, j, k | 0 <= i < g.nx && 0 <= j < g.ny && 0 <= k < g.nz
      ensures fn[i, j, k] == At(NorthFluxField(g, c, vis, maths, noSlip, w), i, j, k)
    {
      NorthFromUpdates(g, c, vis, maths, noSlip, w, i, j, k, old@start(fn[i, j, k]), old@free(fn[i, j, k]), old@walls(fn[i, j, k]), fn[i, j, k]);
    }
    ContentsIs(fn, NorthFluxField(g, c, vis, maths, noSlip, w));
  }

  /** Cell (i, j, k) of `flux_north` through the three writes of `FillNorthFlux`. */
  lemma NorthFromUpdates(g: Grid, c: Component, vis: Viscosity, maths: Maths, noSlip: bool, w: Field, i: int, j: int, k: int,
                         v0: real, v1: real, v2: real, v3: real)
    requires 0 <= i < g.nx && 0 <= j < g.ny && 0 <= k < g.nz
    requires v1 == if NorthFaces(g).Contains(i, j, k) then NorthFlux(g, c, NorthCoef(vis, maths, g, c, j), w, i, j, k) else v0
    requires noSlip && c.Zonal? ==> v2 == v1 + if NorthFaces(g).Contains(i, j, k) then NoSlipFlux(g, c, NorthCoef(vis, maths, g, c, j), w, i, j, k) else 0.0
    requires !(noSlip && c.Zonal?) ==> v2 == v1
    requires v3 == if LastNorthFace(g).Contains(i, j, k) then 0.0 else v2
    ensures v3 == At(NorthFluxField(g, c, vis, maths, noSlip, w), i, j, k)
  {
    assert At(NorthFluxField(g, c, vis, maths, noSlip, w), i, j, k) == NorthFluxCell(g, c, vis, maths, noSlip, w, i, j, k);
  }

  /** The areas the divergence divides by: `cost[j] * dxu[i]` and `cost[j] * dyt[j]` for u,
      `cosu[j] * dxt[i]` and `dyu[j] * cosu[j]` for v. */
  function XArea(g: Grid, c: Component, i: int, j: int): Pos {
    if c.Zonal? then Prod(g.Cost(j), g.Dxu(i)) else Prod(g.Cosu(j), g.Dxt(i))
  }

  function YArea(g: Grid, c: Component, j: int): Pos {
    if c.Zonal? then Prod(g.Cost(j), g.Dyt(j)) else Prod(g.Dyu(j), g.Cosu(j))
  }

  /** The divergence of the fluxes fe, fn at cell (i, j, k). */
  function Div(g: Grid, c: Component, fe: Field, fn: Field, i: int, j: int, k: int): real {
    (At(fe, i, j, k) - At(fe, i - 1, j, k)) / XArea(g, c, i, j) + (At(fn, i, j, k) - At(fn, i, j - 1, k)) / YArea(g, c, j)
  }

  /** The work the east flux of face (i, j, k) does against the difference of w across it. */
  function EastWork(w: Field, fe: Field, i: int, j: int, k: int): real {
    (At(w, i + 1, j, k) - At(w, i, j, k)) * At(fe, i, j, k)
  }

  /** The work the north flux of face (i, j, k) does against the difference of w across it. */
  function NorthWork(w: Field, fn: Field, i: int, j: int, k: int): real {
    (At(w, i, j + 1, k) - At(w, i, j, k)) * At(fn, i, j, k)
  }

  /** The work the fluxes fe, fn do against the differences of w around cell (i, j, k), averaged
      over the two faces of each direction: the harmonic dissipation. */
  function FaceWork(g: Grid, c: Component, w: Field, fe: Field, fn: Field, i: int, j: int, k: int): real {
    0.5 * (EastWork(w, fe, i, j, k) + EastWork(w, fe, i - 1, j, k)) / XArea(g, c, i, j)
      + 0.5 * (NorthWork(w, fn, i, j, k) + NorthWork(w, fn, i, j - 1, k)) / YArea(g, c, j)
  }

  /** The face work is non-negative when each of its four products is: every flux runs down the
      gradient of w. */
  lemma FaceWorkNonNegative(g: Grid, c: Component, w: Field, fe: Field, fn: Field, i: int, j: int, k: int)
    requires EastWork(w, fe, i, j, k) >= 0.0 && EastWork(w, fe, i - 1, j, k) >= 0.0
    requires NorthWork(w, fn, i, j, k) >= 0.0 && NorthWork(w, fn, i, j - 1, k) >= 0.0
    ensures FaceWork(g, c, w, fe, fn, i, j, k) >= 0.0
  {
    DivNonNegative(0.5 * (EastWork(w, fe, i, j, k) + EastWork(w, fe, i - 1, j, k)), XArea(g, c, i, j));
    DivNonNegative(0.5 * (NorthWork(w, fn, i, j, k) + NorthWork(w, fn, i, j - 1, k)), YArea(g, c, j));
  }

  /** `[2:-2, 2:-2, :]`: the cells whose tendency lateral friction changes. */
  function InteriorBox(g: Grid): Box { Box(2, g.nx - 2, 2, g.ny - 2, 0, g.nz) }

  /** Every non-zero cell of f lies in `[2:-2, 2:-2]`. */
  ghost predicate InteriorOnly(g: Grid, f: Field) {
    forall i, j, k :: At(f, i, j, k) != 0.0 ==> InteriorBox(g).Contains(i, j, k)
  }

  /** Adding an interior-only field changes a tendency only on `[2:-2, 2:-2]`. */
  lemma InteriorOnlyTouchesInterior(g: Grid, f: Field, t: Field, i: int, j: int, k: int)
    requires InteriorOnly(g, f) && g.InGrid(i, j, k) && !InteriorBox(g).Contains(i, j, k)
    ensures At(g.Add(t, f), i, j, k) == At(t, i, j, k)
  {
    assert At(g.Add(t, f), i, j, k) == At(t, i, j, k) + At(f, i, j, k);
  }

  /** The flux fields read their cells in the grid and 0 outside it. */
  lemma FluxFieldsAt(g: Grid, c: Component, vis: Viscosity, maths: Maths, noSlip: bool, w: Field, i: int, j: int, k: int)
    ensures At(EastFluxField(g, c, vis, maths, noSlip, w), i, j, k)
            == if g.InGrid(i, j, k) then EastFluxCell(g, c, vis, maths, noSlip, w, i, j, k) else 0.0
    ensures At(NorthFluxField(g, c, vis, maths, noSlip, w), i, j, k)
            == if g.InGrid(i, j, k) then NorthFluxCell(g, c, vis, maths, noSlip, w, i, j, k) else 0.0
  {
    if !g.InGrid(i, j, k) {
      OutsideShape(EastFluxField(g, c, vis, maths, noSlip, w), g.nx, g.ny, g.nz, i, j, k);
      OutsideShape(NorthFluxField(g, c, vis, maths, noSlip, w), g.nx, g.ny, g.nz, i, j, k);
    }
  }

  /** The last east face and the last north face carry no flux. */
  lemma LastFacesClosed(g: Grid, c: Component, vis: Viscosity, maths: Maths, noSlip: bool, w: Field, i: int, j: int, k: int)
    ensures At(EastFluxField(g, c, vis, maths, noSlip, w), g.nx - 1, j, k) == 0.0
    ensures At(NorthFluxField(g, c, vis, maths, noSlip, w), i, g.ny - 1, k) == 0.0
  {
    FluxFieldsAt(g, c, vis, maths, noSlip, w, g.nx - 1, j, k);
    FluxFieldsAt(g, c, vis, maths, noSlip, w, i, g.ny - 1, k);
  }

  /** With 0/1 masks, the no-slip flux vanishes unless exactly one of the two cells of the face is water. */
  lemma NoSlipOnlyAtWalls(g: Grid, c: Component, coef: real, w: Field, i: int, j: int, k: int)
    requires g.BinaryMasks()
    ensures var m := c.Mask(g);
            var (p, q) := if c.Zonal? then (At(m, i, j + 1, k), At(m, i, j, k)) else (At(m, i + 1, j, k), At(m, i, j, k));
            NoSlipFlux(g, c, coef, w, i, j, k) != 0.0 ==> (p == 1.0) != (q == 1.0)
  {
    if c.Zonal? {
      MaskCellOf(g, c, i, j + 1, k);
    } else {
      MaskCellOf(g, c, i + 1, j, k);
    }
    MaskCellOf(g, c, i, j, k);
  }

  /** An inviscid kernel's coefficients are 0. */
  lemma InviscidCoef(vis: Viscosity, maths: Maths, cos: Pos)
    requires vis.Inviscid(maths)
    ensures vis.Coef(maths, cos) == 0.0
  {
    if vis.Biharmonic? {
      assert Abs(vis.aHbi) == 0.0;
    }
  }

  /** A flux with a zero coefficient is zero. */
  lemma ZeroCoefFluxes(g: Grid, c: Component, w: Field, i: int, j: int, k: int)
    ensures EastFlux(g, c, 0.0, w, i, j, k) == 0.0
    ensures NorthFlux(g, c, 0.0, w, i, j, k) == 0.0
    ensures NoSlipFlux(g, c, 0.0, w, i, j, k) == 0.0
  {}

  /** An inviscid kernel computes no flux through any face. */
  lemma InviscidFluxesVanish(g: Grid, c: Component, vis: Viscosity, maths: Maths, noSlip: bool, w: Field, i: int, j: int, k: int)
    requires vis.Inviscid(maths)
    ensures At(EastFluxField(g, c, vis, maths, noSlip, w), i, j, k) == 0.0
    ensures At(NorthFluxField(g, c, vis, maths, noSlip, w), i, j, k) == 0.0
  {
    FluxFieldsAt(g, c, vis, maths, noSlip, w, i, j, k);
    InviscidCellsVanish(g, c, vis, maths, noSlip, w, i, j, k);
  }

  /** Both faces of cell (i, j, k) of an inviscid kernel carry no flux. */
  lemma InviscidCellsVanish(g: Grid, c: Component, vis: Viscosity, maths: Maths, noSlip: bool, w: Field, i: int, j: int, k: int)
    requires vis.Inviscid(maths)
    ensures EastFluxCell(g, c, vis, maths, noSlip, w, i, j, k) == 0.0
    ensures NorthFluxCell(g, c, vis, maths, noSlip, w, i, j, k) == 0.0
  {
    InviscidCoef(vis, maths, if c.Zonal? then g.Cost(j) else g.Cosu(j));
    InviscidCoef(vis, maths, if c.Zonal? then g.Cosu(j) else g.Cost(j + 1));
    assert EastCoef(vis, maths, g, c, j) == 0.0 && NorthCoef(vis, maths, g, c, j) == 0.0;
    ZeroCoefFluxes(g, c, w, i, j, k);
  }

  /** With zero fluxes the divergence is zero. */
  lemma ZeroFluxesDiv(g: Grid, c: Component, fe: Field, fn: Field, i: int, j: int, k: int)
    requires At(fe, i, j, k) == 0.0 && At(fe, i - 1, j, k) == 0.0 && At(fn, i, j, k) == 0.0 && At(fn, i, j - 1, k) == 0.0
    ensures Div(g, c, fe, fn, i, j, k) == 0.0
  {}

  /** d * flux >= 0 for a free-slip flux with a non-negative coefficient, 0/1 masks and positive metrics:
      the flux runs down the gradient of w. */
  lemma DownGradient(coef: real, d: real, z: Pos, s: Pos, m1: real, m0: real)
    requires coef >= 0.0 && (m1 == 0.0 || m1 == 1.0) && (m0 == 0.0 || m0 == 1.0)
    ensures d * (coef * d / z * m1 * m0) >= 0.0
    ensures d * (coef * d / z * m1 * m0 * s) >= 0.0
    ensures d * (coef * d / z * s * m1 * m0) >= 0.0
  {
    if m1 == 1.0 && m0 == 1.0 {
      MulNonNeg(coef, d * d);
      DivNonNegative(coef * (d * d), z);
      MulNonNeg(coef * (d * d) / z, s);
      assert d * (coef * d / z) == coef * (d * d) / z;
    }
  }

  /** A harmonic coefficient with `A_h >= 0` is non-negative. */
  lemma HarmonicCoefNonNegative(vis: Viscosity, maths: Maths, cos: Pos)
    requires vis.Harmonic? && vis.aH >= 0.0
    ensures vis.Coef(maths, cos) >= 0.0
  {
    if vis.cosScaling {
      MulNonNeg(vis.aH, maths.pow(cos, vis.cosPower));
    }
  }

  /** A free-slip east flux runs down the gradient. */
  lemma EastFluxDownGradient(g: Grid, c: Component, coef: real, w: Field, i: int, j: int, k: int)
    requires g.BinaryMasks() && coef >= 0.0
    ensures (At(w, i + 1, j, k) - At(w, i, j, k)) * EastFlux(g, c, coef, w, i, j, k) >= 0.0
  {
    MaskCellOf(g, c, i + 1, j, k);
    MaskCellOf(g, c, i, j, k);
    var m := c.Mask(g);
    var d := At(w, i + 1, j, k) - At(w, i, j, k);
    if c.Zonal? {
      DownGradient(coef, d, Prod(g.Cost(j), g.Dxt(i + 1)), 1.0, At(m, i + 1, j, k), At(m, i, j, k));
    } else {
      DownGradient(coef, d, Prod(g.Cosu(j), g.Dxu(i)), 1.0, At(m, i + 1, j, k), At(m, i, j, k));
    }
  }

  /** A free-slip north flux runs down the gradient. */
  lemma NorthFluxDownGradient(g: Grid, c: Component, coef: real, w: Field, i: int, j: int, k: int)
    requires g.BinaryMasks() && coef >= 0.0
    ensures (At(w, i, j + 1, k) - At(w, i, j, k)) * NorthFlux(g, c, coef, w, i, j, k) >= 0.0
  {
    MaskCellOf(g, c, i, j + 1, k);
    MaskCellOf(g, c, i, j, k);
    var m := c.Mask(g);
    var d := At(w, i, j + 1, k) - At(w, i, j, k);
    if c.Zonal? {
      DownGradient(coef, d, g.Dyu(j), g.Cosu(j), At(m, i, j + 1, k), At(m, i, j, k));
    } else {
      DownGradient(coef, d, g.Dyt(j + 1), g.Cost(j + 1), At(m, i, j, k), At(m, i, j + 1, k));
    }
  }
}
