/** `linear_bottom_friction` and `quadratic_bottom_friction` of veros/core/friction.py.

    Bottom drag acts on one level of each velocity column: the deepest water level of the two tracer
    columns the velocity point lies between, `max(kbot pair) - 1` (kbot counts levels from 1 and is 0
    on land). The zonal pass works on the cells `[1:-2, 2:-2]` of `du_mix`, the meridional pass on
    `[2:-2, 1:-2]` of `dv_mix`; with energy conservation enabled each pass fills a fresh `diss` buffer
    on the same cells and adds its T-point average to `K_diss_bot`. */
module BottomFriction {
  import opened Fields
  import opened Grids
  import opened Collaborators
  import opened Staggering
  import opened Damping

  /** `k`: the level drag acts on in velocity column (i, j); -1 where both tracer columns are land. */
  function DragLevel(g: Grid, c: Component, i: int, j: int): int {
    PairBottom(g, c, i, j) - 1
  }

  /** A boolean array used as a factor, as in `... * mask` with `mask = np.arange(nz) == k`. */
  function Indicator(b: bool): real {
    if b then 1.0 else 0.0
  }

  /** Every non-zero cell of f lies in `VelocityInterior`, on the drag level of its column. */
  ghost predicate BottomOnly(g: Grid, c: Component, f: Field) {
    forall i, j, k :: At(f, i, j, k) != 0.0 ==> VelocityInterior(g, c).Contains(i, j, k) && k == DragLevel(g, c, i, j)
  }

  /** Adding a drag field that is bottom-only changes a tendency only in `VelocityInterior`, on the drag level. */
  lemma BottomOnlyTouchesDragLevel(g: Grid, c: Component, f: Field, t: Field, i: int, j: int, k: int)
    requires BottomOnly(g, c, f) && g.InGrid(i, j, k)
    ensures At(g.Add(t, f), i, j, k) != At(t, i, j, k) ==> VelocityInterior(g, c).Contains(i, j, k) && k == DragLevel(g, c, i, j)
  {
    assert At(g.Add(t, f), i, j, k) == At(t, i, j, k) + At(f, i, j, k);
  }

  /** A velocity column between two land columns (both `kbot` 0) gets no drag at any level. */
  lemma DryPairUntouched(g: Grid, c: Component, f: Field, t: Field, i: int, j: int, k: int)
    requires BottomOnly(g, c, f) && g.InGrid(i, j, k)
    requires g.Kbot(i, j) == 0 && g.Kbot(i + c.Di(), j + c.Dj()) == 0
    ensures At(g.Add(t, f), i, j, k) == At(t, i, j, k)
  {
    BottomOnlyTouchesDragLevel(g, c, f, t, i, j, k);
  }

  // Linear bottom drag.

  /** The drag coefficients: `r_bot`, or `r_bot_var_u` / `r_bot_var_v` when `enable_bottom_friction_var` holds. */
  datatype LinearDrag = LinearDrag(varying: bool, rBot: real, rBotVarU: Field2, rBotVarV: Field2) {
    /** `r_bot_var_u[i, j]` for u, `r_bot_var_v[i, j]` for v. */
    function VarCoef(c: Component, i: int, j: int): real {
      if c.Zonal? then At2(rBotVarU, i, j) else At2(rBotVarV, i, j)
    }

    /** The coefficient the selected branch uses in column (i, j). */
    function Coefficient(c: Component, i: int, j: int): real {
      if varying then VarCoef(c, i, j) else rBot
    }
  }

  /** Cell (i, j, k) of the linear drag added to `du_mix` / `dv_mix`: `-(maskU * r_bot_var_u) * u * mask`
      in the varying branch, `-maskU * r_bot * u * mask` in the constant one, on the box; 0 elsewhere. */
  function LinearDragCell(g: Grid, c: Component, drag: LinearDrag, w: Field, i: int, j: int, k: int): real {
    var m := At(c.Mask(g), i, j, k);
    var onLevel := Indicator(k == DragLevel(g, c, i, j));
    if !VelocityInterior(g, c).Contains(i, j, k) then 0.0
    else if drag.varying then -(m * drag.VarCoef(c, i, j)) * At(w, i, j, k) * onLevel
    else -m * drag.rBot * At(w, i, j, k) * onLevel
  }

  /** Cell (i, j, k) of `diss`: `maskU * r * u**2 * mask` on the box; 0 elsewhere. */
  function LinearDissCell(g: Grid, c: Component, drag: LinearDrag, w: Field, i: int, j: int, k: int): real {
    var m := At(c.Mask(g), i, j, k);
    var onLevel := Indicator(k == DragLevel(g, c, i, j));
    if !VelocityInterior(g, c).Contains(i, j, k) then 0.0
    else if drag.varying then m * drag.VarCoef(c, i, j) * Sq(At(w, i, j, k)) * onLevel
    else m * drag.rBot * Sq(At(w, i, j, k)) * onLevel
  }

  /** What a pass adds to `du_mix` / `dv_mix`. */
  function LinearDragField(g: Grid, c: Component, drag: LinearDrag, w: Field): Field {
    Tabulate(g.nx, g.ny, g.nz, (i, j, k) => LinearDragCell(g, c, drag, w, i, j, k))
  }

  /** The `diss` buffer of a pass. */
  function LinearDissField(g: Grid, c: Component, drag: LinearDrag, w: Field): Field {
    Tabulate(g.nx, g.ny, g.nz, (i, j, k) => LinearDissCell(g, c, drag, w, i, j, k))
  }

  /** Every cell of the two fields of a pass, inside the grid and outside it, is the corresponding cell
      function: outside the grid both are 0. */
  lemma LinearFieldsAt(g: Grid, c: Component, drag: LinearDrag, w: Field, i: int, j: int, k: int)
    ensures At(LinearDragField(g, c, drag, w), i, j, k) == LinearDragCell(g, c, drag, w, i, j, k)
    ensures At(LinearDissField(g, c, drag, w), i, j, k) == LinearDissCell(g, c, drag, w, i, j, k)
  {
    if !g.InGrid(i, j, k) {
      OutsideShape(LinearDragField(g, c, drag, w), g.nx, g.ny, g.nz, i, j, k);
      OutsideShape(LinearDissField(g, c, drag, w), g.nx, g.ny, g.nz, i, j, k);
    }
  }

  /** One pass of `linear_bottom_friction` (lines 180-188 and 203-209 for u, 190-198 and 211-217 for v). */
  method LinearDragPass(g: Grid, c: Component, drag: LinearDrag, w: Field, tend: array3<real>,
                        kDissBot: array3<real>, conserve: bool, num: Numerics)
    requires Fits(tend, g) && Fits(kDissBot, g) && tend != kDissBot
    modifies tend, kDissBot
    ensures Contents(tend) == g.Add(old(Contents(tend)), LinearDragField(g, c, drag, w))
    ensures Contents(kDissBot) == Dissipated(g, conserve, old(Contents(kDissBot)), c.CalcDiss(num, g, LinearDissField(g, c, drag, w)))
  {
    forall i, j, k | g.InGrid(i, j, k)
      ensures At(LinearDragField(g, c, drag, w), i, j, k) == LinearDragCell(g, c, drag, w, i, j, k)
      ensures At(LinearDissField(g, c, drag, w), i, j, k) == LinearDissCell(g, c, drag, w, i, j, k)
    {
      LinearFieldsAt(g, c, drag, w, i, j, k);
    }
    AddOnBox(g, tend, VelocityInterior(g, c), (i, j, k) => LinearDragCell(g, c, drag, w, i, j, k), LinearDragField(g, c, drag, w));
    if conserve {
      var diss := ZerosWithBox(g, VelocityInterior(g, c), (i, j, k) => LinearDissCell(g, c, drag, w, i, j, k), LinearDissField(g, c, drag, w));
      AddField(g, kDissBot, c.CalcDiss(num, g, diss));
    }
  }

  /** `linear_bottom_friction`: the zonal pass, then the meridional one, in either branch. */
  method LinearBottomFriction(g: Grid, drag: LinearDrag, u: Field, v: Field, du: array3<real>, dv: array3<real>,
                              kDissBot: array3<real>, conserve: bool, num: Numerics)
    requires Fits(du, g) && Fits(dv, g) && Fits(kDissBot, g) && du != dv && du != kDissBot && dv != kDissBot
    modifies du, dv, kDissBot
    ensures Contents(du) == g.Add(old(Contents(du)), LinearDragField(g, Zonal, drag, u))
    ensures Contents(dv) == g.Add(old(Contents(dv)), LinearDragField(g, Meridional, drag, v))
    ensures Contents(kDissBot) ==
      Dissipated(g, conserve,
                 Dissipated(g, conserve, old(Contents(kDissBot)), Zonal.CalcDiss(num, g, LinearDissField(g, Zonal, drag, u))),
                 Meridional.CalcDiss(num, g, LinearDissField(g, Meridional, drag, v)))
    ensures !conserve ==> Contents(kDissBot) == old(Contents(kDissBot))
  {
    LinearDragPass(g, Zonal, drag, u, du, kDissBot, conserve, num);
    LinearDragPass(g, Meridional, drag, v, dv, kDissBot, conserve, num);
  }

  /** Both branches add `-(mask * r) * u` at the drag level of the box and nothing elsewhere, with r
      the branch's coefficient; `diss` is `mask * r * u**2` there. */
  lemma LinearDragCellIs(g: Grid, c: Component, drag: LinearDrag, w: Field, i: int, j: int, k: int)
    ensures LinearDragCell(g, c, drag, w, i, j, k)
         == if VelocityInterior(g, c).Contains(i, j, k) && k == DragLevel(g, c, i, j)
            then -(At(c.Mask(g), i, j, k) * drag.Coefficient(c, i, j)) * At(w, i, j, k) else 0.0
    ensures LinearDissCell(g, c, drag, w, i, j, k)
         == if VelocityInterior(g, c).Contains(i, j, k) && k == DragLevel(g, c, i, j)
            then At(c.Mask(g), i, j, k) * drag.Coefficient(c, i, j) * Sq(At(w, i, j, k)) else 0.0
  {
    var m, r, x := At(c.Mask(g), i, j, k), drag.Coefficient(c, i, j), At(w, i, j, k);
    assert -m * r * x == -(m * r) * x;
  }

  /** Linear drag and its dissipation are bottom-only, in both branches. */
  lemma LinearDragBottomOnly(g: Grid, c: Component, drag: LinearDrag, w: Field)
    ensures BottomOnly(g, c, LinearDragField(g, c, drag, w))
    ensures BottomOnly(g, c, LinearDissField(g, c, drag, w))
  {
    forall i, j, k
      ensures At(LinearDragField(g, c, drag, w), i, j, k) != 0.0 ==> VelocityInterior(g, c).Contains(i, j, k) && k == DragLevel(g, c, i, j)
      ensures At(LinearDissField(g, c, drag, w), i, j, k) != 0.0 ==> VelocityInterior(g, c).Contains(i, j, k) && k == DragLevel(g, c, i, j)
    {
      LinearFieldsAt(g, c, drag, w, i, j, k);
      LinearDragCellIs(g, c, drag, w, i, j, k);
    }
  }

  /** The dissipation linear drag diagnoses in a cell is the work its tendency does there against the flow. */
  lemma LinearDissIsWork(g: Grid, c: Component, drag: LinearDrag, w: Field, i: int, j: int, k: int)
    ensures LinearDissCell(g, c, drag, w, i, j, k) == -LinearDragCell(g, c, drag, w, i, j, k) * At(w, i, j, k)
  {
    LinearDragCellIs(g, c, drag, w, i, j, k);
    if VelocityInterior(g, c).Contains(i, j, k) && k == DragLevel(g, c, i, j) {
      var m, r, x := At(c.Mask(g), i, j, k), drag.Coefficient(c, i, j), At(w, i, j, k);
      assert m * r * (x * x) == -(-(m * r) * x) * x;
    }
  }

  /** With a non-negative coefficient and 0/1 masks, linear drag dissipates: its `diss` is nowhere
      negative and its tendency never has the sign of the velocity. */
  lemma LinearDragDissipates(g: Grid, c: Component, drag: LinearDrag, w: Field, i: int, j: int, k: int)
    requires g.BinaryMasks() && drag.Coefficient(c, i, j) >= 0.0
    ensures LinearDissCell(g, c, drag, w, i, j, k) >= 0.0
    ensures LinearDragCell(g, c, drag, w, i, j, k) * At(w, i, j, k) <= 0.0
  {
    LinearDissIsWork(g, c, drag, w, i, j, k);
    LinearDragCellIs(g, c, drag, w, i, j, k);
    if VelocityInterior(g, c).Contains(i, j, k) && k == DragLevel(g, c, i, j) {
      MaskCellOf(g, c, i, j, k);
      MulNonNeg(drag.Coefficient(c, i, j), Sq(At(w, i, j, k)));
    }
  }

  /** A spatially varying coefficient equal to `r_bot` everywhere gives the drag of the constant branch. */
  lemma LinearBranchesAgree(g: Grid, c: Component, rBot: real, rBotVarU: Field2, rBotVarV: Field2, w: Field)
    requires forall i, j | 0 <= i < g.nx && 0 <= j < g.ny :: LinearDrag(true, rBot, rBotVarU, rBotVarV).VarCoef(c, i, j) == rBot
    ensures LinearDragField(g, c, LinearDrag(true, rBot, rBotVarU, rBotVarV), w)
         == LinearDragField(g, c, LinearDrag(false, rBot, rBotVarU, rBotVarV), w)
  {
    var varying, constant := LinearDrag(true, rBot, rBotVarU, rBotVarV), LinearDrag(false, rBot, rBotVarU, rBotVarV);
    forall i, j, k | g.InGrid(i, j, k)
      ensures At(LinearDragField(g, c, varying, w), i, j, k) == At(LinearDragField(g, c, constant, w), i, j, k)
    {
      LinearFieldsAt(g, c, varying, w, i, j, k);
      LinearFieldsAt(g, c, constant, w, i, j, k);
      LinearDragCellIs(g, c, varying, w, i, j, k);
      LinearDragCellIs(g, c, constant, w, i, j, k);
    }
    FieldExt(LinearDragField(g, c, varying, w), LinearDragField(g, c, constant, w), g.nx, g.ny, g.nz);
  }

  // Quadratic bottom drag.

  /** `fxa` before the square root: the masked squares of the other velocity component at the four
      points around velocity point (i, j, k); for u the V-points (i, j), (i, j-1), (i+1, j), (i+1, j-1),
      for v the U-points (i, j), (i-1, j), (i, j+1), (i-1, j+1). */
  function CrossSquares(g: Grid, c: Component, wx: Field, i: int, j: int, k: int): real {
    var m := c.Across().Mask(g);
    if c.Zonal? then
      At(m, i, j, k) * Sq(At(wx, i, j, k)) + At(m, i, j - 1, k) * Sq(At(wx, i, j - 1, k))
        + At(m, i + 1, j, k) * Sq(At(wx, i + 1, j, k)) + At(m, i + 1, j - 1, k) * Sq(At(wx, i + 1, j - 1, k))
    else
      At(m, i, j, k) * Sq(At(wx, i, j, k)) + At(m, i - 1, j, k) * Sq(At(wx, i - 1, j, k))
        + At(m, i, j + 1, k) * Sq(At(wx, i, j + 1, k)) + At(m, i - 1, j + 1, k) * Sq(At(wx, i - 1, j + 1, k))
  }

  /** `fxa = sqrt(u**2 + 0.25 * fxa)`: the speed at velocity point (i, j, k). */
  function Speed(g: Grid, c: Component, maths: Maths, w: Field, wx: Field, i: int, j: int, k: int): NonNeg {
    maths.sqrt(Sq(At(w, i, j, k)) + 0.25 * CrossSquares(g, c, wx, i, j, k))
  }

  /** Cell (i, j, k) of `aloc = maskU * r_quad_bot * u * fxa / dzt * mask`. */
  function Aloc(g: Grid, c: Component, maths: Maths, rQuad: real, w: Field, wx: Field, i: int, j: int, k: int): real {
    At(c.Mask(g), i, j, k) * rQuad * At(w, i, j, k) * Speed(g, c, maths, w, wx, i, j, k) / g.Dzt(k)
      * Indicator(k == DragLevel(g, c, i, j))
  }

  /** Cell (i, j, k) of what a pass adds to `du_mix` / `dv_mix`: `-aloc` on the box, 0 elsewhere. */
  function QuadraticDragCell(g: Grid, c: Component, maths: Maths, rQuad: real, w: Field, wx: Field, i: int, j: int, k: int): real {
    if VelocityInterior(g, c).Contains(i, j, k) then -Aloc(g, c, maths, rQuad, w, wx, i, j, k) else 0.0
  }

  /** Cell (i, j, k) of the `diss` buffer of a pass: `aloc * u` on the box, 0 elsewhere. */
  function QuadraticDissCell(g: Grid, c: Component, maths: Maths, rQuad: real, w: Field, wx: Field, i: int, j: int, k: int): real {
    if VelocityInterior(g, c).Contains(i, j, k) then Aloc(g, c, maths, rQuad, w, wx, i, j, k) * At(w, i, j, k) else 0.0
  }

  /** What a pass adds to `du_mix` / `dv_mix`. */
  function QuadraticDragField(g: Grid, c: Component, maths: Maths, rQuad: real, w: Field, wx: Field): Field {
    Tabulate(g.nx, g.ny, g.nz, (i, j, k) => QuadraticDragCell(g, c, maths, rQuad, w, wx, i, j, k))
  }

  /** The `diss` buffer of a pass. */
  function QuadraticDissField(g: Grid, c: Component, maths: Maths, rQuad: real, w: Field, wx: Field): Field {
    Tabulate(g.nx, g.ny, g.nz, (i, j, k) => QuadraticDissCell(g, c, maths, rQuad, w, wx, i, j, k))
  }

  /** Every cell of the two fields of a pass, inside the grid and outside it, is the corresponding cell
      function: outside the grid both are 0. */
  lemma QuadraticFieldsAt(g: Grid, c: Component, maths: Maths, rQuad: real, w: Field, wx: Field, i: int, j: int, k: int)
    ensures At(QuadraticDragField(g, c, maths, rQuad, w, wx), i, j, k) == QuadraticDragCell(g, c, maths, rQuad, w, wx, i, j, k)
    ensures At(QuadraticDissField(g, c, maths, rQuad, w, wx), i, j, k) == QuadraticDissCell(g, c, maths, rQuad, w, wx, i, j, k)
  {
    if !g.InGrid(i, j, k) {
      OutsideShape(QuadraticDragField(g, c, maths, rQuad, w, wx), g.nx, g.ny, g.nz, i, j, k);
      OutsideShape(QuadraticDissField(g, c, maths, rQuad, w, wx), g.nx, g.ny, g.nz, i, j, k);
    }
  }

  /** One pass of `quadratic_bottom_friction` (lines 231-245 for u, 247-261 for v); w is the component
      the pass works on, wx the other one. */
  method QuadraticDragPass(g: Grid, c: Component, maths: Maths, rQuad: real, w: Field, wx: Field, tend: array3<real>,
                           kDissBot: array3<real>, conserve: bool, num: Numerics)
    requires Fits(tend, g) && Fits(kDissBot, g) && tend != kDissBot
    modifies tend, kDissBot
    ensures Contents(tend) == g.Add(old(Contents(tend)), QuadraticDragField(g, c, maths, rQuad, w, wx))
    ensures Contents(kDissBot) == Dissipated(g, conserve, old(Contents(kDissBot)), c.CalcDiss(num, g, QuadraticDissField(g, c, maths, rQuad, w, wx)))
  {
    forall i, j, k | g.InGrid(i, j, k)
      ensures At(QuadraticDragField(g, c, maths, rQuad, w, wx), i, j, k) == QuadraticDragCell(g, c, maths, rQuad, w, wx, i, j, k)
      ensures At(QuadraticDissField(g, c, maths, rQuad, w, wx), i, j, k) == QuadraticDissCell(g, c, maths, rQuad, w, wx, i, j, k)
    {
      QuadraticFieldsAt(g, c, maths, rQuad, w, wx, i, j, k);
    }
    AddOnBox(g, tend, VelocityInterior(g, c), (i, j, k) => QuadraticDragCell(g, c, maths, rQuad, w, wx, i, j, k),
             QuadraticDragField(g, c, maths, rQuad, w, wx));
    if conserve {
      var diss := ZerosWithBox(g, VelocityInterior(g, c), (i, j, k) => QuadraticDissCell(g, c, maths, rQuad, w, wx, i, j, k),
                               QuadraticDissField(g, c, maths, rQuad, w, wx));
      AddField(g, kDissBot, c.CalcDiss(num, g, diss));
    }
  }

  /** `quadratic_bottom_friction`. */
  method QuadraticBottomFriction(g: Grid, maths: Maths, rQuad: real, u: Field, v: Field, du: array3<real>, dv: array3<real>,
                                 kDissBot: array3<real>, conserve: bool, num: Numerics)
    requires Fits(du, g) && Fits(dv, g) && Fits(kDissBot, g) && du != dv && du != kDissBot && dv != kDissBot
    modifies du, dv, kDissBot
    ensures Contents(du) == g.Add(old(Contents(du)), QuadraticDragField(g, Zonal, maths, rQuad, u, v))
    ensures Contents(dv) == g.Add(old(Contents(dv)), QuadraticDragField(g, Meridional, maths, rQuad, v, u))
    ensures Contents(kDissBot) ==
      Dissipated(g, conserve,
                 Dissipated(g, conserve, old(Contents(kDissBot)), Zonal.CalcDiss(num, g, QuadraticDissField(g, Zonal, maths, rQuad, u, v))),
                 Meridional.CalcDiss(num, g, QuadraticDissField(g, Meridional, maths, rQuad, v, u)))
    ensures !conserve ==> Contents(kDissBot) == old(Contents(kDissBot))
  {
    QuadraticDragPass(g, Zonal, maths, rQuad, u, v, du, kDissBot, conserve, num);
    QuadraticDragPass(g, Meridional, maths, rQuad, v, u, dv, kDissBot, conserve, num);
  }

  /** With 0/1 masks the argument of the square root is never negative. */
  lemma SpeedArgumentNonNegative(g: Grid, c: Component, w: Field, wx: Field, i: int, j: int, k: int)
    requires g.BinaryMasks()
    ensures Sq(At(w, i, j, k)) + 0.25 * CrossSquares(g, c, wx, i, j, k) >= 0.0
  {
    var d := c.Across();
    MaskCellOf(g, d, i, j, k);
    if c.Zonal? {
      MaskCellOf(g, d, i, j - 1, k);
      MaskCellOf(g, d, i + 1, j, k);
      MaskCellOf(g, d, i + 1, j - 1, k);
    } else {
      MaskCellOf(g, d, i - 1, j, k);
      MaskCellOf(g, d, i, j + 1, k);
      MaskCellOf(g, d, i - 1, j + 1, k);
    }
  }

  /** Off the drag level `aloc` is 0. */
  lemma AlocOffLevel(g: Grid, c: Component, maths: Maths, rQuad: real, w: Field, wx: Field, i: int, j: int, k: int)
    requires k != DragLevel(g, c, i, j)
    ensures Aloc(g, c, maths, rQuad, w, wx, i, j, k) == 0.0
  {
    var a := At(c.Mask(g), i, j, k) * rQuad * At(w, i, j, k) * Speed(g, c, maths, w, wx, i, j, k) / g.Dzt(k);
    assert Aloc(g, c, maths, rQuad, w, wx, i, j, k) == a * 0.0;
  }

  /** m * r * x * s / z * e * x >= 0 for a 0/1 mask m, a 0/1 level indicator e and non-negative r and s. */
  lemma DragWorkNonNegative(m: real, r: real, x: real, s: real, z: Pos, e: real)
    requires (m == 0.0 || m == 1.0) && (e == 0.0 || e == 1.0) && r >= 0.0 && s >= 0.0
    ensures m * r * x * s / z * e * x >= 0.0
  {
    if m == 1.0 && e == 1.0 {
      MulNonNeg(r, s);
      DivNonNegative(r * s, z);
      MulNonNeg(r * s / z, x * x);
      assert r * x * s / z * x == r * s / z * (x * x);
    }
  }

  /** The quadratic drag of a cell and its dissipation are 0 off the drag level of the box. */
  lemma QuadraticCellsBottomOnly(g: Grid, c: Component, maths: Maths, rQuad: real, w: Field, wx: Field, i: int, j: int, k: int)
    ensures QuadraticDragCell(g, c, maths, rQuad, w, wx, i, j, k) != 0.0 ==> VelocityInterior(g, c).Contains(i, j, k) && k == DragLevel(g, c, i, j)
    ensures QuadraticDissCell(g, c, maths, rQuad, w, wx, i, j, k) != 0.0 ==> VelocityInterior(g, c).Contains(i, j, k) && k == DragLevel(g, c, i, j)
  {
    if VelocityInterior(g, c).Contains(i, j, k) && k != DragLevel(g, c, i, j) {
      AlocOffLevel(g, c, maths, rQuad, w, wx, i, j, k);
      assert Aloc(g, c, maths, rQuad, w, wx, i, j, k) == 0.0;
      assert QuadraticDissCell(g, c, maths, rQuad, w, wx, i, j, k) == Aloc(g, c, maths, rQuad, w, wx, i, j, k) * At(w, i, j, k);
      assert QuadraticDissCell(g, c, maths, rQuad, w, wx, i, j, k) == 0.0 * At(w, i, j, k);
    }
  }

  /** Quadratic drag and its dissipation are bottom-only. */
  lemma QuadraticDragBottomOnly(g: Grid, c: Component, maths: Maths, rQuad: real, w: Field, wx: Field)
    ensures BottomOnly(g, c, QuadraticDragField(g, c, maths, rQuad, w, wx))
    ensures BottomOnly(g, c, QuadraticDissField(g, c, maths, rQuad, w, wx))
  {
    forall i, j, k
      ensures At(QuadraticDragField(g, c, maths, rQuad, w, wx), i, j, k) != 0.0 ==> VelocityInterior(g, c).Contains(i, j, k) && k == DragLevel(g, c, i, j)
      ensures At(QuadraticDissField(g, c, maths, rQuad, w, wx), i, j, k) != 0.0 ==> VelocityInterior(g, c).Contains(i, j, k) && k == DragLevel(g, c, i, j)
    {
      QuadraticFieldsAt(g, c, maths, rQuad, w, wx, i, j, k);
      QuadraticCellsBottomOnly(g, c, maths, rQuad, w, wx, i, j, k);
    }
  }

  /** With a non-negative drag coefficient and 0/1 masks, `aloc * u >= 0`. */
  lemma AlocOpposesFlow(g: Grid, c: Component, maths: Maths, rQuad: real, w: Field, wx: Field, i: int, j: int, k: int)
    requires g.BinaryMasks() && rQuad >= 0.0
    ensures Aloc(g, c, maths, rQuad, w, wx, i, j, k) * At(w, i, j, k) >= 0.0
  {
    MaskCellOf(g, c, i, j, k);
    DragWorkNonNegative(At(c.Mask(g), i, j, k), rQuad, At(w, i, j, k), Speed(g, c, maths, w, wx, i, j, k), g.Dzt(k),
                        Indicator(k == DragLevel(g, c, i, j)));
  }

  /** The dissipation quadratic drag diagnoses in a cell is the work its tendency does there against the flow. */
  lemma QuadraticDissIsWork(g: Grid, c: Component, maths: Maths, rQuad: real, w: Field, wx: Field, i: int, j: int, k: int)
    ensures QuadraticDissCell(g, c, maths, rQuad, w, wx, i, j, k) == -QuadraticDragCell(g, c, maths, rQuad, w, wx, i, j, k) * At(w, i, j, k)
  {
    if VelocityInterior(g, c).Contains(i, j, k) {
      var a, x := Aloc(g, c, maths, rQuad, w, wx, i, j, k), At(w, i, j, k);
      assert a * x == -(-a) * x;
    }
  }

  /** With a non-negative drag coefficient and 0/1 masks, the tendency `-aloc` opposes the velocity
      and the diagnosed dissipation is non-negative. */
  lemma QuadraticDragDissipates(g: Grid, c: Component, maths: Maths, rQuad: real, w: Field, wx: Field, i: int, j: int, k: int)
    requires g.BinaryMasks() && rQuad >= 0.0
    ensures QuadraticDissCell(g, c, maths, rQuad, w, wx, i, j, k) >= 0.0
    ensures QuadraticDragCell(g, c, maths, rQuad, w, wx, i, j, k) * At(w, i, j, k) <= 0.0
  {
    if VelocityInterior(g, c).Contains(i, j, k) {
      AlocOpposesFlow(g, c, maths, rQuad, w, wx, i, j, k);
      var a, x := Aloc(g, c, maths, rQuad, w, wx, i, j, k), At(w, i, j, k);
      assert -a * x == -(a * x);
    }
  }
}
