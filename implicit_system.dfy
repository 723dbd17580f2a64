/** The tridiagonal systems that `implicit_vert_friction` builds, read column by column.

    `VerticalFriction` builds the coefficient fields `a_tri`, `b_tri`, `c_tri` and `b_tri_edge` of
    the whole block from the `delta` field; `Tridiagonal` states what one column's system is and
    proves its properties. The lemmas here connect the two: every column of the built fields is the
    system of a diffusion column, so its rows sum to one, are diagonally dominant when the viscosity
    is non-negative, and any solution the solver returns keeps the column's momentum. */
module ImplicitSystem {
  import opened Fields
  import opened Grids
  import opened Collaborators
  import opened Tridiagonal
  import opened Staggering
  import opened VerticalFriction

  /** A column (i, j) of the block. */
  predicate BlockColumn(g: Grid, i: int, j: int) {
    0 <= i < g.nx - 3 && 0 <= j < g.ny - 3
  }

  /** Column (i, j) of `delta` is a diffusion column: one number per level and nothing through the surface. */
  lemma DeltaColumnIsDiffusion(g: Grid, c: Component, kappaM: Field, dt: Pos, i: int, j: int)
    requires g.Valid() && BlockColumn(g, i, j)
    ensures DiffusionColumn(ColumnOf(DeltaField(g, c, kappaM, dt), i, j, g.nz), g.dzt)
  {
    var col := ColumnOf(DeltaField(g, c, kappaM, dt), i, j, g.nz);
    assert col[g.nz - 1] == DeltaAt(g, c, kappaM, dt, i, j, g.nz - 1);
  }

  /** With a non-negative viscosity and 0/1 masks, every diffusion number is non-negative. */
  lemma DeltaNonNegative(g: Grid, c: Component, kappaM: Field, dt: Pos, i: int, j: int, k: int)
    requires g.BinaryMasks() && NonNegViscosity(kappaM)
    ensures At(DeltaField(g, c, kappaM, dt), i, j, k) >= 0.0
  {
    if BlockColumn(g, i, j) && 0 <= k < g.nz - 1 {
      var m := c.Mask(g);
      MaskCellOf(g, c, i + 1, j + 1, k);
      MaskCellOf(g, c, i + 1, j + 1, k + 1);
      assert At(kappaM, i + 1, j + 1, k) >= 0.0 && At(kappaM, i + 1 + c.Di(), j + 1 + c.Dj(), k) >= 0.0;
      DivNonNegative(dt, g.Dzw(k));
      var p := dt / g.Dzw(k) * MeanViscosity(c, kappaM, i + 1, j + 1, k);
      assert p >= 0.0;
      assert At(m, i + 1, j + 1, k + 1) * At(m, i + 1, j + 1, k) >= 0.0;
      assert DeltaAt(g, c, kappaM, dt, i, j, k) == p * (At(m, i + 1, j + 1, k + 1) * At(m, i + 1, j + 1, k));
    } else if BlockColumn(g, i, j) && 0 <= k < g.nz {
      assert DeltaAt(g, c, kappaM, dt, i, j, k) == 0.0;
    }
  }

  /** Cell (i, j, k) of `a_tri` is the lower coefficient of row k of column (i, j) of `d`. */
  lemma LowerOfColumn(g: Grid, d: Field, i: int, j: int, k: int)
    requires BlockColumn(g, i, j) && 0 <= k < g.nz
    ensures At(LowerField(g, d), i, j, k) == Lower(ColumnOf(d, i, j, g.nz), g.dzt, k)
  {
    var col := ColumnOf(d, i, j, g.nz);
    assert At(LowerField(g, d), i, j, k) == LowerCell(g, d, i, j, k);
    if k >= 1 {
      assert Col(col, k - 1) == At(d, i, j, k - 1);
    } else {
      assert LowerCoef(k, At(d, i, j, k - 1), g.Dzt(k)) == 0.0 == LowerCoef(k, Col(col, k - 1), g.Dzt(k));
    }
  }

  /** Cell (i, j, k) of `b_tri` is the main coefficient of row k of column (i, j) of `d`. */
  lemma DiagOfColumn(g: Grid, d: Field, i: int, j: int, k: int)
    requires g.Valid() && BlockColumn(g, i, j) && 0 <= k < g.nz
    ensures At(DiagField(g, d), i, j, k) == Diag(ColumnOf(d, i, j, g.nz), g.dzt, k)
  {
    var col := ColumnOf(d, i, j, g.nz);
    assert At(DiagField(g, d), i, j, k) == DiagCell(g, d, i, j, k);
    assert Col(col, k) == At(d, i, j, k);
    if k >= 1 {
      assert Col(col, k - 1) == At(d, i, j, k - 1);
    } else {
      assert DiagBelow(k, At(d, i, j, k - 1), g.Dzt(k)) == 0.0 == DiagBelow(k, Col(col, k - 1), g.Dzt(k));
    }
  }

  /** Cell (i, j, k) of `c_tri` is the upper coefficient of row k of column (i, j) of `d`. */
  lemma UpperOfColumn(g: Grid, d: Field, i: int, j: int, k: int)
    requires g.Valid() && BlockColumn(g, i, j) && 0 <= k < g.nz
    ensures At(UpperField(g, d), i, j, k) == Upper(ColumnOf(d, i, j, g.nz), g.dzt, k)
  {
    assert At(UpperField(g, d), i, j, k) == UpperCell(g, d, i, j, k);
    assert Col(ColumnOf(d, i, j, g.nz), k) == At(d, i, j, k);
  }

  /** Cell (i, j, k) of `b_tri_edge` is the edge coefficient of row k of column (i, j) of `d`. */
  lemma DiagEdgeOfColumn(g: Grid, d: Field, i: int, j: int, k: int)
    requires BlockColumn(g, i, j) && 0 <= k < g.nz
    ensures At(DiagEdgeField(g, d), i, j, k) == DiagEdge(ColumnOf(d, i, j, g.nz), g.dzt, k)
  {
    assert At(DiagEdgeField(g, d), i, j, k) == DiagEdgeCell(g, d, i, j, k);
    assert Col(ColumnOf(d, i, j, g.nz), k) == At(d, i, j, k);
  }

  /** Cell (i, j, k) of each coefficient field built from `d` is the coefficient of row k of the
      system of column (i, j) of `d`. */
  lemma CoefficientsOfColumn(g: Grid, d: Field, i: int, j: int, k: int)
    requires g.Valid() && BlockColumn(g, i, j) && 0 <= k < g.nz
    ensures var col := ColumnOf(d, i, j, g.nz);
            && At(LowerField(g, d), i, j, k) == Lower(col, g.dzt, k)
            && At(DiagField(g, d), i, j, k) == Diag(col, g.dzt, k)
            && At(UpperField(g, d), i, j, k) == Upper(col, g.dzt, k)
            && At(DiagEdgeField(g, d), i, j, k) == DiagEdge(col, g.dzt, k)
  {
    LowerOfColumn(g, d, i, j, k);
    DiagOfColumn(g, d, i, j, k);
    UpperOfColumn(g, d, i, j, k);
    DiagEdgeOfColumn(g, d, i, j, k);
  }

  /** Every row of the built system sums to one: a + b + c above level 0, b_edge + c at the edge row. */
  lemma ImplicitRowsSumToOne(g: Grid, c: Component, kappaM: Field, dt: Pos, i: int, j: int, k: int)
    requires g.Valid() && BlockColumn(g, i, j) && 0 <= k < g.nz
    ensures var d := DeltaField(g, c, kappaM, dt);
            && (k >= 1 ==> At(LowerField(g, d), i, j, k) + At(DiagField(g, d), i, j, k) + At(UpperField(g, d), i, j, k) == 1.0)
            && At(DiagEdgeField(g, d), i, j, k) + At(UpperField(g, d), i, j, k) == 1.0
  {
    var d := DeltaField(g, c, kappaM, dt);
    DeltaColumnIsDiffusion(g, c, kappaM, dt, i, j);
    CoefficientsOfColumn(g, d, i, j, k);
    RowSum(ColumnOf(d, i, j, g.nz), g.dzt, k);
  }

  /** With a non-negative viscosity and 0/1 masks, every row of the built system is diagonally dominant. */
  lemma ImplicitRowsDominant(g: Grid, c: Component, kappaM: Field, dt: Pos, i: int, j: int, k: int)
    requires g.Valid() && g.BinaryMasks() && NonNegViscosity(kappaM)
    requires BlockColumn(g, i, j) && 0 <= k < g.nz
    ensures var d := DeltaField(g, c, kappaM, dt);
            && (k >= 1 ==> At(DiagField(g, d), i, j, k) == 1.0 + Abs(At(LowerField(g, d), i, j, k)) + Abs(At(UpperField(g, d), i, j, k)))
            && At(DiagEdgeField(g, d), i, j, k) == 1.0 + Abs(At(UpperField(g, d), i, j, k))
  {
    var d := DeltaField(g, c, kappaM, dt);
    var col := ColumnOf(d, i, j, g.nz);
    DeltaColumnIsDiffusion(g, c, kappaM, dt, i, j);
    forall m | 0 <= m < |col|
      ensures col[m] >= 0.0
    {
      DeltaNonNegative(g, c, kappaM, dt, i, j, m);
    }
    CoefficientsOfColumn(g, d, i, j, k);
    DiagonallyDominant(col, g.dzt, k);
  }

  /** Column (i, j) of `d_tri` is column (i+1, j+1) of the velocity at `tau`. */
  lemma RhsColumn(g: Grid, w0: Field, i: int, j: int)
    requires BlockColumn(g, i, j)
    ensures ColumnOf(RhsField(g, w0), i, j, g.nz) == ColumnOf(w0, i + 1, j + 1, g.nz)
  {
    var rhs := RhsField(g, w0);
    RhsFieldCells(g, w0, i, j);
    ColumnsAgree(rhs, i, j, w0, i + 1, j + 1, g.nz);
  }

  /** The cells of column (i, j) of `d_tri`. */
  lemma RhsFieldCells(g: Grid, w0: Field, i: int, j: int)
    requires BlockColumn(g, i, j)
    ensures forall k | 0 <= k < g.nz :: At(RhsField(g, w0), i, j, k) == At(w0, i + 1, j + 1, k)
  {}

  /** Two columns of n levels whose cells agree are the same column. */
  lemma ColumnsAgree(f: Field, i: int, j: int, h: Field, p: int, q: int, n: nat)
    requires forall k | 0 <= k < n :: At(f, i, j, k) == At(h, p, q, k)
    ensures ColumnOf(f, i, j, n) == ColumnOf(h, p, q, n)
  {}

  /** Implicit vertical friction conserves the momentum of every water column of the block. Let x be
      what `solve_implicit` returns: if column (i, j) of x solves the water rows (edge .. nz-1) of the
      system of column (i, j) of `delta` (whose coefficients are those of the built fields, by
      `CoefficientsOfColumn`) with column (i, j) of `d_tri` on the right, then its thickness-weighted
      sum over the water levels equals that of the velocity at `tau`. */
  lemma ImplicitPassConservesMomentum(g: Grid, c: Component, kappaM: Field, dt: Pos, w0: Field, x: Field,
                                      i: int, j: int, edge: nat)
    requires g.Valid() && BlockColumn(g, i, j)
    requires SolvesColumn(ColumnOf(DeltaField(g, c, kappaM, dt), i, j, g.nz), g.dzt, edge,
                          ColumnOf(x, i, j, g.nz), ColumnOf(RhsField(g, w0), i, j, g.nz))
    ensures WeightedSum(g.dzt, ColumnOf(x, i, j, g.nz), edge, g.nz)
         == WeightedSum(g.dzt, ColumnOf(w0, i + 1, j + 1, g.nz), edge, g.nz)
  {
    DeltaColumnIsDiffusion(g, c, kappaM, dt, i, j);
    RhsColumn(g, w0, i, j);
    ImplicitConservesMomentum(ColumnOf(DeltaField(g, c, kappaM, dt), i, j, g.nz), g.dzt, edge,
                              ColumnOf(x, i, j, g.nz), ColumnOf(w0, i + 1, j + 1, g.nz));
  }

  /** The momentum kept by the solver reaches `u[taup1]`: if the levels edge .. nz-1 of column (i, j)
      are water cells of the mask `create_water_masks` returns, and the solver's result solves the
      column system there, then column (i+1, j+1) of the velocity written back at `taup1` carries the
      same thickness-weighted momentum over those levels as the velocity at `tau`. */
  lemma ImplicitVelocityConservesMomentum(g: Grid, c: Component, kappaM: Field, dt: Pos, w0: Field, w1: Field,
                                          util: Utilities, i: int, j: int, edge: nat)
    requires g.Valid() && BlockColumn(g, i, j)
    requires forall k | edge <= k < g.nz :: AtBool(Masks(g, c, util).water, i, j, k)
    requires SolvesColumn(ColumnOf(DeltaField(g, c, kappaM, dt), i, j, g.nz), g.dzt, edge,
                          ColumnOf(ImplicitSolution(g, c, kappaM, dt, w0, util), i, j, g.nz),
                          ColumnOf(RhsField(g, w0), i, j, g.nz))
    ensures WeightedSum(g.dzt, ColumnOf(ImplicitVelocity(g, c, kappaM, dt, w0, w1, util), i + 1, j + 1, g.nz), edge, g.nz)
         == WeightedSum(g.dzt, ColumnOf(w0, i + 1, j + 1, g.nz), edge, g.nz)
  {
    var res := ImplicitSolution(g, c, kappaM, dt, w0, util);
    var written := ImplicitVelocity(g, c, kappaM, dt, w0, w1, util);
    var water := Masks(g, c, util).water;
    forall k | edge <= k < g.nz
      ensures Col(ColumnOf(written, i + 1, j + 1, g.nz), k) == Col(ColumnOf(res, i, j, g.nz), k)
    {
      WriteBackOnlyOnWater(g, water, res, w1, i + 1, j + 1, k);
    }
    WeightedSumAgree(g.dzt, ColumnOf(written, i + 1, j + 1, g.nz), ColumnOf(res, i, j, g.nz), edge, g.nz);
    ImplicitPassConservesMomentum(g, c, kappaM, dt, w0, res, i, j, edge);
  }
}
