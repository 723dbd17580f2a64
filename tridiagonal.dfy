/** The tridiagonal system that implicit vertical friction builds for one water column.

    `delta[k]` is the implicit diffusion number of the interface between levels k and k+1
    (`dt_mom / dzw[k] * mean kappaM * mask * mask`), zero at the top interface. Level 0 is the
    deepest level of the grid and level nz-1 the surface. The coefficients are those of
    `implicit_vert_friction` in veros/core/friction.py; the solver itself (`utilities.solve_implicit`)
    is not part of this model, so what a solution is is stated by `SolvesColumn`. */
module Tridiagonal {
  import opened Fields

  /** Entry k of a column; 0.0 outside it (in particular just above the surface). */
  function Col(s: seq<real>, k: int): real {
    if 0 <= k < |s| then s[k] else 0.0
  }

  // The coefficients of row k of a column of nz levels, from the diffusion number below the level
  // (`below`, delta[k-1]), the one above it (`here`, delta[k]) and the level's thickness z.

  /** `a_tri`: -delta[k-1] / dzt[k] from level 1 up; level 0 keeps the buffer's 0. */
  function LowerCoef(k: int, below: real, z: Pos): real {
    if k >= 1 then -below / z else 0.0
  }

  /** `b_tri`, first written as 1 + delta[k-1] / dzt[k] from level 1 up; level 0 keeps the buffer's 0. */
  function DiagBelow(k: int, below: real, z: Pos): real {
    if k >= 1 then 1.0 + below / z else 0.0
  }

  /** What is then added to `b_tri` strictly between level 0 and the surface: delta[k] / dzt[k]. */
  function DiagAbove(k: int, nz: int, here: real, z: Pos): real {
    if 1 <= k < nz - 1 then here / z else 0.0
  }

  /** `b_tri`. */
  function DiagCoef(k: int, nz: int, below: real, here: real, z: Pos): real {
    DiagBelow(k, below, z) + DiagAbove(k, nz, here, z)
  }

  /** `b_tri_edge`: the main diagonal used at a column's bottom-most water level, 1 + delta[k] / dzt[k]. */
  function DiagEdgeCoef(here: real, z: Pos): real {
    1.0 + here / z
  }

  /** `c_tri`: -delta[k] / dzt[k] below the surface, 0 at the surface. */
  function UpperCoef(k: int, nz: int, here: real, z: Pos): real {
    if k < nz - 1 then -here / z else 0.0
  }

  // The same coefficients read off a whole column.

  function Lower(delta: seq<real>, dzt: seq<Pos>, k: int): real {
    LowerCoef(k, Col(delta, k - 1), Metric(dzt, k))
  }

  function Diag(delta: seq<real>, dzt: seq<Pos>, k: int): real {
    DiagCoef(k, |dzt|, Col(delta, k - 1), Col(delta, k), Metric(dzt, k))
  }

  function DiagEdge(delta: seq<real>, dzt: seq<Pos>, k: int): real {
    DiagEdgeCoef(Col(delta, k), Metric(dzt, k))
  }

  function Upper(delta: seq<real>, dzt: seq<Pos>, k: int): real {
    UpperCoef(k, |dzt|, Col(delta, k), Metric(dzt, k))
  }

  /** Row k of the system applied to x, for a column whose bottom-most water level is `edge`. */
  function RowValue(delta: seq<real>, dzt: seq<Pos>, edge: int, x: seq<real>, k: int): real {
    if k == edge then DiagEdge(delta, dzt, k) * Col(x, k) + Upper(delta, dzt, k) * Col(x, k + 1)
    else Lower(delta, dzt, k) * Col(x, k - 1) + Diag(delta, dzt, k) * Col(x, k) + Upper(delta, dzt, k) * Col(x, k + 1)
  }

  /** x solves every water row (levels edge .. nz-1) of the column with right-hand side d. */
  ghost predicate SolvesColumn(delta: seq<real>, dzt: seq<Pos>, edge: nat, x: seq<real>, d: seq<real>) {
    && |x| == |dzt| && |d| == |dzt| && edge < |dzt|
    && forall k | edge <= k < |dzt| :: RowValue(delta, dzt, edge, x, k) == d[k]
  }

  /** A well-formed diffusion column: one number per level, none through the surface. */
  ghost predicate DiffusionColumn(delta: seq<real>, dzt: seq<Pos>) {
    |delta| == |dzt| >= 1 && delta[|dzt| - 1] == 0.0
  }


  lemma MulDivCancel(z: Pos, p: real)
    ensures z * (p / z) == p
  {}

  lemma NegZeroDiv(x: real, z: Pos)
    requires x == 0.0
    ensures -x / z == 0.0
  {}

  /** Every row sums to one: interior rows a + b + c, the edge row b_edge + c; the surface has no c
      and level 0 no a. */
  lemma RowSum(delta: seq<real>, dzt: seq<Pos>, k: int)
    requires DiffusionColumn(delta, dzt) && 0 <= k < |dzt|
    ensures k >= 1 ==> Lower(delta, dzt, k) + Diag(delta, dzt, k) + Upper(delta, dzt, k) == 1.0
    ensures DiagEdge(delta, dzt, k) + Upper(delta, dzt, k) == 1.0
    ensures Upper(delta, dzt, |dzt| - 1) == 0.0 && Lower(delta, dzt, 0) == 0.0
  {}

  /** With non-negative diffusion numbers every row is diagonally dominant: the main diagonal is
      one more than the off-diagonal magnitudes. */
  lemma DiagonallyDominant(delta: seq<real>, dzt: seq<Pos>, k: int)
    requires DiffusionColumn(delta, dzt) && 0 <= k < |dzt|
    requires forall m | 0 <= m < |delta| :: delta[m] >= 0.0
    ensures k >= 1 ==> Diag(delta, dzt, k) == 1.0 + Abs(Lower(delta, dzt, k)) + Abs(Upper(delta, dzt, k))
    ensures DiagEdge(delta, dzt, k) == 1.0 + Abs(Upper(delta, dzt, k))
  {
    var z := Metric(dzt, k);
    DivNonNegative(Col(delta, k), z);
    assert -Col(delta, k) / z == -(Col(delta, k) / z);
    if k >= 1 {
      DivNonNegative(Col(delta, k - 1), z);
      assert -Col(delta, k - 1) / z == -(Col(delta, k - 1) / z);
    }
  }

  /** A column whose right-hand side is constant on its water rows is solved by that constant. */
  lemma ConstantColumnSolves(delta: seq<real>, dzt: seq<Pos>, edge: nat, v: real, d: seq<real>)
    requires DiffusionColumn(delta, dzt) && edge < |dzt| && |d| == |dzt|
    requires forall k | edge <= k < |dzt| :: d[k] == v
    ensures SolvesColumn(delta, dzt, edge, seq(|dzt|, _ => v), d)
  {
    var x := seq(|dzt|, _ => v);
    forall k | edge <= k < |dzt|
      ensures RowValue(delta, dzt, edge, x, k) == d[k]
    {
      RowSum(delta, dzt, k);
      if k == |dzt| - 1 {
        assert Upper(delta, dzt, k) == 0.0;
      } else {
        assert Col(x, k + 1) == v;
      }
      if k > edge {
        assert Col(x, k - 1) == v;
      }
    }
  }

  /** sum of dzt[k] * x[k] over lo <= k < hi: the column's momentum per unit area. */
  function WeightedSum(dzt: seq<Pos>, x: seq<real>, lo: int, hi: int): real
    decreases hi - lo
  {
    if hi <= lo then 0.0 else WeightedSum(dzt, x, lo, hi - 1) + Metric(dzt, hi - 1) * Col(x, hi - 1)
  }

  /** Two columns that agree on the levels lo .. hi-1 carry the same momentum over those levels. */
  lemma {:induction false} WeightedSumAgree(dzt: seq<Pos>, x: seq<real>, y: seq<real>, lo: int, hi: int)
    requires forall k | lo <= k < hi :: Col(x, k) == Col(y, k)
    ensures WeightedSum(dzt, x, lo, hi) == WeightedSum(dzt, y, lo, hi)
    decreases hi - lo
  {
    if lo < hi {
      WeightedSumAgree(dzt, x, y, lo, hi - 1);
    }
  }

  /** The momentum flux that the implicit system carries from level k to level k+1. */
  function ImplicitFlux(delta: seq<real>, x: seq<real>, k: int): real {
    Col(delta, k) * (Col(x, k) - Col(x, k + 1))
  }

  /** Row k multiplied by its thickness is the new momentum of the level plus the net flux out of it. */
  lemma ScaledRow(delta: seq<real>, dzt: seq<Pos>, edge: nat, x: seq<real>, k: int)
    requires DiffusionColumn(delta, dzt) && edge <= k < |dzt|
    ensures Metric(dzt, k) * RowValue(delta, dzt, edge, x, k)
         == Metric(dzt, k) * Col(x, k) + ImplicitFlux(delta, x, k)
            - (if k > edge then ImplicitFlux(delta, x, k - 1) else 0.0)
  {
    var z := Metric(dzt, k);
    var p := Col(delta, k - 1);
    var q := if k < |dzt| - 1 then Col(delta, k) else 0.0;
    assert Col(delta, k) == q;
    MulDivCancel(z, p);
    MulDivCancel(z, q);
    if k == edge {
      assert DiagEdge(delta, dzt, k) == 1.0 + q / z;
      assert Upper(delta, dzt, k) == -(q / z);
      calc {
        z * RowValue(delta, dzt, edge, x, k);
        z * ((1.0 + q / z) * Col(x, k) + -(q / z) * Col(x, k + 1));
        z * Col(x, k) + (z * (q / z)) * Col(x, k) - (z * (q / z)) * Col(x, k + 1);
      }
    } else {
      assert Lower(delta, dzt, k) == -(p / z);
      assert Diag(delta, dzt, k) == 1.0 + p / z + q / z;
      assert Upper(delta, dzt, k) == -(q / z);
      calc {
        z * RowValue(delta, dzt, edge, x, k);
        z * (-(p / z) * Col(x, k - 1) + (1.0 + p / z + q / z) * Col(x, k) + -(q / z) * Col(x, k + 1));
        -(z * (p / z)) * Col(x, k - 1) + z * Col(x, k) + (z * (p / z)) * Col(x, k)
          + (z * (q / z)) * Col(x, k) - (z * (q / z)) * Col(x, k + 1);
      }
    }
  }

  /** Summed from the edge up to level m, the right-hand side equals the solution plus the flux
      leaving level m upwards. */
  lemma {:induction false} PartialBalance(delta: seq<real>, dzt: seq<Pos>, edge: nat, x: seq<real>, d: seq<real>, m: int)
    requires DiffusionColumn(delta, dzt) && SolvesColumn(delta, dzt, edge, x, d)
    requires edge <= m < |dzt|
    ensures WeightedSum(dzt, d, edge, m + 1) == WeightedSum(dzt, x, edge, m + 1) + ImplicitFlux(delta, x, m)
    decreases m - edge
  {
    ScaledRow(delta, dzt, edge, x, m);
    assert RowValue(delta, dzt, edge, x, m) == d[m];
    if m > edge {
      PartialBalance(delta, dzt, edge, x, d, m - 1);
    }
  }

  /** Implicit vertical friction conserves the momentum of every water column: a solution of the
      system has the same thickness-weighted sum as the right-hand side (the velocity at `tau`). */
  lemma {:induction false} ImplicitConservesMomentum(delta: seq<real>, dzt: seq<Pos>, edge: nat, x: seq<real>, d: seq<real>)
    requires DiffusionColumn(delta, dzt) && SolvesColumn(delta, dzt, edge, x, d)
    ensures WeightedSum(dzt, x, edge, |dzt|) == WeightedSum(dzt, d, edge, |dzt|)
  {
    PartialBalance(delta, dzt, edge, x, d, |dzt| - 1);
    assert ImplicitFlux(delta, x, |dzt| - 1) == 0.0;
  }
}
