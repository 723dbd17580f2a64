/** The two velocity components of the staggered grid and what each kernel pass picks by component:
    the mask of its points, the neighbouring column it pairs with, and the collaborators that move
    its dissipation onto T-points. */
module Staggering {
  import opened Fields
  import opened Grids
  import opened Collaborators

  /** The velocity component a pass works on: u lives on U-points, v on V-points. */
  datatype Component = Zonal | Meridional {
    /** Offset from a velocity point to the second tracer column it lies between (east for u, north for v). */
    function Di(): int { if Zonal? then 1 else 0 }
    function Dj(): int { if Zonal? then 0 else 1 }

    /** The other component: v for u, u for v. */
    function Across(): Component { if Zonal? then Meridional else Zonal }

    /** `maskU` for u, `maskV` for v. */
    function Mask(g: Grid): (m: Field)
      ensures g.BinaryMasks() ==> IsMask(m)
    {
      if Zonal? then g.maskU else g.maskV
    }

    /** `ugrid_to_tgrid(diss, dxt, dxu)` for u, `vgrid_to_tgrid(diss, area_v, area_t)` for v. */
    function ToTracerGrid(num: Numerics, g: Grid, diss: Field): Field {
      if Zonal? then num.ugridToTgrid(diss, g.dxt, g.dxu) else num.vgridToTgrid(diss, g.areaV, g.areaT)
    }

    /** `calc_diss_u(diss, kbot, nz, dzw, dxt, dxu)` for u, `calc_diss_v(diss, kbot, nz, dzw, area_v, area_t)` for v. */
    function CalcDiss(num: Numerics, g: Grid, diss: Field): Field {
      if Zonal? then num.calcDissU(diss, g.kbot, g.nz, g.dzw, g.dxt, g.dxu)
      else num.calcDissV(diss, g.kbot, g.nz, g.dzw, g.areaV, g.areaT)
    }
  }

  /** Every cell of a velocity mask holds 0 or 1. */
  lemma MaskCellOf(g: Grid, c: Component, i: int, j: int, k: int)
    requires g.BinaryMasks()
    ensures MaskCell(c.Mask(g), i, j, k)
  {
    assert IsMask(c.Mask(g));
  }

  function Max(a: int, b: int): int { if a >= b then a else b }

  /** The seafloor index of velocity column (i, j): the higher of the two tracer columns it lies between. */
  function PairBottom(g: Grid, c: Component, i: int, j: int): int {
    Max(g.Kbot(i, j), g.Kbot(i + c.Di(), j + c.Dj()))
  }

  /** `[1:-2, 2:-2]` for u, `[2:-2, 1:-2]` for v, every level: the velocity points on which bottom drag
      acts and on which lateral friction diagnoses its dissipation. */
  function VelocityInterior(g: Grid, c: Component): Box {
    if c.Zonal? then Box(1, g.nx - 2, 2, g.ny - 2, 0, g.nz) else Box(2, g.nx - 2, 1, g.ny - 2, 0, g.nz)
  }
}
