/** The routines of other Veros modules that the friction kernels call. Their bodies are not part
    of this model: each is a function-valued field, so every property proved here holds whatever
    they compute, and what a kernel hands them is stated exactly. */
module Collaborators {
  import opened Fields

  /** veros.core.numerics. */
  datatype Numerics = Numerics(
    /** `ugrid_to_tgrid(a, dxt, dxu)`: averages a U-grid field onto T-points. */
    ugridToTgrid: (Field, seq<Pos>, seq<Pos>) -> Field,
    /** `vgrid_to_tgrid(a, area_v, area_t)`: averages a V-grid field onto T-points. */
    vgridToTgrid: (Field, Field2, Field2) -> Field,
    /** `calc_diss_u(diss, kbot, nz, dzw, dxt, dxu)`: moves U-grid dissipation onto T-points above the seafloor. */
    calcDissU: (Field, IntField2, int, seq<Pos>, seq<Pos>, seq<Pos>) -> Field,
    /** `calc_diss_v(diss, kbot, nz, dzw, area_v, area_t)`: the same for V-grid dissipation. */
    calcDissV: (Field, IntField2, int, seq<Pos>, Field2, Field2) -> Field)

  /** What `utilities.create_water_masks` returns besides the land mask: which cells are water
      and which is the deepest water cell of each column. */
  datatype WaterMasks = WaterMasks(water: BoolField, edge: BoolField)

  /** veros.core.utilities. */
  datatype Utilities = Utilities(
    /** `solve_implicit(a, b, c, d, water_mask, b_edge, edge_mask)`: solves the tridiagonal systems column by column. */
    solveImplicit: (Field, Field, Field, Field, BoolField, Field, BoolField) -> Field,
    /** `create_water_masks(kss, nz)`. */
    createWaterMasks: (IntField2, int) -> WaterMasks,
    /** `enforce_boundaries(a, enable_cyclic_x)`: fills the halo, periodically in x when asked. */
    enforceBoundaries: (Field, bool) -> Field)

  /** The two elementwise operations whose floating-point results are not modelled. */
  datatype Maths = Maths(
    /** `np.sqrt`: some non-negative number. */
    sqrt: real -> NonNeg,
    /** `x ** p` for a positive base, as used for the cosine-power scaling: some non-negative number. */
    pow: (Pos, real) -> NonNeg)
}
