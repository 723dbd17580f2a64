/** The read-only grid every friction kernel works on: sizes, metrics, land/sea masks and the
    seafloor index, as Veros stores them on the state object. */
module Grids {
  import opened Fields

  /** Cells along a horizontal axis, the two-cell halo on each side included; at least one interior cell. */
  type Extent = n: int | n >= 5 witness 5

  /** Vertical levels; level 0 is the deepest, level nz-1 the surface. */
  type Levels = n: int | n >= 1 witness 1

  datatype Grid = Grid(
    nx: Extent, ny: Extent, nz: Levels,
    dxt: seq<Pos>, dxu: seq<Pos>,        // zonal spacing of T- and U-cells, one per x index
    dyt: seq<Pos>, dyu: seq<Pos>,        // meridional spacing of T- and U-cells, one per y index
    cost: seq<Pos>, cosu: seq<Pos>,      // cosine of latitude at T- and U-points, one per y index
    dzt: seq<Pos>, dzw: seq<Pos>,        // thickness of T-cells and of W-cells, one per level
    areaT: Field2, areaV: Field2,        // horizontal areas of T- and V-cells
    maskU: Field, maskV: Field,          // 1.0 on water, 0.0 on land, at U- and V-points
    kbot: IntField2)                     // 1-based index of the deepest water level; 0 on land
  {
    ghost predicate Valid() {
      && |dxt| == nx && |dxu| == nx
      && |dyt| == ny && |dyu| == ny && |cost| == ny && |cosu| == ny
      && |dzt| == nz && |dzw| == nz
    }

    /** Both velocity masks hold only 0.0 and 1.0. */
    ghost predicate BinaryMasks() {
      IsMask(maskU) && IsMask(maskV)
    }

    predicate InGrid(i: int, j: int, k: int) {
      0 <= i < nx && 0 <= j < ny && 0 <= k < nz
    }

    /** `[...]`: the whole array. */
    function All(): Box { Box(0, nx, 0, ny, 0, nz) }

    function Dxt(i: int): Pos { Metric(dxt, i) }
    function Dxu(i: int): Pos { Metric(dxu, i) }
    function Dyt(j: int): Pos { Metric(dyt, j) }
    function Dyu(j: int): Pos { Metric(dyu, j) }
    function Cost(j: int): Pos { Metric(cost, j) }
    function Cosu(j: int): Pos { Metric(cosu, j) }
    function Dzt(k: int): Pos { Metric(dzt, k) }
    function Dzw(k: int): Pos { Metric(dzw, k) }
    function MU(i: int, j: int, k: int): real { At(maskU, i, j, k) }
    function MV(i: int, j: int, k: int): real { At(maskV, i, j, k) }
    function Kbot(i: int, j: int): int { AtInt2(kbot, i, j) }

    /** A fresh buffer of the grid's shape. */
    function Zero(): Field { Zeros(nx, ny, nz) }

    /** A collaborator's result stored into a buffer of the grid's shape. */
    function Fit(f: Field): Field { Reshape(f, nx, ny, nz) }

    /** `a += b` on arrays of the grid's shape. */
    function Add(a: Field, b: Field): Field { Plus(a, b, nx, ny, nz) }
  }

  /** An array of the grid's shape. */
  predicate Fits(a: array3<real>, g: Grid) {
    a.Length0 == g.nx && a.Length1 == g.ny && a.Length2 == g.nz
  }

  /** `a = f` for a collaborator's result f: the buffer then holds f on the grid's shape. */
  method SetField(g: Grid, a: array3<real>, f: Field)
    requires Fits(a, g)
    modifies a
    ensures Contents(a) == g.Fit(f)
  {
    Update(a, g.All(), (i, j, k) => At(f, i, j, k));
    ContentsIs(a, g.Fit(f));
  }

  /** `a = update_add(a, at[...], f)`: f added to every cell. */
  method AddField(g: Grid, a: array3<real>, f: Field)
    requires Fits(a, g)
    modifies a
    ensures Contents(a) == g.Add(old(Contents(a)), f)
  {
    ghost var a0 := Contents(a);
    ContentsCells(a);
    UpdateAdd(a, g.All(), (i, j, k) => At(f, i, j, k));
    ContentsIs(a, g.Add(a0, f));
  }

  /** `a = update_add(a, at[b], h)`, where t is h on the box and 0 elsewhere. */
  method AddOnBox(g: Grid, a: array3<real>, b: Box, h: (int, int, int) -> real, ghost t: Field)
    requires Fits(a, g) && b.Within(g.nx, g.ny, g.nz) && Shaped(t, g.nx, g.ny, g.nz)
    requires forall i, j, k | g.InGrid(i, j, k) :: At(t, i, j, k) == if b.Contains(i, j, k) then h(i, j, k) else 0.0
    modifies a
    ensures Contents(a) == g.Add(old(Contents(a)), t)
  {
    ghost var a0 := Contents(a);
    ContentsCells(a);
    UpdateAdd(a, b, h);
    ContentsIs(a, g.Add(a0, t));
  }

  /** `diss = np.zeros_like(mask)` followed by `diss = update(diss, at[b], h)`, where t is h on the box
      and 0 elsewhere. */
  method ZerosWithBox(g: Grid, b: Box, h: (int, int, int) -> real, ghost t: Field) returns (diss: Field)
    requires b.Within(g.nx, g.ny, g.nz) && Shaped(t, g.nx, g.ny, g.nz)
    requires forall i, j, k | g.InGrid(i, j, k) :: At(t, i, j, k) == if b.Contains(i, j, k) then h(i, j, k) else 0.0
    ensures diss == t
  {
    var buffer := NewZeros(g.nx, g.ny, g.nz);
    ContentsCells(buffer);
    Update(buffer, b, h);
    ContentsIs(buffer, t);
    diss := Freeze(buffer);
  }
}
