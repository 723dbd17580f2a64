/** Dense fields on the staggered grid and the slice writes every friction kernel is built from.

    A kernel of `veros/core/friction.py` is a straight sequence of `update(x, at[slice], expr)` and
    `update_add(x, at[slice], expr)` calls on arrays of the grid's shape. Here such an array is an
    `array3<real>` indexed (x, y, z), a slice is a `Box`, and `Update` / `UpdateAdd` write a per-cell
    expression into every cell of the box and leave every other cell as it was. Read-only inputs
    (masks, viscosities, the velocity at one time level) are values of type `Field`. */
module Fields {

  /** A strictly positive real: grid spacings, layer thicknesses, the time step, cosines of latitude. */
  type Pos = r: real | r > 0.0 witness 1.0

  /** A non-negative real: what a square root returns. */
  type NonNeg = r: real | r >= 0.0 witness 0.0

  /** `x**2`. */
  function Sq(x: real): (r: real)
    ensures r >= 0.0
  {
    x * x
  }

  /** `abs(x)`. */
  function Abs(x: real): real { if x < 0.0 then -x else x }

  /** The product of two positive reals, such as `cost * dxu`. */
  function Prod(a: Pos, b: Pos): Pos {
    a * b
  }

  lemma MulNonNeg(a: real, b: real)
    requires a >= 0.0 && b >= 0.0
    ensures a * b >= 0.0
  {}

  lemma DivNonNegative(a: real, z: Pos)
    requires a >= 0.0
    ensures a / z >= 0.0
  {}

  /** A three-dimensional field indexed (x, y, z), as a value. */
  type Field = seq<seq<seq<real>>>

  type BoolField = seq<seq<seq<bool>>>

  /** A horizontal (x, y) field of reals, such as a face area. */
  type Field2 = seq<seq<real>>

  /** A horizontal (x, y) field of integers, such as the seafloor index `kbot`. */
  type IntField2 = seq<seq<int>>

  /** Cell (i, j, k) of `f`; 0.0 outside it. */
  function At(f: Field, i: int, j: int, k: int): real {
    if 0 <= i < |f| && 0 <= j < |f[i]| && 0 <= k < |f[i][j]| then f[i][j][k] else 0.0
  }

  function AtBool(f: BoolField, i: int, j: int, k: int): bool {
    if 0 <= i < |f| && 0 <= j < |f[i]| && 0 <= k < |f[i][j]| then f[i][j][k] else false
  }

  function At2(f: Field2, i: int, j: int): real {
    if 0 <= i < |f| && 0 <= j < |f[i]| then f[i][j] else 0.0
  }

  function AtInt2(f: IntField2, i: int, j: int): int {
    if 0 <= i < |f| && 0 <= j < |f[i]| then f[i][j] else 0
  }

  /** Entry i of a one-dimensional grid metric; 1.0 outside it, so that it can always divide. */
  function Metric(s: seq<Pos>, i: int): Pos {
    if 0 <= i < |s| then s[i] else 1.0
  }

  ghost predicate Shaped(f: Field, n0: nat, n1: nat, n2: nat) {
    |f| == n0 && forall i | 0 <= i < n0 :: |f[i]| == n1 && forall j | 0 <= j < n1 :: |f[i][j]| == n2
  }

  /** Cell (i, j, k) of a land/sea mask: 0.0 (land) or 1.0 (water). */
  predicate MaskCell(f: Field, i: int, j: int, k: int) {
    At(f, i, j, k) == 0.0 || At(f, i, j, k) == 1.0
  }

  /** A land/sea mask: every cell holds 0.0 or 1.0. */
  ghost predicate IsMask(f: Field) {
    forall i, j, k :: MaskCell(f, i, j, k)
  }

  /** Rows i .. n0-1 of `Tabulate(n0, n1, n2, h)`. */
  function TabulateFrom(i: nat, n0: nat, n1: nat, n2: nat, h: (int, int, int) -> real): (f: Field)
    requires i <= n0
    ensures |f| == n0 - i
    ensures forall x | 0 <= x < n0 - i :: |f[x]| == n1 && forall j | 0 <= j < n1 :: |f[x][j]| == n2
    ensures forall x, j, k | 0 <= x < n0 - i && 0 <= j < n1 && 0 <= k < n2 :: f[x][j][k] == h(x + i, j, k)
    decreases n0 - i
  {
    if i == n0 then [] else [seq(n1, j => seq(n2, k => h(i, j, k)))] + TabulateFrom(i + 1, n0, n1, n2, h)
  }

  /** The field of shape n0 x n1 x n2 whose cell (i, j, k) is h(i, j, k): a NumPy array expression. */
  function Tabulate(n0: nat, n1: nat, n2: nat, h: (int, int, int) -> real): (f: Field)
    ensures Shaped(f, n0, n1, n2)
    ensures forall i, j, k | 0 <= i < n0 && 0 <= j < n1 && 0 <= k < n2 :: At(f, i, j, k) == h(i, j, k)
  {
    TabulateFrom(0, n0, n1, n2, h)
  }

  /** A field of shape n0 x n1 x n2 reads 0 outside that shape. */
  lemma OutsideShape(f: Field, n0: nat, n1: nat, n2: nat, i: int, j: int, k: int)
    requires Shaped(f, n0, n1, n2)
    requires !(0 <= i < n0 && 0 <= j < n1 && 0 <= k < n2)
    ensures At(f, i, j, k) == 0.0
  {
    if 0 <= i < n0 {
      assert |f[i]| == n1;
      if 0 <= j < n1 {
        assert |f[i][j]| == n2;
      }
    }
  }

  /** Two fields of one shape that agree cell by cell are the same value. */
  lemma {:induction false} FieldExt(f: Field, h: Field, n0: nat, n1: nat, n2: nat)
    requires Shaped(f, n0, n1, n2) && Shaped(h, n0, n1, n2)
    requires forall i, j, k | 0 <= i < n0 && 0 <= j < n1 && 0 <= k < n2 :: At(f, i, j, k) == At(h, i, j, k)
    ensures f == h
  {
    forall i | 0 <= i < n0
      ensures f[i] == h[i]
    {
      forall j | 0 <= j < n1
        ensures f[i][j] == h[i][j]
      {
        forall k | 0 <= k < n2
          ensures f[i][j][k] == h[i][j][k]
        {
          assert At(f, i, j, k) == At(h, i, j, k);
        }
      }
    }
  }

  /** Cells k .. n2-1 of column (i, j) of an array. */
  ghost function CellsFrom(a: array3<real>, i: int, j: int, k: nat): (r: seq<real>)
    requires 0 <= i < a.Length0 && 0 <= j < a.Length1 && k <= a.Length2
    reads a
    ensures |r| == a.Length2 - k && forall z | 0 <= z < a.Length2 - k :: r[z] == a[i, j, z + k]
    decreases a.Length2 - k
  {
    if k == a.Length2 then [] else [a[i, j, k]] + CellsFrom(a, i, j, k + 1)
  }

  /** Columns j .. n1-1 of plane i of an array. */
  ghost function RowFrom(a: array3<real>, i: int, j: nat): (r: seq<seq<real>>)
    requires 0 <= i < a.Length0 && j <= a.Length1
    reads a
    ensures |r| == a.Length1 - j && forall y | 0 <= y < a.Length1 - j :: r[y] == CellsFrom(a, i, y + j, 0)
    decreases a.Length1 - j
  {
    if j == a.Length1 then [] else [CellsFrom(a, i, j, 0)] + RowFrom(a, i, j + 1)
  }

  /** Planes i .. n0-1 of an array. */
  ghost function PlanesFrom(a: array3<real>, i: nat): (r: Field)
    requires i <= a.Length0
    reads a
    ensures |r| == a.Length0 - i && forall x | 0 <= x < a.Length0 - i :: r[x] == RowFrom(a, x + i, 0)
    decreases a.Length0 - i
  {
    if i == a.Length0 then [] else [RowFrom(a, i, 0)] + PlanesFrom(a, i + 1)
  }

  /** The cells of an array, as a value: what the array holds in the current state. */
  ghost function Contents(a: array3<real>): Field
    reads a
  {
    PlanesFrom(a, 0)
  }

  lemma ContentsAt(a: array3<real>, i: int, j: int, k: int)
    requires 0 <= i < a.Length0 && 0 <= j < a.Length1 && 0 <= k < a.Length2
    ensures At(Contents(a), i, j, k) == a[i, j, k]
  {
    assert Contents(a)[i] == RowFrom(a, i, 0);
    assert Contents(a)[i][j] == CellsFrom(a, i, j, 0);
  }

  lemma ContentsShaped(a: array3<real>)
    ensures Shaped(Contents(a), a.Length0, a.Length1, a.Length2)
  {
    forall i | 0 <= i < a.Length0
      ensures |Contents(a)[i]| == a.Length1 && forall j | 0 <= j < a.Length1 :: |Contents(a)[i][j]| == a.Length2
    {
      assert Contents(a)[i] == RowFrom(a, i, 0);
    }
  }

  /** Every cell of the array is the matching cell of its contents. */
  lemma ContentsCells(a: array3<real>)
    ensures forall i, j, k | 0 <= i < a.Length0 && 0 <= j < a.Length1 && 0 <= k < a.Length2 :: a[i, j, k] == At(Contents(a), i, j, k)
  {
    forall i, j, k | 0 <= i < a.Length0 && 0 <= j < a.Length1 && 0 <= k < a.Length2
      ensures a[i, j, k] == At(Contents(a), i, j, k)
    {
      ContentsAt(a, i, j, k);
    }
  }

  /** An array that agrees with the field e cell by cell holds e. */
  lemma ContentsIs(a: array3<real>, e: Field)
    requires Shaped(e, a.Length0, a.Length1, a.Length2)
    requires forall i, j, k | 0 <= i < a.Length0 && 0 <= j < a.Length1 && 0 <= k < a.Length2 :: a[i, j, k] == At(e, i, j, k)
    ensures Contents(a) == e
  {
    ContentsShaped(a);
    forall i, j, k | 0 <= i < a.Length0 && 0 <= j < a.Length1 && 0 <= k < a.Length2
      ensures At(Contents(a), i, j, k) == At(e, i, j, k)
    {
      ContentsAt(a, i, j, k);
    }
    FieldExt(Contents(a), e, a.Length0, a.Length1, a.Length2);
  }

  /** The field of shape n0 x n1 x n2 holding 0 everywhere: a freshly allocated buffer. */
  function Zeros(n0: nat, n1: nat, n2: nat): Field {
    Tabulate(n0, n1, n2, (i, j, k) => 0.0)
  }

  /** Allocates a buffer of zeros, as `np.zeros_like` does. */
  method NewZeros(n0: nat, n1: nat, n2: nat) returns (a: array3<real>)
    ensures fresh(a) && a.Length0 == n0 && a.Length1 == n1 && a.Length2 == n2
    ensures Contents(a) == Zeros(n0, n1, n2)
  {
    a := new real[n0, n1, n2]((i, j, k) => 0.0);
    ContentsIs(a, Zeros(n0, n1, n2));
  }

  /** f read on the shape n0 x n1 x n2: its cells there, 0 where it has none. */
  function Reshape(f: Field, n0: nat, n1: nat, n2: nat): Field {
    Tabulate(n0, n1, n2, (i, j, k) => At(f, i, j, k))
  }

  /** The cell-by-cell sum of f and h on the shape n0 x n1 x n2. */
  function Plus(f: Field, h: Field, n0: nat, n1: nat, n2: nat): Field {
    Tabulate(n0, n1, n2, (i, j, k) => At(f, i, j, k) + At(h, i, j, k))
  }

  /** The current contents of an array, as a value that can be handed to a collaborator. */
  method Freeze(a: array3<real>) returns (f: Field)
    ensures f == Contents(a)
  {
    f := seq(a.Length0, i requires 0 <= i < a.Length0 reads a =>
      seq(a.Length1, j requires 0 <= j < a.Length1 reads a =>
        seq(a.Length2, k requires 0 <= k < a.Length2 reads a => a[i, j, k])));
    ContentsIs(a, f);
  }

  /** A NumPy slice `[lo0:hi0, lo1:hi1, lo2:hi2]` of a three-dimensional array; empty when a bound
      pair is reversed, as in Python. */
  datatype Box = Box(lo0: int, hi0: int, lo1: int, hi1: int, lo2: int, hi2: int) {
    predicate Contains(i: int, j: int, k: int) {
      lo0 <= i < hi0 && lo1 <= j < hi1 && lo2 <= k < hi2
    }

    predicate Within(n0: int, n1: int, n2: int) {
      0 <= lo0 && hi0 <= n0 && 0 <= lo1 && hi1 <= n1 && 0 <= lo2 && hi2 <= n2
    }
  }

  /** Cell (x, y, z) comes before cell (i, j, k) in the order the loops of `Apply` visit them. */
  predicate Before(x: int, y: int, z: int, i: int, j: int, k: int) {
    x < i || (x == i && (y < j || (y == j && z < k)))
  }

  /** Replaces every cell of the box by h of its position and its old value; nothing else changes. */
  method Apply(a: array3<real>, b: Box, h: (int, int, int, real) -> real)
    requires b.Within(a.Length0, a.Length1, a.Length2)
    modifies a
    ensures forall i, j, k | 0 <= i < a.Length0 && 0 <= j < a.Length1 && 0 <= k < a.Length2 ::
      a[i, j, k] == if b.Contains(i, j, k) then h(i, j, k, old(a[i, j, k])) else old(a[i, j, k])
  {
    var i := b.lo0;
    while i < b.hi0
      invariant b.lo0 <= i && (i <= b.hi0 || i == b.lo0)
      invariant forall x, y, z | 0 <= x < a.Length0 && 0 <= y < a.Length1 && 0 <= z < a.Length2 ::
        a[x, y, z] == if b.Contains(x, y, z) && x < i then h(x, y, z, old(a[x, y, z])) else old(a[x, y, z])
    {
      var j := b.lo1;
      while j < b.hi1
        invariant b.lo1 <= j && (j <= b.hi1 || j == b.lo1)
        invariant forall x, y, z | 0 <= x < a.Length0 && 0 <= y < a.Length1 && 0 <= z < a.Length2 ::
          a[x, y, z] == if b.Contains(x, y, z) && Before(x, y, 0, i, j, 0)
                        then h(x, y, z, old(a[x, y, z])) else old(a[x, y, z])
      {
        var k := b.lo2;
        while k < b.hi2
          invariant b.lo2 <= k && (k <= b.hi2 || k == b.lo2)
          invariant forall x, y, z | 0 <= x < a.Length0 && 0 <= y < a.Length1 && 0 <= z < a.Length2 ::
            a[x, y, z] == if b.Contains(x, y, z) && Before(x, y, z, i, j, k)
                          then h(x, y, z, old(a[x, y, z])) else old(a[x, y, z])
        {
          a[i, j, k] := h(i, j, k, a[i, j, k]);
          k := k + 1;
        }
        j := j + 1;
      }
      i := i + 1;
    }
  }

  /** `update(a, at[b], expr)`: every cell of the box gets h of its position. */
  method Update(a: array3<real>, b: Box, h: (int, int, int) -> real)
    requires b.Within(a.Length0, a.Length1, a.Length2)
    modifies a
    ensures forall i, j, k | 0 <= i < a.Length0 && 0 <= j < a.Length1 && 0 <= k < a.Length2 ::
      a[i, j, k] == if b.Contains(i, j, k) then h(i, j, k) else old(a[i, j, k])
  {
    Apply(a, b, (i, j, k, x) => h(i, j, k));
  }

  /** `update_add(a, at[b], expr)` and `a += expr`: every cell of the box is increased by h of its position. */
  method UpdateAdd(a: array3<real>, b: Box, h: (int, int, int) -> real)
    requires b.Within(a.Length0, a.Length1, a.Length2)
    modifies a
    ensures forall i, j, k | 0 <= i < a.Length0 && 0 <= j < a.Length1 && 0 <= k < a.Length2 ::
      a[i, j, k] == old(a[i, j, k]) + if b.Contains(i, j, k) then h(i, j, k) else 0.0
  {
    Apply(a, b, (i, j, k, x) => x + h(i, j, k));
  }
}
