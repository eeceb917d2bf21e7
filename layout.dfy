/** Row-major flattening of 2D and 3D grids into one flat buffer, as used by
    Array2D and Array3D (Detector/arrays.cpp): cell (x, y) lives at
    `y*xSize + x`, cell (x, y, z) at `z*xSize*ySize + y*xSize + x`.
    The grid a flat buffer stands for is given by Unflatten2 / Unflatten3,
    indexed `[y][x]` and `[z][y][x]`. */
module Layout {
  /** Offset of (x, y) in a grid `xSize` cells wide. */
  function Offset2(xSize: int, x: int, y: int): int {
    y * xSize + x
  }

  /** Offset of (x, y, z) in a grid of `xSize` by `ySize` planes; the
      multiplication associates to the left, as the C expression does. */
  function Offset3(xSize: int, ySize: int, x: int, y: int, z: int): int {
    z * xSize * ySize + y * xSize + x
  }

  lemma MulMonotone(a: int, b: int, c: int)
    requires a <= b && 0 <= c
    ensures a * c <= b * c
  {
    assert b * c - a * c == (b - a) * c;
  }

  /** Row y of a grid `xSize` wide occupies `[y*xSize, y*xSize + xSize)`,
      inside a buffer of `xSize*ySize` cells. */
  lemma RowBounds(xSize: int, ySize: int, y: int)
    requires 0 <= xSize && 0 <= y < ySize
    ensures 0 <= y * xSize && y * xSize + xSize <= xSize * ySize
  {
    MulMonotone(0, y, xSize);
    MulMonotone(y + 1, ySize, xSize);
  }

  /** An in-bounds 2D offset lies in `[0, xSize*ySize)`. */
  lemma Offset2Bounds(xSize: int, ySize: int, x: int, y: int)
    requires 0 <= x < xSize && 0 <= y < ySize
    ensures 0 <= y * xSize <= Offset2(xSize, x, y) < xSize * ySize
  {
    RowBounds(xSize, ySize, y);
  }

  /** Distinct columns-in-range give distinct offsets, whatever the rows. */
  lemma Offset2Injective(xSize: int, x1: int, y1: int, x2: int, y2: int)
    requires 0 <= x1 < xSize && 0 <= x2 < xSize
    requires Offset2(xSize, x1, y1) == Offset2(xSize, x2, y2)
    ensures x1 == x2 && y1 == y2
  {
    if y1 < y2 {
      MulMonotone(y1 + 1, y2, xSize);
    } else if y2 < y1 {
      MulMonotone(y2 + 1, y1, xSize);
    }
  }

  /** Every cell of the buffer is the offset of exactly the in-bounds pair
      `(k % xSize, k / xSize)`: the 2D offset is a bijection. */
  lemma Offset2Inverse(xSize: int, ySize: int, k: int)
    requires 0 < xSize && 0 <= k < xSize * ySize
    ensures 0 <= k % xSize < xSize && 0 <= k / xSize < ySize
    ensures Offset2(xSize, k % xSize, k / xSize) == k
  {
    var q, r := k / xSize, k % xSize;
    assert k == q * xSize + r;
    if q < 0 {
      MulMonotone(q, -1, xSize);
    }
    if q >= ySize {
      MulMonotone(ySize, q, xSize);
    }
  }

  /** Recovering the coordinates of an offset gives back the coordinates. */
  lemma Offset2Coordinates(xSize: int, x: int, y: int)
    requires 0 <= x < xSize
    ensures Offset2(xSize, x, y) % xSize == x && Offset2(xSize, x, y) / xSize == y
  {
    var k := Offset2(xSize, x, y);
    assert k == (k / xSize) * xSize + k % xSize;
    Offset2Injective(xSize, k % xSize, k / xSize, x, y);
  }

  /** A 3D offset is a 2D offset of the in-plane offset in a grid whose
      rows are whole planes. */
  lemma Offset3Split(xSize: int, ySize: int, x: int, y: int, z: int)
    ensures Offset3(xSize, ySize, x, y, z) == Offset2(xSize * ySize, Offset2(xSize, x, y), z)
  {
    assert z * xSize * ySize == z * (xSize * ySize);
  }

  /** An in-bounds 3D offset lies in `[0, xSize*ySize*zSize)`, and so does
      every partial product and sum the C expression computes on the way. */
  lemma Offset3Bounds(xSize: int, ySize: int, zSize: int, x: int, y: int, z: int)
    requires 0 <= x < xSize && 0 <= y < ySize && 0 <= z < zSize
    ensures 0 <= z * xSize <= z * xSize * ySize
    ensures 0 <= y * xSize
    ensures z * xSize * ySize + y * xSize <= Offset3(xSize, ySize, x, y, z)
    ensures Offset3(xSize, ySize, x, y, z) < xSize * ySize * zSize
  {
    Offset2Bounds(xSize, ySize, x, y);
    Offset3Split(xSize, ySize, x, y, z);
    Offset2Bounds(xSize * ySize, zSize, Offset2(xSize, x, y), z);
    MulMonotone(0, z, xSize);
    MulMonotone(1, ySize, z * xSize);
    assert (xSize * ySize) * zSize == xSize * ySize * zSize;
  }

  /** Distinct in-plane positions or planes give distinct 3D offsets. */
  lemma Offset3Injective(xSize: int, ySize: int, x1: int, y1: int, z1: int, x2: int, y2: int, z2: int)
    requires 0 <= x1 < xSize && 0 <= y1 < ySize
    requires 0 <= x2 < xSize && 0 <= y2 < ySize
    requires Offset3(xSize, ySize, x1, y1, z1) == Offset3(xSize, ySize, x2, y2, z2)
    ensures x1 == x2 && y1 == y2 && z1 == z2
  {
    Offset3Split(xSize, ySize, x1, y1, z1);
    Offset3Split(xSize, ySize, x2, y2, z2);
    Offset2Bounds(xSize, ySize, x1, y1);
    Offset2Bounds(xSize, ySize, x2, y2);
    Offset2Injective(xSize * ySize, Offset2(xSize, x1, y1), z1, Offset2(xSize, x2, y2), z2);
    Offset2Injective(xSize, x1, y1, x2, y2);
  }

  /** Every cell of a 3D buffer is the offset of exactly one in-bounds
      triple: the 3D offset is a bijection. */
  lemma Offset3Inverse(xSize: int, ySize: int, zSize: int, k: int)
    requires 0 < xSize && 0 < ySize && 0 <= k < xSize * ySize * zSize
    ensures var p := k % (xSize * ySize);
      && 0 <= p % xSize < xSize && 0 <= p / xSize < ySize && 0 <= k / (xSize * ySize) < zSize
      && Offset3(xSize, ySize, p % xSize, p / xSize, k / (xSize * ySize)) == k
  {
    var plane := xSize * ySize;
    MulMonotone(1, ySize, xSize);
    assert plane * zSize == xSize * ySize * zSize;
    Offset2Inverse(plane, zSize, k);
    var p := k % plane;
    Offset2Inverse(xSize, ySize, p);
    Offset3Split(xSize, ySize, p % xSize, p / xSize, k / plane);
  }

  /** The grid, indexed `[y][x]`, that a flat buffer of `xSize*ySize`
      cells stands for under row-major layout. */
  function Unflatten2<T>(s: seq<T>, xSize: nat, ySize: nat): (m: seq<seq<T>>)
    requires |s| == xSize * ySize
    ensures |m| == ySize && forall y :: 0 <= y < ySize ==> |m[y]| == xSize
  {
    seq(ySize, y requires 0 <= y < ySize => Row(s, xSize, ySize, y))
  }

  /** Row y of a flat buffer of `xSize*ySize` cells. */
  function Row<T>(s: seq<T>, xSize: nat, ySize: nat, y: int): (r: seq<T>)
    requires |s| == xSize * ySize && 0 <= y < ySize
    ensures |r| == xSize
  {
    RowBounds(xSize, ySize, y);
    s[y * xSize .. y * xSize + xSize]
  }

  /** Cell (x, y) of the grid is buffer cell `Offset2(xSize, x, y)`. */
  lemma Unflatten2At<T>(s: seq<T>, xSize: nat, ySize: nat, x: int, y: int)
    requires |s| == xSize * ySize && 0 <= x < xSize && 0 <= y < ySize
    ensures 0 <= Offset2(xSize, x, y) < |s|
    ensures Unflatten2(s, xSize, ySize)[y][x] == s[Offset2(xSize, x, y)]
  {
    Offset2Bounds(xSize, ySize, x, y);
    RowBounds(xSize, ySize, y);
    assert Unflatten2(s, xSize, ySize)[y] == s[y * xSize .. y * xSize + xSize];
  }

  /** A grid with cell (x, y) replaced by v. */
  function Set2<T>(m: seq<seq<T>>, x: int, y: int, v: T): (r: seq<seq<T>>)
    requires 0 <= y < |m| && 0 <= x < |m[y]|
  {
    m[y := m[y][x := v]]
  }

  /** Writing one buffer cell writes exactly the grid cell it stands for. */
  lemma Unflatten2Update<T>(s: seq<T>, xSize: nat, ySize: nat, x: int, y: int, v: T)
    requires |s| == xSize * ySize && 0 <= x < xSize && 0 <= y < ySize
    ensures 0 <= Offset2(xSize, x, y) < |s|
    ensures Unflatten2(s[Offset2(xSize, x, y) := v], xSize, ySize) == Set2(Unflatten2(s, xSize, ySize), x, y, v)
  {
    var k := Offset2(xSize, x, y);
    Offset2Bounds(xSize, ySize, x, y);
    var a := Unflatten2(s[k := v], xSize, ySize);
    var b := Set2(Unflatten2(s, xSize, ySize), x, y, v);
    forall j | 0 <= j < ySize
      ensures a[j] == b[j]
    {
      forall i | 0 <= i < xSize
        ensures a[j][i] == b[j][i]
      {
        Unflatten2At(s[k := v], xSize, ySize, i, j);
        Unflatten2At(s, xSize, ySize, i, j);
        if i != x || j != y {
          if Offset2(xSize, i, j) == k {
            Offset2Injective(xSize, i, j, x, y);
          }
        }
      }
    }
  }

  /** Every cell of a grid holds v. */
  predicate Filled2<T(==)>(m: seq<seq<T>>, v: T) {
    forall y, x :: 0 <= y < |m| && 0 <= x < |m[y]| ==> m[y][x] == v
  }

  /** A buffer whose cells all hold v stands for a grid whose cells all hold v. */
  lemma Unflatten2Filled<T>(s: seq<T>, xSize: nat, ySize: nat, v: T)
    requires |s| == xSize * ySize
    requires forall i :: 0 <= i < |s| ==> s[i] == v
    ensures Filled2(Unflatten2(s, xSize, ySize), v)
  {
    var m := Unflatten2(s, xSize, ySize);
    forall y, x | 0 <= y < |m| && 0 <= x < |m[y]|
      ensures m[y][x] == v
    {
      Unflatten2At(s, xSize, ySize, x, y);
    }
  }

  /** The grid, indexed `[z][y][x]`, that a flat buffer of
      `xSize*ySize*zSize` cells stands for: plane z is the slice
      `[z*xSize*ySize, (z+1)*xSize*ySize)` laid out as a 2D grid. */
  function Unflatten3<T>(s: seq<T>, xSize: nat, ySize: nat, zSize: nat): (g: seq<seq<seq<T>>>)
    requires |s| == xSize * ySize * zSize
    ensures |g| == zSize
    ensures forall z :: 0 <= z < zSize ==> |g[z]| == ySize
    ensures forall z, y :: 0 <= z < zSize && 0 <= y < ySize ==> |g[z][y]| == xSize
  {
    assert (xSize * ySize) * zSize == xSize * ySize * zSize;
    seq(zSize, z requires 0 <= z < zSize =>
      RowBounds(xSize * ySize, zSize, z);
      Unflatten2(s[z * (xSize * ySize) .. z * (xSize * ySize) + xSize * ySize], xSize, ySize))
  }

  /** Cell (x, y, z) of the grid is buffer cell `Offset3(xSize, ySize, x, y, z)`. */
  lemma Unflatten3At<T>(s: seq<T>, xSize: nat, ySize: nat, zSize: nat, x: int, y: int, z: int)
    requires |s| == xSize * ySize * zSize
    requires 0 <= x < xSize && 0 <= y < ySize && 0 <= z < zSize
    ensures 0 <= Offset3(xSize, ySize, x, y, z) < |s|
    ensures Unflatten3(s, xSize, ySize, zSize)[z][y][x] == s[Offset3(xSize, ySize, x, y, z)]
  {
    var plane := xSize * ySize;
    assert plane * zSize == xSize * ySize * zSize;
    RowBounds(plane, zSize, z);
    var slab := s[z * plane .. z * plane + plane];
    Unflatten2At(slab, xSize, ySize, x, y);
    Offset3Split(xSize, ySize, x, y, z);
    Offset3Bounds(xSize, ySize, zSize, x, y, z);
  }

  /** A grid with cell (x, y, z) replaced by v. */
  function Set3<T>(g: seq<seq<seq<T>>>, x: int, y: int, z: int, v: T): (r: seq<seq<seq<T>>>)
    requires 0 <= z < |g| && 0 <= y < |g[z]| && 0 <= x < |g[z][y]|
  {
    g[z := Set2(g[z], x, y, v)]
  }

  /** Writing one buffer cell writes exactly the 3D grid cell it stands for. */
  lemma Unflatten3Update<T>(s: seq<T>, xSize: nat, ySize: nat, zSize: nat, x: int, y: int, z: int, v: T)
    requires |s| == xSize * ySize * zSize
    requires 0 <= x < xSize && 0 <= y < ySize && 0 <= z < zSize
    ensures 0 <= Offset3(xSize, ySize, x, y, z) < |s|
    ensures Unflatten3(s[Offset3(xSize, ySize, x, y, z) := v], xSize, ySize, zSize)
         == Set3(Unflatten3(s, xSize, ySize, zSize), x, y, z, v)
  {
    var k := Offset3(xSize, ySize, x, y, z);
    Offset3Bounds(xSize, ySize, zSize, x, y, z);
    var a := Unflatten3(s[k := v], xSize, ySize, zSize);
    var b := Set3(Unflatten3(s, xSize, ySize, zSize), x, y, z, v);
    forall l | 0 <= l < zSize
      ensures a[l] == b[l]
    {
      forall j | 0 <= j < ySize
        ensures a[l][j] == b[l][j]
      {
        forall i | 0 <= i < xSize
          ensures a[l][j][i] == b[l][j][i]
        {
          Unflatten3At(s[k := v], xSize, ySize, zSize, i, j, l);
          Unflatten3At(s, xSize, ySize, zSize, i, j, l);
          if i != x || j != y || l != z {
            if Offset3(xSize, ySize, i, j, l) == k {
              Offset3Injective(xSize, ySize, i, j, l, x, y, z);
            }
          }
        }
      }
    }
  }

  /** Every cell of a 3D grid holds v. */
  predicate Filled3<T(==)>(g: seq<seq<seq<T>>>, v: T) {
    forall z, y, x :: 0 <= z < |g| && 0 <= y < |g[z]| && 0 <= x < |g[z][y]| ==> g[z][y][x] == v
  }

  /** A buffer whose cells all hold v stands for a 3D grid whose cells all hold v. */
  lemma Unflatten3Filled<T>(s: seq<T>, xSize: nat, ySize: nat, zSize: nat, v: T)
    requires |s| == xSize * ySize * zSize
    requires forall i :: 0 <= i < |s| ==> s[i] == v
    ensures Filled3(Unflatten3(s, xSize, ySize, zSize), v)
  {
    var g := Unflatten3(s, xSize, ySize, zSize);
    forall z, y, x | 0 <= z < |g| && 0 <= y < |g[z]| && 0 <= x < |g[z][y]|
      ensures g[z][y][x] == v
    {
      Unflatten3At(s, xSize, ySize, zSize, x, y, z);
    }
  }
}
