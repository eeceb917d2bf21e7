/** The integer grids of the detector (Detector/arrays.cpp): Array2D and
    Array3D hold their dimensions and a flat buffer of C `int`s, allocated
    zero-filled by `init`, released by `clear`, and read and written with
    unchecked row-major indexing. A NULL buffer is `data == null`. */
module Arrays {
  import opened CInt
  import Layout

  /** `calloc(count, sizeof(int))`: either a fresh zero-filled buffer of
      `count` cells, or NULL when memory cannot be obtained. A negative
      count becomes a huge `size_t`, so calloc always fails for it. Whether
      memory is available is outside the program, hence the havoc. */
  method Calloc(count: int32) returns (buf: array?<int32>)
    ensures count < 0 ==> buf == null
    ensures buf != null ==> fresh(buf) && buf.Length == count as int
    ensures buf != null ==> forall i :: 0 <= i < buf.Length ==> buf[i] == 0
  {
    var available: bool := *;
    if 0 <= count && available {
      buf := new int32[count as int](_ => 0);
    } else {
      buf := null;
    }
  }

  /** The grid that n successive increments of cell (x, y) leave behind. */
  function Incremented2(m: seq<seq<int32>>, x: int, y: int, n: nat): (r: seq<seq<int32>>)
    requires 0 <= y < |m| && 0 <= x < |m[y]|
    requires m[y][x] as int + n <= INT32_MAX
    ensures |r| == |m| && forall j :: 0 <= j < |m| ==> |r[j]| == |m[j]|
    ensures r[y][x] as int == m[y][x] as int + n
    ensures forall j, i :: 0 <= j < |m| && 0 <= i < |m[j]| && (j != y || i != x) ==> r[j][i] == m[j][i]
    decreases n
  {
    if n == 0 then m
    else
      var p := Incremented2(m, x, y, n - 1);
      Layout.Set2(p, x, y, p[y][x] + 1)
  }

  /** One more increment after n is n + 1 increments: this is how a run of
      Increment calls composes. */
  lemma IncrementedStep2(m: seq<seq<int32>>, x: int, y: int, n: nat)
    requires 0 <= y < |m| && 0 <= x < |m[y]|
    requires m[y][x] as int + n + 1 <= INT32_MAX
    ensures Incremented2(Incremented2(m, x, y, n), x, y, 1) == Incremented2(m, x, y, n + 1)
  {
  }

  /** n increments of a cell that init left at zero leave exactly n in it
      and nothing anywhere else. */
  lemma IncrementFromZero2(m: seq<seq<int32>>, x: int, y: int, n: nat)
    requires Layout.Filled2(m, 0) && 0 <= y < |m| && 0 <= x < |m[y]| && n <= INT32_MAX
    ensures Incremented2(m, x, y, n)[y][x] as int == n
    ensures forall j, i :: 0 <= j < |m| && 0 <= i < |m[j]| && (j != y || i != x) ==> Incremented2(m, x, y, n)[j][i] == 0
  {
  }

  /** The 3D grid that n successive increments of cell (x, y, z) leave behind. */
  function Incremented3(g: seq<seq<seq<int32>>>, x: int, y: int, z: int, n: nat): (r: seq<seq<seq<int32>>>)
    requires 0 <= z < |g| && 0 <= y < |g[z]| && 0 <= x < |g[z][y]|
    requires g[z][y][x] as int + n <= INT32_MAX
    ensures |r| == |g| && forall l :: 0 <= l < |g| ==> |r[l]| == |g[l]|
    ensures forall l, j :: 0 <= l < |g| && 0 <= j < |g[l]| ==> |r[l][j]| == |g[l][j]|
    ensures r[z][y][x] as int == g[z][y][x] as int + n
    ensures forall l, j, i :: 0 <= l < |g| && 0 <= j < |g[l]| && 0 <= i < |g[l][j]| && (l != z || j != y || i != x)
              ==> r[l][j][i] == g[l][j][i]
    decreases n
  {
    if n == 0 then g
    else
      var p := Incremented3(g, x, y, z, n - 1);
      Layout.Set3(p, x, y, z, p[z][y][x] + 1)
  }

  /** One more increment after n is n + 1 increments, in 3D. */
  lemma IncrementedStep3(g: seq<seq<seq<int32>>>, x: int, y: int, z: int, n: nat)
    requires 0 <= z < |g| && 0 <= y < |g[z]| && 0 <= x < |g[z][y]|
    requires g[z][y][x] as int + n + 1 <= INT32_MAX
    ensures Incremented3(Incremented3(g, x, y, z, n), x, y, z, 1) == Incremented3(g, x, y, z, n + 1)
  {
  }

  /** n increments of a 3D cell that init left at zero leave exactly n in it
      and nothing anywhere else. */
  lemma IncrementFromZero3(g: seq<seq<seq<int32>>>, x: int, y: int, z: int, n: nat)
    requires Layout.Filled3(g, 0) && 0 <= z < |g| && 0 <= y < |g[z]| && 0 <= x < |g[z][y]| && n <= INT32_MAX
    ensures Incremented3(g, x, y, z, n)[z][y][x] as int == n
    ensures forall l, j, i :: 0 <= l < |g| && 0 <= j < |g[l]| && 0 <= i < |g[l][j]| && (l != z || j != y || i != x)
              ==> Incremented3(g, x, y, z, n)[l][j][i] == 0
  {
  }

  class Array2D {
    var xDim: int32
    var yDim: int32
    var data: array?<int32>
    /** Whether the dimensions were ever given: the argument-less
        constructor leaves them uninitialised. */
    ghost var sized: bool

    /** A held buffer has exactly `xDim*yDim` cells, a count that `init`
        computed as a C `int`. */
    ghost predicate Valid()
      reads this
    {
      data != null ==> sized && FitsInt32(xDim as int * yDim as int) && data.Length == xDim as int * yDim as int
    }

    /** The grid, indexed `[y][x]`, that the buffer holds; a grid with a
        negative dimension has no addressable cell. */
    ghost function Matrix(): seq<seq<int32>>
      reads this, data
      requires Valid() && data != null
    {
      if xDim < 0 || yDim < 0 then [] else Layout.Unflatten2(data[..], xDim as int, yDim as int)
    }

    predicate InBounds(x: int32, y: int32)
      reads this
    {
      0 <= x < xDim && 0 <= y < yDim
    }

    constructor ()
      ensures Valid() && data == null && !sized
    {
      data := null;
      sized := false;
    }

    constructor Sized(xSize: int32, ySize: int32)
      ensures Valid() && data == null && sized
      ensures xDim == xSize && yDim == ySize
      ensures XSize() == xSize && YSize() == ySize
    {
      xDim, yDim := xSize, ySize;
      data := null;
      sized := true;
    }

    /** Releases any held buffer and allocates `xDim*yDim` zeroed cells;
        false, with no buffer held, when allocation fails. */
    method Init() returns (ok: bool)
      requires sized && FitsInt32(xDim as int * yDim as int)
      modifies this`data
      ensures Valid()
      ensures ok <==> data != null
      ensures xDim as int * yDim as int < 0 ==> !ok
      ensures ok ==> fresh(data) && data.Length == xDim as int * yDim as int
      ensures ok ==> forall i :: 0 <= i < data.Length ==> data[i] == 0
      ensures ok ==> Layout.Filled2(Matrix(), 0)
    {
      Clear();
      data := Calloc(xDim * yDim);
      ok := data != null;
      if ok && 0 <= xDim && 0 <= yDim {
        Layout.Unflatten2Filled(data[..], xDim as int, yDim as int, 0);
      }
    }

    /** Stores the dimensions, then behaves as Init. */
    method InitSized(xSize: int32, ySize: int32) returns (ok: bool)
      requires FitsInt32(xSize as int * ySize as int)
      modifies this
      ensures Valid() && sized
      ensures XSize() == xSize && YSize() == ySize
      ensures ok <==> data != null
      ensures xSize as int * ySize as int < 0 ==> !ok
      ensures ok ==> fresh(data) && data.Length == xSize as int * ySize as int
      ensures ok ==> forall i :: 0 <= i < data.Length ==> data[i] == 0
      ensures ok ==> Layout.Filled2(Matrix(), 0)
    {
      xDim, yDim := xSize, ySize;
      sized := true;
      ok := Init();
    }

    /** Releases the buffer if one is held; harmless on an unallocated grid,
        so a second call changes nothing. */
    method Clear()
      modifies this`data
      ensures Valid() && data == null
      ensures old(data) == null ==> unchanged(this)
    {
      if data != null {
        data := null;
      }
    }

    /** The cell (x, y) of the grid. */
    function Get(x: int32, y: int32): (v: int32)
      reads this, data
      requires Valid() && data != null && InBounds(x, y)
      ensures v == Matrix()[y][x]
    {
      Layout.Unflatten2At(data[..], xDim as int, yDim as int, x as int, y as int);
      data[Offset(x, y)]
    }

    /** Writes v into cell (x, y) and leaves every other cell unchanged. */
    method Set(x: int32, y: int32, v: int32)
      requires Valid() && data != null && InBounds(x, y)
      modifies data
      ensures Valid()
      ensures Matrix() == Layout.Set2(old(Matrix()), x as int, y as int, v)
      ensures Get(x, y) == v
    {
      var k := Offset(x, y);
      Layout.Unflatten2Update(data[..], xDim as int, yDim as int, x as int, y as int, v);
      data[k] := v;
    }

    /** Adds one to cell (x, y) and leaves every other cell unchanged; the
        cell must not already hold the largest C `int`. */
    method Increment(x: int32, y: int32)
      requires Valid() && data != null && InBounds(x, y)
      requires Get(x, y) as int < INT32_MAX
      modifies data
      ensures Valid()
      ensures Matrix() == Incremented2(old(Matrix()), x as int, y as int, 1)
    {
      var k := Offset(x, y);
      Layout.Unflatten2Update(data[..], xDim as int, yDim as int, x as int, y as int, data[k] + 1);
      data[k] := data[k] + 1;
    }

    /** The width: a held buffer has XSize() cells per row. */
    function XSize(): (r: int32)
      reads this
      ensures Valid() && data != null ==> data.Length == r as int * yDim as int
    {
      xDim
    }

    /** The height: a held buffer has YSize() rows. */
    function YSize(): (r: int32)
      reads this
      ensures Valid() && data != null ==> data.Length == xDim as int * r as int
    {
      yDim
    }

    /** The row-major offset of (x, y), computed in C `int` without
        overflow and inside the buffer. */
    function Offset(x: int32, y: int32): (k: int32)
      reads this
      requires InBounds(x, y) && FitsInt32(xDim as int * yDim as int)
      ensures k as int == Layout.Offset2(xDim as int, x as int, y as int)
      ensures 0 <= k as int < xDim as int * yDim as int
    {
      Layout.Offset2Bounds(xDim as int, yDim as int, x as int, y as int);
      y * xDim + x
    }
  }

  class Array3D {
    var xDim: int32
    var yDim: int32
    var zDim: int32
    var data: array?<int32>
    /** Whether the dimensions were ever given: the argument-less
        constructor leaves them uninitialised. */
    ghost var sized: bool

    /** A held buffer has exactly `xDim*yDim*zDim` cells, a count that
        `init` computed as a C `int`. */
    ghost predicate Valid()
      reads this
    {
      data != null ==>
        && sized
        && FitsInt32(xDim as int * yDim as int)
        && FitsInt32(xDim as int * yDim as int * zDim as int)
        && data.Length == xDim as int * yDim as int * zDim as int
    }

    /** The grid, indexed `[z][y][x]`, that the buffer holds; a grid with a
        negative dimension has no addressable cell. */
    ghost function Volume(): seq<seq<seq<int32>>>
      reads this, data
      requires Valid() && data != null
    {
      if xDim < 0 || yDim < 0 || zDim < 0 then []
      else Layout.Unflatten3(data[..], xDim as int, yDim as int, zDim as int)
    }

    predicate InBounds(x: int32, y: int32, z: int32)
      reads this
    {
      0 <= x < xDim && 0 <= y < yDim && 0 <= z < zDim
    }

    constructor ()
      ensures Valid() && data == null && !sized
    {
      data := null;
      sized := false;
    }

    constructor Sized(xSize: int32, ySize: int32, zSize: int32)
      ensures Valid() && data == null && sized
      ensures xDim == xSize && yDim == ySize && zDim == zSize
      ensures XSize() == xSize && YSize() == ySize && ZSize() == zSize
    {
      xDim, yDim, zDim := xSize, ySize, zSize;
      data := null;
      sized := true;
    }

    /** Releases any held buffer and allocates `xDim*yDim*zDim` zeroed
        cells; false, with no buffer held, when allocation fails. */
    method Init() returns (ok: bool)
      requires sized
      requires FitsInt32(xDim as int * yDim as int) && FitsInt32(xDim as int * yDim as int * zDim as int)
      modifies this`data
      ensures Valid()
      ensures ok <==> data != null
      ensures xDim as int * yDim as int * zDim as int < 0 ==> !ok
      ensures ok ==> fresh(data) && data.Length == xDim as int * yDim as int * zDim as int
      ensures ok ==> forall i :: 0 <= i < data.Length ==> data[i] == 0
      ensures ok ==> Layout.Filled3(Volume(), 0)
    {
      Clear();
      data := Calloc(xDim * yDim * zDim);
      ok := data != null;
      if ok && 0 <= xDim && 0 <= yDim && 0 <= zDim {
        Layout.Unflatten3Filled(data[..], xDim as int, yDim as int, zDim as int, 0);
      }
    }

    /** Stores the dimensions, then behaves as Init. */
    method InitSized(xSize: int32, ySize: int32, zSize: int32) returns (ok: bool)
      requires FitsInt32(xSize as int * ySize as int) && FitsInt32(xSize as int * ySize as int * zSize as int)
      modifies this
      ensures Valid() && sized
      ensures XSize() == xSize && YSize() == ySize && ZSize() == zSize
      ensures ok <==> data != null
      ensures xSize as int * ySize as int * zSize as int < 0 ==> !ok
      ensures ok ==> fresh(data) && data.Length == xSize as int * ySize as int * zSize as int
      ensures ok ==> forall i :: 0 <= i < data.Length ==> data[i] == 0
      ensures ok ==> Layout.Filled3(Volume(), 0)
    {
      xDim, yDim, zDim := xSize, ySize, zSize;
      sized := true;
      ok := Init();
    }

    /** Releases the buffer if one is held; harmless on an unallocated grid,
        so a second call changes nothing. */
    method Clear()
      modifies this`data
      ensures Valid() && data == null
      ensures old(data) == null ==> unchanged(this)
    {
      if data != null {
        data := null;
      }
    }

    /** The cell (x, y, z) of the grid. */
    function Get(x: int32, y: int32, z: int32): (v: int32)
      reads this, data
      requires Valid() && data != null && InBounds(x, y, z)
      ensures v == Volume()[z][y][x]
    {
      Layout.Unflatten3At(data[..], xDim as int, yDim as int, zDim as int, x as int, y as int, z as int);
      data[Offset(x, y, z)]
    }

    /** Writes v into cell (x, y, z) and leaves every other cell unchanged. */
    method Set(x: int32, y: int32, z: int32, v: int32)
      requires Valid() && data != null && InBounds(x, y, z)
      modifies data
      ensures Valid()
      ensures Volume() == Layout.Set3(old(Volume()), x as int, y as int, z as int, v)
      ensures Get(x, y, z) == v
    {
      var k := Offset(x, y, z);
      Layout.Unflatten3Update(data[..], xDim as int, yDim as int, zDim as int, x as int, y as int, z as int, v);
      data[k] := v;
    }

    /** Adds one to cell (x, y, z) and leaves every other cell unchanged;
        the cell must not already hold the largest C `int`. */
    method Increment(x: int32, y: int32, z: int32)
      requires Valid() && data != null && InBounds(x, y, z)
      requires Get(x, y, z) as int < INT32_MAX
      modifies data
      ensures Valid()
      ensures Volume() == Incremented3(old(Volume()), x as int, y as int, z as int, 1)
    {
      var k := Offset(x, y, z);
      Layout.Unflatten3Update(data[..], xDim as int, yDim as int, zDim as int, x as int, y as int, z as int, data[k] + 1);
      data[k] := data[k] + 1;
    }

    /** The width: a held buffer has XSize() cells per row. */
    function XSize(): (r: int32)
      reads this
      ensures Valid() && data != null ==> data.Length == r as int * yDim as int * zDim as int
    {
      xDim
    }

    /** The height: a held buffer has YSize() rows per plane. */
    function YSize(): (r: int32)
      reads this
      ensures Valid() && data != null ==> data.Length == xDim as int * r as int * zDim as int
    {
      yDim
    }

    /** The depth: a held buffer has ZSize() planes. */
    function ZSize(): (r: int32)
      reads this
      ensures Valid() && data != null ==> data.Length == xDim as int * yDim as int * r as int
    {
      zDim
    }

    /** The row-major offset of (x, y, z), computed in C `int` without
        overflow at any step and inside the buffer. */
    function Offset(x: int32, y: int32, z: int32): (k: int32)
      reads this
      requires InBounds(x, y, z) && FitsInt32(xDim as int * yDim as int * zDim as int)
      ensures k as int == Layout.Offset3(xDim as int, yDim as int, x as int, y as int, z as int)
      ensures 0 <= k as int < xDim as int * yDim as int * zDim as int
    {
      Layout.Offset3Bounds(xDim as int, yDim as int, zDim as int, x as int, y as int, z as int);
      z * xDim * yDim + y * xDim + x
    }
  }
}
