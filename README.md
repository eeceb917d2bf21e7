# SpeedSignDetector grids and detections in Dafny

This project models two self-contained pieces of the SpeedSignDetector's
detector library and proves their contracts:

- **`Array2D` and `Array3D`** (`Detector/arrays.cpp`). These are the integer grids the detector uses for
  angle maps and vote accumulators. Each holds its dimensions and a flat
  buffer of C `int`s. `init` releases any old buffer and `calloc`s a
  zero-filled one, and it reports an allocation failure by returning
  `false`. `clear` releases the buffer and is safe on a grid that holds
  none. `get`, `set` and `increment` index the buffer row-major without any
  checks, at `y*xSize + x` and `z*xSize*ySize + y*xSize + x`.
- **`Detection`** (`Detector/detection.cpp`). This is a bounding box
  (a Qt `QRect`) paired with an integer confidence. `==` compares both
  fields, and `<` compares the confidence only.

Files:

- `cint.dfy` (module `CInt`): the C `int` as a 32-bit newtype `int32`.
  Signed overflow is undefined behaviour in C. So every product and sum the
  C code computes is proved to stay in range, or is required to by a
  precondition (the cell count in `init`, the incremented cell).
- `layout.dfy` (module `Layout`): row-major offsets as pure functions, and
  the grids a flat buffer stands for (`Unflatten2` indexed `[y][x]`,
  `Unflatten3` indexed `[z][y][x]`). Lemmas prove that the offsets are
  in-range bijections and that writing one buffer cell writes exactly one
  grid cell.
- `arrays.dfy` (module `Arrays`): the classes `Array2D` and `Array3D`.
  Their fields are the dimensions and a nullable `array<int32>`, where
  `null` stands for the NULL buffer. `Matrix()` / `Volume()` is the
  abstract view that the method contracts are stated against. `Calloc` is
  the allocator, and whether memory is available is a nondeterministic
  choice. `Incremented2` / `Incremented3` describe n successive increments.
- `detection.dfy` (module `Detections`): `Rect` (a QRect as Qt stores it:
  left, top, right, bottom), the `Detection` datatype, `Equal` for
  `operator==`, `Less` for `operator<`, and the order laws.

Where the source leaves things to the caller, the model makes them
preconditions:
- `get`, `set` and `increment` need an allocated grid (`data != null`) and
  in-range indices (`InBounds`).
- `increment` needs a cell below `INT_MAX`.
- `init` needs a cell count that does not overflow `int`.
- The argument-less `init()` needs the dimensions to have been given, by
  the sized constructor or by `init(x, y[, z])`. The default constructor
  only sets the buffer to NULL (`Detector/arrays.cpp:6-10`), and the ghost
  field `sized` records this.

`calloc` with a negative count is modelled as always failing. The count is
converted to a huge `size_t`, so the allocation cannot succeed.

The size accessors `xSize()`, `ySize()` and `zSize()` are the functions
`XSize`, `YSize` and `ZSize`. The sized constructors and `InitSized` state
that they return exactly the sizes given. The value constructor `Detection(QRect, int)` is the datatype
constructor `Detection(box, confidence)`, whose two fields are exactly its
arguments.

## Model

| member | source | states |
|---|---|---|
| `Layout.Offset2Bounds` | Detector/arrays.cpp:79-82 | for 0 <= x < xSize and 0 <= y < ySize, the 2D offset y*xSize + x lies in [0, xSize*ySize) |
| `Layout.Offset2Injective` | Detector/arrays.cpp:79-82 | two pairs whose columns are in range and whose offsets are equal are the same pair |
| `Layout.Offset2Inverse` | Detector/arrays.cpp:79-82 | every buffer index k < xSize*ySize is the offset of the in-bounds pair (k % xSize, k / xSize), so the 2D offset is onto the buffer |
| `Layout.Offset2Coordinates` | Detector/arrays.cpp:79-82 | dividing an offset by xSize gives back y, and the remainder gives back x |
| `Layout.Offset3Split` | Detector/arrays.cpp:165-168 | the 3D offset is the 2D offset, in a grid of whole planes, of the in-plane 2D offset |
| `Layout.Offset3Bounds` | Detector/arrays.cpp:165-168 | for in-bounds (x, y, z), the 3D offset and every partial product and sum of the C expression lie in [0, xSize*ySize*zSize) |
| `Layout.Offset3Injective` | Detector/arrays.cpp:165-168 | distinct in-bounds triples have distinct 3D offsets |
| `Layout.Offset3Inverse` | Detector/arrays.cpp:165-168 | every buffer index below xSize*ySize*zSize is the 3D offset of one in-bounds triple, recovered by division and remainder |
| `Layout.Unflatten2At` | Detector/arrays.cpp:54-57 | cell [y][x] of the grid a buffer stands for is the buffer cell at offset y*xSize + x |
| `Layout.Unflatten2Update` | Detector/arrays.cpp:59-62 | writing v at the offset of (x, y) changes grid cell (x, y) to v and no other cell |
| `Layout.Unflatten2Filled` | Detector/arrays.cpp:28-37 | an all-zero buffer (what calloc returns) stands for an all-zero grid |
| `Layout.Unflatten3At` | Detector/arrays.cpp:135-138 | cell [z][y][x] of the 3D grid is the buffer cell at offset z*xSize*ySize + y*xSize + x |
| `Layout.Unflatten3Update` | Detector/arrays.cpp:140-143 | writing v at the offset of (x, y, z) changes 3D grid cell (x, y, z) to v and no other cell |
| `Layout.Unflatten3Filled` | Detector/arrays.cpp:108-117 | an all-zero buffer stands for an all-zero 3D grid |
| `Arrays.Calloc` | Detector/arrays.cpp:31 | calloc returns either NULL or a fresh buffer of exactly the requested cell count, all zero; a negative count always gives NULL |
| `Arrays.Incremented2` | Detector/arrays.cpp:64-67 | n increments of cell (x, y) raise that cell by exactly n and leave every other cell and the grid's shape unchanged |
| `Arrays.IncrementedStep2` | Detector/arrays.cpp:64-67 | one increment after n increments is n + 1 increments, which is how a run of `increment` calls composes |
| `Arrays.IncrementFromZero2` | Detector/arrays.cpp:64-67 | n increments of a cell of a freshly initialised (all-zero) grid leave n in it and zero everywhere else |
| `Arrays.Incremented3` | Detector/arrays.cpp:145-148 | n increments of cell (x, y, z) raise that cell by exactly n and leave every other cell unchanged |
| `Arrays.IncrementedStep3` | Detector/arrays.cpp:145-148 | one increment after n is n + 1 increments, in 3D |
| `Arrays.IncrementFromZero3` | Detector/arrays.cpp:145-148 | n increments of a cell of a freshly initialised 3D grid leave n in it and zero elsewhere |
| `Arrays.Array2D.constructor` | Detector/arrays.cpp:6-10 | the default grid holds no buffer and has no dimensions yet |
| `Arrays.Array2D.Sized` | Detector/arrays.cpp:12-18 | the sized constructor holds no buffer, and afterwards XSize() and YSize() return exactly its arguments |
| `Arrays.Array2D.Init` | Detector/arrays.cpp:28-37 | returns true iff a buffer is held afterwards; on success the buffer is fresh, has xSize*ySize cells and every grid cell is 0; a negative cell count always fails; the dimensions are unchanged |
| `Arrays.Array2D.InitSized` | Detector/arrays.cpp:39-44 | afterwards XSize() and YSize() return exactly the arguments, and the outcome is that of Init for those sizes |
| `Arrays.Array2D.Clear` | Detector/arrays.cpp:46-52 | no buffer is held afterwards, the dimensions are unchanged, and on a grid that held none nothing changes (so a second call is a no-op) |
| `Arrays.Array2D.Get` | Detector/arrays.cpp:54-57 | on an allocated grid with in-range indices, returns grid cell (x, y) |
| `Arrays.Array2D.Set` | Detector/arrays.cpp:59-62 | the new grid is the old one with cell (x, y) replaced by v and every other cell unchanged, so a following Get(x, y) returns v |
| `Arrays.Array2D.Increment` | Detector/arrays.cpp:64-67 | the new grid is the old one incremented once at (x, y): that cell plus one, all others unchanged |
| `Arrays.Array2D.XSize` | Detector/arrays.cpp:69-72 | returns the width the sized constructor or InitSized stored; a held buffer has XSize()*ySize cells |
| `Arrays.Array2D.YSize` | Detector/arrays.cpp:74-77 | returns the height the sized constructor or InitSized stored; a held buffer has xSize*YSize() cells |
| `Arrays.Array2D.Offset` | Detector/arrays.cpp:79-82 | for in-range indices, the offset computed in C int does not overflow, equals y*xSize + x and lies inside the buffer |
| `Arrays.Array3D.constructor` | Detector/arrays.cpp:85-89 | the default grid holds no buffer and has no dimensions yet |
| `Arrays.Array3D.Sized` | Detector/arrays.cpp:91-98 | the sized constructor holds no buffer, and afterwards XSize(), YSize() and ZSize() return exactly its arguments |
| `Arrays.Array3D.Init` | Detector/arrays.cpp:108-117 | returns true iff a buffer is held afterwards; on success it is fresh, has xSize*ySize*zSize cells and every grid cell is 0; a negative count always fails |
| `Arrays.Array3D.InitSized` | Detector/arrays.cpp:119-125 | afterwards XSize(), YSize() and ZSize() return exactly the arguments, and the outcome is that of Init |
| `Arrays.Array3D.Clear` | Detector/arrays.cpp:127-133 | no buffer is held afterwards, the dimensions are unchanged, and on a grid that held none nothing changes |
| `Arrays.Array3D.Get` | Detector/arrays.cpp:135-138 | on an allocated grid with in-range indices, returns grid cell (x, y, z) |
| `Arrays.Array3D.Set` | Detector/arrays.cpp:140-143 | the new grid is the old one with cell (x, y, z) replaced by v and every other cell unchanged |
| `Arrays.Array3D.Increment` | Detector/arrays.cpp:145-148 | the new grid is the old one with cell (x, y, z) plus one and all others unchanged |
| `Arrays.Array3D.XSize` | Detector/arrays.cpp:150-153 | returns the width the sized constructor or InitSized stored; a held buffer has XSize()*ySize*zSize cells |
| `Arrays.Array3D.YSize` | Detector/arrays.cpp:155-158 | returns the height the sized constructor or InitSized stored; a held buffer has xSize*YSize()*zSize cells |
| `Arrays.Array3D.ZSize` | Detector/arrays.cpp:160-163 | returns the depth the sized constructor or InitSized stored; a held buffer has xSize*ySize*ZSize() cells |
| `Arrays.Array3D.Offset` | Detector/arrays.cpp:165-168 | for in-range indices, the offset computed in C int overflows at no step, equals z*xSize*ySize + y*xSize + x and lies inside the buffer |
| `Detections.DefaultDetection` | Detector/detection.cpp:3-7 | a default detection has confidence 0 and a null box (width and height 0) at the origin |
| `Detections.Equal` | Detector/detection.cpp:16-19 | `==` holds iff both box and confidence are equal, i.e. iff the two values are identical |
| `Detections.Less` | Detector/detection.cpp:21-24 | `<` compares confidences only, and never holds between a detection and itself |
| `Detections.EqualIsEquivalence` | Detector/detection.cpp:16-19 | `==` is reflexive, symmetric and transitive |
| `Detections.LessIsStrictWeakOrder` | Detector/detection.cpp:21-24 | `<` is irreflexive and transitive, and incomparability under it is transitive |
| `Detections.LessAsymmetric` | Detector/detection.cpp:21-24 | `a < b` and `b < a` never both hold |
| `Detections.LessIgnoresBox` | Detector/detection.cpp:21-24 | changing either box never changes the outcome of `<` |
| `Detections.IncomparableIffSameConfidence` | Detector/detection.cpp:21-24 | neither `a < b` nor `b < a` holds iff the confidences are equal |
| `Detections.EqualImpliesIncomparable` | Detector/detection.cpp:16-24 | `a == b` implies neither `a < b` nor `b < a` |
| `Detections.IncomparableNotEqual` | Detector/detection.cpp:16-24 | the converse fails: some pair is incomparable under `<` without being `==` (same confidence, different boxes) |

## Left out

- The destructors (`Detector/arrays.cpp:20-26`, `100-106`) free the buffer. Releasing memory has no observable effect in the model beyond what `Clear` states.
- `Arrays.Calloc`: whether a non-negative request succeeds depends on free memory, which the model does not have, so the outcome is chosen nondeterministically. A zero count may succeed with an empty buffer or fail, as C allows.
- `Arrays.Array2D.Matrix` / `Arrays.Array3D.Volume` give no addressable cell when a dimension is negative. The source would still allocate `xSize*ySize` cells when both sizes are negative, but no in-range index reaches them.
- Qt's `QRect` is modelled only by its four stored coordinates, its structural equality and its default value; its geometry operations are not used by `Detection`.
- `Detector/math_utilities.cpp` (`atan2upperHalfPlane`, `atan2Positive`) is floating-point code over the C library's `atan2` and is not part of this model.
- `Detector/detector.cpp`, the command-line tool and the viewer are image I/O, argument parsing, Qt signals and GUI code. They are not part of this model.
