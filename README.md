# A verified model of a minimal JavaScript 3D renderer

`main.js` is a small perspective renderer for the browser. It has five parts:
- a `Vec3` value type with its arithmetic;
- planes, given by a point and a normal, which rays are intersected with;
- a `Camera`, built from an eye position, a point of interest and a
  view-window size;
- `projectOnto`, which projects the vertices of a face onto a plane;
- a `ScreenBuffer`, which wraps the RGBA bytes of a canvas.

The model has one Dafny module per part:

- `Vectors` (`vectors.dfy`): `Vec3` and its operations as functions over
  `real`. Laws cover inverse round trips, symmetry, linearity, orthogonality
  of the cross product and non-negativity of the squared magnitude.
- `Planes` (`planes.dfy`): `rayIntersection`. The result is `Parallel` when
  the direction is perpendicular to the normal; there the source divides by
  zero. Otherwise the result is the one point that lies both on the plane
  and on the ray's line.
- `Cameras` (`cameras.dfy`): the constructor's basis and view-window corners.
  The window is a parallelogram centred on the point of interest. Its edges
  are twice the scaled axes, and it lies in the plane spanned by the axes.
- `Projection` (`projection.dfy`): `projectOnto` as a loop that produces one
  intersection per vertex, in order.
- `Screen` (`screen.dfy`): `ScreenBuffer` as a class over an `array<int>` of
  bytes. `setPixel` is four indexed stores; `clear` replaces the buffer.

Numbers are mathematical reals standing in for JavaScript doubles.
`normalize` is called by `main.js` but never defined there. It is modelled as
scaling by `invMag(v)`, where `invMag` is a parameter standing for one over the
magnitude. Properties that put no condition on that factor hold whatever it
is. `Cameras.LevelCameraUpPointsDown` assumes positive factors,
`Cameras.AxesOfCameraOnZAxis` exact ones, and `Projection.ProjectVertex` (its
first clause) and `Projection.VertexOnPlaneIsFixed` a non-zero one.

The model follows the code as written, including where it departs from
common convention:

- The right axis is `lookDirection × worldUp`, the usual right-handed
  choice: for a camera at `(0, 0, -5)` looking at the origin it is
  `(-1, 0, 0)`. Only the up axis departs from convention. The code takes
  `lookDirection × camRight`, the negation of the usual
  `camRight × lookDirection`, so `camUp` is `(0, -1, 0)` there
  (`Cameras.AxesOfCameraOnZAxis`). It points down for every camera whose eye
  and point of interest are distinct and at the same height, when the
  normalization factors are positive, as a real `normalize` gives there
  (`Cameras.LevelCameraUpPointsDown`).
- `setPixel` does no bounds check: a column past the right edge lands in the
  next row (`Screen.ColumnOverflowWraps`), and a store outside the whole
  buffer is dropped by the typed array.
- `projectOnto` reads an undefined global `plane` and ignores its parameter
  `palm`. The model takes the plane as a parameter.

## Model

| member | source | states |
|---|---|---|
| Vectors.Add | main.js:10-14 | componentwise sum; no contract of its own, its laws are `AddLaws` and `AddSubtractInverse` |
| Vectors.Multiply | main.js:22-26 | scaling of every component by `s`; no contract of its own, its laws are `MultiplyLaws` and `MultiplyNonZero` |
| Vectors.Dot | main.js:102-105 | sum of the componentwise products; no contract of its own, its laws are `DotLaws` and `DotLinear` |
| Vectors.Cross | main.js:125-131 | the right-handed vector product; no contract of its own, its laws are `CrossOrthogonal`, `CrossAntiCommutative`, `CrossScaleLeft` and `CrossScaleRight` |
| Vectors.Normalize | main.js:119 | stands for the undefined `normalize` as scaling by `invMag(v)`; no contract of its own, `NormalizeParallel` states that its result stays on its argument's line |
| Vectors.Subtract | main.js:16-20 | the difference is the zero vector exactly when the two operands are equal |
| Vectors.AddSubtractInverse | main.js:10-20 | subtracting `b` undoes adding `b`, and adding `b` undoes subtracting `b` |
| Vectors.AddLaws | main.js:10-14 | `add` is commutative and associative, and the zero vector is its identity |
| Vectors.MultiplyLaws | main.js:22-26 | `multiply(1)` is the identity, `multiply(0)` gives the zero vector, and two scalings compose into one by the product |
| Vectors.MultiplyNonZero | main.js:22-26 | scaling by a non-zero factor gives the zero vector only from the zero vector |
| Vectors.MagnitudeSquared | main.js:28-32 | the sum of squares under the square root of `magnitude` is never negative |
| Vectors.DistanceSquared | main.js:34-39 | the sum under the square root of `distance` is never negative and equals the squared magnitude of `a - b` |
| Vectors.DistanceSquaredSymmetric | main.js:34-39 | `distance` is symmetric and is zero from a point to itself |
| Vectors.DotLaws | main.js:102-105 | `dotProduct` is symmetric, and a vector's product with itself is its squared magnitude, so never negative |
| Vectors.DotLinear | main.js:102-105 | `dotProduct` distributes over `add` and `subtract` and pulls out a scalar factor |
| Vectors.CrossOrthogonal | main.js:125-131 | the cross product has zero dot product with each of its operands |
| Vectors.CrossAntiCommutative | main.js:125-131 | swapping the operands negates the cross product, and a vector crossed with itself is zero |
| Vectors.CrossScaleLeft | main.js:125-131 | scaling the first operand by `s` scales the cross product by `s` |
| Vectors.CrossScaleRight | main.js:125-131 | scaling the second operand by `s` scales the cross product by `s` |
| Vectors.NormalizeParallel | main.js:119 | whatever factor `normalize` applies, its result has zero cross product with its argument, so it lies on the same line |
| Planes.RayIntersection | main.js:107-113 | the result is `Parallel` exactly when the direction's dot product with the normal is zero; otherwise the point lies on the plane and on the line through `rayStart` along `rayDirection` |
| Planes.PointAtParameter | main.js:107-113 | the point `rayStart + rayDirection*t` lies on the ray's line, and its signed offset from the plane along the normal is `t*(direction·normal) - (point - rayStart)·normal` |
| Planes.RayIntersectionUnique | main.js:107-113 | when the direction is not parallel to the plane, every parameter whose point lies on the plane gives the point `rayIntersection` returns |
| Planes.RayFromPlaneHitsAtStart | main.js:107-113 | a ray that starts on the plane and is not parallel to it hits the plane at its start |
| Cameras.ViewCorners | main.js:142-149 | four corners whose diagonals both have midpoint `poi`; the edges corner0→corner1 and corner3→corner2 are `2*camUp*size`, and corner0→corner3 and corner1→corner2 are `2*camRight*size` |
| Cameras.MakeCamera | main.js:133-149 | the constructor keeps position, point of interest and size. `camRight` is perpendicular to the line of sight and to world up. `camUp` is perpendicular to the line of sight and to `camRight`. The corners are `ViewCorners` of the computed axes |
| Cameras.BasisOrthogonal | main.js:138-140 | for any normalization factors, the right axis is perpendicular to the line of sight and to world up, and the up axis is perpendicular to the line of sight and to the right axis |
| Cameras.CornersCoplanar | main.js:142-149 | every corner lies in the plane through `poi` whose normal is `camRight × camUp` |
| Cameras.WindowExtents | main.js:151-152 | the squared lengths behind `horizontalMag` and `verticalMag` are `4*size²` times the squared lengths of `camRight` and `camUp`; the two window edges have dot product `4*size²*(camRight·camUp)` |
| Cameras.AxesOfCameraOnZAxis | main.js:133-140 | a camera at `(0,0,-5)` looking at the origin, with exact normalization factors, gets `camRight = (-1,0,0)` and `camUp = (0,-1,0)` |
| Cameras.LevelCameraUpPointsDown | main.js:133-140 | for every camera whose eye and point of interest are at the same height, with positive normalization factors, `camUp` has a negative dot product with world up |
| Projection.ProjectVertex | main.js:118-120 | when the normalization factor is non-zero, the vertex misses the plane exactly when the eye→vertex line is parallel to it. A hit lies on the plane and on the line through the eye and the vertex |
| Projection.VertexOnPlaneIsFixed | main.js:118-120 | a vertex already on the plane, seen along a line that is not parallel to it, projects to itself |
| Projection.ProjectOnto | main.js:115-123 | the output has as many entries as the face has vertices, in the same order. Entry `i` is the projection of vertex `i`, and every hit lies on the plane |
| Screen.ClampByte | main.js:172-174 | a value stored into the pixel array becomes a byte; bytes are kept unchanged; negative values become 0 and values above 255 become 255 |
| Screen.PixelIndex | main.js:171 | the index `(y*width + x)*4` of a pixel's red byte; no contract of its own, `PixelIndexInBounds`, `PixelIndexDisjoint` and `ColumnOverflowWraps` state where it lands |
| Screen.Painted | main.js:170-176 | the buffer after the four stores keeps its length and every byte outside `idx..idx+3`. When the pixel lies inside the buffer, it holds the clamped red, green and blue values followed by 255. A buffer of bytes stays a buffer of bytes |
| Screen.PaintedGroup | main.js:170-176 | byte by byte, also for a group of four that runs past either end of the buffer: every index `idx + i` inside the buffer holds the `i`-th of the clamped red, green, blue and 255 |
| Screen.PixelIndexInBounds | main.js:171 | for a pixel inside a `width`×`height` canvas, all four bytes at `(y*width + x)*4` lie inside a buffer of `width*height*4` bytes |
| Screen.PixelIndexDisjoint | main.js:171 | two different pixels with columns inside the row get groups of four bytes that do not overlap |
| Screen.ColumnOverflowWraps | main.js:171 | with no bounds check, column `x + width` of row `y` addresses the same bytes as column `x` of row `y + 1` |
| Screen.PaintedReadBack | main.js:170-176 | after painting an in-canvas pixel, that pixel reads back as the clamped colour with alpha 255, and every other in-canvas pixel reads as before |
| Screen.ScreenBuffer.constructor | main.js:158-167 | the buffer records the canvas size and holds a fresh copy of the image data's bytes |
| Screen.ScreenBuffer.SetPixel | main.js:170-176 | the pixel array becomes `Painted` of its old contents at `(y*width + x)*4`, and the buffer still holds `width*height*4` bytes |
| Screen.ScreenBuffer.Clear | main.js:181-185 | the size is unchanged and the pixel array is a fresh all-zero buffer of the same size |

## Left out

- `magnitude`, `distance`, `horizontalMag` and `verticalMag` need `Math.sqrt`, so only the sums under the square root are modelled.
- `normalize` is not defined in `main.js`; the model takes its factor as the parameter `invMag`. That the factor gives unit length, and the failure on a zero vector, are not modelled.
- `makePlaneFromTriangle` is not defined in `main.js`, so the camera's `plane` field is not modelled. `Cameras.CornersCoplanar` states the plane the corners span.
- The `Camera` record does not hold `lookDirection`, `horizontalMag`, `verticalMag` or `plane`. The squares of the two magnitudes are stated by `Cameras.WindowExtents`.
- `Face`, `Mesh`, `makeFace` and `createCube` are plain containers or broken assembly code: `makeFace` returns nothing and is called with two arguments. A face is a `seq<Vec3>`, and `projectOnto` returns a `seq<Intersection>` instead of a `Face`.
- `draw`, `main`, `window.onload` and `console.log` are canvas and page I/O. The constructor's `getElementById` and `getImageData` become its parameters, and `clear`'s `clearRect` becomes its effect of all-zero image data.
- `setPixel` rounds the pixel coordinates with `Math.round`; the model takes integer coordinates. Colour channels are integers; the typed array's rounding of non-integer values is not modelled.
- IEEE-754 rounding, NaN and Infinity are not modelled. A division by zero in `rayIntersection` becomes the `Parallel` outcome.
- Vectors.MagnitudeSquared: states non-negativity but not that the sum is zero only for the zero vector.
- Projection.ProjectVertex: relates a miss to the line of sight only when the normalization factor is non-zero, since a zero factor makes every ray parallel.
