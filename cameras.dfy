/** The `Camera` constructor: a view basis derived from the eye position and
    the point of interest, and the four corners of the view window around
    the point of interest. */
module Cameras {
  import opened Vectors

  /** The world's up direction, against which the camera's right axis is taken. */
  const WorldUp: Vec3 := Vec3(0.0, 1.0, 0.0)

  /** The fields the constructor sets. `horizontalMag`, `verticalMag` and the
      view plane are not part of this record (see `WindowExtents`). */
  datatype Camera = Camera(position: Vec3, poi: Vec3, size: real,
                           camRight: Vec3, camUp: Vec3, viewCorners: seq<Vec3>)

  /** The view window: with `h = camRight*size` and `v = camUp*size`, the
      corners `poi-h-v`, `poi-h+v`, `poi+h+v`, `poi+h-v`, in that order. They
      form a parallelogram centred on `poi` whose edges are `2v` and `2h`. */
  function ViewCorners(poi: Vec3, camRight: Vec3, camUp: Vec3, size: real): (c: seq<Vec3>)
    ensures |c| == 4
    ensures Add(c[0], c[2]) == Multiply(poi, 2.0) && Add(c[1], c[3]) == Multiply(poi, 2.0)
    ensures Subtract(c[1], c[0]) == Multiply(Multiply(camUp, size), 2.0)
    ensures Subtract(c[3], c[0]) == Multiply(Multiply(camRight, size), 2.0)
    ensures Subtract(c[2], c[1]) == Subtract(c[3], c[0])
    ensures Subtract(c[2], c[3]) == Subtract(c[1], c[0])
  {
    var h := Multiply(camRight, size);
    var v := Multiply(camUp, size);
    [Subtract(Subtract(poi, h), v),
     Add(Subtract(poi, h), v),
     Add(Add(poi, h), v),
     Subtract(Add(poi, h), v)]
  }

  /** The constructor's arithmetic. `normalize` is not defined in main.js, so
      each normalization scales its argument by `invMag` of it (see
      `Vectors.Normalize`). Whatever those factors are, the right axis is
      horizontal and perpendicular to the line of sight, and the up axis is
      perpendicular to both. */
  function MakeCamera(position: Vec3, pointOfInterest: Vec3, size: real, invMag: Vec3 -> real): (cam: Camera)
    ensures cam.position == position && cam.poi == pointOfInterest && cam.size == size
    ensures Dot(cam.camRight, Subtract(pointOfInterest, position)) == 0.0
    ensures Dot(cam.camRight, WorldUp) == 0.0
    ensures Dot(cam.camUp, Subtract(pointOfInterest, position)) == 0.0
    ensures Dot(cam.camUp, cam.camRight) == 0.0
    ensures cam.viewCorners == ViewCorners(pointOfInterest, cam.camRight, cam.camUp, size)
  {
    var lookDirection := Normalize(Subtract(pointOfInterest, position), invMag);
    var camRight := Normalize(Cross(lookDirection, WorldUp), invMag);
    var camUp := Normalize(Cross(lookDirection, camRight), invMag);
    BasisOrthogonal(Subtract(pointOfInterest, position), invMag);
    Camera(position, pointOfInterest, size, camRight, camUp,
           ViewCorners(pointOfInterest, camRight, camUp, size))
  }

  /** The orthogonality facts behind `MakeCamera`'s contract. */
  lemma BasisOrthogonal(d: Vec3, invMag: Vec3 -> real)
    ensures var look := Normalize(d, invMag);
            var right := Normalize(Cross(look, WorldUp), invMag);
            var up := Normalize(Cross(look, right), invMag);
            Dot(right, d) == 0.0 && Dot(right, WorldUp) == 0.0 &&
            Dot(up, d) == 0.0 && Dot(up, right) == 0.0
  {
    var k := invMag(d);
    var x := Cross(Normalize(d, invMag), WorldUp);
    var right := Normalize(x, invMag);
    var y := Cross(Normalize(d, invMag), right);
    // the look direction is d scaled, so x and y are perpendicular to d as
    // well as to their second operands, and so are their scalings
    CrossScaleLeft(d, WorldUp, k);
    CrossOrthogonal(d, WorldUp);
    DotLinear(Cross(d, WorldUp), Zero, d, k);
    DotLinear(Cross(d, WorldUp), Zero, WorldUp, k);
    DotLinear(x, Zero, d, invMag(x));
    DotLinear(x, Zero, WorldUp, invMag(x));
    CrossScaleLeft(d, right, k);
    CrossOrthogonal(d, right);
    DotLinear(Cross(d, right), Zero, d, k);
    DotLinear(Cross(d, right), Zero, right, k);
    DotLinear(y, Zero, d, invMag(y));
    DotLinear(y, Zero, right, invMag(y));
  }

  /** The four corners lie in one plane: the plane through `poi` spanned by
      the two axes. */
  lemma CornersCoplanar(poi: Vec3, camRight: Vec3, camUp: Vec3, size: real)
    ensures var c := ViewCorners(poi, camRight, camUp, size);
            forall i :: 0 <= i < 4 ==> Dot(Subtract(c[i], poi), Cross(camRight, camUp)) == 0.0
  {
    var c := ViewCorners(poi, camRight, camUp, size);
    var n := Cross(camRight, camUp);
    var h := Multiply(camRight, size);
    var v := Multiply(camUp, size);
    CrossOrthogonal(camRight, camUp);
    DotLaws(n, camRight);
    DotLaws(n, camUp);
    DotLinear(camRight, Zero, n, size);
    DotLinear(camUp, Zero, n, size);
    assert Dot(h, n) == 0.0 && Dot(v, n) == 0.0;
    DotLinear(h, v, n, 1.0);
    DotLinear(Zero, h, n, 1.0);
    DotLinear(Zero, v, n, 1.0);
    DotLinear(Multiply(h, -1.0), v, n, 1.0);
    DotLinear(h, Zero, n, -1.0);
    assert Subtract(c[0], poi) == Subtract(Multiply(h, -1.0), v);
    assert Subtract(c[1], poi) == Add(Multiply(h, -1.0), v);
    assert Subtract(c[2], poi) == Add(h, v);
    assert Subtract(c[3], poi) == Subtract(h, v);
  }

  /** `horizontalMag` and `verticalMag` are the lengths of the window's edges
      `corner3 - corner0` and `corner1 - corner0`: their squares are
      `4*size²` times the squared lengths of the axes. The edges are
      perpendicular exactly when the axes are. */
  lemma WindowExtents(poi: Vec3, camRight: Vec3, camUp: Vec3, size: real)
    ensures var c := ViewCorners(poi, camRight, camUp, size);
            && MagnitudeSquared(Subtract(c[3], c[0])) == 4.0 * size * size * MagnitudeSquared(camRight)
            && MagnitudeSquared(Subtract(c[1], c[0])) == 4.0 * size * size * MagnitudeSquared(camUp)
            && Dot(Subtract(c[3], c[0]), Subtract(c[1], c[0])) == 4.0 * size * size * Dot(camRight, camUp)
  {
    var h2 := Multiply(Multiply(camRight, size), 2.0);
    var v2 := Multiply(Multiply(camUp, size), 2.0);
    EdgeDot(camRight, camRight, size);
    EdgeDot(camUp, camUp, size);
    EdgeDot(camRight, camUp, size);
    DotLaws(h2, h2);
    DotLaws(v2, v2);
    DotLaws(camRight, camRight);
    DotLaws(camUp, camUp);
  }

  /** Scaling both operands by `2*size` scales the dot product by `4*size²`. */
  lemma EdgeDot(a: Vec3, b: Vec3, size: real)
    ensures Dot(Multiply(Multiply(a, size), 2.0), Multiply(Multiply(b, size), 2.0))
         == 4.0 * size * size * Dot(a, b)
  {
    var m := size * 2.0;
    MultiplyLaws(a, size, 2.0);
    MultiplyLaws(b, size, 2.0);
    DotLinear(a, Zero, Multiply(b, m), m);
    DotLaws(a, Multiply(b, m));
    DotLinear(b, Zero, a, m);
    DotLaws(a, b);
    FourSizeSquared(size, m, Dot(a, b));
  }

  lemma FourSizeSquared(size: real, m: real, d: real)
    requires m == size * 2.0
    ensures m * (m * d) == 4.0 * size * size * d
  {
  }

  /** For every level camera (eye and point of interest at the same height)
      whose normalization factors are positive, the up axis points against
      the world's up direction: `lookDirection × camRight` is the negation
      of the conventional `camRight × lookDirection`. */
  lemma LevelCameraUpPointsDown(position: Vec3, pointOfInterest: Vec3, size: real, invMag: Vec3 -> real)
    requires pointOfInterest.y == position.y && pointOfInterest != position
    requires forall v :: invMag(v) > 0.0
    ensures Dot(MakeCamera(position, pointOfInterest, size, invMag).camUp, WorldUp) < 0.0
  {
    var look := LevelLook(Subtract(pointOfInterest, position), invMag);
    var right := LevelRight(look, invMag);
    var up := LevelUp(look, right, invMag);
    assert Dot(up, WorldUp) == up.y;
  }

  /** A level line of sight normalizes to a level, non-zero direction. */
  lemma LevelLook(d: Vec3, invMag: Vec3 -> real) returns (look: Vec3)
    requires d.y == 0.0 && d != Zero
    requires forall v :: invMag(v) > 0.0
    ensures look == Normalize(d, invMag)
    ensures look.y == 0.0 && (look.x != 0.0 || look.z != 0.0)
  {
    look := Normalize(d, invMag);
    MultiplyNonZero(d, invMag(d));
  }

  /** The right axis of a level direction is level; its `z` has the sign of
      the direction's `x`, and its `x` the sign of the direction's `-z`. */
  lemma LevelRight(look: Vec3, invMag: Vec3 -> real) returns (right: Vec3)
    requires forall v :: invMag(v) > 0.0
    requires look.y == 0.0
    ensures right == Normalize(Cross(look, WorldUp), invMag)
    ensures (look.x > 0.0 ==> right.z > 0.0) && (look.x < 0.0 ==> right.z < 0.0) && (look.x == 0.0 ==> right.z == 0.0)
    ensures (-look.z > 0.0 ==> right.x > 0.0) && (-look.z < 0.0 ==> right.x < 0.0) && (-look.z == 0.0 ==> right.x == 0.0)
  {
    right := Normalize(Cross(look, WorldUp), invMag);
    var m := invMag(Cross(look, WorldUp));
    assert right == Vec3(-look.z * m, 0.0, look.x * m);
    SameSign(look.x, m);
    SameSign(-look.z, m);
  }

  /** The up axis built from such a right axis has negative height. */
  lemma LevelUp(look: Vec3, right: Vec3, invMag: Vec3 -> real) returns (up: Vec3)
    requires forall v :: invMag(v) > 0.0
    requires look.x != 0.0 || look.z != 0.0
    requires (look.x > 0.0 ==> right.z > 0.0) && (look.x < 0.0 ==> right.z < 0.0) && (look.x == 0.0 ==> right.z == 0.0)
    requires (-look.z > 0.0 ==> right.x > 0.0) && (-look.z < 0.0 ==> right.x < 0.0) && (-look.z == 0.0 ==> right.x == 0.0)
    ensures up == Normalize(Cross(look, right), invMag)
    ensures up.y < 0.0
  {
    var y := Cross(look, right);
    up := Normalize(y, invMag);
    OppositeSigns(look.x, look.z, right.x, right.z);
    assert y.y == look.z * right.x - look.x * right.z;
    SameSign(y.y, invMag(y));
  }

  /** Scaling by a positive factor keeps the sign. */
  lemma SameSign(a: real, m: real)
    requires m > 0.0
    ensures a > 0.0 ==> a * m > 0.0
    ensures a < 0.0 ==> a * m < 0.0
    ensures a == 0.0 ==> a * m == 0.0
  {
  }

  /** `lz*rx - lx*rz` is negative when `rz` has the sign of `lx`, `rx` the
      sign of `-lz`, and `lx`, `lz` are not both zero. */
  lemma OppositeSigns(lx: real, lz: real, rx: real, rz: real)
    requires lx != 0.0 || lz != 0.0
    requires (lx > 0.0 ==> rz > 0.0) && (lx < 0.0 ==> rz < 0.0) && (lx == 0.0 ==> rz == 0.0)
    requires (-lz > 0.0 ==> rx > 0.0) && (-lz < 0.0 ==> rx < 0.0) && (-lz == 0.0 ==> rx == 0.0)
    ensures lz * rx - lx * rz < 0.0
  {
  }

  /** A camera five units behind the origin looking at it, with exact
      normalization factors (one over each vector's length). As written, the
      right axis is `lookDirection × worldUp = (-1, 0, 0)` and the up axis is
      `lookDirection × camRight = (0, -1, 0)`, which points against the world's
      up direction. */
  lemma AxesOfCameraOnZAxis(invMag: Vec3 -> real)
    requires invMag(Vec3(0.0, 0.0, 5.0)) == 0.2
    requires invMag(Vec3(-1.0, 0.0, 0.0)) == 1.0
    requires invMag(Vec3(0.0, -1.0, 0.0)) == 1.0
    ensures var cam := MakeCamera(Vec3(0.0, 0.0, -5.0), Zero, 1.0, invMag);
            cam.camRight == Vec3(-1.0, 0.0, 0.0) && cam.camUp == Vec3(0.0, -1.0, 0.0)
  {
    // The three steps are separate lemmas: proved together, the concrete
    // arithmetic through the function-valued `invMag` runs out of resource.
    var look := LookAlongZ(invMag);
    var right := RightAlongZ(look, invMag);
    var up := UpAlongZ(look, right, invMag);
    assert MakeCamera(Vec3(0.0, 0.0, -5.0), Zero, 1.0, invMag).camRight == right;
  }

  /** The look direction of that camera. */
  lemma LookAlongZ(invMag: Vec3 -> real) returns (look: Vec3)
    requires invMag(Vec3(0.0, 0.0, 5.0)) == 0.2
    ensures look == Vec3(0.0, 0.0, 1.0)
    ensures look == Normalize(Subtract(Zero, Vec3(0.0, 0.0, -5.0)), invMag)
  {
    look := Normalize(Vec3(0.0, 0.0, 5.0), invMag);
  }

  /** Its right axis. */
  lemma RightAlongZ(look: Vec3, invMag: Vec3 -> real) returns (right: Vec3)
    requires look == Vec3(0.0, 0.0, 1.0)
    requires invMag(Vec3(-1.0, 0.0, 0.0)) == 1.0
    ensures right == Vec3(-1.0, 0.0, 0.0)
    ensures right == Normalize(Cross(look, WorldUp), invMag)
  {
    assert Cross(look, WorldUp) == Vec3(-1.0, 0.0, 0.0);
    right := Normalize(Vec3(-1.0, 0.0, 0.0), invMag);
  }

  /** Its up axis. */
  lemma UpAlongZ(look: Vec3, right: Vec3, invMag: Vec3 -> real) returns (up: Vec3)
    requires look == Vec3(0.0, 0.0, 1.0) && right == Vec3(-1.0, 0.0, 0.0)
    requires invMag(Vec3(0.0, -1.0, 0.0)) == 1.0
    ensures up == Vec3(0.0, -1.0, 0.0)
    ensures up == Normalize(Cross(look, right), invMag)
  {
    assert Cross(look, right) == Vec3(0.0, -1.0, 0.0);
    up := Normalize(Vec3(0.0, -1.0, 0.0), invMag);
  }
}
