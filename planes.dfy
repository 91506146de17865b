/** Planes given by a point and a normal, and the intersection of a ray's
    line with a plane (`Plane.prototype.rayIntersection`). */
module Planes {
  import opened Vectors

  /** A plane through `point`, perpendicular to `normal`. */
  datatype Plane = Plane(point: Vec3, normal: Vec3)

  /** The outcome of a ray–plane intersection. `Parallel` is the case where
      the ray direction is perpendicular to the normal: there the source
      divides by zero and produces non-finite coordinates. */
  datatype Intersection = Hit(p: Vec3) | Parallel

  /** `p` lies on `plane`. */
  predicate OnPlane(p: Vec3, plane: Plane)
  {
    Dot(Subtract(p, plane.point), plane.normal) == 0.0
  }

  /** `p` lies on the line through `start` along `direction`. */
  predicate OnLine(p: Vec3, start: Vec3, direction: Vec3)
  {
    Cross(Subtract(p, start), direction) == Zero
  }

  /** The point `rayStart + rayDirection * t` where `t` is the quotient of
      `(point - rayStart)·normal` by `rayDirection·normal`. The whole line
      counts: `t` may be negative. */
  function RayIntersection(plane: Plane, rayStart: Vec3, rayDirection: Vec3): (r: Intersection)
    ensures r.Parallel? <==> Dot(rayDirection, plane.normal) == 0.0
    ensures r.Hit? ==> OnPlane(r.p, plane) && OnLine(r.p, rayStart, rayDirection)
  {
    var denominator := Dot(rayDirection, plane.normal);
    if denominator == 0.0 then Parallel
    else
      var interval := Dot(Subtract(plane.point, rayStart), plane.normal) / denominator;
      var p := Add(rayStart, Multiply(rayDirection, interval));
      PointAtParameter(plane, rayStart, rayDirection, interval);
      Hit(p)
  }

  /** How far the point at parameter `t` of the line is from the plane,
      measured along the normal: linear in `t`. */
  lemma PointAtParameter(plane: Plane, start: Vec3, direction: Vec3, t: real)
    ensures Dot(Subtract(Add(start, Multiply(direction, t)), plane.point), plane.normal)
         == t * Dot(direction, plane.normal) - Dot(Subtract(plane.point, start), plane.normal)
    ensures OnLine(Add(start, Multiply(direction, t)), start, direction)
  {
    var q := Add(start, Multiply(direction, t));
    assert Subtract(q, plane.point) == Subtract(Multiply(direction, t), Subtract(plane.point, start));
    DotLinear(Multiply(direction, t), Subtract(plane.point, start), plane.normal, t);
    DotLinear(direction, direction, plane.normal, t);
    assert Subtract(q, start) == Multiply(direction, t);
    CrossScaleLeft(direction, direction, t);
    CrossAntiCommutative(direction, direction);
  }

  /** The hit point is the only point of the line on the plane: any parameter
      `s` whose point lies on the plane gives the point `RayIntersection` returns. */
  lemma RayIntersectionUnique(plane: Plane, start: Vec3, direction: Vec3, s: real)
    requires Dot(direction, plane.normal) != 0.0
    requires OnPlane(Add(start, Multiply(direction, s)), plane)
    ensures RayIntersection(plane, start, direction) == Hit(Add(start, Multiply(direction, s)))
  {
    var denominator := Dot(direction, plane.normal);
    var numerator := Dot(Subtract(plane.point, start), plane.normal);
    PointAtParameter(plane, start, direction, s);
    assert s * denominator == numerator;
    assert s == numerator / denominator;
  }

  /** A ray that starts on the plane and is not parallel to it hits the plane at its start. */
  lemma RayFromPlaneHitsAtStart(plane: Plane, start: Vec3, direction: Vec3)
    requires Dot(direction, plane.normal) != 0.0
    requires OnPlane(start, plane)
    ensures RayIntersection(plane, start, direction) == Hit(start)
  {
    MultiplyLaws(direction, 0.0, 0.0);
    AddLaws(start, start, start);
    RayIntersectionUnique(plane, start, direction, 0.0);
  }
}
