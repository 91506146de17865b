/** `projectOnto`: each vertex of a face is projected onto a plane along the
    line from the eye through it. The plane is a parameter here: the source
    names an unused parameter `palm` and reads a global `plane` that the file
    never defines. A face is its sequence of vertices. */
module Projection {
  import opened Vectors
  import opened Planes

  /** One step of the loop: the ray from `eye` towards `vertex`, with its
      direction normalized, intersected with `plane`. When the normalization
      factor is non-zero, the ray misses the plane exactly when the line of
      sight is parallel to it, and a hit lies on the plane and on the line
      through the eye and the vertex. */
  function ProjectVertex(eye: Vec3, vertex: Vec3, plane: Plane, invMag: Vec3 -> real): (r: Intersection)
    ensures invMag(Subtract(vertex, eye)) != 0.0 ==>
              (r.Parallel? <==> Dot(Subtract(vertex, eye), plane.normal) == 0.0)
    ensures r.Hit? ==> OnPlane(r.p, plane) && OnLine(r.p, eye, Subtract(vertex, eye))
  {
    var d := Subtract(vertex, eye);
    var direction := Normalize(d, invMag);
    SightLine(d, invMag(d), plane.normal);
    var r := RayIntersection(plane, eye, direction);
    if r.Hit? then
      CrossScaleRight(Subtract(r.p, eye), d, invMag(d));
      MultiplyNonZero(Cross(Subtract(r.p, eye), d), invMag(d));
      r
    else
      r
  }

  /** Scaling the line of sight by `k` scales its product with the normal;
      a direction with a non-zero product has a non-zero factor. */
  lemma SightLine(d: Vec3, k: real, n: Vec3)
    ensures Dot(Multiply(d, k), n) == k * Dot(d, n)
    ensures Dot(Multiply(d, k), n) != 0.0 ==> k != 0.0
    ensures k != 0.0 ==> (Dot(Multiply(d, k), n) == 0.0 <==> Dot(d, n) == 0.0)
  {
    DotLinear(d, Zero, n, k);
  }

  /** A vertex that already lies on the plane, seen along a line that is not
      parallel to it, projects onto itself. */
  lemma VertexOnPlaneIsFixed(eye: Vec3, vertex: Vec3, plane: Plane, invMag: Vec3 -> real)
    requires OnPlane(vertex, plane)
    requires invMag(Subtract(vertex, eye)) != 0.0
    requires Dot(Subtract(vertex, eye), plane.normal) != 0.0
    ensures ProjectVertex(eye, vertex, plane, invMag) == Hit(vertex)
  {
    var d := Subtract(vertex, eye);
    var k := invMag(d);
    var direction := Normalize(d, invMag);
    SightLine(d, k, plane.normal);
    MultiplyLaws(d, k, 1.0 / k);
    assert k * (1.0 / k) == 1.0;
    assert Add(eye, Multiply(direction, 1.0 / k)) == vertex;
    RayIntersectionUnique(plane, eye, direction, 1.0 / k);
  }

  /** `projectOnto`: the projected face has one entry per vertex, in the same
      order, each the projection of the vertex at the same position; every
      hit lies on the plane. */
  method ProjectOnto(eye: Vec3, face: seq<Vec3>, plane: Plane, invMag: Vec3 -> real)
    returns (projected: seq<Intersection>)
    ensures |projected| == |face|
    ensures forall i :: 0 <= i < |face| ==> projected[i] == ProjectVertex(eye, face[i], plane, invMag)
    ensures forall i :: 0 <= i < |face| && projected[i].Hit? ==> OnPlane(projected[i].p, plane)
  {
    projected := [];
    for i := 0 to |face|
      invariant |projected| == i
      invariant forall j :: 0 <= j < i ==> projected[j] == ProjectVertex(eye, face[j], plane, invMag)
    {
      var direction := Normalize(Subtract(face[i], eye), invMag);
      projected := projected + [RayIntersection(plane, eye, direction)];
    }
  }
}
