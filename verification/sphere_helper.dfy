/** The analytic sphere test (src/sphere_helper.ts). */
module SphereHelper {
  import opened Types

  /** The hit record carries the material of the mesh it was found on. */
  predicate CopiesMaterial(hit: Hit, material: Material) {
    && hit.objectColor == material.color
    && hit.specular == material.specular
    && hit.shininess == material.shininess
    && hit.isMirror == material.mirror
    && hit.reflectivity == material.reflectivity
  }

  /** Whether the child is a mesh whose geometry is a `SphereGeometry`. */
  predicate IsSphere(child: Child) {
    child.MeshChild? && child.mesh.geometry.SphereGeometry?
  }

  /** The record pushed for an analytic hit at `point`: distance from the
      ray origin, outward normal `point - centre` normalised, and the
      material of the mesh. */
  function SphereRecord(o: Oracles, ray: Ray, m: Mesh, point: Vec3): Hit {
    var material := m.material;
    Hit(o.distanceTo(point, ray.origin), material.color, point,
        o.normalize(Sub(point, m.position)), material.specular, material.shininess,
        material.mirror, material.reflectivity)
  }

  /** `rayToSphere`: for a sphere mesh, runs `Ray.intersectSphere` against the
      sphere at the mesh position with the geometry's radius. It reports true
      exactly when the child is a sphere and the test finds a point; then it
      has appended one record, and otherwise the list is unchanged. */
  function RayToSphere(o: Oracles, ray: Ray, child: Child, hits: seq<Hit>): (r: (bool, seq<Hit>))
    ensures r.0 <==> IsSphere(child)
                     && o.intersectSphere(ray, child.mesh.position, child.mesh.geometry.radius).Some?
    ensures !r.0 ==> r.1 == hits
    ensures r.0 ==> |r.1| == |hits| + 1 && r.1[..|hits|] == hits
    ensures r.0 ==>
              var p := o.intersectSphere(ray, child.mesh.position, child.mesh.geometry.radius).value;
              && CopiesMaterial(r.1[|hits|], child.mesh.material)
              && r.1[|hits|].worldPosition == p
              && r.1[|hits|].distanceFromOrigin == o.distanceTo(p, ray.origin)
  {
    match child
    case LightChild(_) => (false, hits)
    case MeshChild(m) =>
      match m.geometry
      case OtherGeometry => (false, hits)
      case SphereGeometry(radius) =>
        match o.intersectSphere(ray, m.position, radius)
        case None => (false, hits)
        case Some(p) => (true, hits + [SphereRecord(o, ray, m, p)])
  }

  /** The square root the closed form needs does not return negatives. */
  predicate SqrtNonNegative(o: Oracles, v: real) {
    v >= 0.0 ==> o.sqrt(v) >= 0.0
  }

  /** The squared distance from the sphere centre to the line of the ray,
      for a unit direction: `|l|^2 - (l.dir)^2` with `l = centre - origin`. */
  function SphereD2(dir: Vec3, center: Vec3, origin: Vec3): real {
    var l := Sub(center, origin);
    Dot(l, l) - Dot(l, dir) * Dot(l, dir)
  }

  /** The point at parameter t along a ray. */
  function PointAt(origin: Vec3, dir: Vec3, t: real): Vec3 {
    Add(origin, Scale(dir, t))
  }

  /** The squared distance from the centre of the point at t, expanded as a
      quadratic in t. */
  lemma {:induction false} DistanceQuadratic(origin: Vec3, dir: Vec3, center: Vec3, t: real)
    requires Dot(dir, dir) == 1.0
    ensures var q := Sub(PointAt(origin, dir, t), center);
            var l := Sub(center, origin);
            Dot(q, q) == t * t - 2.0 * t * Dot(l, dir) + Dot(l, l)
  {
    var l := Sub(center, origin);
    var q := Sub(PointAt(origin, dir, t), center);
    assert q == Vec3(dir.x * t - l.x, dir.y * t - l.y, dir.z * t - l.z);
    assert (dir.x * t - l.x) * (dir.x * t - l.x) == dir.x * dir.x * (t * t) - 2.0 * t * (l.x * dir.x) + l.x * l.x;
    assert (dir.y * t - l.y) * (dir.y * t - l.y) == dir.y * dir.y * (t * t) - 2.0 * t * (l.y * dir.y) + l.y * l.y;
    assert (dir.z * t - l.z) * (dir.z * t - l.z) == dir.z * dir.z * (t * t) - 2.0 * t * (l.z * dir.z) + l.z * l.z;
    assert (dir.x * dir.x + dir.y * dir.y + dir.z * dir.z) * (t * t) == t * t;
  }

  /** With tca +- thc and thc^2 = r^2 - (|l|^2 - tca^2), the quadratic is r^2. */
  lemma RootOnQuadratic(t: real, tca: real, thc: real, ll: real, r2: real)
    requires t == tca - thc || t == tca + thc
    requires thc * thc == r2 - (ll - tca * tca)
    ensures t * t - 2.0 * t * tca + ll == r2
  {
    assert t * t - 2.0 * t * tca == (t - tca) * (t - tca) - tca * tca;
    assert (t - tca) * (t - tca) == thc * thc;
  }

  /** `getSphereIntersections` (unused by the renderer): the closed-form roots
      of a ray with unit direction `dir` from `origin` against a sphere.
      With `l = centre - origin`, `tca = l.dir` and `d2 = |l|^2 - tca^2`, there
      are no roots when `d2 > radius^2`; otherwise the two roots are
      symmetric about `tca`, the first no greater than the second. */
  function GetSphereIntersections(o: Oracles, dir: Vec3, radius: real, center: Vec3, origin: Vec3)
    : (r: Option<(real, real)>)
    ensures r.None? <==> SphereD2(dir, center, origin) > radius * radius
    ensures r.Some? ==> r.value.0 + r.value.1 == 2.0 * Dot(Sub(center, origin), dir)
    ensures r.Some? ==> r.value.1 - r.value.0 == 2.0 * o.sqrt(radius * radius - SphereD2(dir, center, origin))
    ensures r.Some? && SqrtNonNegative(o, radius * radius - SphereD2(dir, center, origin))
            ==> r.value.0 <= r.value.1
  {
    var tca := Dot(Sub(center, origin), dir);
    var d2 := SphereD2(dir, center, origin);
    if d2 > radius * radius then None
    else
      var thc := o.sqrt(radius * radius - d2);
      Some((tca - thc, tca + thc))
  }
  /** The point is at distance `radius` from the centre. */
  predicate OnSphere(p: Vec3, center: Vec3, radius: real) {
    var q := Sub(p, center);
    Dot(q, q) == radius * radius
  }

  /** A root `tca +- thc` of the closed form puts its point on the sphere. */
  lemma RootPointOnSphere(origin: Vec3, dir: Vec3, center: Vec3, radius: real, t: real, tca: real, thc: real)
    requires Dot(dir, dir) == 1.0
    requires tca == Dot(Sub(center, origin), dir)
    requires thc * thc == radius * radius - SphereD2(dir, center, origin)
    requires t == tca - thc || t == tca + thc
    ensures OnSphere(PointAt(origin, dir, t), center, radius)
  {
    var l := Sub(center, origin);
    DistanceQuadratic(origin, dir, center, t);
    assert SphereD2(dir, center, origin) == Dot(l, l) - tca * tca;
    RootOnQuadratic(t, tca, thc, Dot(l, l), radius * radius);
  }

  /** Both roots lie on the sphere: for a unit direction and a square root
      that squares back, the point at either root is at distance `radius`
      from the centre. */
  lemma RootsOnSphere(o: Oracles, dir: Vec3, radius: real, center: Vec3, origin: Vec3)
    requires Dot(dir, dir) == 1.0
    requires var v := radius * radius - SphereD2(dir, center, origin); o.sqrt(v) * o.sqrt(v) == v
    ensures var r := GetSphereIntersections(o, dir, radius, center, origin);
            r.Some? ==> OnSphere(PointAt(origin, dir, r.value.0), center, radius)
                        && OnSphere(PointAt(origin, dir, r.value.1), center, radius)
  {
    var r := GetSphereIntersections(o, dir, radius, center, origin);
    if r.Some? {
      var tca := Dot(Sub(center, origin), dir);
      var thc := o.sqrt(radius * radius - SphereD2(dir, center, origin));
      assert r.value == (tca - thc, tca + thc);
      RootPointOnSphere(origin, dir, center, radius, r.value.0, tca, thc);
      RootPointOnSphere(origin, dir, center, radius, r.value.1, tca, thc);
    }
  }
}

