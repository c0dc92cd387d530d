/** The reflection engine (src/reflection.ts): `checkAndGetReflection` and
    `reflect`, mutually recursive through the shared counter
    `renderSettings.recursions`.

    The counter is threaded as a value: each call takes the settings and
    returns the counter it leaves behind. `Traced.bounces` records the
    counter value on entry to every `reflect` call of the chain, in call
    order; it is bookkeeping of the model, not state of the source. */
module Reflection {
  import opened Types
  import opened Intersection
  import opened Shading

  /** A traced colour, the counter afterwards, and the counter value on entry
      to each `reflect` call made. */
  datatype Traced = Traced(color: Color, recursions: nat, bounces: seq<nat>)

  /** The offset factor of the reflected-ray origin. */
  const ReflectBias: real := 0.01

  function Max(a: nat, b: nat): nat { if a < b then b else a }

  /** The bounces were entered with the counter at `start`, `start + 1`, ...:
      every `reflect` call adds exactly one to the counter. */
  predicate Consecutive(bounces: seq<nat>, start: nat) {
    forall i :: 0 <= i < |bounces| ==> bounces[i] == start + i
  }

  /** `Color.lerpColors(a, b, t)`, channel by channel. */
  function Lerp(a: Color, b: Color, t: real): (c: Color)
    ensures t == 0.0 ==> c == a
    ensures t == 1.0 ==> c == b
  {
    Color(a.r + (b.r - a.r) * t, a.g + (b.g - a.g) * t, a.b + (b.b - a.b) * t)
  }

  /** Reflectivity 0 keeps the local colour, reflectivity 1 gives the
      reflected colour. */
  lemma LerpEnds(a: Color, b: Color)
    ensures Lerp(a, b, 0.0) == a
    ensures Lerp(a, b, 1.0) == b
  {
  }

  /** For a reflectivity in [0, 1] each channel of the blend lies between the
      two colours' channels. */
  lemma LerpBetween(a: Color, b: Color, t: real, ch: Channel)
    requires 0.0 <= t <= 1.0
    ensures var v := Get(Lerp(a, b, t), ch);
            (Get(a, ch) <= v <= Get(b, ch)) || (Get(b, ch) <= v <= Get(a, ch))
  {
    var v := Get(Lerp(a, b, t), ch);
    assert v == Get(a, ch) + (Get(b, ch) - Get(a, ch)) * t by {
      match ch
      case R =>
      case G =>
      case B =>
    }
    LerpScalar(Get(a, ch), Get(b, ch), t, v);
  }

  lemma LerpScalar(x: real, y: real, t: real, v: real)
    requires 0.0 <= t <= 1.0 && v == x + (y - x) * t
    ensures (x <= v <= y) || (y <= v <= x)
  {
    var p := (y - x) * t;
    if x <= y {
      ScaleWithin(y - x, t, p);
      assert x <= v <= y;
    } else {
      ScaleWithin(x - y, t, -p);
      assert y <= v <= x;
    }
  }

  lemma ScaleWithin(d: real, t: real, p: real)
    requires d >= 0.0 && 0.0 <= t <= 1.0 && p == d * t
    ensures 0.0 <= p <= d
  {
    assert d - p == d * (1.0 - t);
  }

  /** The reflected ray of `reflect`. The unit normal is scaled in place by
      `2 (incident . n)` to form the direction, and the origin offset is then
      taken along that scaled vector. */
  function ReflectedRay(o: Oracles, hit: Hit, incident: Vec3): (ray: Ray)
    ensures var n := o.normalize(hit.normal);
            Dot(n, n) == 1.0 ==> Dot(ray.direction, n) == -Dot(incident, n)
  {
    var n := o.normalize(hit.normal);
    var scaled := Scale(n, Dot(incident, n) * 2.0);
    MirrorFlipsNormal(incident, n, Dot(incident, n) * 2.0);
    Ray(Add(hit.worldPosition, Scale(scaled, ReflectBias)), Sub(incident, scaled))
  }

  /** Taking k n off i takes k (n.n) off the component along n. */
  lemma MirrorFlipsNormal(i: Vec3, n: Vec3, k: real)
    ensures Dot(Sub(i, Scale(n, k)), n) == Dot(i, n) - k * Dot(n, n)
  {
  }

  /** The reflected direction is the mirror formula `i - 2 (i.n) n`, and the
      origin sits `0.02 (i.n) n` from the hit rather than `0.01 n`: for a ray
      arriving against the normal that offset points into the surface. */
  lemma ReflectedRayShape(o: Oracles, hit: Hit, incident: Vec3)
    ensures var n := o.normalize(hit.normal);
            var d := Dot(incident, n);
            var ray := ReflectedRay(o, hit, incident);
            && ray.direction == Sub(incident, Scale(n, 2.0 * d))
            && Sub(ray.origin, hit.worldPosition) == Scale(n, 0.02 * d)
            && (d < 0.0 && Dot(n, n) > 0.0 ==> Dot(Sub(ray.origin, hit.worldPosition), n) < 0.0)
  {
    var n := o.normalize(hit.normal);
    var d := Dot(incident, n);
    var ray := ReflectedRay(o, hit, incident);
    var k := 0.02 * d;
    assert Sub(ray.origin, hit.worldPosition) == Scale(n, k) by {
      assert n.x * (d * 2.0) * ReflectBias == n.x * k;
      assert n.y * (d * 2.0) * ReflectBias == n.y * k;
      assert n.z * (d * 2.0) * ReflectBias == n.z * k;
    }
    if d < 0.0 && Dot(n, n) > 0.0 {
      assert Dot(Scale(n, k), n) == k * Dot(n, n);
      NegativeTimesPositive(k, Dot(n, n));
    }
  }

  lemma NegativeTimesPositive(k: real, p: real)
    requires k < 0.0 && p > 0.0
    ensures k * p < 0.0
  {
  }

  /** The room the counter has left below `maxRecursions`. */
  function Budget(rs: RenderSettings): nat {
    if rs.maxRecursions > rs.recursions then rs.maxRecursions - rs.recursions else 0
  }

  /** `checkAndGetReflection`: a mirror surface with budget left
      (`maxRecursions > recursions`) blends its colour with the reflected
      colour by its reflectivity; any other surface keeps its colour and the
      counter. The counter only grows, by one per `reflect` call, and never
      passes `maxRecursions` unless it started above it. */
  function CheckAndGetReflection(o: Oracles, scene: Scene, cam: Camera, rs: RenderSettings, hit: Hit,
                                 incident: Vec3, phongColor: Color): (r: Traced)
    requires LightsReady(scene, rs)
    ensures Consecutive(r.bounces, rs.recursions) && r.recursions == rs.recursions + |r.bounces|
    ensures r.recursions <= Max(rs.recursions, rs.maxRecursions)
    ensures !(hit.isMirror && rs.maxRecursions > rs.recursions) ==> r == Traced(phongColor, rs.recursions, [])
    ensures hit.isMirror && rs.maxRecursions > rs.recursions ==>
              && |r.bounces| >= 1
              && r.color == Lerp(phongColor, Reflect(o, scene, cam, rs, hit, incident).color, hit.reflectivity)
    decreases Budget(rs), if rs.recursions < rs.maxRecursions then 1 else 0, 0
  {
    if hit.isMirror && rs.maxRecursions > rs.recursions then
      var reflected := Reflect(o, scene, cam, rs, hit, incident);
      Traced(Lerp(phongColor, reflected.color, hit.reflectivity), reflected.recursions, reflected.bounces)
    else
      Traced(phongColor, rs.recursions, [])
  }

  /** `reflect`: casts the reflected ray, adds one to the counter, and gives
      black on a miss. On a hit it shades the nearest hit with the configured
      mode (all-lights seen from the mirror point, one light from the
      camera) with the counter already raised and, with mirrors on, lets the
      shaded hit reflect in turn along the reflected direction. */
  function Reflect(o: Oracles, scene: Scene, cam: Camera, rs: RenderSettings, hit: Hit,
                   incident: Vec3): (r: Traced)
    requires LightsReady(scene, rs)
    ensures |r.bounces| >= 1 && r.bounces[0] == rs.recursions
    ensures Consecutive(r.bounces, rs.recursions) && r.recursions == rs.recursions + |r.bounces|
    ensures r.recursions <= Max(rs.recursions + 1, rs.maxRecursions)
    ensures !rs.mirrors ==> |r.bounces| == 1
    ensures |IntersectRay(o, ReflectedRay(o, hit, incident), scene, rs)| == 1
            ==> r == Traced(Black, rs.recursions + 1, [rs.recursions])
    decreases Budget(rs), 0, 2
  {
    ReflectAlong(o, scene, cam, rs, hit, ReflectedRay(o, hit, incident))
  }

  /** The colour `reflect` gives for a reflected hit: the nearest hit shaded
      with the counter already raised (all-lights seen from the mirror
      point, one light from the camera), reflected in turn along the
      reflected direction when mirrors are on. */
  lemma ReflectedHitColor(o: Oracles, scene: Scene, cam: Camera, rs: RenderSettings, hit: Hit,
                          incident: Vec3)
    requires LightsReady(scene, rs)
    ensures var ray := ReflectedRay(o, hit, incident);
            var hits := IntersectRay(o, ray, scene, rs);
            var counted := rs.(recursions := rs.recursions + 1);
            |hits| > 1 ==>
              var sh := ShadeHit(o, scene, cam, counted, Nearest(hits), hit.worldPosition);
              Reflect(o, scene, cam, rs, hit, incident).color
              == (if rs.mirrors
                  then CheckAndGetReflection(o, scene, cam, counted, sh.hit, ray.direction, sh.color).color
                  else sh.color)
  {
    var ray := ReflectedRay(o, hit, incident);
    assert Reflect(o, scene, cam, rs, hit, incident) == ReflectAlong(o, scene, cam, rs, hit, ray);
    ReflectAlongColor(o, scene, cam, rs, hit, ray);
  }

  /** The colour of a hit of the reflected ray, before the ray's arithmetic
      is unfolded. */
  lemma ReflectAlongColor(o: Oracles, scene: Scene, cam: Camera, rs: RenderSettings, hit: Hit, ray: Ray)
    requires LightsReady(scene, rs)
    ensures var hits := IntersectRay(o, ray, scene, rs);
            var counted := rs.(recursions := rs.recursions + 1);
            |hits| > 1 ==>
              var sh := ShadeHit(o, scene, cam, counted, Nearest(hits), hit.worldPosition);
              ReflectAlong(o, scene, cam, rs, hit, ray).color
              == (if rs.mirrors
                  then CheckAndGetReflection(o, scene, cam, counted, sh.hit, ray.direction, sh.color).color
                  else sh.color)
  {
    var hits := IntersectRay(o, ray, scene, rs);
    if |hits| > 1 {
      var counted := rs.(recursions := rs.recursions + 1);
      var sh := ShadeHit(o, scene, cam, counted, Nearest(hits), hit.worldPosition);
      var r := ReflectAlong(o, scene, cam, rs, hit, ray);
      if rs.mirrors {
        var nested := CheckAndGetReflection(o, scene, cam, counted, sh.hit, ray.direction, sh.color);
        assert r == Traced(nested.color, nested.recursions, [rs.recursions] + nested.bounces);
      } else {
        assert r == Traced(sh.color, counted.recursions, [rs.recursions]);
      }
    }
  }

  /** The part of `reflect` after the reflected ray is built: the trace of
      `ray`, cast from the mirror hit `hit`. */
  function ReflectAlong(o: Oracles, scene: Scene, cam: Camera, rs: RenderSettings, hit: Hit,
                        ray: Ray): (r: Traced)
    requires LightsReady(scene, rs)
    ensures |r.bounces| >= 1 && r.bounces[0] == rs.recursions
    ensures Consecutive(r.bounces, rs.recursions) && r.recursions == rs.recursions + |r.bounces|
    ensures r.recursions <= Max(rs.recursions + 1, rs.maxRecursions)
    ensures !rs.mirrors ==> |r.bounces| == 1
    ensures |IntersectRay(o, ray, scene, rs)| == 1 ==> r == Traced(Black, rs.recursions + 1, [rs.recursions])
    decreases Budget(rs), 0, 1
  {
    var hits := IntersectRay(o, ray, scene, rs);
    var counted := rs.(recursions := rs.recursions + 1);
    if |hits| > 1 then
      var shaded := ShadeHit(o, scene, cam, counted, Nearest(hits), hit.worldPosition);
      if counted.mirrors then
        var nested := CheckAndGetReflection(o, scene, cam, counted, shaded.hit, ray.direction, shaded.color);
        Traced(nested.color, nested.recursions, [rs.recursions] + nested.bounces)
      else
        Traced(shaded.color, counted.recursions, [rs.recursions])
    else
      Traced(Black, counted.recursions, [rs.recursions])
  }

  /** After the per-ray reset to 0, a reflection chain makes at most
      `maxRecursions` `reflect` calls. */
  lemma ReflectionChainBounded(o: Oracles, scene: Scene, cam: Camera, rs: RenderSettings, hit: Hit,
                               incident: Vec3, phongColor: Color)
    requires LightsReady(scene, rs) && rs.recursions == 0
    ensures |CheckAndGetReflection(o, scene, cam, rs, hit, incident, phongColor).bounces| <= rs.maxRecursions
  {
  }
}
