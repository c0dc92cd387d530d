/** The shading engine of src/helper.ts: `getPointLights`, `PhongOneLight`,
    `PhongAllLights`, `actualShadow`, and the three-way shading dispatch.

    The shadow test aliases the shadow ray's origin with the hit record's
    position and then adds the 0.01 bias to it in place, so every shadow test
    moves the hit record 0.01 along its normal. The model returns the moved
    record (`Shaded.hit`) and later stages use it, as the source does. */
module Shading {
  import opened Types
  import opened Intersection

  /** A shading result: the colour and the hit record as the shading left it. */
  datatype Shaded = Shaded(color: Color, hit: Hit)

  /** One light's shading step: whether it is shadowed, its unshadowed
      Blinn-Phong contribution, and the hit record afterwards. */
  datatype LightResult = LightResult(shadowed: bool, color: Color, hit: Hit)

  /** The offset along the normal of the shadow-ray origin. */
  const ShadowBias: real := 0.01

  // ---------------------------------------------------------------------
  // Lights
  // ---------------------------------------------------------------------

  function PointLightsOf(children: seq<Child>): (lights: seq<PointLight>)
    ensures |lights| <= |children|
    ensures forall l :: l in lights <==> LightChild(l) in children
    decreases |children|
  {
    if |children| == 0 then []
    else
      var first := match children[0]
                   case LightChild(l) => [l]
                   case MeshChild(_) => [];
      var rest := PointLightsOf(children[1..]);
      assert forall c :: c in children <==> c == children[0] || c in children[1..];
      first + rest
  }

  /** The filter keeps scene order: the first light child is the first point
      light, which is the one one-light shading reads. */
  lemma {:induction false} FirstPointLight(children: seq<Child>, i: nat)
    requires i < |children| && children[i].LightChild?
    requires forall j :: 0 <= j < i ==> children[j].MeshChild?
    ensures |PointLightsOf(children)| > 0 && PointLightsOf(children)[0] == children[i].light
    decreases i
  {
    if i > 0 {
      assert children[0].MeshChild?;
      FirstPointLight(children[1..], i - 1);
    }
  }

  /** The filter distributes over concatenation: the lights of an earlier
      part of the scene come before those of a later part. */
  lemma {:induction false} PointLightsAppend(a: seq<Child>, b: seq<Child>)
    ensures PointLightsOf(a + b) == PointLightsOf(a) + PointLightsOf(b)
    decreases |a|
  {
    if |a| > 0 {
      assert (a + b)[0] == a[0];
      assert (a + b)[1..] == a[1..] + b;
      PointLightsAppend(a[1..], b);
    } else {
      assert a + b == b;
    }
  }

  /** `getPointLights`: the point lights among the scene's children, in order. */
  function GetPointLights(scene: Scene): (lights: seq<PointLight>)
    ensures |lights| <= |scene.children|
    ensures forall l :: l in lights <==> LightChild(l) in scene.children
  {
    PointLightsOf(scene.children)
  }

  /** One-light Phong reads `getPointLights(scene)[0]`; a scene without a
      point light would make the source throw, so that mode needs one. */
  predicate LightsReady(scene: Scene, rs: RenderSettings) {
    rs.phong && !rs.allLights ==> |GetPointLights(scene)| > 0
  }

  // ---------------------------------------------------------------------
  // Shadow test
  // ---------------------------------------------------------------------

  /** `actualShadow`: the occluder counts when the shaded point is strictly
      farther from the light than from the occluder. */
  function ActualShadow(o: Oracles, point: Vec3, lightPos: Vec3, occluder: Vec3): (shadowed: bool)
    ensures occluder == lightPos ==> !shadowed
  {
    o.distanceTo(point, lightPos) > o.distanceTo(point, occluder)
  }

  function DistSq(a: Vec3, b: Vec3): real {
    Dot(Sub(a, b), Sub(a, b))
  }

  /** The distance service is Euclidean between these two points. */
  predicate EuclideanAt(o: Oracles, a: Vec3, b: Vec3) {
    o.distanceTo(a, b) >= 0.0 && o.distanceTo(a, b) * o.distanceTo(a, b) == DistSq(a, b)
  }

  /** With a Euclidean distance, `actualShadow` holds exactly when the
      occluder is strictly nearer to the point than the light is. */
  lemma ActualShadowBySquaredDistance(o: Oracles, point: Vec3, lightPos: Vec3, occluder: Vec3)
    requires EuclideanAt(o, point, lightPos) && EuclideanAt(o, point, occluder)
    ensures ActualShadow(o, point, lightPos, occluder) <==> DistSq(point, occluder) < DistSq(point, lightPos)
  {
    SquareMonotone(o.distanceTo(point, lightPos), o.distanceTo(point, occluder));
  }

  lemma SquareMonotone(a: real, b: real)
    requires a >= 0.0 && b >= 0.0
    ensures a > b <==> a * a > b * b
  {
    assert a * a - b * b == (a - b) * (a + b);
    if a > b {
      PositiveProduct(a - b, a + b);
    } else {
      NonNegativeProduct(b - a, a + b);
    }
  }

  lemma PositiveProduct(x: real, y: real)
    requires x > 0.0 && y > 0.0
    ensures x * y > 0.0
  {
  }

  lemma NonNegativeProduct(x: real, y: real)
    requires x >= 0.0 && y >= 0.0
    ensures x * y >= 0.0
  {
  }

  /** The hit record after one shadow test: moved by the bias along its normal. */
  function Shifted(hit: Hit): Hit {
    hit.(worldPosition := Add(hit.worldPosition, Scale(hit.normal, ShadowBias)))
  }

  /** The hit record moved by k shadow tests. */
  function Drift(hit: Hit, k: nat): Hit {
    hit.(worldPosition := Add(hit.worldPosition, Scale(hit.normal, ShadowBias * k as real)))
  }

  /** The shadow ray from `from` towards the light. */
  function ShadowRay(o: Oracles, from: Vec3, lightPos: Vec3): Ray {
    Ray(from, o.normalize(Sub(lightPos, from)))
  }

  /** The shadow ray from `from` hits something, and its nearest hit passes
      `actualShadow`. */
  function Occluded(o: Oracles, scene: Scene, rs: RenderSettings, from: Vec3, lightPos: Vec3): bool {
    var hits := IntersectRay(o, ShadowRay(o, from, lightPos), scene, rs);
    |hits| > 1 && ActualShadow(o, from, lightPos, Nearest(hits).worldPosition)
  }

  // ---------------------------------------------------------------------
  // Phong
  // ---------------------------------------------------------------------

  /** The Blinn-Phong colour of one light at the hit, seen from `viewOrigin`. */
  function Contribution(o: Oracles, light: PointLight, hit: Hit, viewOrigin: Vec3): Color {
    var lightRay := Sub(light.position, hit.worldPosition);
    var viewRay := Sub(viewOrigin, hit.worldPosition);
    var intensity := Scale(ColorToVec(light.color), light.intensity);
    VecToColor(o.blinnPhong(lightRay, hit.normal, viewRay, intensity,
                            hit.shininess, hit.specular, hit.objectColor))
  }

  /** The body shared by `PhongOneLight` and one iteration of
      `PhongAllLights`: the light and view vectors are taken before the
      shadow test moves the hit record. */
  function LightStep(o: Oracles, scene: Scene, rs: RenderSettings, light: PointLight, hit: Hit,
                     viewOrigin: Vec3): LightResult
  {
    var color := Contribution(o, light, hit, viewOrigin);
    if !rs.shadows then LightResult(false, color, hit)
    else
      var moved := Shifted(hit);
      LightResult(Occluded(o, scene, rs, moved.worldPosition, light.position), color, moved)
  }

  /** `PhongOneLight`: black when the light is shadowed, otherwise the light's
      contribution seen from the camera. With shadows on, the hit record
      comes back moved once along its normal. */
  function PhongOneLight(o: Oracles, scene: Scene, rs: RenderSettings, light: PointLight, hit: Hit,
                         cam: Camera): (r: Shaded)
    ensures r.hit == Drift(hit, if rs.shadows then 1 else 0)
    ensures rs.shadows && Occluded(o, scene, rs, Shifted(hit).worldPosition, light.position)
            ==> r.color == Black
    ensures !(rs.shadows && Occluded(o, scene, rs, Shifted(hit).worldPosition, light.position))
            ==> r.color == Contribution(o, light, hit, cam.position)
  {
    var step := LightStep(o, scene, rs, light, hit, cam.position);
    assert Drift(hit, 0) == hit;
    assert Drift(hit, 1) == Shifted(hit);
    Shaded(if step.shadowed then Black else step.color, step.hit)
  }

  /** The loop of `PhongAllLights` from the given accumulated colour on: a
      shadowed light is skipped and the loop goes on with the next one. */
  function AccumulateLights(o: Oracles, scene: Scene, rs: RenderSettings, lights: seq<PointLight>,
                            hit: Hit, viewOrigin: Vec3, acc: Color): (r: Shaded)
    ensures r.hit == Drift(hit, if rs.shadows then |lights| else 0)
    decreases |lights|
  {
    if |lights| == 0 then
      assert Drift(hit, 0) == hit;
      Shaded(acc, hit)
    else
      var step := LightStep(o, scene, rs, lights[0], hit, viewOrigin);
      var acc' := if step.shadowed then acc else AddColor(acc, step.color);
      var r := AccumulateLights(o, scene, rs, lights[1..], step.hit, viewOrigin, acc');
      DriftStep(hit, if rs.shadows then |lights| - 1 else 0, rs.shadows);
      r
  }

  /** Moving k times and then once more (or not at all) is one drift. */
  lemma DriftStep(hit: Hit, k: nat, moved: bool)
    ensures Drift(if moved then Shifted(hit) else hit, k) == Drift(hit, if moved then k + 1 else k)
  {
    if moved {
      var n := hit.normal;
      assert n.x * ShadowBias + n.x * (ShadowBias * k as real) == n.x * (ShadowBias * (k + 1) as real);
      assert n.y * ShadowBias + n.y * (ShadowBias * k as real) == n.y * (ShadowBias * (k + 1) as real);
      assert n.z * ShadowBias + n.z * (ShadowBias * k as real) == n.z * (ShadowBias * (k + 1) as real);
    }
  }

  /** `PhongAllLights`: the sum, from black, of the contributions of the
      lights that are not shadowed, each seen from `viewOrigin`. */
  function PhongAllLights(o: Oracles, scene: Scene, rs: RenderSettings, lights: seq<PointLight>,
                          hit: Hit, viewOrigin: Vec3): (sh: Shaded)
    ensures !rs.shadows ==> sh.hit == hit && sh.color == SumContributions(o, lights, hit, viewOrigin)
  {
    if rs.shadows then AccumulateLights(o, scene, rs, lights, hit, viewOrigin, Black)
    else
      AllLightsWithoutShadows(o, scene, rs, lights, hit, viewOrigin, Black);
      AccumulateLights(o, scene, rs, lights, hit, viewOrigin, Black)
  }

  /** The plain sum of every light's contribution at a fixed hit record. */
  function SumContributions(o: Oracles, lights: seq<PointLight>, hit: Hit, viewOrigin: Vec3): Color
    decreases |lights|
  {
    if |lights| == 0 then Black
    else AddColor(Contribution(o, lights[0], hit, viewOrigin), SumContributions(o, lights[1..], hit, viewOrigin))
  }

  /** Without shadows nothing is skipped and the hit never moves: the result
      is the accumulated colour plus every light's contribution. */
  lemma {:induction false} AllLightsWithoutShadows(o: Oracles, scene: Scene, rs: RenderSettings,
                                                   lights: seq<PointLight>, hit: Hit, viewOrigin: Vec3, acc: Color)
    requires !rs.shadows
    ensures AccumulateLights(o, scene, rs, lights, hit, viewOrigin, acc)
            == Shaded(AddColor(acc, SumContributions(o, lights, hit, viewOrigin)), hit)
    decreases |lights|
  {
    if |lights| > 0 {
      var c := Contribution(o, lights[0], hit, viewOrigin);
      AllLightsWithoutShadows(o, scene, rs, lights[1..], hit, viewOrigin, AddColor(acc, c));
    }
  }

  /** Appending a light to the list: a shadowed last light leaves the colour
      as it was (it is skipped, not blackened), an unshadowed one adds its
      contribution at the hit record as the earlier lights left it. */
  lemma {:induction false} AllLightsAppend(o: Oracles, scene: Scene, rs: RenderSettings, lights: seq<PointLight>,
                                           light: PointLight, hit: Hit, viewOrigin: Vec3, acc: Color)
    ensures var before := AccumulateLights(o, scene, rs, lights, hit, viewOrigin, acc);
            var step := LightStep(o, scene, rs, light, before.hit, viewOrigin);
            AccumulateLights(o, scene, rs, lights + [light], hit, viewOrigin, acc)
            == Shaded(if step.shadowed then before.color else AddColor(before.color, step.color), step.hit)
    decreases |lights|
  {
    if |lights| == 0 {
      assert [] + [light] == [light];
      assert [light][1..] == [];
    } else {
      var step0 := LightStep(o, scene, rs, lights[0], hit, viewOrigin);
      var acc' := if step0.shadowed then acc else AddColor(acc, step0.color);
      assert (lights + [light])[0] == lights[0];
      assert (lights + [light])[1..] == lights[1..] + [light];
      AllLightsAppend(o, scene, rs, lights[1..], light, step0.hit, viewOrigin, acc');
    }
  }

  /** All-lights shading of a single light seen from the camera is one-light
      shading of that light. */
  lemma OneLightIsAllLightsOfOne(o: Oracles, scene: Scene, rs: RenderSettings, light: PointLight, hit: Hit,
                                 cam: Camera)
    ensures PhongAllLights(o, scene, rs, [light], hit, cam.position)
            == PhongOneLight(o, scene, rs, light, hit, cam)
  {
    var step := LightStep(o, scene, rs, light, hit, cam.position);
    var acc := if step.shadowed then Black else AddColor(Black, step.color);
    assert [light][0] == light;
    assert [light][1..] == [];
    assert AccumulateLights(o, scene, rs, [], step.hit, cam.position, acc) == Shaded(acc, step.hit);
    assert AccumulateLights(o, scene, rs, [light], hit, cam.position, Black)
           == AccumulateLights(o, scene, rs, [], step.hit, cam.position, acc);
    assert AddColor(Black, step.color) == step.color;
  }

  // ---------------------------------------------------------------------
  // Dispatch
  // ---------------------------------------------------------------------

  /** How many shadow tests the dispatch runs on the hit record. */
  function ShadowTests(scene: Scene, rs: RenderSettings): nat {
    if !rs.phong || !rs.shadows then 0
    else if !rs.allLights then 1
    else |GetPointLights(scene)|
  }

  /** The shading dispatch of `RTRenderPass` and `reflect`: Phong with the
      first point light, Phong summed over all lights seen from
      `allLightsOrigin`, or the raw object colour. The hit record moves only
      through shadow tests, once per light tested. */
  function ShadeHit(o: Oracles, scene: Scene, cam: Camera, rs: RenderSettings, hit: Hit,
                    allLightsOrigin: Vec3): (r: Shaded)
    requires LightsReady(scene, rs)
    ensures !rs.phong ==> r == Shaded(hit.objectColor, hit)
    ensures r.hit == Drift(hit, ShadowTests(scene, rs))
    ensures rs.phong && !rs.allLights
            ==> r.color == PhongOneLight(o, scene, rs, GetPointLights(scene)[0], hit, cam).color
    ensures rs.phong && rs.allLights
            ==> r.color == PhongAllLights(o, scene, rs, GetPointLights(scene), hit, allLightsOrigin).color
  {
    if rs.phong && !rs.allLights then
      PhongOneLight(o, scene, rs, GetPointLights(scene)[0], hit, cam)
    else if rs.phong && rs.allLights then
      PhongAllLights(o, scene, rs, GetPointLights(scene), hit, allLightsOrigin)
    else
      assert Drift(hit, 0) == hit;
      Shaded(hit.objectColor, hit)
  }
}
