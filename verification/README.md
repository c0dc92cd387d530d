# A verified model of the TS-RAYTracer render core

TS-RAYTracer is a browser ray tracer built on three.js. For every canvas pixel
it casts a grid of primary rays. Each ray is intersected with the scene's
children, and the nearest hit is shaded with one of three modes: flat object
colour, Blinn-Phong with the first point light, or Blinn-Phong summed over all
point lights. Hard shadows and mirror reflections are optional. The colours of
a pixel's sub-samples are averaged. This project models that control logic in
Dafny and proves what it promises.

Modules and files:

- `types.dfy` (`Types`): vectors, colours, rays, materials, meshes, point
  lights, scene children, the hit record (`CustomIntersection`), the two
  settings records and `defaultRenderSettings`.
- `supersampler.dfy` (`Supersampler`): `getSuperSampleAmount` and
  `avgColors`.
- `sphere_helper.dfy` (`SphereHelper`): `rayToSphere` and
  `getSphereIntersections`.
- `intersection.dfy` (`Intersection`): `getClosestCustomIntersection`,
  `rayToGeometry` and `intersectRay`.
- `shading.dfy` (`Shading`): `getPointLights`, `actualShadow`,
  `PhongOneLight`, `PhongAllLights` and the three-way shading dispatch.
- `reflection.dfy` (`Reflection`): `checkAndGetReflection` and `reflect`.
- `grid.dfy` (`SampleGrid`): the row-major sub-sample grid, generic in the
  cell type.
- `render.dfy` (`Render`): `updateRenderSettings` and `RTRenderPass`.

How the model treats the source:

- **three.js as oracles.** These three.js services are fields of an
  `Oracles` value that every operation receives as a parameter. The model
  assumes nothing about them beyond being functions of their arguments:
  - `Raycaster.intersectObject` and `Ray.intersectSphere`;
  - vector normalisation, `distanceTo`, the normal-matrix transform and
    `Math.sqrt`;
  - the Blinn-Phong colour formula.

  The camera is its position plus the `setFromCamera` map from a pointer to a
  ray. Colours and distances are `real`.
- **Meshes.** A `Mesh` holds its geometry kind, position and material, plus
  an uninterpreted `shape`. The shape stands for what else three.js keeps
  about the object: the geometry's own parameters (box or plane size, sphere
  segments) and its world transform. So the `intersectObject` and
  `normalMatrix` oracles can answer differently for two meshes of the same
  kind, place and material, as they do for a box and a plane
  (`Intersection.ShapeSeparatesMeshes`).
- **Scenes without a point light.** One-light Phong reads
  `getPointLights(scene)[0]` only after a ray has hit something
  (src/helper.ts:324-336). So the render loop demands a point light only of
  sub-samples whose ray hits. `Render.SampleReady`, `PixelReady`,
  `ColumnReady` and `ImageReady` state this for one sub-sample, a pixel, a
  column and the whole canvas: the scene has the light the mode reads, or
  every ray concerned misses. The loops state it for the settings after the
  counter reset, which is the same condition (`PixelReadyIgnoresCounter`).
- **The reflection counter.** `renderSettings.recursions` is shared mutable
  state. The model threads it as a value:
  - each tracing function takes the settings and returns a `Traced` result
    holding the colour and the counter it leaves behind;
  - `Traced` also carries the list of counter values on entry to each
    `reflect` call, so "one increment per call" is a theorem rather than a
    definition;
  - the mutual recursion terminates on the room left below `maxRecursions`.
- **The drifting hit record.** The shadow test makes the shadow-ray origin
  the same vector object as the hit's world position, then adds the 0.01 bias
  to it (src/helper.ts:498-499 and 543-544). So every shadow test moves the
  hit record 0.01 along its normal. Shading in the model returns the moved
  record (`Shading.Shaded`). Later steps use it as the source does: the next
  light's test, the reflection origin, and the all-lights view origin of a
  reflected hit. `Shading.Drift(hit, k)` is the record after k tests.
- **The reflected origin.** `reflect` scales the unit normal in place to
  build the mirror direction. The 0.01 origin offset is then taken along that
  scaled vector, so the origin lies `0.02 (i·n) n` from the hit instead of
  `0.01 n` (src/reflection.ts:14-18). `Reflection.ReflectedRay` models it as
  written.
- **The image.** `RTRenderPass` writes the canvas pixel by pixel. The model's
  pass returns the image as columns: `image[w][h]` is what `setPixel(w, h, …)`
  receives. `Render.Fresh(rs)` is the settings right after the per-sample
  counter reset. Every pixel is a function of `Fresh(rs)` alone, because the
  counter is reset before each primary ray.

## Model

| member | source | states |
|---|---|---|
| Supersampler.GetSuperSampleAmount | src/supersampler.ts:4-6 | The step times the sub-sample count is 1, and a positive count gives a positive step; a count of 0 is excluded. |
| Supersampler.AvgColors | src/supersampler.ts:9-19 | For a non-empty list, each channel of the mean lies between that channel's minimum and maximum over the inputs. |
| Supersampler.AvgColorsIsMean | src/supersampler.ts:10-17 | For each channel, the mean times the number of colours equals that channel's sum over the list. |
| Supersampler.AvgOfCopies | src/supersampler.ts:10-17 | Averaging one or more copies of a colour gives that colour back. |
| Supersampler.AvgWhiteBlack | src/supersampler.ts:10-17 | Averaging white and black gives (0.5, 0.5, 0.5). |
| SphereHelper.RayToSphere | src/sphere_helper.ts:8-45 | Returns true exactly when the child is a sphere mesh and the analytic sphere test finds a point. Then it appends exactly one record: it keeps the earlier entries, is placed at the found point, holds the distance from the ray origin to that point, and copies colour, specular, shininess, mirror flag and reflectivity from the material. Otherwise the list is unchanged. |
| SphereHelper.GetSphereIntersections | src/sphere_helper.ts:48-57 | There are no roots exactly when d² > r². Otherwise the two roots add up to 2·t_ca and differ by 2·√(r² − d²), so they are symmetric about t_ca. The first root is no greater than the second whenever the square root is non-negative. |
| SphereHelper.RootsOnSphere | src/sphere_helper.ts:48-57 | For a unit direction and a square root that squares back, the points at both roots lie at distance `radius` from the centre. |
| Intersection.ClosestIndex | src/helper.ts:223-235 | There is no index exactly when the list has fewer than two entries. Otherwise the index is ≥ 1, no entry from index 1 on is nearer, and every entry before it is strictly farther, so the earliest of equal minima wins. |
| Intersection.GetClosestCustomIntersection | src/helper.ts:223-235 | Returns undefined exactly when the list has fewer than two entries. Otherwise it returns the entry at the index the selection rule picks. |
| Intersection.ClosestIsUnique | src/helper.ts:228-233 | At most one index satisfies the selection rule, so the choice is determined. |
| Intersection.RayToGeometry | src/helper.ts:401-433 | Returns true exactly when the child is a mesh that the mesh test hits. Then it appends exactly one record with the hit's distance and point and the mesh's material; a hit without a face gets the zero normal. Otherwise the list is unchanged, which covers every point light. |
| Intersection.ShapeSeparatesMeshes | src/helper.ts:404-405 | Two meshes of the same kind, place and material but different shape can differ in whether the mesh test hits them: a scene of a hit box and a missed plane yields the placeholder and the box's hit only. |
| Intersection.VisitChildAppendsCandidate | src/helper.ts:382-396 | One traversal step appends exactly the child's candidate. That is the analytic sphere hit when correct spheres are on and the test hits; otherwise it is the mesh hit, if any. |
| Intersection.VisitChild | src/helper.ts:383-395 | One traversal step keeps the hits found so far as a prefix and adds at most one. A light child adds nothing. |
| Intersection.CandidatesBounds | src/helper.ts:382-396 | Each child contributes at most one candidate, and there are no candidates exactly when no child has one. |
| Intersection.Traverse | src/helper.ts:382-396 | The traversal loop appends the children's candidates, in scene order, to the list it starts from. |
| Intersection.IntersectRay | src/helper.ts:368-398 | The hit list is the placeholder of distance −1 followed by the children's candidates. So its length is between 1 and 1 + #children, and it has length 1 exactly when no child is hit. |
| Intersection.Nearest | src/helper.ts:223-235 | For a list with a real hit, the result is an entry the selection rule picks. |
| Shading.PointLightsOf | src/helper.ts:436-443 | The result holds exactly the point lights among the children, and there are no more of them than children. |
| Shading.FirstPointLight | src/helper.ts:436-443 | When the first light child is at index i, the result is non-empty and its first entry is that light, which is the light one-light shading reads. |
| Shading.PointLightsAppend | src/helper.ts:438-441 | The filter distributes over concatenation, so the lights keep scene order. |
| Shading.GetPointLights | src/helper.ts:436-443 | The scene's point lights are exactly its light children, no more of them than the scene has children. |
| Shading.ActualShadow | src/helper.ts:575-581 | An occluder standing at the light's own position never casts a shadow, since the comparison is strict. |
| Shading.ActualShadowBySquaredDistance | src/helper.ts:575-581 | If the distance oracle is Euclidean at those points, an occluder counts exactly when the hit-to-light distance strictly exceeds the hit-to-occluder distance, compared through squared distances. |
| Shading.PhongOneLight | src/helper.ts:482-523 | With shadows on and the light occluded from the moved hit, the colour is black. Otherwise it is the light's Blinn-Phong contribution, seen from the camera and computed from the hit as it was before the move. With shadows on, the hit record comes back moved once. |
| Shading.AccumulateLights | src/helper.ts:526-572 | The hit record comes back moved once per light when shadows are on, and is unmoved otherwise. |
| Shading.PhongAllLights | src/helper.ts:526-572 | All-lights shading starts from black. Without shadows, the colour is the sum of every light's contribution at the unmoved hit record. |
| Shading.AllLightsWithoutShadows | src/helper.ts:529-570 | Without shadows, the all-lights colour is the starting colour plus the sum of every light's contribution, and the hit record does not move. |
| Shading.AllLightsAppend | src/helper.ts:529-570 | Adding a light at the end: if it is shadowed, the colour stays what the earlier lights made (the light is skipped, not turned black). If not, its contribution is added, computed at the hit as the earlier lights' shadow tests left it. |
| Shading.OneLightIsAllLightsOfOne | src/helper.ts:482-572 | All-lights shading of one light seen from the camera equals one-light shading of it, in colour and in the moved record. |
| Shading.ShadeHit | src/helper.ts:332-343 | Without phong, it returns the raw object colour and the hit record unmoved. With phong and not all lights, it uses one-light shading with the first point light. With phong and all lights, it sums over all lights from the given view origin. The hit record moves once per shadow test. |
| Reflection.LerpEnds | src/reflection.ts:58 | Reflectivity 0 gives the local colour, and reflectivity 1 gives the reflected colour. |
| Reflection.LerpBetween | src/reflection.ts:58 | For a reflectivity in [0, 1], each channel of the blend lies between the two colours' channels. |
| Reflection.Lerp | src/reflection.ts:58 | Blending with weight 0 keeps the first colour, and weight 1 gives the second. |
| Reflection.ReflectedRayShape | src/reflection.ts:9-18 | The reflected direction is i − 2(i·n)n. The origin lies 0.02(i·n)n from the hit, which points into the surface when the ray arrives against the normal. |
| Reflection.ReflectedRay | src/reflection.ts:9-18 | For a unit normal, the reflected direction has the incident direction's component along the normal with its sign flipped. |
| Reflection.CheckAndGetReflection | src/reflection.ts:51-61 | A non-mirror surface, or a counter at or above `maxRecursions`, keeps the colour and the counter. Otherwise the result is the lerp of the local colour and `reflect`'s colour by the reflectivity, with at least one bounce. The counter grows by exactly the number of `reflect` calls, with consecutive values, and never passes `maxRecursions` unless it started above it. |
| Reflection.Reflect | src/reflection.ts:7-47 | Each call adds one to the counter before any nested call, and the chain's entry values are consecutive. A reflected ray that hits nothing gives black after exactly one increment. Without mirrors there is no nested reflection. The counter ends at most at max(start + 1, `maxRecursions`). |
| Reflection.ReflectAlong | src/reflection.ts:21-47 | The same counter facts for the trace of a given reflected ray: one increment per call, consecutive entry values, black after one increment on a miss, no nested reflection without mirrors. |
| Reflection.ReflectedHitColor | src/reflection.ts:24-43 | On a reflected hit, the nearest hit is shaded with the counter already raised. All-lights shading uses the mirror point as view origin, and one-light shading uses the camera. With mirrors on, the shaded hit then goes through the reflection gate along the reflected direction; without mirrors, the shaded colour is returned. |
| Reflection.ReflectAlongColor | src/reflection.ts:24-43 | The same colour statement for the trace of a given reflected ray. |
| Reflection.ReflectionChainBounded | src/reflection.ts:54 | After a reset to 0, a reflection chain makes at most `maxRecursions` `reflect` calls. |
| SampleGrid.RowsOrder | src/helper.ts:312-348 | Filling s cells for each of n rows, in loop order, puts cell (y, x) at position y·s + x, inside the list. |
| Render.UpdateRenderSettings | src/helper.ts:276-293 | `basic` is true exactly when all five feature flags are off. The flags, the depth slider and the sub-sample slider are copied, and the counter is reset to 0. |
| Render.UpdateForgetsPrevious | src/helper.ts:276-293 | The update does not depend on the previous render settings, and applying it twice changes nothing. |
| Render.DefaultsFromPlainGui | src/helper.ts:262-293 | A GUI with every feature off, depth 2 and one sub-sample reproduces `defaultRenderSettings`. |
| Render.NdcX | src/helper.ts:319 | The pointer x of sub-sample x of column w is the centre of cell w·s + x of a grid of width·s cells, mapped to [−1, 1]. For w < width and x < s it lies strictly inside (−1, 1). |
| Render.NdcY | src/helper.ts:320 | The pointer y is the same grid as x, flipped, so row 0 is at the top. |
| Render.SingleSampleAtCentre | src/helper.ts:319-320 | With one sample per pixel, pointer x is the centre of the pixel column and pointer y is the centre of the pixel row, counted from the top. |
| Render.TracePrimary | src/helper.ts:323-348 | A ray that hits nothing gives black and leaves the counter alone, whether or not the scene has a point light. Otherwise the nearest hit is shaded with the dispatch and the camera as all-lights view origin; with mirrors on, the shaded hit then goes through the reflection gate along the primary ray's direction, and without mirrors the shaded colour is the result. The counter grows by exactly the number of `reflect` calls and stays within `maxRecursions`. Without mirrors there are no bounces, and flat shading gives the nearest hit's object colour. |
| Render.SampleMissesIffNoHit | src/helper.ts:322-326 | A sub-sample misses, in the sense the readiness predicates use, exactly when its ray's hit list holds only the placeholder. |
| Render.EmptySceneRenders | src/helper.ts:322-336 | An empty scene has no point light, yet every mode can render it: each ray misses and the light is never read. |
| Render.PixelReadyIgnoresCounter | src/helper.ts:316-336 | Whether a pixel can be traced does not depend on the reflection counter. |
| Render.SampleAt | src/helper.ts:315-348 | A sample whose ray misses needs no point light. After the per-sample reset, the counter counts the sample's `reflect` calls, numbered from 0, and never exceeds `maxRecursions`. |
| Render.PixelSamples | src/helper.ts:309-351 | A pixel collects exactly s·s colours, at least one. |
| Render.PixelSampleOrder | src/helper.ts:312-348 | Sub-sample (y, x) is found at position y·s + x of the pixel's colours. |
| Render.PixelSamplesIgnoreCounter | src/helper.ts:316 | A pixel's colours do not depend on the counter value the previous pixel left behind. |
| Render.SampleRow | src/helper.ts:313-350 | The inner loop collects one colour per sub-sample of row y, left to right. No setting changes except the counter, which ends at most at `maxRecursions`. |
| Render.SampleColors | src/helper.ts:309-351 | The two sub-pixel loops collect exactly the pixel's s·s sample colours in row-major order. No setting changes except the counter, which stays within `maxRecursions`. |
| Render.RenderColumn | src/helper.ts:307-353 | Column w has `height` pixels. Pixel h is the average of its samples with opacity 1. |
| Render.RenderPass | src/helper.ts:295-357 | The pass asks for the point light of one-light Phong only when some sample ray hits. The image has `width` columns of `height` pixels. Pixel (w, h) is the average of its s·s sample colours with opacity 1. No setting changes except the counter. |
| Render.MissedPixelIsBlack | src/helper.ts:324-352 | A pixel none of whose sample rays hits anything is black, even in a scene without a point light. |

## Left out

- src/main.ts, which handles application and window setup, clearing the canvas, PNG export and the dimension callbacks. It is user-interface and I/O plumbing.
- `createGUI`, `setupGeometry`, `setupLight`, `setupCamera`, `setupControls` and `_isitdoingsomething` in src/helper.ts. They build the scene or report progress.
- The console logging and timing in `RTRenderPass`. They are output only and do not affect the image.
- three.js internals: `Raycaster.intersectObject`, `Ray.intersectSphere`, `setFromCamera`, the normal-matrix transform, vector normalisation, `distanceTo` and `Math.sqrt`. They are uninterpreted fields of `Oracles`, and their geometry is not modelled.
- The numeric body of `getBlinnPhongColor` (src/helper.ts:445-480). It is the `blinnPhong` oracle, because it is floating-point lighting arithmetic.
- IEEE-754 doubles. Colours, distances, means, lerps and pointer coordinates are exact reals, so rounding in JavaScript may differ.
- The canvas object. `setPixel` is modelled by the image the pass returns.
- Shading.ShadeHit: `LightsReady` requires a point light when one-light Phong is selected. The source indexes `getPointLights(scene)[0]` and would throw on a scene without lights.
- Render.TracePrimary: a ray that hits something in one-light Phong mode requires a point light, and so do the render loops through `SampleReady`, `PixelReady`, `ColumnReady` and `ImageReady`. The source would throw there; a lightless scene whose rays all miss is modelled and renders black.
- Supersampler.AvgColors: requires a non-empty list. The source would divide by zero and produce NaN channels.
- Render.RenderPass: requires at least one sub-sample per axis. With none, the source averages an empty list.
- Supersampler.GetSuperSampleAmount: requires a non-zero count. JavaScript would return Infinity for 0.
- The `closest_point != undefined` and `reflectedIntersection != undefined` guards (src/helper.ts:332, src/reflection.ts:28). Both are reached only with at least two entries, so their false branches cannot happen, and the model omits them.
- Reflection.ReflectedRayShape: the into-the-surface clause assumes the normalised normal has a positive squared length. It does not derive that from a non-zero normal, because normalisation is an oracle.
- Shading.ActualShadowBySquaredDistance: relates the shadow test to squared distances only where the distance oracle is Euclidean. `actualShadow` itself is modelled exactly as the comparison of the two oracle distances.
