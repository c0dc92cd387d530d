/** The value types the ray tracer works on: three.js vectors and colours
    (as exact reals), rays, materials, scene children, the hit record
    (`CustomIntersection`) and the two settings objects. */
module Types {

  datatype Option<+T> = None | Some(value: T)

  /** A three.js `Vector3`, with real components. */
  datatype Vec3 = Vec3(x: real, y: real, z: real)

  /** A three.js `Color`, with real channels. */
  datatype Color = Color(r: real, g: real, b: real)

  /** Names one colour channel, so that per-channel facts are stated once. */
  datatype Channel = R | G | B

  const Zero: Vec3 := Vec3(0.0, 0.0, 0.0)
  const Black: Color := Color(0.0, 0.0, 0.0)
  const White: Color := Color(1.0, 1.0, 1.0)

  function Add(a: Vec3, b: Vec3): Vec3 { Vec3(a.x + b.x, a.y + b.y, a.z + b.z) }
  function Sub(a: Vec3, b: Vec3): Vec3 { Vec3(a.x - b.x, a.y - b.y, a.z - b.z) }
  function Scale(a: Vec3, k: real): Vec3 { Vec3(a.x * k, a.y * k, a.z * k) }
  function Dot(a: Vec3, b: Vec3): real { a.x * b.x + a.y * b.y + a.z * b.z }

  function Get(c: Color, ch: Channel): real {
    match ch
    case R => c.r
    case G => c.g
    case B => c.b
  }

  function AddColor(a: Color, b: Color): Color { Color(a.r + b.r, a.g + b.g, a.b + b.b) }

  /** `new THREE.Vector3(c.r, c.g, c.b)` and back. */
  function ColorToVec(c: Color): Vec3 { Vec3(c.r, c.g, c.b) }
  function VecToColor(v: Vec3): Color { Color(v.x, v.y, v.z) }

  /** A three.js `Ray`: origin and (not necessarily unit) direction. */
  datatype Ray = Ray(origin: Vec3, direction: Vec3)

  /** The parts of a `MeshPhongMaterial` (with the custom `mirror` flag) that
      the ray tracer reads. */
  datatype Material = Material(color: Color, specular: Color, shininess: real,
                               mirror: bool, reflectivity: real)

  /** The geometry kinds the intersection dispatcher tells apart. */
  datatype Geometry = SphereGeometry(radius: real) | OtherGeometry

  /** A scene mesh. `shape` stands for everything else three.js keeps about
      the object: the geometry's own parameters (box or plane size, sphere
      segments) and its world transform (rotation, scale). The model does not
      interpret it; it only lets the `intersectObject` and `normalMatrix`
      oracles tell apart meshes of the same kind, place and material. */
  datatype Mesh = Mesh(geometry: Geometry, position: Vec3, material: Material, shape: nat)

  datatype PointLight = PointLight(position: Vec3, color: Color, intensity: real)

  /** A direct child of the scene: a mesh or a point light. */
  datatype Child = MeshChild(mesh: Mesh) | LightChild(light: PointLight)

  datatype Scene = Scene(children: seq<Child>)

  /** What `Raycaster.intersectObject(child, false)[0]` reports: its distance,
      its point and the face normal in object space, when the face has one. */
  datatype MeshHit = MeshHit(distance: real, point: Vec3, faceNormal: Option<Vec3>)

  /** The three.js services and floating-point helpers the ray tracer calls
      into, as uninterpreted functions. `blinnPhong` stands for the numeric
      body of `getBlinnPhongColor`, `normalMatrix` for applying the normal
      matrix of a mesh's world transform. */
  datatype Oracles = Oracles(
    intersectObject: (Ray, Mesh) -> Option<MeshHit>,
    intersectSphere: (Ray, Vec3, real) -> Option<Vec3>,
    normalMatrix: (Mesh, Vec3) -> Vec3,
    normalize: Vec3 -> Vec3,
    distanceTo: (Vec3, Vec3) -> real,
    sqrt: real -> real,
    blinnPhong: (Vec3, Vec3, Vec3, Vec3, real, Color, Color) -> Vec3)

  /** A perspective camera: its world position and `Raycaster.setFromCamera`
      for a pointer in normalised device coordinates. */
  datatype Camera = Camera(position: Vec3, setFromCamera: (real, real) -> Ray)

  /** `CustomIntersection`: one candidate hit of a ray. */
  datatype Hit = Hit(distanceFromOrigin: real, objectColor: Color, worldPosition: Vec3,
                     normal: Vec3, specular: Color, shininess: real, isMirror: bool,
                     reflectivity: real)

  /** The placeholder every hit list starts with. A fresh `THREE.Color()` is white. */
  const Dummy: Hit := Hit(-1.0, White, Zero, Zero, White, -1.0, false, 0.0)

  /** `RenderSettings`: the mode flags, the budgets, and the reflection counter
      that the source keeps as mutable state. */
  datatype RenderSettings = RenderSettings(
    basic: bool, correctSphere: bool, phong: bool, allLights: bool,
    shadows: bool, mirrors: bool,
    maxRecursions: nat, subsamples: nat, recursions: nat)

  /** The GUI-facing `Settings`; `maxDepth` and `subsamples` are integer
      sliders (0..10 and 1..4 in the GUI). */
  datatype Settings = Settings(
    maxDepth: nat, subsamples: nat, width: nat, height: nat,
    correctSpheres: bool, phong: bool, alllights: bool, shadows: bool, mirrors: bool)

  /** `defaultRenderSettings`. */
  const DefaultRenderSettings: RenderSettings :=
    RenderSettings(true, false, false, false, false, false, 2, 1, 0)
}
