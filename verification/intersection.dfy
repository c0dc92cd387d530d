/** The intersection dispatcher of src/helper.ts: `intersectRay`,
    `rayToGeometry` and `getClosestCustomIntersection`. A hit list always
    starts with the placeholder `Dummy`; real candidates follow it. */
module Intersection {
  import opened Types
  import opened SphereHelper

  // ---------------------------------------------------------------------
  // Nearest-hit selection
  // ---------------------------------------------------------------------

  /** Entry k is the nearest real candidate: it is at index 1 or later, no
      entry from index 1 on is nearer, and every entry before it is strictly
      farther (so among equal minima the earliest is chosen). */
  ghost predicate IsClosest(hits: seq<Hit>, k: nat) {
    && 1 <= k < |hits|
    && (forall j :: 1 <= j < |hits| ==> hits[k].distanceFromOrigin <= hits[j].distanceFromOrigin)
    && (forall j :: 1 <= j < k ==> hits[k].distanceFromOrigin < hits[j].distanceFromOrigin)
  }

  /** The scan of `getClosestCustomIntersection` from index i on, with `best`
      the index of the current closest point; it replaces `best` only on a
      strictly smaller distance. */
  function ScanClosest(hits: seq<Hit>, i: nat, best: nat): (k: nat)
    requires 1 <= best < |hits| && 1 <= i <= |hits| && best <= i
    requires forall j :: 1 <= j < i ==> hits[best].distanceFromOrigin <= hits[j].distanceFromOrigin
    requires forall j :: 1 <= j < best ==> hits[best].distanceFromOrigin < hits[j].distanceFromOrigin
    ensures IsClosest(hits, k)
    decreases |hits| - i
  {
    if i == |hits| then best
    else if hits[i].distanceFromOrigin < hits[best].distanceFromOrigin then ScanClosest(hits, i + 1, i)
    else ScanClosest(hits, i + 1, best)
  }

  /** The index `getClosestCustomIntersection` picks: none when the list has
      no entry after the placeholder, otherwise the nearest entry from
      index 1 on, the earliest among equal distances. */
  function ClosestIndex(hits: seq<Hit>): (r: Option<nat>)
    ensures r.None? <==> |hits| < 2
    ensures r.Some? ==> IsClosest(hits, r.value)
  {
    if |hits| < 2 then None else Some(ScanClosest(hits, 1, 1))
  }

  /** `getClosestCustomIntersection`: the entry at `ClosestIndex`, or
      `undefined` (None) for a list holding only the placeholder. */
  function GetClosestCustomIntersection(hits: seq<Hit>): (r: Option<Hit>)
    ensures r.None? <==> |hits| < 2
    ensures r.Some? ==> exists k: nat :: IsClosest(hits, k) && r.value == hits[k]
  {
    match ClosestIndex(hits)
    case None => None
    case Some(k) => Some(hits[k])
  }

  /** The selection rule admits exactly one index, so `ClosestIndex` is
      determined by it. */
  lemma ClosestIsUnique(hits: seq<Hit>, k1: nat, k2: nat)
    requires IsClosest(hits, k1) && IsClosest(hits, k2)
    ensures k1 == k2
  {
    assert hits[k1].distanceFromOrigin == hits[k2].distanceFromOrigin;
  }

  // ---------------------------------------------------------------------
  // Per-child tests
  // ---------------------------------------------------------------------

  /** The record `rayToGeometry` pushes for a mesh hit: the face normal is
      taken to world space by the normal matrix and normalised; a hit
      without a face keeps the zero vector. */
  function MeshRecord(o: Oracles, m: Mesh, mh: MeshHit): Hit {
    var normal := match mh.faceNormal
                  case None => Zero
                  case Some(n) => o.normalize(o.normalMatrix(m, n));
    var material := m.material;
    Hit(mh.distance, material.color, mh.point, normal, material.specular,
        material.shininess, material.mirror, material.reflectivity)
  }

  /** `rayToGeometry`: the generic mesh test (`Raycaster.intersectObject`,
      non-recursive). A point light has no geometry and is never hit. It
      reports true exactly when the mesh test reports a hit, and then it has
      appended one record; otherwise the list is unchanged. */
  function RayToGeometry(o: Oracles, ray: Ray, child: Child, hits: seq<Hit>): (r: (bool, seq<Hit>))
    ensures r.0 <==> child.MeshChild? && o.intersectObject(ray, child.mesh).Some?
    ensures !r.0 ==> r.1 == hits
    ensures r.0 ==> |r.1| == |hits| + 1 && r.1[..|hits|] == hits
    ensures r.0 ==>
              var mh := o.intersectObject(ray, child.mesh).value;
              && CopiesMaterial(r.1[|hits|], child.mesh.material)
              && r.1[|hits|].distanceFromOrigin == mh.distance
              && r.1[|hits|].worldPosition == mh.point
              && (mh.faceNormal.None? ==> r.1[|hits|].normal == Zero)
  {
    match child
    case LightChild(_) => (false, hits)
    case MeshChild(m) =>
      match o.intersectObject(ray, m)
      case None => (false, hits)
      case Some(mh) => (true, hits + [MeshRecord(o, m, mh)])
  }

  /** One iteration of the traversal in `intersectRay`: with correct spheres
      on, the analytic test first and the mesh test when it reports false;
      otherwise the mesh test only. */
  function VisitChild(o: Oracles, ray: Ray, child: Child, correctSphere: bool, hits: seq<Hit>): (after: seq<Hit>)
    ensures |hits| <= |after| <= |hits| + 1
    ensures after[..|hits|] == hits
    ensures child.LightChild? ==> after == hits
  {
    if correctSphere then
      var sphere := RayToSphere(o, ray, child, hits);
      if sphere.0 then sphere.1 else RayToGeometry(o, ray, child, hits).1
    else
      RayToGeometry(o, ray, child, hits).1
  }

  /** Reference definition of what one child contributes: the analytic hit
      when correct spheres are on and the child is a sphere the analytic
      test hits, else the mesh hit, if any. */
  function ChildCandidate(o: Oracles, ray: Ray, child: Child, correctSphere: bool): Option<Hit> {
    match child
    case LightChild(_) => None
    case MeshChild(m) =>
      var analytic := if correctSphere && m.geometry.SphereGeometry?
                      then o.intersectSphere(ray, m.position, m.geometry.radius) else None;
      if analytic.Some? then Some(SphereRecord(o, ray, m, analytic.value))
      else match o.intersectObject(ray, m)
           case None => None
           case Some(mh) => Some(MeshRecord(o, m, mh))
  }

  function OptionToSeq<T>(opt: Option<T>): seq<T> {
    match opt
    case None => []
    case Some(v) => [v]
  }

  /** The push-style iteration appends exactly the child's candidate. */
  lemma VisitChildAppendsCandidate(o: Oracles, ray: Ray, child: Child, correctSphere: bool, hits: seq<Hit>)
    ensures VisitChild(o, ray, child, correctSphere, hits)
            == hits + OptionToSeq(ChildCandidate(o, ray, child, correctSphere))
  {
  }

  /** The candidates of the children, in scene order. */
  function Candidates(o: Oracles, ray: Ray, children: seq<Child>, correctSphere: bool): seq<Hit>
    decreases |children|
  {
    if |children| == 0 then []
    else OptionToSeq(ChildCandidate(o, ray, children[0], correctSphere))
         + Candidates(o, ray, children[1..], correctSphere)
  }

  /** Every child contributes at most one candidate, and there are none
      exactly when no child is hit. */
  lemma {:induction false} CandidatesBounds(o: Oracles, ray: Ray, children: seq<Child>, correctSphere: bool)
    ensures |Candidates(o, ray, children, correctSphere)| <= |children|
    ensures |Candidates(o, ray, children, correctSphere)| == 0
            <==> forall i :: 0 <= i < |children| ==> ChildCandidate(o, ray, children[i], correctSphere).None?
    decreases |children|
  {
    if |children| > 0 {
      CandidatesBounds(o, ray, children[1..], correctSphere);
      forall i | 1 <= i < |children|
        ensures children[i] == children[1..][i - 1]
      {
      }
    }
  }

  /** The traversal loop of `intersectRay` from the given list on. */
  function Traverse(o: Oracles, ray: Ray, children: seq<Child>, correctSphere: bool, hits: seq<Hit>)
    : (r: seq<Hit>)
    ensures r == hits + Candidates(o, ray, children, correctSphere)
    decreases |children|
  {
    if |children| == 0 then hits
    else
      var next := VisitChild(o, ray, children[0], correctSphere, hits);
      var first := OptionToSeq(ChildCandidate(o, ray, children[0], correctSphere));
      VisitChildAppendsCandidate(o, ray, children[0], correctSphere, hits);
      assert next == hits + first;
      var rest := Candidates(o, ray, children[1..], correctSphere);
      assert Candidates(o, ray, children, correctSphere) == first + rest;
      assert (hits + first) + rest == hits + (first + rest);
      Traverse(o, ray, children[1..], correctSphere, next)
  }

  /** `intersectRay`: the placeholder followed by the candidates of the
      scene's children in order. The list is never empty, has at most one
      entry per child after the placeholder, and has length 1 exactly when
      no child is hit. */
  function IntersectRay(o: Oracles, ray: Ray, scene: Scene, rs: RenderSettings): (hits: seq<Hit>)
    ensures hits == [Dummy] + Candidates(o, ray, scene.children, rs.correctSphere)
    ensures 1 <= |hits| <= 1 + |scene.children| && hits[0] == Dummy
    ensures |hits| == 1 <==>
              forall i :: 0 <= i < |scene.children| ==> ChildCandidate(o, ray, scene.children[i], rs.correctSphere).None?
  {
    CandidatesBounds(o, ray, scene.children, rs.correctSphere);
    Traverse(o, ray, scene.children, rs.correctSphere, [Dummy])
  }

  /** Meshes of one kind, place and material can still differ in whether a
      ray hits them, as a box and a plane at the same spot do: a ray that the
      mesh test sends through the first and past the second collects exactly
      one candidate. */
  lemma ShapeSeparatesMeshes(o: Oracles, ray: Ray, p: Vec3, mat: Material, rs: RenderSettings, mh: MeshHit)
    requires o.intersectObject(ray, Mesh(OtherGeometry, p, mat, 0)) == Some(mh)
    requires o.intersectObject(ray, Mesh(OtherGeometry, p, mat, 1)) == None
    ensures var box := Mesh(OtherGeometry, p, mat, 0);
            var plane := Mesh(OtherGeometry, p, mat, 1);
            IntersectRay(o, ray, Scene([MeshChild(box), MeshChild(plane)]), rs)
              == [Dummy, MeshRecord(o, box, mh)]
  {
    var box := Mesh(OtherGeometry, p, mat, 0);
    var plane := Mesh(OtherGeometry, p, mat, 1);
    var children := [MeshChild(box), MeshChild(plane)];
    var c := rs.correctSphere;
    assert ChildCandidate(o, ray, children[0], c) == Some(MeshRecord(o, box, mh));
    assert ChildCandidate(o, ray, children[1], c) == None;
    assert children[1..][1..] == [];
    assert Candidates(o, ray, children[1..], c) == [];
    assert Candidates(o, ray, children, c) == [MeshRecord(o, box, mh)];
  }

  /** The nearest hit of a non-trivial hit list. */
  function Nearest(hits: seq<Hit>): (h: Hit)
    requires |hits| > 1
    ensures exists k: nat :: IsClosest(hits, k) && h == hits[k]
  {
    hits[ClosestIndex(hits).value]
  }
}
